/** The request side both result panels share: one GET per URL against the
    proxy, awaited in turn (src/components/web/HTMLValidation.tsx and
    src/components/web/CSSValidation.tsx). The network, the browser's `fetch`,
    `res.json()` and `encodeURIComponent` are parameters. */
module Fetching {

  /** What a `catch` block receives: an `Error` instance carrying a message,
      or any other thrown value. */
  datatype Thrown = ErrorInstance(message: string) | OtherValue

  const UnknownError := "An unknown error occurred"

  /** The text a panel shows for a caught value. */
  function Describe(e: Thrown): (text: string)
    ensures e.ErrorInstance? ==> text == e.message
    ensures e.OtherValue? ==> text == UnknownError
  {
    if e.ErrorInstance? then e.message else UnknownError
  }

  /** The outcome of `await fetch(path)` followed by `await res.json()`: the
      parsed body, or the value that either step threw. */
  datatype Fetch<D> = Fetched(data: D) | Failed(thrown: Thrown)

  /** A proxy endpoint seen from the browser. */
  datatype Client<D> = Client(endpoint: string, encode: string -> string, fetch: string -> Fetch<D>) {
    /** The request path for one URL: the endpoint with `?url=` and the encoded URL. */
    function RequestPath(url: string): (path: string)
      ensures |path| == |endpoint| + 5 + |encode(url)|
      ensures path[..|endpoint|] == endpoint && path[|endpoint|..|endpoint| + 5] == "?url="
      ensures path[|endpoint| + 5..] == encode(url)
    {
      endpoint + "?url=" + encode(url)
    }

    function Get(url: string): Fetch<D> {
      fetch(RequestPath(url))
    }

    predicate FetchesAll(urls: seq<string>) {
      forall i :: 0 <= i < |urls| ==> Get(urls[i]).Fetched?
    }
  }

  /** The end of a run of the loop: every entry, or what stopped it. */
  datatype Outcome<R> = Collected(entries: seq<R>) | Aborted(thrown: Thrown)

  /** The loop of the panels, as a specification: the URLs are requested in
      order, each parsed body becomes one entry, and the first failure ends the
      run (the `await` throws, so the loop stops and later URLs are never
      requested). */
  function Collect<D, R>(urls: seq<string>, client: Client<D>, entry: (string, D) -> R): (o: Outcome<R>)
    ensures o.Collected? ==> |o.entries| == |urls|
  {
    if urls == [] then Collected([])
    else match client.Get(urls[0])
      case Failed(e) => Aborted(e)
      case Fetched(d) =>
        match Collect(urls[1..], client, entry)
        case Aborted(e) => Aborted(e)
        case Collected(rest) => Collected([entry(urls[0], d)] + rest)
  }

  /** When every request succeeds, the run collects one entry per URL, the
      i-th made from the i-th URL and its body. */
  lemma {:induction false} CollectAll<D, R>(urls: seq<string>, client: Client<D>, entry: (string, D) -> R)
    requires client.FetchesAll(urls)
    ensures Collect(urls, client, entry).Collected?
    ensures forall i :: 0 <= i < |urls| ==>
      Collect(urls, client, entry).entries[i] == entry(urls[i], client.Get(urls[i]).data)
  {
    if urls != [] {
      assert client.Get(urls[0]).Fetched?;
      var tail := urls[1..];
      assert forall i :: 0 <= i < |tail| ==> tail[i] == urls[i + 1];
      CollectAll(tail, client, entry);
    }
  }

  /** When the request for URL k is the first to fail, the run ends with what
      that request threw. */
  lemma {:induction false} CollectAbortsAt<D, R>(urls: seq<string>, client: Client<D>, entry: (string, D) -> R, k: nat)
    requires k < |urls|
    requires forall j :: 0 <= j < k ==> client.Get(urls[j]).Fetched?
    requires client.Get(urls[k]).Failed?
    ensures Collect(urls, client, entry) == Aborted(client.Get(urls[k]).thrown)
  {
    if k > 0 {
      assert client.Get(urls[0]).Fetched?;
      var tail := urls[1..];
      assert forall j :: 0 <= j < k - 1 ==> tail[j] == urls[j + 1];
      assert tail[k - 1] == urls[k];
      CollectAbortsAt(tail, client, entry, k - 1);
    }
  }

  /** The run is complete exactly when every request succeeds. */
  lemma {:induction false} CollectedIffFetchesAll<D, R>(urls: seq<string>, client: Client<D>, entry: (string, D) -> R)
    ensures Collect(urls, client, entry).Collected? <==> client.FetchesAll(urls)
  {
    if urls != [] && client.Get(urls[0]).Fetched? {
      var tail := urls[1..];
      assert forall i :: 0 <= i < |tail| ==> tail[i] == urls[i + 1];
      CollectedIffFetchesAll(tail, client, entry);
      if !client.FetchesAll(urls) {
        var k :| 0 <= k < |urls| && client.Get(urls[k]).Failed?;
        assert client.Get(tail[k - 1]).Failed?;
      }
    }
  }
}
