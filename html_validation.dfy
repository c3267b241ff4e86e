/** The HTML results panel (src/components/web/HTMLValidation.tsx): the run
    that collects one validator answer per URL, and the decisions that turn an
    answer into badges, message styles and the "No errors found" line. */
module HtmlValidation {
  import opened Types
  import opened Counting
  import opened Fetching

  /** The proxy path the panel requests. */
  const Endpoint := "/api/validate-html"

  /** The panel pushes each parsed body as it is. */
  function AsIs(url: string, data: HtmlResponse): HtmlResponse {
    data
  }

  /** The component's three pieces of state. */
  class HtmlValidationPanel {
    var isLoading: bool
    var results: seq<HtmlResponse>
    var error: Option<string>

    constructor ()
      ensures !isLoading && results == [] && error == None
    {
      isLoading, results, error := false, [], None;
    }

    /** The effect and its `validateUrls`: nothing happens for an empty list;
        otherwise the old results and error are cleared, the URLs are requested
        one after another, and the run ends either with every answer, in URL
        order, or with no results and the description of what was thrown. */
    method ValidateUrls(urls: seq<string>, encode: string -> string, fetch: string -> Fetch<HtmlResponse>)
      modifies this
      ensures urls == [] ==> isLoading == old(isLoading) && results == old(results) && error == old(error)
      ensures urls != [] ==> !isLoading
      ensures urls != [] ==>
        match Collect(urls, Client(Endpoint, encode, fetch), AsIs)
        case Collected(entries) => results == entries && error == None
        case Aborted(thrown) => results == [] && error == Some(Describe(thrown))
    {
      if |urls| == 0 {
        return;
      }
      isLoading := true;
      results := [];
      error := None;
      var client := Client(Endpoint, encode, fetch);
      var validationResults: seq<HtmlResponse> := [];
      var failure: Option<Thrown> := None;
      var i := 0;
      while i < |urls|
        invariant 0 <= i <= |urls| && |validationResults| == i
        invariant forall j :: 0 <= j < i ==>
          client.Get(urls[j]).Fetched? && validationResults[j] == client.Get(urls[j]).data
        invariant isLoading && results == [] && error == None && failure == None
      {
        match client.Get(urls[i]) {
          case Failed(e) =>
            failure := Some(e);
            break;
          case Fetched(data) =>
            validationResults := validationResults + [data];
        }
        i := i + 1;
      }
      if failure.None? {
        CollectAll(urls, client, AsIs);
        results := validationResults;
      } else {
        CollectAbortsAt(urls, client, AsIs, i);
        error := Some(Describe(failure.value));
      }
      isLoading := false;
    }
  }

  /** The class name a message row gets. */
  datatype MessageStyle = ErrorStyle | InfoStyle | MutedStyle

  /** The icon in front of a message's type. */
  datatype Icon = XCircleIcon | InfoIcon

  /** Error-like types get the error style and `info` the info style; the
      muted style is the fallback for any other type, which the closed type
      rules out. */
  function StyleOf(t: MessageType): (s: MessageStyle)
    ensures s == ErrorStyle <==> IsErrorLike(t)
    ensures s == InfoStyle <==> t == Info
    ensures s != MutedStyle
  {
    if t == Error || t == NonDocumentError then ErrorStyle
    else if t == Info then InfoStyle
    else MutedStyle
  }

  /** The error icon goes with the error style; every other type gets the info icon. */
  function IconOf(t: MessageType): (i: Icon)
    ensures i == XCircleIcon <==> StyleOf(t) == ErrorStyle
    ensures i == InfoIcon <==> StyleOf(t) != ErrorStyle
  {
    if t == Error || t == NonDocumentError then XCircleIcon else InfoIcon
  }

  /** The styles of the message rows, in display order. */
  function Styles(messages: seq<HtmlMessage>): seq<MessageStyle> {
    seq(|messages|, i requires 0 <= i < |messages| => StyleOf(messages[i].kind))
  }

  /** The icons of the message rows, in display order. */
  function Icons(messages: seq<HtmlMessage>): seq<Icon> {
    seq(|messages|, i requires 0 <= i < |messages| => IconOf(messages[i].kind))
  }

  /** The row styles agree with the counting helper: as many error-styled rows
      as counted errors, as many info-styled rows as counted infos. */
  lemma {:induction false} StylesAgreeWithCounts(messages: seq<HtmlMessage>)
    ensures multiset(Styles(messages))[ErrorStyle] == Tally(messages).errors
    ensures multiset(Styles(messages))[InfoStyle] == Tally(messages).infos
  {
    if messages != [] {
      var init, last := messages[..|messages| - 1], messages[|messages| - 1];
      StylesAgreeWithCounts(init);
      assert Styles(messages) == Styles(init) + [StyleOf(last.kind)];
    }
  }

  /** The row icons agree with the counting helper: as many error icons as
      counted errors. */
  lemma {:induction false} IconsAgreeWithCounts(messages: seq<HtmlMessage>)
    ensures multiset(Icons(messages))[XCircleIcon] == Tally(messages).errors
  {
    if messages != [] {
      var init, last := messages[..|messages| - 1], messages[|messages| - 1];
      IconsAgreeWithCounts(init);
      assert Icons(messages) == Icons(init) + [IconOf(last.kind)];
    }
  }

  /** The two count badges in a result's header; `None` is a badge not shown. */
  datatype Badges = Badges(errors: Option<nat>, infos: Option<nat>)

  /** A badge appears when its count is positive, and shows that count. */
  function BadgesOf(result: HtmlResponse): (b: Badges)
    ensures b.errors.Some? <==> exists i :: 0 <= i < |result.messages| && IsErrorLike(result.messages[i].kind)
    ensures b.infos.Some? <==> exists i :: 0 <= i < |result.messages| && result.messages[i].kind == Info
    ensures b.errors.Some? ==> b.errors.value == Tally(result.messages).errors
    ensures b.infos.Some? ==> b.infos.value == Tally(result.messages).infos
  {
    var counts := Tally(result.messages);
    ErrorsPositive(result.messages);
    InfosPositive(result.messages);
    Badges(if counts.errors > 0 then Some(counts.errors) else None,
           if counts.infos > 0 then Some(counts.infos) else None)
  }

  /** "No errors found" replaces the message rows exactly when there are no
      messages, which is exactly when neither badge is shown. */
  function ShowsNoErrorsFound(result: HtmlResponse): (shown: bool)
    ensures shown <==> Tally(result.messages) == Counts(0, 0)
    ensures shown <==> BadgesOf(result) == Badges(None, None)
  {
    !(|result.messages| > 0)
  }
}
