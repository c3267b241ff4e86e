/** The CSS results panel (src/components/web/CSSValidation.tsx): the run that
    collects one answer per URL, merged with its URL, and the decisions that
    turn an answer into badges, issue rows and the "No errors found" line. */
module CssValidation {
  import opened Types
  import opened Fetching

  /** The proxy path the panel requests. */
  const Endpoint := "/api/validate-css"

  /** A parsed CSS answer as it arrives; it may or may not carry its own `url`. */
  datatype CssBody = CssBody(url: Option<string>, result: CssSummary, errors: seq<CssIssue>, warnings: seq<CssIssue>)

  /** The entry `{ url, ...data }`: the spread is written last, so a `url` in
      the body overrides the requested URL; every other field is the body's. */
  function Merge(url: string, data: CssBody): (r: CssResponse)
    ensures data.url.None? ==> r.url == url
    ensures data.url.Some? ==> r.url == data.url.value
    ensures r.result == data.result && r.errors == data.errors && r.warnings == data.warnings
  {
    match data.url
    case None => CssResponse(url, data.result, data.errors, data.warnings)
    case Some(own) => CssResponse(own, data.result, data.errors, data.warnings)
  }

  /** The component's three pieces of state. */
  class CssValidationPanel {
    var isLoading: bool
    var results: seq<CssResponse>
    var error: Option<string>

    constructor ()
      ensures !isLoading && results == [] && error == None
    {
      isLoading, results, error := false, [], None;
    }

    /** The effect and its `validateCss`: nothing happens for an empty list;
        otherwise the error is cleared (the results are not), the URLs are
        requested one after another, and the run ends either with every merged
        entry, in URL order, or with the previous results kept and the
        description of what was thrown. */
    method ValidateCss(urls: seq<string>, encode: string -> string, fetch: string -> Fetch<CssBody>)
      modifies this
      ensures urls == [] ==> isLoading == old(isLoading) && results == old(results) && error == old(error)
      ensures urls != [] ==> !isLoading
      ensures urls != [] ==>
        match Collect(urls, Client(Endpoint, encode, fetch), Merge)
        case Collected(entries) => results == entries && error == None
        case Aborted(thrown) => results == old(results) && error == Some(Describe(thrown))
    {
      if |urls| == 0 {
        return;
      }
      isLoading := true;
      error := None;
      var client := Client(Endpoint, encode, fetch);
      var validationResults: seq<CssResponse> := [];
      var failure: Option<Thrown> := None;
      var i := 0;
      while i < |urls|
        invariant 0 <= i <= |urls| && |validationResults| == i
        invariant forall j :: 0 <= j < i ==>
          client.Get(urls[j]).Fetched? && validationResults[j] == Merge(urls[j], client.Get(urls[j]).data)
        invariant isLoading && results == old(results) && error == None && failure == None
      {
        match client.Get(urls[i]) {
          case Failed(e) =>
            failure := Some(e);
            break;
          case Fetched(data) =>
            validationResults := validationResults + [Merge(urls[i], data)];
        }
        i := i + 1;
      }
      if failure.None? {
        CollectAll(urls, client, Merge);
        results := validationResults;
      } else {
        CollectAbortsAt(urls, client, Merge, i);
        error := Some(Describe(failure.value));
      }
      isLoading := false;
    }
  }

  /** After a complete run, entry i belongs to URL i unless its body names a URL. */
  lemma CollectedEntryUrls(urls: seq<string>, client: Client<CssBody>)
    requires client.FetchesAll(urls)
    ensures Collect(urls, client, Merge).Collected?
    ensures forall i :: 0 <= i < |urls| ==>
      var entry, body := Collect(urls, client, Merge).entries[i], client.Get(urls[i]).data;
      entry.url == (if body.url.Some? then body.url.value else urls[i]) && entry.result == body.result
  {
  }

  /** The two badges in a result's header; `None` is a badge not shown. */
  datatype Badges = Badges(errors: Option<int>, warnings: Option<int>)

  /** The badges follow the reported totals, not the lists. */
  function BadgesOf(result: CssResponse): (b: Badges)
    ensures b.errors.Some? <==> result.result.errorcount > 0
    ensures b.warnings.Some? <==> result.result.warningcount > 0
    ensures b.errors.Some? ==> b.errors.value == result.result.errorcount
    ensures b.warnings.Some? ==> b.warnings.value == result.result.warningcount
  {
    var summary := result.result;
    Badges(if summary.errorcount > 0 then Some(summary.errorcount) else None,
           if summary.warningcount > 0 then Some(summary.warningcount) else None)
  }

  /** Two answers with the same totals show the same badges, whatever their lists hold. */
  lemma BadgesIgnoreLists(a: CssResponse, b: CssResponse)
    requires a.result == b.result
    ensures BadgesOf(a) == BadgesOf(b)
  {
  }

  /** One row of an expanded result. */
  datatype IssueRow = ErrorRow(issue: CssIssue) | WarningRow(issue: CssIssue)

  /** The rows of an expanded result: every error, then every warning, each
      group in the order received. */
  function IssueRows(result: CssResponse): (rows: seq<IssueRow>)
    ensures |rows| == |result.errors| + |result.warnings|
    ensures forall i :: 0 <= i < |result.errors| ==> rows[i] == ErrorRow(result.errors[i])
    ensures forall j :: 0 <= j < |result.warnings| ==> rows[|result.errors| + j] == WarningRow(result.warnings[j])
    ensures forall i, j :: 0 <= i < j < |rows| && rows[j].ErrorRow? ==> rows[i].ErrorRow?
  {
    seq(|result.errors|, i requires 0 <= i < |result.errors| => ErrorRow(result.errors[i]))
    + seq(|result.warnings|, j requires 0 <= j < |result.warnings| => WarningRow(result.warnings[j]))
  }

  /** "No errors found" is shown exactly when there is no row to show. */
  function ShowsNoErrorsFound(result: CssResponse): (shown: bool)
    ensures shown <==> IssueRows(result) == []
  {
    |result.errors| == 0 && |result.warnings| == 0
  }

  /** The totals and the lists are independent: an answer that reports errors
      but lists none shows an error badge and "No errors found" together. */
  lemma BadgeBesideNoErrorsFound(r: CssResponse)
    requires r.result.errorcount > 0 && r.errors == [] && r.warnings == []
    ensures BadgesOf(r).errors.Some? && ShowsNoErrorsFound(r)
  {
  }
}
