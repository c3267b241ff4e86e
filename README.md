# WDD130 validators — a Dafny model

The repository is a small React client plus an Express proxy. A student types a
GitHub username. The client builds the URLs of four pages of that student's
GitHub Pages site and asks the proxy to validate each one. The page mounts the
HTML results panel, which shows the HTML validator's messages with count
badges. The repository also contains a CSS results panel for the CSS
validator's errors and warnings, but no shown file mounts it.

This project models the logic in that code:

- `Types` (types.dfy): the records of src/types.d.ts. A message type is a closed three-way choice.
- `Counting` (counting.dfy): `countHtmlValidationResults` from src/lib/utils.ts. It is a loop method that updates two counters. It is proved equal to a left fold, `Tally`. The lemmas give the counts as multiplicities of message types, and show that counts add over concatenation and ignore order.
- `App` (app.dfy): `handleValidate` from src/App.tsx, as a method on the component's state. It uses the pure four-URL list `PageUrls`.
- `Fetching` (fetching.dfy): the request loop that both result panels share, as the specification `Collect`. URLs are requested in order. Each parsed body becomes one entry. The first failure ends the run. The browser's `fetch`, `res.json()` and `encodeURIComponent` are parameters, bundled as a `Client`.
- `HtmlValidation` (html_validation.dfy): the HTML panel. `ValidateUrls` is a loop method on the panel's state. The pure display decisions (style, icon, badges, "No errors found") are proved to agree with the counting helper.
- `CssValidation` (css_validation.dfy): the CSS panel. `ValidateCss` pushes `{ url, ...data }` and does not clear earlier results. Its badges follow the reported totals. Its rows list errors before warnings.
- `ServerValidate` (server_validate.dfy): the `GET /api/validate` handler. It is a method over an abstract upstream outcome: a response with a status and a body that parses or does not, or a network fault.

Five observations about how the files fit together are not modelled further:

- The HTML panel requests `/api/validate-html` (`HtmlValidation.Endpoint`), but the server defines `/api/validate` (`ServerValidate.RoutePath`).
- The CSS panel requests `/api/validate-css`, and no route serves that path.
- server/index.ts default-imports a router that server/validate.ts never exports.
- server/validate.ts defines only `/api/validate`; no route validates CSS, and no handler answers unknown API paths with a 404.
- src/App.tsx:64 mounts only the HTML panel; no shown file mounts or imports the CSS panel.

## Model

| member | source | states |
|---|---|---|
| `Counting.Step` | src/lib/utils.ts:10-15 | one step of the reduce raises exactly one counter by one: errors for an error-like type, infos for `info` |
| `Counting.Tally` | src/lib/utils.ts:9-17 | the reduce from `{errors: 0, infos: 0}`; every message bumps exactly one counter, so errors + infos equals the number of messages |
| `Counting.CountHtmlValidationResults` | src/lib/utils.ts:8-20 | the loop over the messages, with two counters, returns exactly the fold `Tally` of the messages |
| `Counting.TallyCountsKinds` | src/lib/utils.ts:11-13 | errors is the number of `error` plus `non-document-error` messages; infos is the number of `info` messages |
| `Counting.TallyEmpty` | src/lib/utils.ts:9-16 | an empty message list counts as `{errors: 0, infos: 0}` |
| `Counting.ErrorsPositive` | src/lib/utils.ts:11-12 | the error count is positive iff some message is error-like |
| `Counting.InfosPositive` | src/lib/utils.ts:13 | the info count is positive iff some message has type `info` |
| `Counting.TallyAppend` | src/lib/utils.ts:9-17 | counting a concatenation adds the counts of the two parts |
| `Counting.TallyPermutation` | src/lib/utils.ts:9-17 | two message lists with the same multiset of messages get the same counts |
| `App.PageUrls` | src/App.tsx:16-21 | exactly four URLs; each starts with `https://<username>.github.io/wdd130/wwr/` with the username verbatim, then has the page `""`, `about.html`, `trips.html`, `contact.html` in that order; pairwise distinct |
| `App.PageUrlsInjective` | src/App.tsx:16-21 | different usernames give different lists, so the list determines the username |
| `App.AppState.constructor` | src/App.tsx:8-9 | the username starts empty and the URL list starts empty |
| `App.AppState.SetUsername` | src/App.tsx:55 | the username becomes the typed text and nothing else changes |
| `App.AppState.HandleValidate` | src/App.tsx:11-22 | an empty username leaves the URL list unchanged; otherwise the list becomes `PageUrls(username)`; the username is never changed |
| `Fetching.Describe` | src/components/web/HTMLValidation.tsx:41-43 | a caught `Error` is described by its message; any other thrown value by "An unknown error occurred" (the same expression is at CSSValidation.tsx:37-39) |
| `Fetching.Client.RequestPath` | src/components/web/HTMLValidation.tsx:30-32 | the request path is the endpoint, then `?url=`, then the encoded URL (the same template is at CSSValidation.tsx:27-29) |
| `Fetching.Collect` | src/components/web/HTMLValidation.tsx:27-38 | a complete run has exactly one entry per URL |
| `Fetching.CollectAll` | src/components/web/HTMLValidation.tsx:29-36 | when every request succeeds, entry i is made from URL i and the body fetched for it, in input order |
| `Fetching.CollectAbortsAt` | src/components/web/HTMLValidation.tsx:29-43 | when request k is the first to fail, the run ends with what that request threw |
| `Fetching.CollectedIffFetchesAll` | src/components/web/CSSValidation.tsx:26-34 | a run is complete iff every request succeeds |
| `HtmlValidation.HtmlValidationPanel.constructor` | src/components/web/HTMLValidation.tsx:13-15 | not loading, no results, no error |
| `HtmlValidation.HtmlValidationPanel.ValidateUrls` | src/components/web/HTMLValidation.tsx:17-50 | empty `urls` changes nothing; otherwise loading ends false, and either results are every answer in URL order with no error, or results stay cleared and the error is the thrown message or "An unknown error occurred" |
| `HtmlValidation.StyleOf` | src/components/web/HTMLValidation.tsx:101-108 | error style iff the type is error-like, info style iff `info`; the muted fallback never applies to the closed type |
| `HtmlValidation.IconOf` | src/components/web/HTMLValidation.tsx:112-116 | the error icon exactly for error-styled messages, the info icon for every other message |
| `HtmlValidation.StylesAgreeWithCounts` | src/components/web/HTMLValidation.tsx:99-108 | the error-styled rows number the counted errors, and the info-styled rows number the counted infos |
| `HtmlValidation.IconsAgreeWithCounts` | src/components/web/HTMLValidation.tsx:111-117 | the rows with the error icon number the counted errors |
| `HtmlValidation.BadgesOf` | src/components/web/HTMLValidation.tsx:67-92 | the error badge appears iff some message is error-like and the info badge iff some message is `info`; each shows the count |
| `HtmlValidation.ShowsNoErrorsFound` | src/components/web/HTMLValidation.tsx:98-126 | "No errors found" appears iff both counts are zero, iff neither badge appears |
| `CssValidation.Merge` | src/components/web/CSSValidation.tsx:31 | in `{url, ...data}`, a `url` in the body overrides the requested URL; totals and lists come from the body |
| `CssValidation.CssValidationPanel.constructor` | src/components/web/CSSValidation.tsx:12-14 | not loading, no results, no error |
| `CssValidation.CssValidationPanel.ValidateCss` | src/components/web/CSSValidation.tsx:16-46 | empty `urls` changes nothing; otherwise loading ends false, and either results are the merged entries in URL order with no error, or the previous results are kept and the error is set |
| `CssValidation.CollectedEntryUrls` | src/components/web/CSSValidation.tsx:26-34 | after a complete run, entry i carries URL i unless its body names its own URL, and carries that body's totals |
| `CssValidation.BadgesOf` | src/components/web/CSSValidation.tsx:59-86 | the error badge appears iff the reported error count is positive, the warning badge iff the reported warning count is; each shows the reported count |
| `CssValidation.BadgesIgnoreLists` | src/components/web/CSSValidation.tsx:59-86 | two answers with the same totals show the same badges, whatever their lists hold |
| `CssValidation.IssueRows` | src/components/web/CSSValidation.tsx:92-104 | one row per error, then one per warning, each group in received order; no warning row precedes an error row |
| `CssValidation.ShowsNoErrorsFound` | src/components/web/CSSValidation.tsx:106-111 | "No errors found" appears iff there is no error or warning row |
| `CssValidation.BadgeBesideNoErrorsFound` | src/components/web/CSSValidation.tsx:70-111 | every answer that reports a positive error count but lists no errors or warnings shows an error badge and "No errors found" together |
| `ServerValidate.IsOk` | server/validate.ts:22 | `response.ok` holds exactly for a status in the 2xx class |
| `ServerValidate.CheckUrl` | server/validate.ts:13 | the outbound URL is `https://validator.w3.org/nu/?doc=`, then encode(url), then `&out=json` |
| `ServerValidate.StripCheckAffixes` | server/validate.ts:13 | a string it accepts is the Nu validator prefix, the returned middle part and `&out=json` |
| `ServerValidate.StripCheckAffixesRoundTrip` | server/validate.ts:12-13 | removing the prefix and suffix from the outbound URL gives back encode(url) |
| `ServerValidate.HandleValidateRequest` | server/validate.ts:7-31 | a missing or empty `url` gives 400 "Missing URL parameter" with no outbound call; otherwise one call to the fixed URL with fixed headers; an ok status with a parsed body is passed through with status 200; a non-ok status, an unparsable body or a network fault gives 500 "Failed to validate URL"; no other status is possible |

## Left out

- `cn` (src/lib/utils.ts:4-6): it only wraps the `clsx` and `tailwind-merge` libraries, which are not part of this model.
- JSX markup, Tailwind classes, the accordion, the loader, the message banner, and the choice between loader, error box and result list (HTMLValidation.tsx:54-61, CSSValidation.tsx:50-53): these are presentation.
- server/index.ts: Express wiring (JSON middleware, static files, the `*` fallback) with no decision logic.
- React effect scheduling, `async`/`await` interleaving and re-runs when `urls` changes: each run is one sequential method. The loading state set during a run is not observable there.
- `e.preventDefault()` in `handleValidate`: a browser side effect.
- `fetch`, `res.json()`, `node-fetch`, Express `req`/`res` and `encodeURIComponent`: these are parameters. In the panels, a rejected `fetch` and a failed `res.json()` are one `Failed` outcome.
- Fetching.Collect: fetch is a function of the request path, so a URL listed twice gets the same answer both times, where the real network could answer two calls differently. `App.PageUrls` are pairwise distinct, so the app never lists one URL twice.
- HtmlValidation.HtmlValidationPanel.ValidateUrls: the body of every fetch is assumed to have the `HTMLValidatorResponse` shape, as the declared types say. A non-2xx proxy answer whose JSON parses (such as `{error: ...}`) would be pushed as a result, and would break counting at render time. That case is not modelled.
- CssValidation.CssValidationPanel.ValidateCss: the body of every fetch is assumed to have the `CSSValidatorResponse` shape, with `result`, `errors` and `warnings`. A parsed body without them (such as an `{error: ...}` answer) would still be pushed as `{ url, ...data }`, and rendering would then throw when it reads `result.result`. That case is not modelled.
- Fetching.Client.RequestPath: `encodeURIComponent` throws `URIError` on a lone surrogate, which sends the panel's run to its error path. In the model `encode` never fails, and a Dafny string cannot hold a lone surrogate.
- ServerValidate.CheckUrl: the same `URIError` would make the handler answer 500 without sending a request. The model's `encode` never fails, so this path is not modelled.
- CssValidation.BadgesOf: the reported `errorcount` and `warningcount` are JavaScript numbers. `CssSummary` holds them as unbounded integers, so fractional, infinite and NaN values are not modelled.
- ServerValidate.HandleValidateRequest: JSON numbers passed through are `JNumber` integers; fractions and exponents are not modelled. The body is passed through unchanged either way.
- CssValidation.Merge: the body's `url` is either absent or a string. A JSON `null` or another type in that key is not modelled.
- ServerValidate.HandleValidateRequest: the `url` query value is absent or one string. Repeated or nested query keys, which Express turns into arrays or objects, are not modelled.
- The countHtmlValidationResults accumulator is two local counters returned as a value. It is fresh and never shared, so this is equivalent. The input messages are values and cannot be modified.
- The `url` prop of each panel is typed `string[]`, so an absent list is not modelled. Only the empty list is.
- Console logging and `app.listen` startup.
