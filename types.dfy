/** The records the validators exchange: the shapes declared in src/types.d.ts. */
module Types {

  datatype Option<+T> = None | Some(value: T)

  /** The `type` of a Nu validator message: a closed union of three strings. */
  datatype MessageType = Error | Info | NonDocumentError

  /** One message of the HTML validator (`type`, optional `subType`, `message`). */
  datatype HtmlMessage = HtmlMessage(kind: MessageType, subType: Option<string>, message: string)

  /** The HTML validator's answer for one page. */
  datatype HtmlResponse = HtmlResponse(url: string, messages: seq<HtmlMessage>)

  /** One error or warning reported by the CSS validator. */
  datatype CssIssue = CssIssue(message: string, source: string)

  /** The totals the CSS validator reports, independently of the lists it sends. */
  datatype CssSummary = CssSummary(errorcount: int, warningcount: int)

  /** The CSS validator's answer for one page, as the client stores it. */
  datatype CssResponse = CssResponse(url: string, result: CssSummary, errors: seq<CssIssue>, warnings: seq<CssIssue>)
}
