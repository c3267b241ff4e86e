/** The page component's form handler (src/App.tsx). */
module App {

  /** The four pages of the student site, in the order the form lists them. */
  const Pages: seq<string> := ["", "about.html", "trips.html", "contact.html"]

  /** The site root of a GitHub Pages user, with the username inserted as typed. */
  function SiteRoot(username: string): string {
    "https://" + username + ".github.io/wdd130/wwr/"
  }

  /** The list `handleValidate` stores: one URL per page, built by template literals. */
  function PageUrls(username: string): (urls: seq<string>)
    ensures |urls| == |Pages| == 4
    ensures forall i :: 0 <= i < |urls| ==>
      IsPrefix(SiteRoot(username), urls[i]) && urls[i][|SiteRoot(username)|..] == Pages[i]
    ensures forall i, j :: 0 <= i < j < |urls| ==> urls[i] != urls[j]
  {
    var urls := [
      "https://" + username + ".github.io/wdd130/wwr/",
      "https://" + username + ".github.io/wdd130/wwr/about.html",
      "https://" + username + ".github.io/wdd130/wwr/trips.html",
      "https://" + username + ".github.io/wdd130/wwr/contact.html"
    ];
    var root := SiteRoot(username);
    assert forall i :: 0 <= i < 4 ==> urls[i] == root + Pages[i];
    forall i | 0 <= i < 4
      ensures IsPrefix(root, urls[i]) && urls[i][|root|..] == Pages[i]
    {
      SuffixAfterPrefix(root, Pages[i]);
    }
    urls
  }

  predicate IsPrefix(p: string, s: string) {
    |p| <= |s| && s[..|p|] == p
  }

  lemma SuffixAfterPrefix(p: string, s: string)
    ensures IsPrefix(p, p + s) && (p + s)[|p|..] == s
  {
  }

  /** Different usernames never produce the same list: the username is
      recovered from between the scheme and the GitHub Pages host. */
  lemma PageUrlsInjective(u: string, v: string)
    requires PageUrls(u) == PageUrls(v)
    ensures u == v
  {
    var ru, rv := SiteRoot(u), SiteRoot(v);
    assert ru == PageUrls(u)[0] == PageUrls(v)[0] == rv;
    assert |u| == |v|;
    assert u == ru[8..8 + |u|];
    assert v == rv[8..8 + |v|];
  }

  /** The state of the `App` component that the form reads and writes. */
  class AppState {
    var username: string
    var urlsToValidate: seq<string>

    constructor ()
      ensures username == "" && urlsToValidate == []
    {
      username := "";
      urlsToValidate := [];
    }

    /** The input's `onChange`: the username becomes the typed text. */
    method SetUsername(value: string)
      modifies this`username
      ensures username == value
    {
      username := value;
    }

    /** `handleValidate`: an empty username leaves the list alone; any other
        username replaces it with that user's four page URLs. */
    method HandleValidate()
      modifies this`urlsToValidate
      ensures username == "" ==> urlsToValidate == old(urlsToValidate)
      ensures username != "" ==> urlsToValidate == PageUrls(username)
    {
      if username == "" {
        return;
      }
      urlsToValidate := PageUrls(username);
    }
  }
}
