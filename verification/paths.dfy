/** The string rule that decides which navigation links belong to the current page. */
module Paths {
  import opened Wrappers

  /** `s.startsWith(prefix)`, compared character by character. */
  function StartsWith(s: string, prefix: string): (r: bool)
    ensures r <==> |prefix| <= |s| && s[..|prefix|] == prefix
  {
    if |prefix| == 0 then true
    else |s| > 0 && s[0] == prefix[0] && StartsWith(s[1..], prefix[1..])
  }

  /**
    A link with this `href` is active on page `path`: the attribute is present and
    non-empty, and either equals the path or names a directory the path lies under.
   */
  function Matches(path: string, href: Option<string>): (r: bool)
    ensures r <==> href.Some? && |href.value| > 0 &&
                   (path == href.value ||
                    (|href.value| < |path| && path[..|href.value|] == href.value && path[|href.value|] == '/'))
  {
    match href
    case None => false
    case Some(h) =>
      h != "" && (h == path || StartsWith(path, h + "/"))
  }

  /** An active link's `href` is always a prefix of the page path. */
  lemma MatchIsPrefix(path: string, h: string)
    requires Matches(path, Some(h))
    ensures h <= path
  {
  }

  /** A section link and its sub-page link are both active on the sub-page. */
  lemma SectionAndPageBothMatch()
    ensures Matches("/reports/monthly", Some("/reports"))
    ensures Matches("/reports/monthly", Some("/reports/monthly"))
    ensures !Matches("/reports/monthly", Some("/reports/monthly/detail"))
  {
    assert "/reports/monthly"[..|"/reports"|] == "/reports";
    assert "/reports/monthly"[|"/reports"|] == '/';
  }

  /** A shared leading fragment is not enough: `/report` is not active on `/reports`. */
  lemma PartialSegmentDoesNotMatch()
    ensures !Matches("/reports", Some("/report"))
  {
    assert "/reports"[|"/report"|] == 's';
  }

  /**
    The root link `/` is active only on `/` itself and on paths that begin with `//`,
    because the rule looks for the `href` followed by a further `/`.
   */
  lemma RootLinkMatchesOnlyRoot(path: string)
    ensures Matches(path, Some("/")) <==> path == "/" || (|path| >= 2 && path[0] == '/' && path[1] == '/')
  {
    if |path| >= 2 && path[0] == '/' && path[1] == '/' {
      assert path[..1] == "/";
    }
  }

  /** A missing or empty `href` never matches. */
  lemma EmptyHrefNeverMatches(path: string)
    ensures !Matches(path, None) && !Matches(path, Some(""))
  {
  }
}
