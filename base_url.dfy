/**
  The base URL both versions derive from the master playlist URI with the
  regular expression `^(.*)\/.*?$`: everything up to and including the last
  `/`. A JavaScript `.` does not match a line terminator, and without the `m`
  flag `^` and `$` anchor at the ends of the whole string, so the expression
  matches exactly when the URI holds a `/` and no line terminator.
 */
module BaseUrl {
  import opened M3u

  /** The characters a JavaScript `.` refuses to match. */
  predicate IsLineTerminator(c: char)
  {
    c == '\n' || c == '\r' || c == '\U{2028}' || c == '\U{2029}'
  }

  predicate HasLineTerminator(s: string)
  {
    exists k :: 0 <= k < |s| && IsLineTerminator(s[k])
  }

  /** Index of the last `/` of `s`, if any. */
  function LastSlash(s: string): (r: Option<nat>)
    ensures r.Some? ==> r.value < |s| && s[r.value] == '/'
    ensures r.Some? ==> forall k :: r.value < k < |s| ==> s[k] != '/'
    ensures r.None? <==> '/' !in s
  {
    if s == [] then None
    else if s[|s| - 1] == '/' then Some(|s| - 1)
    else
      assert s == s[..|s| - 1] + [s[|s| - 1]];
      LastSlash(s[..|s| - 1])
  }

  /**
    `m[1] + '/'` when the match succeeds (index.js leaves the base undefined
    otherwise): the prefix of the URI through its last `/`.
   */
  function MatchBase(uri: string): (r: Option<string>)
    ensures r.Some? <==> '/' in uri && !HasLineTerminator(uri)
    ensures r.Some? ==> |r.value| > 0 && r.value <= uri && r.value[|r.value| - 1] == '/'
    ensures r.Some? ==> '/' !in uri[|r.value|..]
  {
    if HasLineTerminator(uri) then None
    else match LastSlash(uri)
      case None => None
      case Some(i) => Some(uri[..i + 1])
  }

  /** src/index.ts starts from `''` instead of undefined. */
  function BaseOrEmpty(uri: string): (r: string)
    ensures r == "" <==> MatchBase(uri).None?
    ensures r != "" ==> r <= uri && r[|r| - 1] == '/' && '/' !in uri[|r|..]
  {
    match MatchBase(uri)
    case None => ""
    case Some(b) => b
  }
}
