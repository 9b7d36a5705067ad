/** The notions of paths and file URIs the other modules share. */
module Paths {
  const SCHEME: string := "file://"

  /** A path without one leading scheme. */
  function StripScheme(path: string): string {
    if SCHEME <= path then path[|SCHEME|..] else path
  }

  /** Index of the last slash, or -1. */
  function LastSlash(s: string): (k: int)
    ensures -1 <= k < |s|
    ensures k >= 0 ==> s[k] == '/'
    ensures forall i :: k < i < |s| ==> s[i] != '/'
  {
    if s == "" then -1
    else if s[|s| - 1] == '/' then |s| - 1
    else LastSlash(s[..|s| - 1])
  }
}
