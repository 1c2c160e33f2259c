/**
 * The client's configured endpoints (frontend/lib/env.ts). Each public
 * variable is `None` when it is not defined at build time; `??` falls back
 * only on `None`, never on an empty value.
 */
module Env {
  import opened Wrappers

  /** `.replace(/\/$/, '')`: removes one trailing '/', if there is one. */
  function StripTrailingSlash(s: string): (r: string)
    ensures s == [] || s[|s| - 1] != '/' ==> r == s
    ensures s != [] && s[|s| - 1] == '/' ==> s == r + "/"
  {
    if s != [] && s[|s| - 1] == '/' then s[..|s| - 1] else s
  }

  /** Stripping undoes appending one slash, whatever the string ends with. */
  lemma StripAfterAppend(s: string)
    ensures StripTrailingSlash(s + "/") == s
  {
    assert (s + "/")[..|s|] == s;
  }

  /** Only one slash goes: "x//" becomes "x/". */
  lemma StripsOnlyOne()
    ensures StripTrailingSlash("x//") == "x/"
  {
    StripAfterAppend("x/");
  }

  /** `apiUrl`: the API variable, or '' when undefined, without its trailing slash. */
  function ApiUrl(apiVar: Option<string>): (r: string)
    ensures apiVar.None? ==> r == ""
    ensures apiVar.Some? ==> r == StripTrailingSlash(apiVar.value)
  {
    StripTrailingSlash(apiVar.GetOr(""))
  }

  /** `socketUrl`: the socket variable, else the API variable, else '', without its trailing slash. */
  function SocketUrl(socketVar: Option<string>, apiVar: Option<string>): (r: string)
    ensures socketVar.Some? ==> r == StripTrailingSlash(socketVar.value)
    ensures socketVar.None? ==> r == ApiUrl(apiVar)
  {
    StripTrailingSlash(socketVar.OrElse(apiVar).GetOr(""))
  }

  /** A socket variable defined as empty stays empty even when the API variable is set. */
  lemma EmptySocketVarStaysEmpty(apiVar: Option<string>)
    ensures SocketUrl(Some(""), apiVar) == ""
  {
  }
}
