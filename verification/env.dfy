/**
 `getGoEnv` of build/env.go: the environment for the go tool, with the
 instrumented workspace put in front of GOPATH. The process environment is
 passed in rather than read.
 */
module Env {
  import opened Ast
  import opened Strings

  const GoPathPrefix: string := "GOPATH="

  predicate IsGoPath(e: string) {
    HasPrefix(e, GoPathPrefix)
  }

  /** The index of the first GOPATH entry, if there is one. */
  function FirstGoPath(env: seq<string>): (r: Option<nat>)
    ensures r.Some? ==> r.value < |env| && IsGoPath(env[r.value])
    ensures r.Some? ==> forall j :: 0 <= j < r.value ==> !IsGoPath(env[j])
    ensures r.None? ==> forall j :: 0 <= j < |env| ==> !IsGoPath(env[j])
  {
    if |env| == 0 then None
    else if IsGoPath(env[0]) then Some(0)
    else
      var k := FirstGoPath(env[1..]);
      if k.None? then None else Some(k.value + 1)
  }

  /** `GOPATH=<goPath>:<old>`: the new workspace searched first, then the old ones. */
  function Prepended(e: string, goPath: string): string
    requires IsGoPath(e)
  {
    GoPathPrefix + goPath + ":" + e[|GoPathPrefix|..]
  }

  /** Where the new workspace ends up: the first GOPATH entry, or a new last entry. */
  function GoPathSlot(env: seq<string>): (r: nat)
    ensures r <= |env|
  {
    if FirstGoPath(env).Some? then FirstGoPath(env).value else |env|
  }

  /**
   The first GOPATH entry gets `goPath` in front of its value and nothing
   else changes; without one, `GOPATH=<goPath>` is added at the end.
   */
  method GetGoEnv(env: seq<string>, goPath: string) returns (r: seq<string>)
    ensures var k := FirstGoPath(env);
      k.Some? ==> r == env[k.value := Prepended(env[k.value], goPath)]
    ensures FirstGoPath(env).None? ==> r == env + [GoPathPrefix + goPath]
    ensures GoPathSlot(env) < |r| && HasPrefix(r[GoPathSlot(env)], GoPathPrefix + goPath)
  {
    var i := 0;
    while i < |env|
      invariant 0 <= i <= |env|
      invariant forall j :: 0 <= j < i ==> !IsGoPath(env[j])
    {
      if HasPrefix(env[i], GoPathPrefix) {
        r := env[i := GoPathPrefix + goPath + ":" + env[i][|GoPathPrefix|..]];
        PrependedKeepsOld(env[i], goPath);
        return;
      }
      i := i + 1;
    }
    r := env + [GoPathPrefix + goPath];
    HasPrefixAppend(GoPathPrefix + goPath, []);
    assert r[|env|] == GoPathPrefix + goPath + [];
  }

  /** The new entry starts with the new workspace, and its tail after the separator is the old value. */
  lemma PrependedKeepsOld(e: string, goPath: string)
    requires IsGoPath(e)
    ensures HasPrefix(Prepended(e, goPath), GoPathPrefix + goPath)
    ensures Prepended(e, goPath)[|GoPathPrefix + goPath| + 1..] == e[|GoPathPrefix|..]
  {
    HasPrefixAppend(GoPathPrefix + goPath, ":" + e[|GoPathPrefix|..]);
  }
}
