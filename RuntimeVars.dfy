/** `f5_clear_runtime_vars`: environment variables whose names start with
    `_rt_` hold values of one collection run; they are blanked, or deleted
    when asked. */
module RuntimeVars {
  import opened JsValues
  import opened Ledger

  const RuntimePrefix := "_rt_"
  const ClearedName := "[Cleared Runtime Env Vars]"

  predicate IsRuntime(k: string)
  {
    StartsWith(k, RuntimePrefix)
  }

  /** The environment after clearing: runtime variables blanked, or
      removed with `del`; every other variable untouched. */
  function Cleared(env: map<string, Json>, del: bool): (r: map<string, Json>)
    ensures forall k :: !IsRuntime(k) ==> (k in r <==> k in env)
    ensures forall k :: !IsRuntime(k) && k in env ==> r[k] == env[k]
    ensures forall k :: IsRuntime(k) ==> (k in r <==> k in env && !del)
    ensures forall k :: IsRuntime(k) && k in r ==> r[k] == JStr("")
  {
    map k | k in env && !(del && IsRuntime(k)) :: if IsRuntime(k) then JStr("") else env[k]
  }

  /** Clearing twice is clearing once. */
  lemma ClearedIdempotent(env: map<string, Json>, del: bool)
    ensures Cleared(Cleared(env, del), del) == Cleared(env, del)
  {
    var once := Cleared(env, del);
    var twice := Cleared(once, del);
    assert forall k :: k in twice <==> k in once;
    assert forall k :: k in twice ==> twice[k] == once[k];
  }
}
