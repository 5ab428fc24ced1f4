/** Saving the agent's settings, src/lib/agent-config-write.ts: the env array written to
    the Deployment, and the merge into the config document. */
module AgentEnv {
  import opened Options

  // ----- a JavaScript Map: entries in the order their keys were first set ------------

  datatype Pair<V> = Pair(key: string, value: V)

  function Set<V>(m: seq<Pair<V>>, k: string, v: V): seq<Pair<V>> {
    if |m| == 0 then [Pair(k, v)]
    else if m[0].key == k then [Pair(k, v)] + m[1..]
    else [m[0]] + Set(m[1..], k, v)
  }

  function Delete<V>(m: seq<Pair<V>>, k: string): seq<Pair<V>> {
    if |m| == 0 then [] else if m[0].key == k then m[1..] else [m[0]] + Delete(m[1..], k)
  }

  function Get<V>(m: seq<Pair<V>>, k: string): Option<V> {
    if |m| == 0 then None else if m[0].key == k then Some(m[0].value) else Get(m[1..], k)
  }

  ghost predicate Keyed<V>(m: seq<Pair<V>>) {
    forall i, j :: 0 <= i < j < |m| ==> m[i].key != m[j].key
  }

  lemma {:induction false} GetKnows<V>(m: seq<Pair<V>>, i: nat)
    requires Keyed(m) && i < |m|
    ensures Get(m, m[i].key) == Some(m[i].value)
  {
    if i > 0 {
      GetKnows(m[1..], i - 1);
      assert m[0].key != m[i].key;
    }
  }

  lemma {:induction false} GetMisses<V>(m: seq<Pair<V>>, k: string)
    ensures Get(m, k).None? <==> forall i :: 0 <= i < |m| ==> m[i].key != k
  {
    if |m| > 0 { GetMisses(m[1..], k); }
  }

  lemma {:induction false} SetThenGet<V>(m: seq<Pair<V>>, k: string, v: V, j: string)
    ensures Get(Set(m, k, v), j) == if j == k then Some(v) else Get(m, j)
  {
    if |m| > 0 && m[0].key != k { SetThenGet(m[1..], k, v, j); }
  }

  lemma {:induction false} SetKeepsKeys<V>(m: seq<Pair<V>>, k: string, v: V)
    requires Keyed(m)
    ensures Keyed(Set(m, k, v))
    ensures forall i :: 0 <= i < |Set(m, k, v)| ==> Set(m, k, v)[i].key == k || Get(m, Set(m, k, v)[i].key).Some?
  {
    if |m| == 0 {
    } else if m[0].key == k {
      forall i | 0 < i < |m| ensures Get(m, m[i].key).Some? { GetKnows(m, i); }
    } else {
      SetKeepsKeys(m[1..], k, v);
      var r := Set(m[1..], k, v);
      GetMisses(m[1..], m[0].key);
      forall i | 0 <= i < |r| ensures r[i].key != m[0].key {
        if r[i].key != k { assert Get(m[1..], r[i].key).Some?; }
      }
    }
  }

  lemma {:induction false} DeleteThenGet<V>(m: seq<Pair<V>>, k: string, j: string)
    requires Keyed(m)
    ensures Get(Delete(m, k), j) == if j == k then None else Get(m, j)
    ensures Keyed(Delete(m, k))
  {
    if |m| > 0 {
      if m[0].key == k {
        GetMisses(m[1..], k);
      } else {
        DeleteThenGet(m[1..], k, j);
        GetMisses(m[1..], m[0].key);
        DeleteThenGet(m[1..], k, m[0].key);
        GetMisses(Delete(m[1..], k), m[0].key);
      }
    }
  }

  /** Setting what is there already changes nothing, order included. */
  lemma {:induction false} SetAgain<V>(m: seq<Pair<V>>, k: string, v: V)
    requires Get(m, k) == Some(v)
    ensures Set(m, k, v) == m
  {
    if m[0].key == k {
      assert m == [Pair(k, v)] + m[1..];
    } else {
      SetAgain(m[1..], k, v);
      assert m == [m[0]] + m[1..];
    }
  }

  lemma {:induction false} DeleteAbsent<V>(m: seq<Pair<V>>, k: string)
    requires Get(m, k).None?
    ensures Delete(m, k) == m
  {
    if |m| > 0 {
      DeleteAbsent(m[1..], k);
      assert m == [m[0]] + m[1..];
    }
  }

  // ----- the env array ------------------------------------------------------------------

  /** Where a value comes from when it is not written out. */
  datatype Source = SecretKey(name: string, key: string) | Other(ref: string)

  datatype EnvVar = EnvVar(name: string, value: Option<string>, valueFrom: Option<Source>)

  /** What a container sees under a name. */
  datatype Setting = Literal(text: string) | Reference(source: Source)

  function Meaning(e: EnvVar): Setting {
    if e.valueFrom.Some? then Reference(e.valueFrom.value)
    else Literal(if e.value.Some? then e.value.value else "")
  }

  /** Later entries win. */
  function Effective(env: seq<EnvVar>, name: string): Option<Setting> {
    if |env| == 0 then None
    else if env[|env| - 1].name == name then Some(Meaning(env[|env| - 1]))
    else Effective(env[..|env| - 1], name)
  }

  /** The API server admits no entry without a name, nor one with both forms. */
  ghost predicate Admitted(env: seq<EnvVar>) {
    forall i :: 0 <= i < |env| ==> env[i].name != "" && (env[i].value.None? || env[i].valueFrom.None?)
  }

  ghost predicate UniqueNames(env: seq<EnvVar>) {
    forall i, j :: 0 <= i < j < |env| ==> env[i].name != env[j].name
  }

  datatype EnvPatch = EnvPatch(baseUrl: Option<string>, modelName: Option<string>, modelType: Option<string>)

  const KEY := "OPENAI_API_KEY"
  const KEY_ENTRY := EnvVar(KEY, None, Some(SecretKey("vss-agent-anthropic", KEY)))

  predicate Wires(p: EnvPatch) {
    p.modelType == Some("openai")
  }

  function Named(name: string, v: Option<string>): seq<Pair<string>> {
    if v.Some? then [Pair(name, v.value)] else []
  }

  /** `Object.entries(envPatches)`. */
  function Patches(p: EnvPatch): seq<Pair<string>> {
    Named("LLM_BASE_URL", p.baseUrl) + Named("LLM_NAME", p.modelName) + Named("LLM_MODEL_TYPE", p.modelType)
  }

  function WithPlain(m: seq<Pair<string>>, e: EnvVar): seq<Pair<string>> {
    if e.name != "" && e.value.Some? then Set(m, e.name, e.value.value) else m
  }

  function PlainMap(env: seq<EnvVar>): seq<Pair<string>> {
    if |env| == 0 then [] else WithPlain(PlainMap(env[..|env| - 1]), env[|env| - 1])
  }

  function WithRef(m: seq<Pair<EnvVar>>, e: EnvVar): seq<Pair<EnvVar>> {
    if e.name != "" && e.valueFrom.Some? then Set(m, e.name, e) else m
  }

  function RefMap(env: seq<EnvVar>): seq<Pair<EnvVar>> {
    if |env| == 0 then [] else WithRef(RefMap(env[..|env| - 1]), env[|env| - 1])
  }

  function SetAll(m: seq<Pair<string>>, ps: seq<Pair<string>>): seq<Pair<string>> {
    if |ps| == 0 then m else Set(SetAll(m, ps[..|ps| - 1]), ps[|ps| - 1].key, ps[|ps| - 1].value)
  }

  function Values(m: seq<Pair<EnvVar>>): (r: seq<EnvVar>)
    ensures |r| == |m|
  {
    seq(|m|, i requires 0 <= i < |m| => m[i].value)
  }

  function PlainEntries(m: seq<Pair<string>>): (r: seq<EnvVar>)
    ensures |r| == |m|
  {
    seq(|m|, i requires 0 <= i < |m| => EnvVar(m[i].key, Some(m[i].value), None))
  }

  function Plains(env: seq<EnvVar>, p: EnvPatch): seq<Pair<string>> {
    var patched := SetAll(PlainMap(env), Patches(p));
    if Wires(p) then Delete(patched, KEY) else patched
  }

  function Refs(env: seq<EnvVar>, p: EnvPatch): seq<Pair<EnvVar>> {
    if Wires(p) then Set(RefMap(env), KEY, KEY_ENTRY) else RefMap(env)
  }

  function NewEnv(env: seq<EnvVar>, p: EnvPatch): seq<EnvVar> {
    Values(Refs(env, p)) + PlainEntries(Plains(env, p))
  }

  /** `patchAgentDeploymentEnv`, from the env read to the env written; nothing is written
      when the patch says nothing. */
  method PatchAgentDeploymentEnv(currentEnv: seq<EnvVar>, patch: EnvPatch) returns (newEnv: Option<seq<EnvVar>>)
    ensures newEnv == if Patches(patch) == [] then None else Some(NewEnv(currentEnv, patch))
  {
    var envPatches := Patches(patch);
    var wireOpenaiKey := patch.modelType == Some("openai");
    if |envPatches| == 0 && !wireOpenaiKey { return None; }
    var envMap := CollectPlain(currentEnv);
    envMap := Assign(envMap, envPatches);
    var valueFromEntries := CollectRefs(currentEnv);
    if wireOpenaiKey {
      envMap := Delete(envMap, KEY);
      valueFromEntries := Set(valueFromEntries, KEY, KEY_ENTRY);
    }
    return Some(Values(valueFromEntries) + PlainEntries(envMap));
  }

  method CollectPlain(currentEnv: seq<EnvVar>) returns (envMap: seq<Pair<string>>)
    ensures envMap == PlainMap(currentEnv)
  {
    envMap := [];
    for i := 0 to |currentEnv|
      invariant envMap == PlainMap(currentEnv[..i])
    {
      assert currentEnv[..i + 1][..i] == currentEnv[..i];
      var ev := currentEnv[i];
      if ev.name != "" && ev.value.Some? { envMap := Set(envMap, ev.name, ev.value.value); }
    }
    assert currentEnv[..|currentEnv|] == currentEnv;
  }

  method Assign(m: seq<Pair<string>>, ps: seq<Pair<string>>) returns (envMap: seq<Pair<string>>)
    ensures envMap == SetAll(m, ps)
  {
    envMap := m;
    for i := 0 to |ps|
      invariant envMap == SetAll(m, ps[..i])
    {
      assert ps[..i + 1][..i] == ps[..i];
      envMap := Set(envMap, ps[i].key, ps[i].value);
    }
    assert ps[..|ps|] == ps;
  }

  method CollectRefs(currentEnv: seq<EnvVar>) returns (entries: seq<Pair<EnvVar>>)
    ensures entries == RefMap(currentEnv)
  {
    entries := [];
    for i := 0 to |currentEnv|
      invariant entries == RefMap(currentEnv[..i])
    {
      assert currentEnv[..i + 1][..i] == currentEnv[..i];
      var ev := currentEnv[i];
      if ev.name != "" && ev.valueFrom.Some? { entries := Set(entries, ev.name, ev); }
    }
    assert currentEnv[..|currentEnv|] == currentEnv;
  }

  // ----- what the new array means ----------------------------------------------------------

  /** The last entry of the name that carries a value, and the last with a reference. */
  function LastPlain(env: seq<EnvVar>, name: string): Option<string> {
    if |env| == 0 then None
    else if env[|env| - 1].name == name && env[|env| - 1].value.Some? then env[|env| - 1].value
    else LastPlain(env[..|env| - 1], name)
  }

  function LastRef(env: seq<EnvVar>, name: string): Option<EnvVar> {
    if |env| == 0 then None
    else if env[|env| - 1].name == name && env[|env| - 1].valueFrom.Some? then Some(env[|env| - 1])
    else LastRef(env[..|env| - 1], name)
  }

  lemma {:induction false} PlainMapHolds(env: seq<EnvVar>, name: string)
    ensures Keyed(PlainMap(env)) && Get(PlainMap(env), "").None?
    ensures name != "" ==> Get(PlainMap(env), name) == LastPlain(env, name)
  {
    if |env| > 0 {
      var m, e := PlainMap(env[..|env| - 1]), env[|env| - 1];
      PlainMapHolds(env[..|env| - 1], name);
      if e.name != "" && e.value.Some? {
        SetKeepsKeys(m, e.name, e.value.value);
        SetThenGet(m, e.name, e.value.value, name);
        SetThenGet(m, e.name, e.value.value, "");
      }
    }
  }

  /** Every reference is filed under its own name. */
  ghost predicate Filed(m: seq<Pair<EnvVar>>) {
    forall i :: 0 <= i < |m| ==> m[i].value.name == m[i].key && m[i].value.valueFrom.Some? && m[i].key != ""
  }

  lemma {:induction false} SetKeepsFiled(m: seq<Pair<EnvVar>>, e: EnvVar)
    requires Filed(m) && e.valueFrom.Some? && e.name != ""
    ensures Filed(Set(m, e.name, e))
  {
    if |m| > 0 && m[0].key != e.name { SetKeepsFiled(m[1..], e); }
  }

  lemma {:induction false} RefMapHolds(env: seq<EnvVar>, name: string)
    ensures Keyed(RefMap(env)) && Filed(RefMap(env))
    ensures name != "" ==> Get(RefMap(env), name) == LastRef(env, name)
  {
    if |env| > 0 {
      var m, e := RefMap(env[..|env| - 1]), env[|env| - 1];
      RefMapHolds(env[..|env| - 1], name);
      if e.name != "" && e.valueFrom.Some? {
        SetKeepsKeys(m, e.name, e);
        SetKeepsFiled(m, e);
        SetThenGet(m, e.name, e, name);
      }
    }
  }

  lemma {:induction false} SetAllThenGet(m: seq<Pair<string>>, ps: seq<Pair<string>>, j: string)
    requires Keyed(m) && Keyed(ps)
    ensures Keyed(SetAll(m, ps))
    ensures Get(SetAll(m, ps), j) == if Get(ps, j).Some? then Get(ps, j) else Get(m, j)
  {
    if |ps| > 0 {
      var t, p := ps[..|ps| - 1], ps[|ps| - 1];
      SetAllThenGet(m, t, j);
      SetKeepsKeys(SetAll(m, t), p.key, p.value);
      SetThenGet(SetAll(m, t), p.key, p.value, j);
      assert ps == t + [p];
      GetLast(t, p, j);
    }
  }

  lemma {:induction false} GetLast(t: seq<Pair<string>>, p: Pair<string>, j: string)
    requires Keyed(t + [p])
    ensures Get(t + [p], j) == if j == p.key then Some(p.value) else Get(t, j)
  {
    if |t| > 0 {
      assert (t + [p])[1..] == t[1..] + [p];
      assert (t + [p])[0].key != (t + [p])[|t|].key;
      GetLast(t[1..], p, j);
    }
  }

  lemma PatchKeys(p: EnvPatch)
    ensures Keyed(Patches(p))
    ensures Get(Patches(p), KEY).None? && Get(Patches(p), "").None?
    ensures Wires(p) ==> Patches(p) != []
  {
    var ps := Patches(p);
    var a, b, c := "LLM_BASE_URL", "LLM_NAME", "LLM_MODEL_TYPE";
    assert a != b && b != c && a != c && a != KEY && b != KEY && c != KEY by {
      assert |a| != |b| && |b| != |c| && |a| != |c|;
      assert a[0] != KEY[0] && b[0] != KEY[0] && c[0] != KEY[0];
    }
    assert forall i :: 0 <= i < |ps| ==> ps[i].key == a || ps[i].key == b || ps[i].key == c;
    GetMisses(ps, KEY);
    GetMisses(ps, "");
  }

  lemma {:induction false} EffectiveAppend(a: seq<EnvVar>, b: seq<EnvVar>, name: string)
    ensures Effective(a + b, name) ==
              if Effective(b, name).Some? then Effective(b, name) else Effective(a, name)
  {
    if |b| == 0 {
      assert a + b == a;
    } else {
      assert (a + b)[..|a + b| - 1] == a + b[..|b| - 1];
      EffectiveAppend(a, b[..|b| - 1], name);
    }
  }

  /** Among entries of different names, the effective one is the only one. */
  lemma {:induction false} EffectiveOfUnique(env: seq<EnvVar>, i: nat, name: string)
    requires UniqueNames(env) && i < |env|
    ensures Effective(env, env[i].name) == Some(Meaning(env[i]))
  {
    if i < |env| - 1 {
      var t := env[..|env| - 1];
      assert t[i] == env[i] && env[i].name != env[|env| - 1].name;
      EffectiveOfUnique(t, i, name);
    }
  }

  lemma {:induction false} EffectiveMisses(env: seq<EnvVar>, name: string)
    ensures Effective(env, name).None? <==> forall i :: 0 <= i < |env| ==> env[i].name != name
  {
    if |env| > 0 { EffectiveMisses(env[..|env| - 1], name); }
  }

  lemma GetAtIndex<V>(m: seq<Pair<V>>, k: string) returns (i: nat)
    requires Get(m, k).Some?
    ensures i < |m| && m[i].key == k && Get(m, k) == Some(m[i].value)
  {
    if m[0].key == k { return 0; }
    i := GetAtIndex(m[1..], k);
    i := i + 1;
  }

  lemma EffectivePlain(m: seq<Pair<string>>, name: string)
    requires Keyed(m)
    ensures UniqueNames(PlainEntries(m))
    ensures Effective(PlainEntries(m), name) == if Get(m, name).Some? then Some(Literal(Get(m, name).value)) else None
  {
    var env := PlainEntries(m);
    if Get(m, name).Some? {
      var i := GetAtIndex(m, name);
      EffectiveOfUnique(env, i, name);
    } else {
      GetMisses(m, name);
      EffectiveMisses(env, name);
    }
  }

  lemma EffectiveRefs(m: seq<Pair<EnvVar>>, name: string)
    requires Keyed(m) && Filed(m)
    ensures UniqueNames(Values(m))
    ensures Effective(Values(m), name) == if Get(m, name).Some? then Some(Meaning(Get(m, name).value)) else None
  {
    var env := Values(m);
    if Get(m, name).Some? {
      var i := GetAtIndex(m, name);
      EffectiveOfUnique(env, i, name);
    } else {
      GetMisses(m, name);
      EffectiveMisses(env, name);
    }
  }

  /** The two halves of the new array. */
  lemma Halves(env: seq<EnvVar>, p: EnvPatch, name: string)
    requires name != ""
    ensures Keyed(Plains(env, p)) && Keyed(Refs(env, p)) && Filed(Refs(env, p))
    ensures Get(Plains(env, p), name) ==
              if Wires(p) && name == KEY then None
              else if Get(Patches(p), name).Some? then Get(Patches(p), name) else LastPlain(env, name)
    ensures Get(Refs(env, p), name) == if Wires(p) && name == KEY then Some(KEY_ENTRY) else LastRef(env, name)
    ensures Get(Plains(env, p), "").None?
  {
    PatchKeys(p);
    PlainMapHolds(env, name);
    RefMapHolds(env, name);
    SetAllThenGet(PlainMap(env), Patches(p), name);
    SetAllThenGet(PlainMap(env), Patches(p), "");
    var patched := SetAll(PlainMap(env), Patches(p));
    DeleteThenGet(patched, KEY, name);
    DeleteThenGet(patched, KEY, "");
    assert KEY != "" by { assert |KEY| > 0; }
    SetThenGet(RefMap(env), KEY, KEY_ENTRY, name);
    SetKeepsKeys(RefMap(env), KEY, KEY_ENTRY);
    SetKeepsFiled(RefMap(env), KEY_ENTRY);
  }

  /** What a name means in the new array, for any array whatever: the patch, the secret for
      the wired key, and otherwise the last plain value before the last reference. */
  lemma NewMeaning(env: seq<EnvVar>, p: EnvPatch, name: string)
    requires name != ""
    ensures Effective(NewEnv(env, p), name) ==
              if Wires(p) && name == KEY then Some(Meaning(KEY_ENTRY))
              else if Get(Patches(p), name).Some? then Some(Literal(Get(Patches(p), name).value))
              else if LastPlain(env, name).Some? then Some(Literal(LastPlain(env, name).value))
              else if LastRef(env, name).Some? then Some(Meaning(LastRef(env, name).value))
              else None
  {
    Halves(env, p, name);
    EffectivePlain(Plains(env, p), name);
    EffectiveRefs(Refs(env, p), name);
    EffectiveAppend(Values(Refs(env, p)), PlainEntries(Plains(env, p)), name);
  }

  lemma {:induction false} OnlyEntry(env: seq<EnvVar>, i: nat)
    requires UniqueNames(env) && i < |env|
    ensures LastPlain(env, env[i].name) == env[i].value
    ensures LastRef(env, env[i].name) == if env[i].valueFrom.Some? then Some(env[i]) else None
  {
    var t := env[..|env| - 1];
    if i < |env| - 1 {
      assert t[i] == env[i] && env[i].name != env[|env| - 1].name;
      OnlyEntry(t, i);
    } else {
      NoEntry(t, env[i].name);
    }
  }

  lemma {:induction false} NoEntry(env: seq<EnvVar>, name: string)
    requires forall i :: 0 <= i < |env| ==> env[i].name != name
    ensures LastPlain(env, name).None? && LastRef(env, name).None? && Effective(env, name).None?
  {
    if |env| > 0 {
      var t := env[..|env| - 1];
      assert forall i :: 0 <= i < |t| ==> t[i] == env[i];
      NoEntry(t, name);
    }
  }

  /** For an array of different names, a name the patch does not set keeps its meaning
      exactly unless its entry carries neither a value nor a reference: those are lost. */
  lemma OtherNamesKeepTheirMeaning(env: seq<EnvVar>, p: EnvPatch, name: string)
    requires Admitted(env) && UniqueNames(env) && name != ""
    requires Get(Patches(p), name).None? && !(Wires(p) && name == KEY)
    ensures Effective(NewEnv(env, p), name) == Effective(env, name) <==>
              forall i :: 0 <= i < |env| && env[i].name == name ==> env[i].value.Some? || env[i].valueFrom.Some?
  {
    NewMeaning(env, p, name);
    if i :| 0 <= i < |env| && env[i].name == name {
      OnlyEntry(env, i);
      EffectiveOfUnique(env, i, name);
      assert forall j :: 0 <= j < |env| && env[j].name == name ==> j == i;
    } else {
      NoEntry(env, name);
    }
  }

  /** The wired key occurs once, and only as the reference to the secret. */
  lemma KeyOnlyFromTheSecret(env: seq<EnvVar>, p: EnvPatch)
    requires p.modelType == Some("openai")
    ensures var out := NewEnv(env, p);
            var key := "OPENAI_API_KEY";
            var entry := EnvVar(key, None, Some(SecretKey("vss-agent-anthropic", key)));
            && (exists i :: 0 <= i < |out| && out[i] == entry)
            && forall i, j :: 0 <= i <= j < |out| && out[i].name == key && out[j].name == key ==>
                 i == j && out[i] == entry
  {
    assert KEY != "" by { assert |KEY| > 0; }
    Halves(env, p, KEY);
    var refs, plains := Refs(env, p), Plains(env, p);
    var k := GetAtIndex(refs, KEY);
    var out := NewEnv(env, p);
    assert out[k] == KEY_ENTRY;
    GetMisses(plains, KEY);
    forall i | |refs| <= i < |out| ensures out[i].name != KEY {
      assert out[i].name == plains[i - |refs|].key;
    }
    forall i | 0 <= i < |refs| && out[i].name == KEY ensures i == k {
      assert out[i] == refs[i].value;
    }
  }

  ghost predicate NoCommonName(a: seq<EnvVar>, b: seq<EnvVar>) {
    forall i, j :: 0 <= i < |a| && 0 <= j < |b| ==> a[i].name != b[j].name
  }

  lemma UniqueConcat(a: seq<EnvVar>, b: seq<EnvVar>)
    requires UniqueNames(a) && UniqueNames(b)
    ensures UniqueNames(a + b) <==> NoCommonName(a, b)
  {
    if UniqueNames(a + b) {
      forall i, j | 0 <= i < |a| && 0 <= j < |b| ensures a[i].name != b[j].name {
        assert (a + b)[i] == a[i] && (a + b)[|a| + j] == b[j];
      }
    }
  }

  /** Names in the new array differ, unless a patched name was a reference: that entry
      stays, in front of the patched one. */
  lemma NamesStayUniqueExactly(env: seq<EnvVar>, p: EnvPatch)
    requires Admitted(env) && UniqueNames(env)
    ensures UniqueNames(NewEnv(env, p)) <==>
              forall i :: 0 <= i < |env| && env[i].valueFrom.Some? ==> Get(Patches(p), env[i].name).None?
  {
    var refs, plains := Refs(env, p), Plains(env, p);
    assert KEY != "" by { assert |KEY| > 0; }
    Halves(env, p, KEY);
    EffectivePlain(plains, KEY);
    EffectiveRefs(refs, KEY);
    UniqueConcat(Values(refs), PlainEntries(plains));
    if i :| 0 <= i < |env| && env[i].valueFrom.Some? && Get(Patches(p), env[i].name).Some? {
      CommonName(env, p, i);
    } else {
      forall a, b | 0 <= a < |Values(refs)| && 0 <= b < |PlainEntries(plains)|
        ensures Values(refs)[a].name != PlainEntries(plains)[b].name
      {
        RefIsNotPlain(env, p, a, b);
      }
    }
  }

  lemma CommonName(env: seq<EnvVar>, p: EnvPatch, i: nat)
    requires Admitted(env) && UniqueNames(env) && i < |env|
    requires env[i].valueFrom.Some? && Get(Patches(p), env[i].name).Some?
    ensures !NoCommonName(Values(Refs(env, p)), PlainEntries(Plains(env, p)))
  {
    PatchKeys(p);
    Halves(env, p, env[i].name);
    OnlyEntry(env, i);
    var a := GetAtIndex(Refs(env, p), env[i].name);
    var b := GetAtIndex(Plains(env, p), env[i].name);
    assert Values(Refs(env, p))[a].name == PlainEntries(Plains(env, p))[b].name;
  }

  lemma RefIsNotPlain(env: seq<EnvVar>, p: EnvPatch, a: nat, b: nat)
    requires Admitted(env) && UniqueNames(env) && a < |Refs(env, p)| && b < |Plains(env, p)|
    requires forall i :: 0 <= i < |env| && env[i].valueFrom.Some? ==> Get(Patches(p), env[i].name).None?
    ensures Refs(env, p)[a].key != Plains(env, p)[b].key
  {
    var name := Refs(env, p)[a].key;
    Halves(env, p, KEY) by { assert |KEY| > 0; }
    Halves(env, p, name);
    GetKnows(Refs(env, p), a);
    if !(Wires(p) && name == KEY) {
      var i := RefIndex(env, name);
      OnlyEntry(env, i);
      assert LastPlain(env, name).None?;
    }
    GetMisses(Plains(env, p), name);
  }

  lemma {:induction false} RefIndex(env: seq<EnvVar>, name: string) returns (i: nat)
    requires LastRef(env, name).Some?
    ensures i < |env| && env[i].name == name && env[i].valueFrom.Some?
  {
    var last := env[|env| - 1];
    if last.name == name && last.valueFrom.Some? { return |env| - 1; }
    i := RefIndex(env[..|env| - 1], name);
  }

  // ----- what the settings page shows after a save ------------------------------------------

  /** `Object.entries` has each field of the patch under its own name. */
  lemma PatchSays(p: EnvPatch)
    ensures Get(Patches(p), "LLM_BASE_URL") == p.baseUrl
    ensures Get(Patches(p), "LLM_NAME") == p.modelName
    ensures Get(Patches(p), "LLM_MODEL_TYPE") == p.modelType
  {
    var a, b, c := "LLM_BASE_URL", "LLM_NAME", "LLM_MODEL_TYPE";
    assert |a| != |b| && |b| != |c| && |a| != |c|;
    GetEither(Named(a, p.baseUrl) + Named(b, p.modelName), Named(c, p.modelType), a);
    GetEither(Named(a, p.baseUrl) + Named(b, p.modelName), Named(c, p.modelType), b);
    GetEither(Named(a, p.baseUrl) + Named(b, p.modelName), Named(c, p.modelType), c);
    GetEither(Named(a, p.baseUrl), Named(b, p.modelName), a);
    GetEither(Named(a, p.baseUrl), Named(b, p.modelName), b);
    GetEither(Named(a, p.baseUrl), Named(b, p.modelName), c);
  }

  lemma {:induction false} GetEither<V>(a: seq<Pair<V>>, b: seq<Pair<V>>, k: string)
    ensures Get(a + b, k) == if Get(a, k).Some? then Get(a, k) else Get(b, k)
  {
    if |a| == 0 {
      assert a + b == b;
    } else {
      assert (a + b)[1..] == a[1..] + b;
      GetEither(a[1..], b, k);
    }
  }

  /** The model settings as the page shows them. */
  datatype Llm = Llm(baseUrl: string, modelName: string, modelType: string)

  /** The first entry of the name with a value. */
  function FirstPlain(env: seq<EnvVar>, name: string): Option<string> {
    if |env| == 0 then None
    else if env[0].name == name && env[0].value.Some? then env[0].value
    else FirstPlain(env[1..], name)
  }

  /** And the first over all containers. */
  function Shown(containers: seq<seq<EnvVar>>, name: string): Option<string> {
    if |containers| == 0 then None
    else if FirstPlain(containers[0], name).Some? then FirstPlain(containers[0], name)
    else Shown(containers[1..], name)
  }

  function Or(v: Option<string>, otherwise: string): string {
    if v.Some? then v.value else otherwise
  }

  /** The part of `collectAgentBehavior` that reads the Deployment. */
  method CollectLlm(containers: seq<seq<EnvVar>>) returns (llm: Option<Llm>)
    ensures llm == var url := Or(Shown(containers, "LLM_BASE_URL"), "");
                   if url == "" then None
                   else Some(Llm(url, Or(Shown(containers, "LLM_NAME"), ""),
                                 if Shown(containers, "LLM_MODEL_TYPE") == Some("openai") then "openai" else "nim"))
  {
    var env: seq<Pair<string>> := [];
    for i := 0 to |containers|
      invariant forall k :: Get(env, k) == Shown(containers[..i], k)
    {
      env := CollectFirst(env, containers[i]);
      forall k ensures Get(env, k) == Shown(containers[..i + 1], k) {
        ShownAppend(containers[..i], containers[i], k);
        assert containers[..i + 1] == containers[..i] + [containers[i]];
      }
    }
    assert containers[..|containers|] == containers;
    var baseUrl := Or(Get(env, "LLM_BASE_URL"), "");
    var modelType := if Get(env, "LLM_MODEL_TYPE") == Some("openai") then "openai" else "nim";
    if baseUrl == "" { return None; }
    return Some(Llm(baseUrl, Or(Get(env, "LLM_NAME"), ""), modelType));
  }

  /** One container: a name already known keeps its value. */
  method CollectFirst(known: seq<Pair<string>>, container: seq<EnvVar>) returns (env: seq<Pair<string>>)
    ensures forall k :: Get(env, k) == if Get(known, k).Some? then Get(known, k) else FirstPlain(container, k)
  {
    env := known;
    for i := 0 to |container|
      invariant forall k ::
        Get(env, k) == if Get(known, k).Some? then Get(known, k) else FirstPlain(container[..i], k)
    {
      var e, before := container[i], env;
      if e.value.Some? && Get(env, e.name).None? { env := Set(env, e.name, e.value.value); }
      forall k
        ensures Get(env, k) == if Get(known, k).Some? then Get(known, k) else FirstPlain(container[..i + 1], k)
      {
        FirstOfBoth(container[..i], [e], k);
        assert container[..i + 1] == container[..i] + [e];
        if e.value.Some? { SetThenGet(before, e.name, e.value.value, k); }
      }
    }
    assert container[..|container|] == container;
  }

  lemma {:induction false} FirstOfBoth(a: seq<EnvVar>, b: seq<EnvVar>, name: string)
    ensures FirstPlain(a + b, name) == if FirstPlain(a, name).Some? then FirstPlain(a, name) else FirstPlain(b, name)
  {
    if |a| == 0 {
      assert a + b == b;
    } else {
      assert (a + b)[1..] == a[1..] + b;
      FirstOfBoth(a[1..], b, name);
    }
  }

  lemma {:induction false} ShownAppend(containers: seq<seq<EnvVar>>, last: seq<EnvVar>, name: string)
    ensures Shown(containers + [last], name)
            == if Shown(containers, name).Some? then Shown(containers, name) else FirstPlain(last, name)
  {
    if |containers| == 0 {
      assert (containers + [last])[1..] == [];
    } else {
      assert (containers + [last])[1..] == containers[1..] + [last];
      ShownAppend(containers[1..], last, name);
    }
  }

  lemma {:induction false} FirstOfEntries(m: seq<Pair<string>>, name: string)
    ensures FirstPlain(PlainEntries(m), name) == Get(m, name)
  {
    if |m| > 0 {
      FirstOfEntries(m[1..], name);
      assert PlainEntries(m)[1..] == PlainEntries(m[1..]);
    }
  }

  lemma {:induction false} FirstOfPureRefs(m: seq<Pair<EnvVar>>, name: string)
    requires PureRefs(m)
    ensures FirstPlain(Values(m), name).None?
  {
    if |m| > 0 {
      FirstOfPureRefs(m[1..], name);
      assert Values(m)[1..] == Values(m[1..]);
    }
  }

  lemma ShownAfter(containers: seq<seq<EnvVar>>, p: EnvPatch, name: string)
    requires |containers| > 0 && Admitted(containers[0]) && name != "" && name != KEY
    ensures Shown([NewEnv(containers[0], p)] + containers[1..], name)
            == if Get(Patches(p), name).Some? then Get(Patches(p), name)
               else if LastPlain(containers[0], name).Some? then LastPlain(containers[0], name)
               else Shown(containers[1..], name)
  {
    var env := containers[0];
    Halves(env, p, name);
    RefsArePure(env);
    SetKeepsPure(RefMap(env), KEY, KEY_ENTRY);
    FirstOfPureRefs(Refs(env, p), name);
    FirstOfEntries(Plains(env, p), name);
    FirstOfBoth(Values(Refs(env, p)), PlainEntries(Plains(env, p)), name);
    assert ([NewEnv(env, p)] + containers[1..])[1..] == containers[1..];
  }

  lemma {:induction false} BothKnow(env: seq<EnvVar>, name: string)
    ensures FirstPlain(env, name).None? <==> forall i :: 0 <= i < |env| ==> env[i].name != name || env[i].value.None?
    ensures LastPlain(env, name).None? <==> forall i :: 0 <= i < |env| ==> env[i].name != name || env[i].value.None?
    decreases |env|
  {
    if |env| > 0 {
      BothKnow(env[1..], name);
      BothKnow(env[..|env| - 1], name);
    }
  }

  /** The setting reads as before exactly when its first and last value were the same. */
  predicate ShownAsBefore(before: seq<seq<EnvVar>>, now: seq<seq<EnvVar>>, name: string)
    requires |before| > 0
  {
    Shown(now, name) == Shown(before, name) <==> FirstPlain(before[0], name) == LastPlain(before[0], name)
  }

  /** A save is what the page shows afterwards, whatever stood there before and in the
      other containers: each setting saved reads as saved under its own field, and each
      other one as before, if and only if the first and the last of its values in the
      container written to are the same. */
  lemma SavedSettingsAreShown(containers: seq<seq<EnvVar>>, p: EnvPatch)
    requires |containers| > 0 && Admitted(containers[0])
    ensures var now := [NewEnv(containers[0], p)] + containers[1..];
            && (p.baseUrl.Some? ==> Shown(now, "LLM_BASE_URL") == p.baseUrl)
            && (p.modelName.Some? ==> Shown(now, "LLM_NAME") == p.modelName)
            && (p.modelType.Some? ==> Shown(now, "LLM_MODEL_TYPE") == p.modelType)
            && (p.baseUrl.None? ==> ShownAsBefore(containers, now, "LLM_BASE_URL"))
            && (p.modelName.None? ==> ShownAsBefore(containers, now, "LLM_NAME"))
            && (p.modelType.None? ==> ShownAsBefore(containers, now, "LLM_MODEL_TYPE"))
  {
    var a, b, c := "LLM_BASE_URL", "LLM_NAME", "LLM_MODEL_TYPE";
    assert a[0] != KEY[0] && b[0] != KEY[0] && c[0] != KEY[0];
    PatchSays(p);
    ShownAfter(containers, p, a);
    ShownAfter(containers, p, b);
    ShownAfter(containers, p, c);
    BothKnow(containers[0], a);
    BothKnow(containers[0], b);
    BothKnow(containers[0], c);
  }

  // ----- applying a patch twice ---------------------------------------------------------

  lemma {:induction false} PlainMapAppend(a: seq<EnvVar>, b: seq<EnvVar>)
    requires forall i :: 0 <= i < |a| ==> a[i].value.None?
    ensures PlainMap(a + b) == PlainMap(b)
  {
    if |b| > 0 {
      assert (a + b)[..|a + b| - 1] == a + b[..|b| - 1];
      PlainMapAppend(a, b[..|b| - 1]);
    } else {
      assert a + b == a;
      NoPlain(a);
    }
  }

  lemma {:induction false} NoPlain(a: seq<EnvVar>)
    requires forall i :: 0 <= i < |a| ==> a[i].value.None?
    ensures PlainMap(a) == []
  {
    if |a| > 0 { NoPlain(a[..|a| - 1]); }
  }

  lemma {:induction false} RefMapIgnoresPlain(a: seq<EnvVar>, b: seq<EnvVar>)
    requires forall i :: 0 <= i < |b| ==> b[i].valueFrom.None?
    ensures RefMap(a + b) == RefMap(a)
  {
    if |b| > 0 {
      assert (a + b)[..|a + b| - 1] == a + b[..|b| - 1];
      RefMapIgnoresPlain(a, b[..|b| - 1]);
    } else {
      assert a + b == a;
    }
  }

  lemma {:induction false} SetNew<V>(m: seq<Pair<V>>, k: string, v: V)
    requires Get(m, k).None?
    ensures Set(m, k, v) == m + [Pair(k, v)]
  {
    if |m| > 0 {
      SetNew(m[1..], k, v);
      assert m + [Pair(k, v)] == [m[0]] + (m[1..] + [Pair(k, v)]);
    }
  }

  lemma {:induction false} PlainMapOfEntries(m: seq<Pair<string>>)
    requires Keyed(m) && forall i :: 0 <= i < |m| ==> m[i].key != ""
    ensures PlainMap(PlainEntries(m)) == m
  {
    if |m| > 0 {
      var t, last := m[..|m| - 1], m[|m| - 1];
      PlainMapOfEntries(t);
      assert PlainEntries(m)[..|m| - 1] == PlainEntries(t);
      GetMisses(t, last.key);
      SetNew(t, last.key, last.value);
      assert m == t + [last];
    }
  }

  lemma {:induction false} RefMapOfValues(m: seq<Pair<EnvVar>>)
    requires Keyed(m) && Filed(m)
    ensures RefMap(Values(m)) == m
  {
    if |m| > 0 {
      var t, last := m[..|m| - 1], m[|m| - 1];
      RefMapOfValues(t);
      assert Values(m)[..|m| - 1] == Values(t);
      GetMisses(t, last.key);
      SetNew(t, last.key, last.value);
      assert m == t + [last];
    }
  }

  lemma {:induction false} SetAllAgain(m: seq<Pair<string>>, ps: seq<Pair<string>>)
    requires forall i :: 0 <= i < |ps| ==> Get(m, ps[i].key) == Some(ps[i].value)
    ensures SetAll(m, ps) == m
  {
    if |ps| > 0 {
      SetAllAgain(m, ps[..|ps| - 1]);
      SetAgain(m, ps[|ps| - 1].key, ps[|ps| - 1].value);
    }
  }

  /** No reference entry carries a value besides. */
  ghost predicate PureRefs(m: seq<Pair<EnvVar>>) {
    forall i :: 0 <= i < |m| ==> m[i].value.value.None?
  }

  lemma {:induction false} SetKeepsPure(m: seq<Pair<EnvVar>>, k: string, e: EnvVar)
    requires PureRefs(m) && e.value.None?
    ensures PureRefs(Set(m, k, e))
  {
    if |m| > 0 && m[0].key != k { SetKeepsPure(m[1..], k, e); }
  }

  lemma {:induction false} RefsArePure(env: seq<EnvVar>)
    requires Admitted(env)
    ensures PureRefs(RefMap(env))
  {
    if |env| > 0 {
      var t, e := env[..|env| - 1], env[|env| - 1];
      assert forall i :: 0 <= i < |t| ==> t[i] == env[i];
      RefsArePure(t);
      if e.name != "" && e.valueFrom.Some? { SetKeepsPure(RefMap(t), e.name, e); }
    }
  }

  /** Reading the new array gives back the two maps it was made from. */
  lemma ReadsBack(env: seq<EnvVar>, p: EnvPatch)
    requires Admitted(env)
    ensures PlainMap(NewEnv(env, p)) == Plains(env, p) && RefMap(NewEnv(env, p)) == Refs(env, p)
  {
    var refs, plains := Refs(env, p), Plains(env, p);
    Halves(env, p, KEY) by { assert |KEY| > 0; }
    RefsArePure(env);
    SetKeepsPure(RefMap(env), KEY, KEY_ENTRY);
    GetMisses(plains, "");
    PlainMapAppend(Values(refs), PlainEntries(plains));
    PlainMapOfEntries(plains);
    RefMapIgnoresPlain(Values(refs), PlainEntries(plains));
    RefMapOfValues(refs);
  }

  lemma PatchesAreSet(env: seq<EnvVar>, p: EnvPatch)
    ensures var ps := Patches(p); forall i :: 0 <= i < |ps| ==> Get(Plains(env, p), ps[i].key) == Some(ps[i].value)
  {
    var ps := Patches(p);
    PatchKeys(p);
    forall i | 0 <= i < |ps| ensures Get(Plains(env, p), ps[i].key) == Some(ps[i].value) {
      GetKnows(ps, i);
      Halves(env, p, ps[i].key);
    }
  }

  /** Applying the same patch again gives the same array, order included. */
  lemma PatchingTwiceIsPatchingOnce(env: seq<EnvVar>, p: EnvPatch)
    requires Admitted(env)
    ensures NewEnv(NewEnv(env, p), p) == NewEnv(env, p)
  {
    var refs, plains := Refs(env, p), Plains(env, p);
    assert KEY != "" by { assert |KEY| > 0; }
    PatchKeys(p);
    Halves(env, p, KEY);
    ReadsBack(env, p);
    PatchesAreSet(env, p);
    SetAllAgain(plains, Patches(p));
    if Wires(p) {
      DeleteAbsent(plains, KEY);
      SetAgain(refs, KEY, KEY_ENTRY);
    }
  }

  // ----- the config document --------------------------------------------------------------

  datatype Value = Scalar(text: string) | Object(fields: map<string, Value>)

  type Fields = map<string, Value>

  datatype ConfigPatch = ConfigPatch(maxIterations: Option<string>, prompt: Option<string>, stripTemperature: bool)

  function FieldsOf(m: Fields, k: string): Fields {
    if k in m && m[k].Object? then m[k].fields else map[]
  }

  function WithField(m: Fields, k: string, v: Option<string>): Fields {
    if v.Some? then m[k := Scalar(v.value)] else m
  }

  const MAX := "max_iterations"
  const PROMPT := "prompt"

  function Strip(llms: Fields, profile: string): Fields {
    if profile in llms && llms[profile].Object?
    then llms[profile := Object(llms[profile].fields - {"temperature"})] else llms
  }

  /** The document `patchAgentWorkflowConfig` writes for the one it read. */
  function Patched(doc: Fields, p: ConfigPatch): Fields {
    var workflow := WithField(WithField(FieldsOf(doc, "workflow"), MAX, p.maxIterations), PROMPT, p.prompt);
    var d := doc["workflow" := Object(workflow)];
    if p.stripTemperature && "llms" in d && d["llms"].Object?
    then d["llms" := Object(Strip(Strip(d["llms"].fields, "openai_llm"), "llm"))] else d
  }

  /** What stands at a path of keys, scalars only. */
  function At(doc: Fields, path: seq<string>): Option<string>
    decreases |path|
  {
    if |path| == 0 || path[0] !in doc then None
    else match doc[path[0]]
      case Scalar(text) => if |path| == 1 then Some(text) else None
      case Object(fields) => At(fields, path[1..])
  }

  /** The places a patch is about. */
  predicate Targeted(p: ConfigPatch, path: seq<string>) {
    || path == ["workflow"]
    || (p.maxIterations.Some? && |path| >= 2 && path[..2] == ["workflow", MAX])
    || (p.prompt.Some? && |path| >= 2 && path[..2] == ["workflow", PROMPT])
    || (p.stripTemperature && |path| >= 3 && path[0] == "llms" && path[1] in ["openai_llm", "llm"]
        && path[2] == "temperature")
  }

  lemma StripKeeps(llms: Fields, profile: string, path: seq<string>)
    requires !(|path| >= 2 && path[0] == profile && path[1] == "temperature")
    ensures At(Strip(llms, profile), path) == At(llms, path)
  {
    if |path| >= 1 && path[0] == profile && profile in llms && llms[profile].Object? {
      var fields := llms[profile].fields;
      assert At(Strip(llms, profile), path) == At(fields - {"temperature"}, path[1..]);
      if |path| >= 2 { assert path[1..][0] == path[1]; }
    }
  }

  /** Every scalar that is not a target of the patch stays where it is, at any depth. */
  lemma UntargetedStays(doc: Fields, p: ConfigPatch, path: seq<string>)
    requires !Targeted(p, path)
    ensures At(Patched(doc, p), path) == At(doc, path)
  {
    if |path| >= 1 && path[0] == "workflow" {
      WorkflowStays(doc, p, path);
    } else if |path| >= 1 && path[0] == "llms" && p.stripTemperature && "llms" in doc && doc["llms"].Object? {
      var llms := doc["llms"].fields;
      var rest := path[1..];
      assert |rest| >= 2 ==> rest[0] == path[1] && rest[1] == path[2];
      StripKeeps(llms, "openai_llm", rest);
      StripKeeps(Strip(llms, "openai_llm"), "llm", rest);
    }
  }

  lemma WorkflowStays(doc: Fields, p: ConfigPatch, path: seq<string>)
    requires !Targeted(p, path) && |path| >= 1 && path[0] == "workflow"
    ensures At(Patched(doc, p), path) == At(doc, path)
  {
    assert "workflow" != "llms" by { assert |"workflow"| != |"llms"|; }
    assert |path| == 1 ==> path == ["workflow"];
    assert path[..2] == [path[0], path[1]] && path[1..][0] == path[1];
  }

  lemma StripGone(llms: Fields, profile: string, path: seq<string>)
    requires |path| == 2 && path[0] == profile && path[1] == "temperature"
    ensures At(Strip(llms, profile), path).None?
  {
    assert path[1..][0] == path[1];
  }

  /** The targets read as asked afterwards. */
  lemma WorkflowIsSet(doc: Fields, p: ConfigPatch, path: seq<string>)
    requires |path| == 2 && path[0] == "workflow"
    ensures path[1] == MAX && p.maxIterations.Some? ==> At(Patched(doc, p), path) == p.maxIterations
    ensures path[1] == PROMPT && p.prompt.Some? ==> At(Patched(doc, p), path) == p.prompt
  {
    assert MAX != PROMPT by { assert |MAX| != |PROMPT|; }
    assert "workflow" != "llms" by { assert |"workflow"| != |"llms"|; }
    assert path[1..][0] == path[1];
  }

  lemma TemperatureIsGone(doc: Fields, p: ConfigPatch, path: seq<string>)
    requires p.stripTemperature && |path| == 3 && path[0] == "llms" && path[2] == "temperature"
    requires path[1] == "openai_llm" || path[1] == "llm"
    ensures At(Patched(doc, p), path).None?
  {
    assert "workflow" != "llms" by { assert |"workflow"| != |"llms"|; }
    var rest := path[1..];
    assert rest[0] == path[1] && rest[1] == path[2];
    if "llms" in doc && doc["llms"].Object? {
      var once := Strip(doc["llms"].fields, "openai_llm");
      if path[1] == "llm" {
        StripGone(once, "llm", rest);
      } else {
        assert "openai_llm" != "llm" by { assert |"openai_llm"| != |"llm"|; }
        StripGone(doc["llms"].fields, "openai_llm", rest);
        StripKeeps(once, "llm", rest);
      }
    }
  }
}
