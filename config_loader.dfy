/** `config/loader.ts`: the deep merge `overwrite(def).with(cfg)`, the `prune`
    applied to the environment configuration, and the merge order of
    `resolveConfig`. Configuration values are JSON-like; an object is an
    association list in insertion order. */
module ConfigLoader {
  type Fields = seq<(string, Json)>

  datatype Json =
    | Undefined
    | Null
    | Bool(b: bool)
    | Num(n: int)
    | Str(s: string)
    | Arr(items: seq<Json>)
    | Obj(fields: Fields)

  /** A size that decreases into nested objects. */
  function Size(j: Json): nat
    decreases j, if j.Obj? then |j.fields| + 1 else 0
  {
    match j
    case Obj(fs) => 1 + SumSizesFrom(fs, 0)
    case _ => 1
  }

  function SumSizesFrom(fs: Fields, i: nat): nat
    decreases Obj(fs), |fs| - i
  {
    if i >= |fs| then 0 else Size(fs[i].1) + SumSizesFrom(fs, i + 1)
  }

  function SumSizes(fs: Fields): nat {
    SumSizesFrom(fs, 0)
  }

  lemma {:induction false} SumSizesFromShift(fs: Fields, i: nat)
    requires fs != [] && 1 <= i
    ensures SumSizesFrom(fs, i) == SumSizesFrom(fs[1..], i - 1)
    decreases |fs| - i
  {
    if i < |fs| {
      assert fs[1..][i - 1] == fs[i];
      SumSizesFromShift(fs, i + 1);
    }
  }

  /** The size of all entries is the first entry's plus the rest's. */
  lemma SumSizesCons(fs: Fields)
    requires fs != []
    ensures SumSizes(fs) == Size(fs[0].1) + SumSizes(fs[1..])
  {
    SumSizesFromShift(fs, 1);
  }

  lemma {:induction false} SumSizesBound(fs: Fields, i: nat)
    requires i < |fs|
    ensures Size(fs[i].1) <= SumSizes(fs)
    decreases i
  {
    SumSizesCons(fs);
    if i > 0 {
      assert fs[1..][i - 1] == fs[i];
      SumSizesBound(fs[1..], i - 1);
    }
  }

  predicate HasKey(fs: Fields, k: string) {
    exists i :: 0 <= i < |fs| && fs[i].0 == k
  }

  predicate NoDupKeys(fs: Fields) {
    forall i, j :: 0 <= i < j < |fs| ==> fs[i].0 != fs[j].0
  }

  /** `obj[k]`: `undefined` when the key is missing. */
  function Get(fs: Fields, k: string): (r: Json)
    ensures !HasKey(fs, k) ==> r == Undefined
    decreases |fs|
  {
    if fs == [] then Undefined
    else if fs[0].0 == k then fs[0].1
    else
      assert forall i :: 1 <= i < |fs| ==> fs[1..][i - 1] == fs[i];
      Get(fs[1..], k)
  }

  /** `obj[k] = v`: an existing key keeps its place, a new one goes last. */
  function Set(fs: Fields, k: string, v: Json): (r: Fields)
    ensures Get(r, k) == v
    ensures forall k' :: k' != k ==> Get(r, k') == Get(fs, k')
    decreases |fs|
  {
    if fs == [] then [(k, v)]
    else if fs[0].0 == k then
      var r := [(k, v)] + fs[1..];
      assert forall i :: 1 <= i < |fs| ==> r[i] == fs[i];
      assert r[0].0 == fs[0].0;
      r
    else
      var rest := Set(fs[1..], k, v);
      var r := [fs[0]] + rest;
      assert forall i :: 1 <= i < |r| ==> r[i] == rest[i - 1];
      assert forall i :: 1 <= i < |fs| ==> fs[i] == fs[1..][i - 1];
      r
  }

  /** The keys `overwrite` refuses to copy. */
  predicate IsForbiddenKey(k: string) {
    k == "__proto__" || k == "constructor" || k == "prototype"
  }

  /** What `isPlainObject(out[k])` leaves to merge into: the object's
      fields, or a fresh `{}`. */
  function BaseFields(d: Json): Fields {
    if d.Obj? then d.fields else []
  }

  /** One entry of the `overwrite` loop applied to `out`. */
  function Step(out: Fields, k: string, v: Json): Fields
    decreases Size(v), 0
  {
    if v.Undefined? || IsForbiddenKey(k) then out
    else if v.Obj? then Set(out, k, Obj(OverwriteWith(BaseFields(Get(out, k)), v.fields)))
    else Set(out, k, v)
  }

  /** `overwrite(out).with(entries)`, entry by entry from the front. */
  function OverwriteWith(out: Fields, entries: Fields): Fields
    decreases SumSizes(entries), 1
  {
    if entries == [] then out
    else
      SumSizesCons(entries);
      OverwriteWith(Step(out, entries[0].0, entries[0].1), entries[1..])
  }

  /** The value `overwrite` leaves at one key: the default when the source
      value is undefined or the key is refused, a recursive merge for a
      plain object, the source value otherwise (arrays are copied whole). */
  function Merged(d: Json, c: Json, k: string): Json
    decreases Size(c)
  {
    if c.Undefined? || IsForbiddenKey(k) then d
    else if c.Obj? then Obj(OverwriteWith(BaseFields(d), c.fields))
    else c
  }

  /** The loop of `overwrite(...).with(...)`: `out` starts as a shallow copy of
      the default and each entry of `cfg` is applied in insertion order; a
      nested plain object is merged by a recursive call. */
  method Overwrite(def: Fields, cfg: Fields) returns (out: Fields)
    ensures out == OverwriteWith(def, cfg)
    decreases SumSizes(cfg)
  {
    out := def;
    var i := 0;
    while i < |cfg|
      invariant 0 <= i <= |cfg|
      invariant OverwriteWith(out, cfg[i..]) == OverwriteWith(def, cfg)
    {
      var (k, v) := cfg[i];
      assert cfg[i..][1..] == cfg[i + 1..];
      if v.Undefined? || IsForbiddenKey(k) {
      } else if v.Arr? {
        out := Set(out, k, v);
      } else if v.Obj? {
        var base := Get(out, k);
        if !base.Obj? {
          base := Obj([]);
          SetSet(out, k, base, Obj(OverwriteWith([], v.fields)));
          out := Set(out, k, base);
        }
        SumSizesBound(cfg, i);
        var sub := Overwrite(base.fields, v.fields);
        out := Set(out, k, Obj(sub));
      } else {
        out := Set(out, k, v);
      }
      i := i + 1;
    }
  }

  /** Setting a key twice keeps only the second value, in the first place. */
  lemma {:induction false} SetSet(fs: Fields, k: string, v1: Json, v2: Json)
    ensures Set(Set(fs, k, v1), k, v2) == Set(fs, k, v2)
    decreases |fs|
  {
    if fs != [] && fs[0].0 != k {
      SetSet(fs[1..], k, v1, v2);
    }
  }

  /** After `overwrite`, each key holds the merge of its default and source
      values; in particular keys only in the default survive unchanged. */
  lemma {:induction false} OverwriteGet(def: Fields, cfg: Fields, k: string)
    requires NoDupKeys(cfg)
    ensures Get(OverwriteWith(def, cfg), k) == Merged(Get(def, k), Get(cfg, k), k)
    decreases |cfg|
  {
    if cfg != [] {
      var (k0, v0) := cfg[0];
      var out1 := Step(def, k0, v0);
      assert NoDupKeys(cfg[1..]);
      OverwriteGet(out1, cfg[1..], k);
      if k0 == k {
        assert !HasKey(cfg[1..], k) by {
          forall i | 0 <= i < |cfg[1..]| ensures cfg[1..][i].0 != k {
            assert cfg[1..][i] == cfg[i + 1];
          }
        }
      } else {
        assert Get(out1, k) == Get(def, k);
      }
    }
  }

  /** The keys of the result: every default key, and each source key whose
      value is defined and is not refused. */
  lemma {:induction false} OverwriteKeys(def: Fields, cfg: Fields, k: string)
    ensures HasKey(OverwriteWith(def, cfg), k) ==>
      HasKey(def, k) || (HasKey(cfg, k) && !IsForbiddenKey(k))
    ensures HasKey(def, k) ==> HasKey(OverwriteWith(def, cfg), k)
    decreases |cfg|
  {
    if cfg != [] {
      var (k0, v0) := cfg[0];
      var out1 := Step(def, k0, v0);
      StepKeys(def, k0, v0, k);
      OverwriteKeys(out1, cfg[1..], k);
      if HasKey(cfg[1..], k) {
        var i :| 0 <= i < |cfg[1..]| && cfg[1..][i].0 == k;
        assert cfg[i + 1].0 == k;
      }
    }
  }

  lemma StepKeys(out: Fields, k0: string, v0: Json, k: string)
    ensures HasKey(Step(out, k0, v0), k) ==> HasKey(out, k) || (k == k0 && !IsForbiddenKey(k))
    ensures HasKey(out, k) ==> HasKey(Step(out, k0, v0), k)
  {
    if !(v0.Undefined? || IsForbiddenKey(k0)) {
      if v0.Obj? {
        SetHasKey(out, k0, Obj(OverwriteWith(BaseFields(Get(out, k0)), v0.fields)), k);
      } else {
        SetHasKey(out, k0, v0, k);
      }
    }
  }

  lemma {:induction false} SetHasKey(fs: Fields, k0: string, v: Json, k: string)
    ensures HasKey(Set(fs, k0, v), k) <==> HasKey(fs, k) || k == k0
    decreases |fs|
  {
    var r := Set(fs, k0, v);
    if fs == [] {
      assert r[0].0 == k0;
    } else if fs[0].0 == k0 {
      assert forall i :: 1 <= i < |fs| ==> r[i] == fs[i];
      assert r[0].0 == k0;
    } else {
      SetHasKey(fs[1..], k0, v, k);
      assert forall i :: 1 <= i < |r| ==> r[i] == Set(fs[1..], k0, v)[i - 1];
      assert forall i :: 1 <= i < |fs| ==> fs[i] == fs[1..][i - 1];
      assert r[0] == fs[0];
    }
  }

  /** `resolveConfig`: the file configuration over the defaults, then the
      environment, then the command line. */
  function ResolveMerge(def: Fields, file: Fields, env: Fields, cli: Fields): Fields {
    OverwriteWith(OverwriteWith(OverwriteWith(def, file), env), cli)
  }

  /** A value that `overwrite` copies as it is. */
  predicate IsLeaf(j: Json) {
    !j.Undefined? && !j.Obj?
  }

  /** Precedence: for a key no layer holds as an object, the command line wins
      over the environment, which wins over the file, which wins over the
      defaults; undefined layers are passed over. */
  lemma MergePrecedence(def: Fields, file: Fields, env: Fields, cli: Fields, k: string)
    requires NoDupKeys(file) && NoDupKeys(env) && NoDupKeys(cli)
    requires !IsForbiddenKey(k)
    requires !Get(def, k).Obj? && !Get(file, k).Obj? && !Get(env, k).Obj? && !Get(cli, k).Obj?
    ensures Get(ResolveMerge(def, file, env, cli), k) ==
      if IsLeaf(Get(cli, k)) then Get(cli, k)
      else if IsLeaf(Get(env, k)) then Get(env, k)
      else if IsLeaf(Get(file, k)) then Get(file, k)
      else Get(def, k)
  {
    OverwriteGet(def, file, k);
    OverwriteGet(OverwriteWith(def, file), env, k);
    OverwriteGet(OverwriteWith(OverwriteWith(def, file), env), cli, k);
  }

  /** A refused key keeps whatever the default had, at every layer. */
  lemma MergeIgnoresForbidden(def: Fields, file: Fields, env: Fields, cli: Fields, k: string)
    requires NoDupKeys(file) && NoDupKeys(env) && NoDupKeys(cli)
    requires IsForbiddenKey(k)
    ensures Get(ResolveMerge(def, file, env, cli), k) == Get(def, k)
  {
    OverwriteGet(def, file, k);
    OverwriteGet(OverwriteWith(def, file), env, k);
    OverwriteGet(OverwriteWith(OverwriteWith(def, file), env), cli, k);
  }

  /** `prune(cfg)`: an object keeps only the entries whose pruned value is
      defined, and an object left empty becomes `undefined`; any other value
      is returned as it is. */
  function Pruned(j: Json): Json
    decreases Size(j), 0
  {
    if j.Obj? then
      var sub := PrunedFields(j.fields);
      if |sub| > 0 then Obj(sub) else Undefined
    else j
  }

  function PrunedFields(fs: Fields): Fields
    decreases SumSizes(fs), 1
  {
    if fs == [] then []
    else
      SumSizesCons(fs);
      var p := Pruned(fs[0].1);
      (if p.Undefined? then [] else [(fs[0].0, p)]) + PrunedFields(fs[1..])
  }

  /** The loop of `prune`: a fresh `subCfg` receives each defined pruned entry. */
  method Prune(cfg: Json) returns (r: Json)
    ensures r == Pruned(cfg)
    decreases Size(cfg)
  {
    if !cfg.Obj? {
      return cfg;
    }
    var fs := cfg.fields;
    var sub: Fields := [];
    var i := 0;
    while i < |fs|
      invariant 0 <= i <= |fs|
      invariant sub + PrunedFields(fs[i..]) == PrunedFields(fs)
    {
      assert fs[i..][1..] == fs[i + 1..];
      SumSizesBound(fs, i);
      var prv := Prune(fs[i].1);
      if !prv.Undefined? {
        sub := sub + [(fs[i].0, prv)];
      }
      i := i + 1;
    }
    assert fs[i..] == [];
    r := if |sub| > 0 then Obj(sub) else Undefined;
  }

  /** `prune(envCfg) ?? {}`. */
  function PruneTop(cfg: Json): (r: Json)
    ensures !r.Undefined? && !r.Null?
  {
    var p := Pruned(cfg);
    if p.Undefined? || p.Null? then Obj([]) else p
  }

  /** A pruned value holds no `undefined` entry and no empty object at any depth. */
  predicate Clean(j: Json)
    decreases Size(j), 0
  {
    j.Obj? ==> j.fields != [] && CleanFields(j.fields)
  }

  predicate CleanFields(fs: Fields)
    decreases SumSizes(fs), 1
  {
    fs == [] || (SumSizesCons(fs); !fs[0].1.Undefined? && Clean(fs[0].1) && CleanFields(fs[1..]))
  }

  lemma {:induction false} PrunedIsClean(j: Json)
    ensures !Pruned(j).Undefined? ==> Clean(Pruned(j))
    decreases Size(j), 0
  {
    if j.Obj? {
      PrunedFieldsClean(j.fields);
    }
  }

  lemma {:induction false} PrunedFieldsClean(fs: Fields)
    ensures CleanFields(PrunedFields(fs))
    decreases SumSizes(fs), 1
  {
    if fs != [] {
      SumSizesCons(fs);
      PrunedIsClean(fs[0].1);
      PrunedFieldsClean(fs[1..]);
      var p := Pruned(fs[0].1);
      var rest := PrunedFields(fs[1..]);
      if !p.Undefined? {
        var r := [(fs[0].0, p)] + rest;
        assert PrunedFields(fs) == r;
        assert r[1..] == rest;
        assert r[0].1 == p;
        SumSizesCons(r);
        assert CleanFields(r);
      } else {
        assert PrunedFields(fs) == rest;
      }
    }
  }

  /** A clean value is left as it is, so pruning twice is pruning once. */
  lemma {:induction false} CleanIsFixed(j: Json)
    requires Clean(j)
    ensures Pruned(j) == j
    decreases Size(j), 0
  {
    if j.Obj? {
      CleanFieldsFixed(j.fields);
    }
  }

  lemma {:induction false} CleanFieldsFixed(fs: Fields)
    requires CleanFields(fs)
    ensures PrunedFields(fs) == fs
    decreases SumSizes(fs), 1
  {
    if fs != [] {
      SumSizesCons(fs);
      CleanIsFixed(fs[0].1);
      CleanFieldsFixed(fs[1..]);
    }
  }

  lemma PruneIdempotent(j: Json)
    ensures Pruned(Pruned(j)) == Pruned(j)
  {
    PrunedIsClean(j);
    if !Pruned(j).Undefined? {
      CleanIsFixed(Pruned(j));
    }
  }

  /** Pruning an object acts key by key: each key holds the pruned value of
      the original, so `false`, `0` and `""` survive and only `undefined`
      (or an object pruned to nothing) disappears. */
  lemma {:induction false} PrunedFieldsGet(fs: Fields, k: string)
    requires NoDupKeys(fs)
    ensures Get(PrunedFields(fs), k) == Pruned(Get(fs, k))
    decreases |fs|
  {
    if fs != [] {
      assert NoDupKeys(fs[1..]);
      PrunedFieldsGet(fs[1..], k);
      var p := Pruned(fs[0].1);
      var rest := PrunedFields(fs[1..]);
      if p.Undefined? {
        assert PrunedFields(fs) == rest;
      } else {
        assert PrunedFields(fs) == [(fs[0].0, p)] + rest;
      }
      if fs[0].0 == k {
        assert !HasKey(fs[1..], k) by {
          forall i | 0 <= i < |fs[1..]| ensures fs[1..][i].0 != k {
            assert fs[1..][i] == fs[i + 1];
          }
        }
      }
    }
  }
}
