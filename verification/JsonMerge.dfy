/** Nested configuration dictionaries and the recursive in-place merge that
    appears as update_base in upgrade_configuration.py and as nested_update in
    lib.py. A dictionary is a map; a Python exception is None. */
module JsonMerge {

  import opened Common

  datatype Json =
    | Null
    | Bool(b: bool)
    | Num(n: int)
    | Str(s: string)
    | Arr(items: seq<Json>)
    | Obj(fields: map<string, Json>)

  const EMPTY: Json := Obj(map[])

  // -------------------------------------------------- Python's `in` and len() on JSON

  predicate IsSubstring(a: string, b: string) {
    a <= b || (b != [] && IsSubstring(a, b[1..]))
  }

  function Contains(j: Json, key: string): Option<bool> {
    match j
    case Obj(m) => Some(key in m)
    case Arr(items) => Some(Str(key) in items)
    case Str(s) => Some(IsSubstring(key, s))
    case _ => None
  }

  function Length(j: Json): Option<nat> {
    match j
    case Obj(m) => Some(|m|)
    case Arr(items) => Some(|items|)
    case Str(s) => Some(|s|)
    case _ => None
  }

  // ------------------------------------------------------------------- the merge

  /** The value a key ends up with: dictionaries merge into what was there,
      anything else replaces it. */
  function MergeValue(was: Option<Json>, v: Json): Option<Json>
    decreases v, 1
  {
    if v.Obj? then Merge(if was.Some? then was.value else EMPTY, v) else Some(v)
  }

  function Get(j: Json, key: string): Option<Json> {
    if j.Obj? && key in j.fields then Some(j.fields[key]) else None
  }

  /** Merging a non-empty dictionary into something that is not a dictionary
      raises; merging an empty one leaves any base as it is. */
  function Merge(base: Json, updates: Json): Option<Json>
    requires updates.Obj?
    decreases updates, 0
  {
    var u := updates.fields;
    if u == map[] then Some(base)
    else if !base.Obj? then None
    else if exists k | k in u :: MergeValue(Get(base, k), u[k]).None? then None
    else Some(Obj(map k | k in base.fields.Keys + u.Keys ::
                    if k in u then MergeValue(Get(base, k), u[k]).value else base.fields[k]))
  }

  /** The loop, which visits the keys in whatever order the dictionary yields
      them and changes the base one key at a time. */
  method UpdateBase(base: Json, updates: Json) returns (r: Option<Json>)
    requires updates.Obj?
    ensures r == Merge(base, updates)
    decreases updates
  {
    var u := updates.fields;
    var current := base;
    var todo := u.Keys;
    while todo != {}
      invariant todo <= u.Keys
      invariant base.Obj? || todo == u.Keys
      invariant !base.Obj? ==> current == base
      invariant base.Obj? ==> PartlyMerged(base, updates, todo, current)
    {
      var k :| k in todo;
      if !current.Obj? {
        return None;
      }
      var v := u[k];
      if v.Obj? {
        var merged := UpdateBase(if k in current.fields then current.fields[k] else EMPTY, v);
        if merged.None? {
          return None;
        }
        v := merged.value;
      }
      current := Obj(current.fields[k := v]);
      todo := todo - {k};
    }
    if base.Obj? {
      FullyMerged(base, updates, current);
    } else {
      assert u == map[];
    }
    r := Some(current);
  }

  ghost predicate PartlyMerged(base: Json, updates: Json, todo: set<string>, current: Json)
    requires base.Obj? && updates.Obj? && todo <= updates.fields.Keys
  {
    && current.Obj?
    && current.fields.Keys == base.fields.Keys + (updates.fields.Keys - todo)
    && forall k | k in current.fields ::
         if k in updates.fields && k !in todo
         then MergeValue(Get(base, k), updates.fields[k]) == Some(current.fields[k])
         else current.fields[k] == base.fields[k]
  }

  lemma FullyMerged(base: Json, updates: Json, current: Json)
    requires base.Obj? && updates.Obj? && PartlyMerged(base, updates, {}, current)
    ensures Merge(base, updates) == Some(current)
  {
    var u := updates.fields;
    assert forall k | k in u :: k in current.fields;
    if u == map[] {
      assert current.fields == base.fields;
    } else {
      assert !exists k | k in u :: MergeValue(Get(base, k), u[k]).None?;
      assert Merge(base, updates).value.fields == current.fields;
    }
  }

  // -------------------------------------------------------------- merging key by key

  ghost predicate FieldsMerge(base: Json, updates: Json)
    requires updates.Obj?
  {
    forall k | k in updates.fields :: MergeValue(Get(base, k), updates.fields[k]).Some?
  }

  /** The key-by-key reading of a merge into a dictionary, empty updates included. */
  lemma MergeFields(base: Json, updates: Json)
    requires base.Obj? && updates.Obj?
    ensures Merge(base, updates).Some? <==> FieldsMerge(base, updates)
    ensures Merge(base, updates).Some? ==>
              var r := Merge(base, updates).value;
              && r.Obj? && r.fields.Keys == base.fields.Keys + updates.fields.Keys
              && forall k :: Get(r, k) == if k in updates.fields then MergeValue(Get(base, k), updates.fields[k])
                                          else Get(base, k)
  {
  }

  lemma EqualByKeys(a: Json, b: Json)
    requires a.Obj? && b.Obj? && forall k :: Get(a, k) == Get(b, k)
    ensures a == b
  {
    forall k
      ensures k in a.fields <==> k in b.fields
      ensures k in a.fields ==> a.fields[k] == b.fields[k]
    {
      assert Get(a, k) == Get(b, k);
    }
    assert a.fields == b.fields;
  }

  lemma {:induction false} MergeIntoEmpty(u: Json)
    requires u.Obj?
    ensures Merge(EMPTY, u) == Some(u)
    decreases u
  {
    forall k | k in u.fields
      ensures MergeValue(None, u.fields[k]) == Some(u.fields[k])
    {
      if u.fields[k].Obj? { MergeIntoEmpty(u.fields[k]); }
    }
    MergeFields(EMPTY, u);
    EqualByKeys(Merge(EMPTY, u).value, u);
  }

  // ---------------------------------------------------------------------- paths

  function Lookup(j: Json, path: seq<string>): Option<Json>
    decreases path
  {
    if path == [] then Some(j)
    else if j.Obj? && path[0] in j.fields then Lookup(j.fields[path[0]], path[1..])
    else None
  }

  predicate IsLeaf(j: Option<Json>) {
    j.Some? && !j.value.Obj?
  }

  /** Some step on the way to `path` is a leaf. */
  predicate CutOff(j: Json, path: seq<string>) {
    exists i | 0 <= i < |path| :: IsLeaf(Lookup(j, path[..i]))
  }

  lemma CutOffStep(j: Json, path: seq<string>)
    requires path != [] && j.Obj?
    ensures CutOff(j, path) <==> path[0] in j.fields && CutOff(j.fields[path[0]], path[1..])
  {
    if CutOff(j, path) {
      var i :| 0 <= i < |path| && IsLeaf(Lookup(j, path[..i]));
      assert i > 0;
      assert path[..i][0] == path[0] && path[..i][1..] == path[1..][..i - 1];
    }
    if path[0] in j.fields && CutOff(j.fields[path[0]], path[1..]) {
      var i :| 0 <= i < |path[1..]| && IsLeaf(Lookup(j.fields[path[0]], path[1..][..i]));
      assert path[..i + 1][0] == path[0] && path[..i + 1][1..] == path[1..][..i];
      assert IsLeaf(Lookup(j, path[..i + 1]));
    }
  }

  /** What is found at a path after a merge, in terms of the two arguments only. */
  function Expected(base: Json, updates: Json, path: seq<string>): Option<Json> {
    var u := Lookup(updates, path);
    if u.Some? then MergeValue(Lookup(base, path), u.value)
    else if CutOff(updates, path) then None
    else Lookup(base, path)
  }

  lemma {:induction false} MergeLookup(base: Json, updates: Json, path: seq<string>)
    requires updates.Obj? && Merge(base, updates).Some?
    ensures Lookup(Merge(base, updates).value, path) == Expected(base, updates, path)
    decreases path
  {
    if path != [] {
      CutOffStep(updates, path);
      if base.Obj? {
        MergeFields(base, updates);
        var r, k := Merge(base, updates).value, path[0];
        assert Get(r, k) == if k in updates.fields then MergeValue(Get(base, k), updates.fields[k]) else Get(base, k);
        if k in updates.fields {
          LookupUnderKey(base, updates, path);
        }
      }
    }
  }

  lemma {:induction false} LookupUnderKey(base: Json, updates: Json, path: seq<string>)
    requires base.Obj? && updates.Obj? && Merge(base, updates).Some?
    requires path != [] && path[0] in updates.fields
    ensures Lookup(Merge(base, updates).value, path) == Expected(base, updates, path)
    decreases path, 0
  {
    var k, rest := path[0], path[1..];
    var was, v := Get(base, k), updates.fields[k];
    MergeFields(base, updates);
    assert Get(Merge(base, updates).value, k) == MergeValue(was, v);
    CutOffStep(updates, path);
    if v.Obj? {
      var from := if was.Some? then was.value else EMPTY;
      MergeLookup(from, v, rest);
      if was.None? && rest != [] {
        assert Lookup(EMPTY, rest) == None;
      }
    } else if rest != [] {
      assert rest[..0] == [];
      assert IsLeaf(Lookup(v, rest[..0]));
    }
  }

  // ----------------------------------------------------------------------- laws

  /** Nowhere does the update have a non-empty dictionary where the base has
      something else. */
  ghost predicate Compatible(base: Json, updates: Json) {
    forall path :: !Clash(base, updates, path)
  }

  predicate Clash(base: Json, updates: Json, path: seq<string>) {
    var u := Lookup(updates, path);
    u.Some? && u.value.Obj? && u.value != EMPTY && IsLeaf(Lookup(base, path))
  }

  lemma ClashUnderKey(base: Json, updates: Json, k: string, rest: seq<string>)
    requires base.Obj? && updates.Obj? && k in base.fields && k in updates.fields
    ensures Clash(base, updates, [k] + rest) <==> Clash(base.fields[k], updates.fields[k], rest)
  {
    assert ([k] + rest)[1..] == rest;
  }

  /** A merge goes through exactly when the two are compatible at every path. */
  lemma {:induction false} MergeDefined(base: Json, updates: Json)
    requires updates.Obj?
    ensures Merge(base, updates).Some? <==> Compatible(base, updates)
    decreases updates
  {
    if !base.Obj? {
      NonDictionaryBase(base, updates);
    } else {
      MergeFields(base, updates);
      forall k | k in updates.fields
        ensures MergeValue(Get(base, k), updates.fields[k]).Some? <==> CompatibleAt(base, updates, k)
      {
        if updates.fields[k].Obj? {
          if k in base.fields {
            MergeDefined(base.fields[k], updates.fields[k]);
          } else {
            MergeIntoEmpty(updates.fields[k]);
          }
        } else if k in base.fields {
          LeafNeverClashes(base.fields[k], updates.fields[k]);
        }
      }
      CompatibleByKeys(base, updates);
    }
  }

  ghost predicate CompatibleAt(base: Json, updates: Json, k: string)
    requires base.Obj? && updates.Obj? && k in updates.fields
  {
    k in base.fields ==> Compatible(base.fields[k], updates.fields[k])
  }

  lemma NonDictionaryBase(base: Json, updates: Json)
    requires updates.Obj? && !base.Obj?
    ensures Merge(base, updates).Some? <==> Compatible(base, updates)
  {
    if updates != EMPTY {
      assert Clash(base, updates, []);
      assert updates.fields != map[];
    } else {
      assert forall path :: path == [] || Lookup(base, path) == None;
    }
  }

  lemma LeafNeverClashes(base: Json, v: Json)
    requires !v.Obj?
    ensures Compatible(base, v)
  {
    assert forall path :: path == [] || Lookup(v, path) == None;
  }

  lemma CompatibleByKeys(base: Json, updates: Json)
    requires base.Obj? && updates.Obj?
    ensures Compatible(base, updates) <==> forall k | k in updates.fields :: CompatibleAt(base, updates, k)
  {
    if Compatible(base, updates) {
      forall k, rest | k in updates.fields && k in base.fields
        ensures !Clash(base.fields[k], updates.fields[k], rest)
      {
        ClashUnderKey(base, updates, k, rest);
      }
    }
    if forall k | k in updates.fields :: CompatibleAt(base, updates, k) {
      forall path
        ensures !Clash(base, updates, path)
      {
        if path != [] && path[0] in updates.fields && path[0] in base.fields {
          assert CompatibleAt(base, updates, path[0]);
          assert path == [path[0]] + path[1..];
          ClashUnderKey(base, updates, path[0], path[1..]);
        }
      }
    }
  }

  lemma {:induction false} MergeIdempotent(base: Json, updates: Json)
    requires updates.Obj? && Merge(base, updates).Some?
    ensures Merge(Merge(base, updates).value, updates) == Merge(base, updates)
    decreases updates
  {
    if base.Obj? {
      var r := Merge(base, updates).value;
      MergeFields(base, updates);
      forall k | k in updates.fields
        ensures MergeValue(Get(r, k), updates.fields[k]) == Get(r, k)
      {
        var v := updates.fields[k];
        assert Get(r, k) == MergeValue(Get(base, k), v);
        if v.Obj? { MergeIdempotent(if k in base.fields then base.fields[k] else EMPTY, v); }
      }
      MergeFields(r, updates);
      EqualByKeys(Merge(r, updates).value, r);
    }
  }

  /** Merging b and then c is merging c into b first, as long as b merges at
      all; both sides then also fail together. */
  lemma {:induction false} MergeAssociative(a: Json, b: Json, c: Json)
    requires b.Obj? && c.Obj? && Merge(a, b).Some?
    ensures Merge(b, c).Some? ==> Merge(b, c).value.Obj?
    ensures Merge(Merge(a, b).value, c) == if Merge(b, c).None? then None else Merge(a, Merge(b, c).value)
    decreases c
  {
    MergeFields(b, c);
    if !a.Obj? || b == EMPTY {
      assert b.fields == map[];
      assert b == EMPTY;
      MergeIntoEmpty(c);
    } else {
      var ab := Merge(a, b).value;
      MergeFields(a, b);
      MergeFields(ab, c);
      forall k | k in c.fields
        ensures ThreeWay(Get(a, k), Get(b, k), c.fields[k])
      {
        var x, y, z := Get(a, k), Get(b, k), c.fields[k];
        if z.Obj? {
          if y.Some? && y.value.Obj? {
            assert MergeValue(x, y.value).Some?;
            MergeAssociative(if x.Some? then x.value else EMPTY, y.value, z);
          } else if y.None? {
            MergeIntoEmpty(z);
          }
        }
      }
      AssociativeByKeys(a, b, c);
    }
  }

  /** Associativity for one key, of which the first two may lack a value. */
  ghost predicate ThreeWay(x: Option<Json>, y: Option<Json>, z: Json)
    requires y.Some? ==> MergeValue(x, y.value).Some?
  {
    var yz := MergeValue(y, z);
    MergeValue(if y.Some? then MergeValue(x, y.value) else x, z) == if yz.None? then None else MergeValue(x, yz.value)
  }

  lemma AssociativeByKeys(a: Json, b: Json, c: Json)
    requires a.Obj? && b.Obj? && c.Obj? && Merge(a, b).Some?
    requires forall k | k in b.fields :: MergeValue(Get(a, k), b.fields[k]).Some?
    requires forall k | k in c.fields :: ThreeWay(Get(a, k), Get(b, k), c.fields[k])
    ensures Merge(b, c).Some? ==> Merge(b, c).value.Obj?
    ensures Merge(Merge(a, b).value, c) == if Merge(b, c).None? then None else Merge(a, Merge(b, c).value)
  {
    var ab := Merge(a, b).value;
    MergeFields(a, b);
    MergeFields(b, c);
    MergeFields(ab, c);
    if Merge(b, c).None? {
      var k :| k in c.fields && MergeValue(Get(b, k), c.fields[k]).None?;
      assert ThreeWay(Get(a, k), Get(b, k), c.fields[k]);
      assert MergeValue(Get(ab, k), c.fields[k]).None?;
    } else {
      BothSides(a, b, c);
    }
  }

  lemma BothSides(a: Json, b: Json, c: Json)
    requires a.Obj? && b.Obj? && c.Obj? && Merge(a, b).Some? && Merge(b, c).Some?
    requires forall k | k in b.fields :: MergeValue(Get(a, k), b.fields[k]).Some?
    requires forall k | k in c.fields :: ThreeWay(Get(a, k), Get(b, k), c.fields[k])
    ensures Merge(b, c).value.Obj?
    ensures Merge(Merge(a, b).value, c) == Merge(a, Merge(b, c).value)
  {
    MergeFields(b, c);
    var ab, bc := Merge(a, b).value, Merge(b, c).value;
    MergeFields(a, b);
    MergeFields(ab, c);
    MergeFields(a, bc);
    forall k | k in c.fields
      ensures MergeValue(Get(ab, k), c.fields[k]) == MergeValue(Get(a, k), bc.fields[k])
    {
      assert ThreeWay(Get(a, k), Get(b, k), c.fields[k]);
      assert Get(bc, k) == MergeValue(Get(b, k), c.fields[k]);
    }
    forall k | k in bc.fields && k !in c.fields
      ensures MergeValue(Get(a, k), bc.fields[k]).Some? && Get(bc, k) == Get(b, k)
    {
    }
    if Merge(ab, c).Some? {
      assert FieldsMerge(ab, c);
      forall k | k in bc.fields
        ensures MergeValue(Get(a, k), bc.fields[k]).Some?
      {
        if k in c.fields { assert MergeValue(Get(ab, k), c.fields[k]).Some?; }
      }
      EqualByKeys(Merge(ab, c).value, Merge(a, bc).value);
    } else {
      var k :| k in c.fields && MergeValue(Get(ab, k), c.fields[k]).None?;
      assert k in bc.fields && MergeValue(Get(a, k), bc.fields[k]).None?;
    }
  }

  lemma {:induction false} MergeSelf(j: Json)
    requires j.Obj?
    ensures Merge(j, j) == Some(j)
    decreases j
  {
    forall k | k in j.fields
      ensures MergeValue(Get(j, k), j.fields[k]) == Some(j.fields[k])
    {
      if j.fields[k].Obj? { MergeSelf(j.fields[k]); }
    }
    MergeFields(j, j);
    EqualByKeys(Merge(j, j).value, j);
  }

  /** A dictionary that comes from a merge over `base` gains nothing from `base`. */
  lemma MergeAgain(base: Json, updates: Json, merged: Json)
    requires MergeValue(Some(base), updates) == Some(merged) && merged.Obj?
    ensures Merge(base, merged) == Some(merged)
  {
    if updates == EMPTY {
      MergeSelf(merged);
    } else {
      assert updates.fields != map[];
      MergeSelf(base);
      MergeAssociative(base, base, updates);
    }
  }

  function LeftFirst(a: Json, b: Json, c: Json): Option<Json>
    requires b.Obj? && c.Obj?
  {
    if Merge(a, b).None? then None else Merge(Merge(a, b).value, c)
  }

  function RightFirst(a: Json, b: Json, c: Json): Option<Json>
    requires b.Obj? && c.Obj?
  {
    MergeFields(b, c);
    if Merge(b, c).None? then None else Merge(a, Merge(b, c).value)
  }

  lemma {:induction false} PresentInMerge(base: Json, updates: Json, path: seq<string>)
    requires updates.Obj? && Merge(base, updates).Some? && Lookup(updates, path).Some?
    ensures Lookup(Merge(base, updates).value, path).Some?
    decreases path
  {
    if path != [] {
      var k := path[0];
      MergeFields(base, updates);
      assert Get(Merge(base, updates).value, k) == MergeValue(Get(base, k), updates.fields[k]);
      if updates.fields[k].Obj? {
        PresentInMerge(if k in base.fields then base.fields[k] else EMPTY, updates.fields[k], path[1..]);
      }
    }
  }

  lemma {:induction false} CutOffIsMissing(j: Json, path: seq<string>)
    requires CutOff(j, path)
    ensures Lookup(j, path).None?
    decreases path
  {
    if j.Obj? {
      CutOffStep(j, path);
      CutOffIsMissing(j.fields[path[0]], path[1..]);
    }
  }

  /** The update decides what is at `path`: a leaf there or on the way. */
  predicate Covered(updates: Json, path: seq<string>) {
    IsLeaf(Lookup(updates, path)) || CutOff(updates, path)
  }

  /** What clashes with a merge clashes with the update, or with the base where
      the update does not cover it. */
  lemma ClashWithMerge(a: Json, b: Json, c: Json, path: seq<string>)
    requires b.Obj? && c.Obj? && Merge(b, c).Some?
    ensures Clash(a, Merge(b, c).value, path) <==> Clash(a, c, path) || (Clash(a, b, path) && !Covered(c, path))
  {
    MergeLookup(b, c, path);
    var u := Lookup(c, path);
    if CutOff(c, path) {
      CutOffIsMissing(c, path);
    } else if u.Some? && u.value.Obj? {
      PresentInMerge(b, c, path);
      var from := if Lookup(b, path).Some? then Lookup(b, path).value else EMPTY;
      NonEmptyMerge(from, u.value);
    }
  }

  lemma NonEmptyMerge(base: Json, updates: Json)
    requires updates.Obj? && Merge(base, updates).Some?
    ensures updates != EMPTY ==> Merge(base, updates).value.Obj? && Merge(base, updates).value != EMPTY
    ensures updates == EMPTY ==> Merge(base, updates) == Some(base)
  {
    if updates != EMPTY {
      assert updates.fields != map[];
      var k :| k in updates.fields;
      MergeFields(base, updates);
      assert k in Merge(base, updates).value.fields;
    }
  }

  /** Exactly when the order of two merges does not matter: the first two are
      compatible, or the right-hand order fails as well, because c does not merge
      into b or into a, or because c leaves a clash of the first two standing. */
  lemma AssociativeExactly(a: Json, b: Json, c: Json)
    requires b.Obj? && c.Obj?
    ensures LeftFirst(a, b, c) == RightFirst(a, b, c)
       <==> || Compatible(a, b) || !Compatible(b, c) || !Compatible(a, c)
            || exists path :: Clash(a, b, path) && !Covered(c, path)
  {
    MergeDefined(a, b);
    MergeDefined(b, c);
    if Merge(a, b).Some? {
      MergeAssociative(a, b, c);
    } else if Merge(b, c).Some? {
      MergeFields(b, c);
      var bc := Merge(b, c).value;
      MergeDefined(a, bc);
      forall path
        ensures Clash(a, bc, path) <==> Clash(a, c, path) || (Clash(a, b, path) && !Covered(c, path))
      {
        ClashWithMerge(a, b, c, path);
      }
    }
  }

  /** Without that condition associativity fails: a clash between the first two
      stops the left side, while the right side has already written over it. */
  lemma AssociativityNeedsCompatibility()
    ensures var a := Obj(map["k" := Num(1)]);
            var b := Obj(map["k" := Obj(map["x" := Num(1)])]);
            var c := Obj(map["k" := Num(2)]);
            && Merge(a, b).None?
            && Merge(b, c) == Some(c)
            && Merge(a, c) == Some(c)
  {
    var inner := Obj(map["x" := Num(1)]);
    var a, b, c := Obj(map["k" := Num(1)]), Obj(map["k" := inner]), Obj(map["k" := Num(2)]);
    assert "x" in inner.fields;
    assert "k" in b.fields && MergeValue(Get(a, "k"), b.fields["k"]).None?;
    MergeFields(a, b);
    MergeFields(b, c);
    MergeFields(a, c);
    EqualByKeys(Merge(b, c).value, c);
    EqualByKeys(Merge(a, c).value, c);
  }
}
