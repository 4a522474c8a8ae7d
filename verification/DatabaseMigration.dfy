/** The database part of the version 5 conversion in
    scripts/irods/upgrade_configuration.py: the settings of the one database
    section move up to new names. */
module DatabaseMigration {

  import opened Common
  import opened JsonMerge

  type Fields = map<string, Json>

  /** Python's `list(d.keys())`, for every order a dictionary might yield. */
  type KeyOrder = Fields -> seq<string>

  ghost predicate IsOrder(order: KeyOrder) {
    forall m :: Enumerates(order(m), m)
  }

  ghost predicate Enumerates(keys: seq<string>, m: Fields) {
    && (forall i, j | 0 <= i < j < |keys| :: keys[i] != keys[j])
    && (forall k :: k in keys <==> k in m)
  }

  function TlsName(name: string): string {
    if "ssl" <= name then "tls" + name[3..] else name
  }

  /** The loop over a section's keys. `name` is the variable new_key_name, which
      a key without the prefix leaves as the previous turn set it. */
  function MoveKeys(d: Fields, db: string, keys: seq<string>, name: Option<string>): Option<Fields>
    decreases keys
  {
    if keys == [] then Some(d) else
      var k := keys[0];
      var bare := if "db_" <= k then Some(k[3..]) else name;
      if bare.None? then None
      else if db !in d || Get(d[db], k).None? then None
      else
        var target := TlsName(bare.value);
        MoveKeys(d[db := Obj(d[db].fields - {k})][target := d[db].fields[k]], db, keys[1..], Some(target))
  }

  function Tidy(d: Fields, db: string): Option<Fields> {
    if db !in d || Length(d[db]).None? then None
    else if Length(d[db]).value == 0 then Some(d - {db})
    else Some(d)
  }

  /** Everything done to the database dictionary; `keys` are the keys of the
      section `db` in the order the dictionary yields them. */
  function MigrateSection(d: Fields, db: string, keys: seq<string>): Option<Fields>
    requires db in d
  {
    var options := d["technology" := Str(db)];
    if !options[db].Obj? then None else
      var moved := MoveKeys(options, db, keys, None);
      if moved.None? then None else Tidy(moved.value, db)
  }

  method MigrateDatabase(d: Fields, db: string, keys: seq<string>) returns (r: Option<Fields>)
    requires db in d
    ensures r == MigrateSection(d, db, keys)
  {
    var options := d["technology" := Str(db)];
    if !options[db].Obj? {
      return None;
    }
    var newKeyName: Option<string> := None;
    for i := 0 to |keys|
      invariant MoveKeys(options, db, keys[i..], newKeyName) == MoveKeys(d["technology" := Str(db)], db, keys, None)
    {
      var key := keys[i];
      assert keys[i..][0] == key && keys[i..][1..] == keys[i + 1..];
      if "db_" <= key {
        newKeyName := Some(key[3..]);
      }
      if newKeyName.None? || db !in options || Get(options[db], key).None? {
        return None;
      }
      if "ssl" <= newKeyName.value {
        newKeyName := Some("tls" + newKeyName.value[3..]);
      }
      var value := options[db].fields[key];
      options := options[db := Obj(options[db].fields - {key})];
      options := options[newKeyName.value := value];
    }
    r := Tidy(options, db);
  }

  /** Where the setting `key` of a database section is to end up. */
  function NewName(key: string): string
    requires "db_" <= key
  {
    TlsName(key[3..])
  }

  // ------------------------------------------------------------------ the promise

  /** What the comments in the code promise: every db_ setting is moved to its new
      name, a setting without the prefix is still found in the section, the
      technology is recorded, an emptied section goes, and all else is left alone. */
  ghost predicate MovedAsPromised(d: Fields, db: string, r: Fields)
    requires db in d && d[db].Obj?
  {
    var section := d[db].fields;
    && (forall k | k in section && "db_" <= k :: NewName(k) in r && r[NewName(k)] == section[k])
    && (forall k | k in section && !("db_" <= k) :: db in r && Get(r[db], k) == Some(section[k]))
    && "technology" in r && r["technology"] == Str(db)
    && (db in r ==> !AllPrefixed(section) || !NoneBoundFor(section, db))
    && (forall x | x in d && x != db && x != "technology" :: x in r && r[x] == d[x])
  }

  ghost predicate AllPrefixed(section: Fields) {
    forall k | k in section :: "db_" <= k
  }

  ghost predicate NoneBoundFor(section: Fields, db: string) {
    forall k | k in section && "db_" <= k :: NewName(k) != db
  }

  /** A setting bound for the section's own name does no harm if it comes last and
      is a text, list or dictionary with something in it. */
  ghost predicate SectionTakenLast(section: Fields, db: string, keys: seq<string>) {
    forall i | 0 <= i < |keys| && "db_" <= keys[i] && NewName(keys[i]) == db ::
      i == |keys| - 1 && keys[i] in section && Length(section[keys[i]]).Some? && Length(section[keys[i]]).value > 0
  }

  /** The setting bound for the section's name brings along the settings without
      the prefix. */
  ghost predicate UnprefixedStay(section: Fields, db: string, keys: seq<string>) {
    forall u | u in section && !("db_" <= u) ::
      && keys != []
      && var k := keys[|keys| - 1];
         "db_" <= k && NewName(k) == db && k in section && Get(section[k], u) == Some(section[u])
  }

  /** The name that key i goes to: its own new name or, without the prefix, that of
      the key before it. */
  function Target(keys: seq<string>, name: Option<string>, i: nat): Option<string>
    requires i < |keys|
  {
    if "db_" <= keys[i] then Some(NewName(keys[i]))
    else if i > 0 then Target(keys, name, i - 1)
    else if name.Some? then Some(TlsName(name.value))
    else None
  }

  /** Key i is the last one that goes to x. */
  predicate LastTo(keys: seq<string>, name: Option<string>, x: string, i: int) {
    0 <= i < |keys| && Target(keys, name, i) == Some(x) && forall j | i < j < |keys| :: Target(keys, name, j) != Some(x)
  }

  /** The value that x, which is not the section's name, should have afterwards. */
  ghost predicate Right(d: Fields, db: string, x: string, v: Json)
    requires db in d && d[db].Obj?
  {
    && (forall k | k in d[db].fields && "db_" <= k && NewName(k) == x :: v == d[db].fields[k])
    && (x == "technology" ==> v == Str(db))
    && (x in d && x != "technology" ==> v == d[x])
  }

  ghost predicate LastIsRight(d: Fields, db: string, keys: seq<string>)
    requires db in d && d[db].Obj?
  {
    forall x, i | LastTo(keys, None, x, i) && x != db ::
      keys[i] in d[db].fields && Right(d, db, x, d[db].fields[keys[i]])
  }

  /** The section and the order of its keys are such that nothing gets lost. */
  ghost predicate NamesFit(d: Fields, db: string, keys: seq<string>)
    requires db in d && d[db].Obj?
  {
    && db != "technology"
    && (keys != [] ==> "db_" <= keys[0])
    && SectionTakenLast(d[db].fields, db, keys)
    && UnprefixedStay(d[db].fields, db, keys)
    && LastIsRight(d, db, keys)
  }

  ghost predicate NotRenamedTo(keys: seq<string>, db: string) {
    forall i | 0 <= i < |keys| && "db_" <= keys[i] :: NewName(keys[i]) != db
  }

  // ------------------------------------------- when nothing takes the section's name

  /** As long as nothing is renamed to the section itself, every key that is
      visited is taken out of it, prefix or not, and the others stay. */
  lemma {:induction false} MovePops(d: Fields, db: string, keys: seq<string>, name: Option<string>)
    requires db in d && d[db].Obj? && NotRenamedTo(keys, db)
    requires name.Some? ==> TlsName(name.value) != db
    requires MoveKeys(d, db, keys, name).Some?
    ensures var r := MoveKeys(d, db, keys, name).value;
            && db in r && r[db].Obj?
            && (forall k :: k in r[db].fields <==> k in d[db].fields && k !in keys)
            && (forall k | k in r[db].fields :: r[db].fields[k] == d[db].fields[k])
    decreases keys
  {
    if keys != [] {
      var k, rest := keys[0], keys[1..];
      var target := TlsName(if "db_" <= k then k[3..] else name.value);
      var d' := d[db := Obj(d[db].fields - {k})][target := d[db].fields[k]];
      assert target != db by { if "db_" <= k { assert NewName(keys[0]) != db; } }
      TlsNameStable(if "db_" <= k then k[3..] else name.value);
      assert forall i | 0 <= i < |rest| :: rest[i] == keys[i + 1];
      MovePops(d', db, rest, Some(target));
      assert forall x :: x in keys <==> x == k || x in rest;
    }
  }

  lemma TlsNameStable(name: string)
    ensures TlsName(TlsName(name)) == TlsName(name)
  {
    if "ssl" <= name {
      assert ("tls" + name[3..])[0] == 't';
    }
  }

  /** x holds the value of the last key that goes to it, or is as it was. */
  ghost predicate Settled(d: Fields, section: Fields, keys: seq<string>, name: Option<string>, x: string, v: Json) {
    || (exists i :: LastTo(keys, name, x, i) && keys[i] in section && section[keys[i]] == v)
    || (x in d && d[x] == v && forall i | 0 <= i < |keys| :: Target(keys, name, i) != Some(x))
  }

  lemma {:induction false} TargetOfRest(keys: seq<string>, name: Option<string>, t: string, i: nat)
    requires i + 1 < |keys| && Target(keys, name, 0) == Some(t) && TlsName(t) == t
    ensures Target(keys[1..], Some(t), i) == Target(keys, name, i + 1)
  {
    assert keys[1..][i] == keys[i + 1];
    if !("db_" <= keys[i + 1]) && i > 0 { TargetOfRest(keys, name, t, i - 1); }
  }

  lemma {:induction false} TargetStable(keys: seq<string>, name: Option<string>, i: nat)
    requires i < |keys| && Target(keys, name, i).Some?
    ensures TlsName(Target(keys, name, i).value) == Target(keys, name, i).value
  {
    if "db_" <= keys[i] {
      TlsNameStable(keys[i][3..]);
    } else if i > 0 {
      TargetStable(keys, name, i - 1);
    } else {
      TlsNameStable(name.value);
    }
  }

  /** When the first key has the prefix the loop does not fail, and each name but
      the section's is settled. */
  lemma {:induction false} MoveSettles(d: Fields, db: string, keys: seq<string>, name: Option<string>)
    requires db in d && d[db].Obj? && NotRenamedTo(keys, db) && (name.Some? ==> TlsName(name.value) != db)
    requires forall i | 0 <= i < |keys| :: keys[i] in d[db].fields
    requires forall i, j | 0 <= i < j < |keys| :: keys[i] != keys[j]
    requires keys != [] && name.None? ==> "db_" <= keys[0]
    ensures MoveKeys(d, db, keys, name).Some?
    ensures var r := MoveKeys(d, db, keys, name).value;
            && (forall i | 0 <= i < |keys| && "db_" <= keys[i] :: NewName(keys[i]) in r)
            && (forall x | x in d :: x in r)
            && (forall x | x in r && x != db :: Settled(d, d[db].fields, keys, name, x, r[x]))
    decreases keys
  {
    if keys != [] {
      var k, rest := keys[0], keys[1..];
      var t := Target(keys, name, 0).value;
      TargetStable(keys, name, 0);
      var d' := d[db := Obj(d[db].fields - {k})][t := d[db].fields[k]];
      assert t != db by { if "db_" <= k { assert NewName(keys[0]) != db; } }
      assert forall i | 0 <= i < |rest| :: rest[i] == keys[i + 1];
      MoveSettles(d', db, rest, Some(t));
      var r := MoveKeys(d', db, rest, Some(t)).value;
      assert MoveKeys(d, db, keys, name) == Some(r);
      forall x | x in r && x != db
        ensures Settled(d, d[db].fields, keys, name, x, r[x])
      {
        SettledLater(d, d', db, keys, name, t, x, r[x]);
      }
    }
  }

  lemma SettledLater(d: Fields, d': Fields, db: string, keys: seq<string>, name: Option<string>, t: string, x: string,
                     v: Json)
    requires db in d && d[db].Obj? && keys != [] && keys[0] in d[db].fields && x != db && t != db
    requires Target(keys, name, 0) == Some(t) && TlsName(t) == t
    requires d' == d[db := Obj(d[db].fields - {keys[0]})][t := d[db].fields[keys[0]]]
    requires Settled(d', d[db].fields - {keys[0]}, keys[1..], Some(t), x, v)
    ensures Settled(d, d[db].fields, keys, name, x, v)
  {
    var rest := keys[1..];
    forall i | 0 <= i < |rest|
      ensures rest[i] == keys[i + 1] && Target(rest, Some(t), i) == Target(keys, name, i + 1)
    {
      TargetOfRest(keys, name, t, i);
    }
    if i :| LastTo(rest, Some(t), x, i) && rest[i] in d[db].fields - {keys[0]} && d[db].fields[rest[i]] == v {
      LastLater(keys, name, t, x, i);
    } else {
      assert forall j | 0 < j < |keys| :: Target(rest, Some(t), j - 1) == Target(keys, name, j) != Some(x);
      if x == t { assert LastTo(keys, name, x, 0); }
    }
  }

  lemma LastLater(keys: seq<string>, name: Option<string>, t: string, x: string, i: int)
    requires keys != [] && Target(keys, name, 0) == Some(t) && TlsName(t) == t
    requires LastTo(keys[1..], Some(t), x, i)
    ensures LastTo(keys, name, x, i + 1)
  {
    var rest := keys[1..];
    TargetOfRest(keys, name, t, i);
    forall j | i + 1 < j < |keys|
      ensures Target(keys, name, j) != Some(x)
    {
      TargetOfRest(keys, name, t, j - 1);
    }
  }

  lemma Emptied(options: Fields, db: string, keys: seq<string>)
    requires db in options && options[db].Obj? && Enumerates(keys, options[db].fields) && NotRenamedTo(keys, db)
    requires MoveKeys(options, db, keys, None).Some?
    ensures var r := MoveKeys(options, db, keys, None).value; db in r && r[db] == EMPTY
  {
    MovePops(options, db, keys, None);
    var r := MoveKeys(options, db, keys, None).value;
    assert r[db].fields == map[];
  }

  // --------------------------------------------- a setting that takes the section's name

  lemma {:induction false} MoveSplits(d: Fields, db: string, a: seq<string>, b: seq<string>, name: Option<string>)
    requires b != [] && "db_" <= b[0]
    ensures MoveKeys(d, db, a + b, name)
         == match MoveKeys(d, db, a, name)
            case None => None
            case Some(r) => MoveKeys(r, db, b, None)
    decreases a
  {
    if a == [] {
      assert a + b == b;
    } else {
      var k := a[0];
      assert (a + b)[0] == k && (a + b)[1..] == a[1..] + b;
      var bare := if "db_" <= k then Some(k[3..]) else name;
      if bare.Some? && db in d && Get(d[db], k).Some? {
        var target := TlsName(bare.value);
        MoveSplits(d[db := Obj(d[db].fields - {k})][target := d[db].fields[k]], db, a[1..], b, Some(target));
      }
    }
  }

  /** A key that is not visited makes no difference but to be there still. */
  lemma {:induction false} ExtraKey(d: Fields, db: string, keys: seq<string>, name: Option<string>, k: string)
    requires db in d && d[db].Obj? && k in d[db].fields && k !in keys && NotRenamedTo(keys, db)
    requires name.Some? ==> TlsName(name.value) != db
    ensures var less := MoveKeys(d[db := Obj(d[db].fields - {k})], db, keys, name);
            match MoveKeys(d, db, keys, name)
            case None => less.None?
            case Some(r) => less.Some? && db in r && r[db].Obj? && less.value == r[db := Obj(r[db].fields - {k})]
    decreases keys
  {
    var d0 := d[db := Obj(d[db].fields - {k})];
    if keys != [] {
      var key, rest := keys[0], keys[1..];
      assert key != k && forall i | 0 <= i < |rest| :: rest[i] == keys[i + 1];
      var bare := if "db_" <= key then Some(key[3..]) else name;
      if bare.Some? && key in d[db].fields {
        var target, v := TlsName(bare.value), d[db].fields[key];
        assert target != db by { if "db_" <= key { assert NewName(keys[0]) != db; } }
        TlsNameStable(bare.value);
        var d1 := d[db := Obj(d[db].fields - {key})][target := v];
        ExtraKey(d1, db, rest, Some(target), k);
        assert d[db].fields - {key} - {k} == d0[db].fields - {key};
        assert d0[db := Obj(d0[db].fields - {key})][target := v] == d1[db := Obj(d1[db].fields - {k})];
      }
    }
  }

  lemma EnumeratesFront(keys: seq<string>, m: Fields)
    requires keys != [] && Enumerates(keys, m)
    ensures keys[|keys| - 1] in m && keys[|keys| - 1] !in keys[..|keys| - 1]
    ensures Enumerates(keys[..|keys| - 1], m - {keys[|keys| - 1]})
  {
    var front, k := keys[..|keys| - 1], keys[|keys| - 1];
    assert k in keys;
    forall x
      ensures x in front <==> x in m - {k}
    {
      if x in front {
        var i :| 0 <= i < |front| && front[i] == x;
        assert keys[i] == x && x in keys;
      }
      if x in m - {k} {
        assert x in keys;
        var i :| 0 <= i < |keys| && keys[i] == x;
        assert front[i] == x;
      }
    }
  }

  /** The section's name goes to the last key: the rest as before, and that. */
  lemma LastTakesSection(d: Fields, db: string, keys: seq<string>)
    requires db in d && d[db].Obj? && Enumerates(keys, d[db].fields) && keys != []
    requires db != "technology"
    requires var k := keys[|keys| - 1]; "db_" <= k && NewName(k) == db
    requires NotRenamedTo(keys[..|keys| - 1], db)
    ensures var front, k, options := keys[..|keys| - 1], keys[|keys| - 1], d["technology" := Str(db)];
            && k in d[db].fields
            && var less := MoveKeys(options[db := Obj(d[db].fields - {k})], db, front, None);
               MoveKeys(options, db, keys, None) == if less.None? then None else Some(less.value[db := d[db].fields[k]])
  {
    var front, k, options := keys[..|keys| - 1], keys[|keys| - 1], d["technology" := Str(db)];
    EnumeratesFront(keys, d[db].fields);
    assert keys == front + [k];
    MoveSplits(options, db, front, [k], None);
    ExtraKey(options, db, front, None, k);
    var moved := MoveKeys(options, db, front, None);
    if moved.Some? {
      MovePops(options, db, front, None);
      MoveLast(moved.value, db, k);
      Overwritten(moved.value, db, Obj(moved.value[db].fields - {k}), d[db].fields[k]);
    }
  }

  lemma MoveLast(r: Fields, db: string, k: string)
    requires db in r && Get(r[db], k).Some? && "db_" <= k && NewName(k) == db
    ensures MoveKeys(r, db, [k], None) == Some(r[db := r[db].fields[k]])
  {
    MoveStep(r, db, k, [], None, db, r[db].fields - {k});
    assert [k] + [] == [k];
    Overwritten(r, db, Obj(r[db].fields - {k}), r[db].fields[k]);
  }

  lemma Overwritten(r: Fields, x: string, a: Json, b: Json)
    ensures r[x := a][x := b] == r[x := b]
  {
  }

  lemma {:induction false} TargetOfFront(keys: seq<string>, name: Option<string>, i: nat)
    requires i < |keys| - 1
    ensures Target(keys[..|keys| - 1], name, i) == Target(keys, name, i)
  {
    if !("db_" <= keys[i]) && i > 0 { TargetOfFront(keys, name, i - 1); }
  }

  /** What the keys before the last one settle stays settled when the last one takes
      the section's name. */
  lemma SettledInFront(d: Fields, d': Fields, section: Fields, keys: seq<string>, db: string, x: string, v: Json)
    requires keys != [] && x != db && (x in d' ==> x in d && d[x] == d'[x])
    requires var k := keys[|keys| - 1]; "db_" <= k && NewName(k) == db
    requires Settled(d', section - {keys[|keys| - 1]}, keys[..|keys| - 1], None, x, v)
    ensures Settled(d, section, keys, None, x, v)
  {
    var n, front := |keys| - 1, keys[..|keys| - 1];
    forall i | 0 <= i < n
      ensures Target(front, None, i) == Target(keys, None, i)
    {
      TargetOfFront(keys, None, i);
    }
    if i :| LastTo(front, None, x, i) && front[i] in section - {keys[n]} && section[front[i]] == v {
      assert forall j | i < j < n :: Target(front, None, j) == Target(keys, None, j);
      assert LastTo(keys, None, x, i) && keys[i] == front[i];
    }
  }

  // ------------------------------------------------------------- what comes out

  /** The section's name is free, or the last key takes it. */
  ghost predicate FreeOrLast(keys: seq<string>, db: string) {
    || NotRenamedTo(keys, db)
    || (keys != [] && NotRenamedTo(keys[..|keys| - 1], db)
        && var k := keys[|keys| - 1]; "db_" <= k && NewName(k) == db)
  }

  /** Every name but the section's is settled. */
  ghost predicate AllSettled(options: Fields, section: Fields, db: string, keys: seq<string>, r: Fields) {
    && (forall i | 0 <= i < |keys| && "db_" <= keys[i] :: NewName(keys[i]) in r)
    && (forall x | x in options :: x in r)
    && (forall x | x in r && x != db :: Settled(options, section, keys, None, x, r[x]))
  }

  lemma MoveAllSettles(options: Fields, db: string, keys: seq<string>) returns (r: Fields)
    requires db in options && options[db].Obj? && Enumerates(keys, options[db].fields) && NotRenamedTo(keys, db)
    requires keys != [] ==> "db_" <= keys[0]
    ensures MoveKeys(options, db, keys, None) == Some(r)
    ensures AllSettled(options, options[db].fields, db, keys, r)
  {
    assert forall i | 0 <= i < |keys| :: keys[i] in keys && keys[i] in options[db].fields;
    MoveSettles(options, db, keys, None);
    r := MoveKeys(options, db, keys, None).value;
  }

  /** In both cases the loop goes through, and this is all of its result. */
  lemma Outcome(d: Fields, options: Fields, db: string, keys: seq<string>) returns (r: Fields)
    requires db in d && d[db].Obj? && Enumerates(keys, d[db].fields) && db != "technology"
    requires options == d["technology" := Str(db)]
    requires (keys != [] ==> "db_" <= keys[0]) && FreeOrLast(keys, db)
    ensures MoveKeys(options, db, keys, None) == Some(r)
    ensures db in r && AllSettled(options, d[db].fields, db, keys, r)
    ensures if NotRenamedTo(keys, db) then r[db] == EMPTY
            else var k := keys[|keys| - 1]; k in d[db].fields && r[db] == d[db].fields[k]
  {
    if NotRenamedTo(keys, db) {
      r := MoveAllSettles(options, db, keys);
      Emptied(options, db, keys);
    } else {
      r := OutcomeOfLast(d, options, db, keys);
    }
  }

  lemma OutcomeOfLast(d: Fields, options: Fields, db: string, keys: seq<string>) returns (r: Fields)
    requires db in d && d[db].Obj? && Enumerates(keys, d[db].fields) && db != "technology"
    requires options == d["technology" := Str(db)]
    requires keys != [] && "db_" <= keys[0] && NotRenamedTo(keys[..|keys| - 1], db)
    requires var k := keys[|keys| - 1]; "db_" <= k && NewName(k) == db
    ensures MoveKeys(options, db, keys, None) == Some(r)
    ensures AllSettled(options, d[db].fields, db, keys, r)
    ensures var k := keys[|keys| - 1]; k in d[db].fields && db in r && r[db] == d[db].fields[k]
  {
    var front, k, section := keys[..|keys| - 1], keys[|keys| - 1], d[db].fields;
    EnumeratesFront(keys, section);
    LastTakesSection(d, db, keys);
    var moved := MoveAllSettles(options[db := Obj(section - {k})], db, front);
    r := moved[db := section[k]];
    LastSettles(options, section, db, keys, moved, section[k]);
  }

  lemma LastSettles(options: Fields, section: Fields, db: string, keys: seq<string>, moved: Fields, v: Json)
    requires keys != [] && db in options
    requires var k := keys[|keys| - 1]; "db_" <= k && NewName(k) == db
    requires var k := keys[|keys| - 1];
             AllSettled(options[db := Obj(section - {k})], section - {k}, db, keys[..|keys| - 1], moved)
    ensures AllSettled(options, section, db, keys, moved[db := v])
  {
    var n, front := |keys| - 1, keys[..|keys| - 1];
    var less := options[db := Obj(section - {keys[n]})];
    forall i | 0 <= i < |keys| && "db_" <= keys[i]
      ensures NewName(keys[i]) in moved[db := v]
    {
      if i < n { assert front[i] == keys[i]; }
    }
    forall x | x in moved && x != db
      ensures Settled(options, section, keys, None, x, moved[x])
    {
      SettledInFront(options, less, section, keys, db, x, moved[x]);
    }
    assert forall x | x in options :: x in less;
  }

  // ------------------------------------------ a section's name that is taken too early

  ghost predicate Submap(x: Json, y: Json) {
    x.Obj? && y.Obj? && x.fields.Keys <= y.fields.Keys && forall k | k in x.fields :: x.fields[k] == y.fields[k]
  }

  /** x is the part of v at `path`, perhaps without something. */
  ghost predicate PartAt(x: Json, v: Json, path: seq<string>) {
    path != [] && Lookup(v, path).Some? && (x == Lookup(v, path).value || Submap(x, Lookup(v, path).value))
  }

  ghost predicate LeftOfPart(x: Json, v: Json) {
    exists path :: PartAt(x, v, path)
  }

  /** x is v without something, or what is left of a proper part of v. */
  ghost predicate Reduced(x: Json, v: Json) {
    (Submap(x, v) && x.fields.Keys != v.fields.Keys) || LeftOfPart(x, v)
  }

  lemma {:induction false} LookupInside(j: Json, path: seq<string>)
    requires path != [] && Lookup(j, path).Some?
    ensures j decreases to Lookup(j, path).value
    decreases path
  {
    if |path| > 1 { LookupInside(j.fields[path[0]], path[1..]); }
  }

  lemma ReducedDiffers(x: Json, v: Json)
    requires Reduced(x, v)
    ensures x != v
  {
    if x == v {
      var path :| PartAt(x, v, path);
      var y := Lookup(v, path).value;
      if x == y {
        LookupInside(v, path);
      } else {
        assert Lookup(y, path) == Lookup(y.fields[path[0]], path[1..]) == Lookup(v, path);
        LookupInside(y, path);
      }
    }
  }

  lemma {:induction false} LookupExtended(j: Json, path: seq<string>, k: string)
    requires Lookup(j, path).Some?
    ensures Lookup(j, path + [k]) == Get(Lookup(j, path).value, k)
    decreases path
  {
    if path == [] {
      assert (path + [k])[1..] == [];
    } else {
      assert (path + [k])[1..] == path[1..] + [k];
      LookupExtended(j.fields[path[0]], path[1..], k);
    }
  }

  lemma PartIsReduced(x: Json, v: Json, k: string)
    requires x == v || Reduced(x, v)
    requires Get(x, k).Some?
    ensures Reduced(x.fields[k], v)
  {
    if x == v || Submap(x, v) {
      LookupExtended(v, [], k);
      assert [] + [k] == [k];
      assert PartAt(x.fields[k], v, [k]);
    } else {
      var path :| PartAt(x, v, path);
      LookupExtended(v, path, k);
      assert PartAt(x.fields[k], v, path + [k]);
    }
  }

  lemma LessIsReduced(x: Json, v: Json, k: string)
    requires x == v || Reduced(x, v)
    requires Get(x, k).Some?
    ensures Reduced(Obj(x.fields - {k}), v)
  {
    var y := Obj(x.fields - {k});
    if x == v || Submap(x, v) {
      assert k in v.fields && k !in y.fields;
    } else {
      var path :| PartAt(x, v, path);
      assert PartAt(y, v, path);
    }
  }

  /** Once the section's name holds v, every further key leaves less of it. */
  lemma {:induction false} TakenIsReduced(d: Fields, db: string, keys: seq<string>, name: Option<string>, v: Json)
    requires db in d && (d[db] == v || Reduced(d[db], v)) && MoveKeys(d, db, keys, name).Some?
    ensures var r := MoveKeys(d, db, keys, name).value;
            db in r && (r[db] == v || Reduced(r[db], v)) && (keys != [] ==> Reduced(r[db], v))
    decreases keys
  {
    if keys != [] {
      var k := keys[0];
      var target := TlsName(if "db_" <= k then k[3..] else name.value);
      LessIsReduced(d[db], v, k);
      PartIsReduced(d[db], v, k);
      var d' := d[db := Obj(d[db].fields - {k})][target := d[db].fields[k]];
      assert Reduced(d'[db], v);
      TakenIsReduced(d', db, keys[1..], Some(target), v);
      ReducedStays(keys[1..], d', db, Some(target), v);
    }
  }

  lemma {:induction false} ReducedStays(keys: seq<string>, d: Fields, db: string, name: Option<string>, v: Json)
    requires db in d && Reduced(d[db], v) && MoveKeys(d, db, keys, name).Some?
    ensures var r := MoveKeys(d, db, keys, name).value; db in r && Reduced(r[db], v)
    decreases keys
  {
    if keys != [] {
      var k := keys[0];
      var target := TlsName(if "db_" <= k then k[3..] else name.value);
      LessIsReduced(d[db], v, k);
      PartIsReduced(d[db], v, k);
      ReducedStays(keys[1..], d[db := Obj(d[db].fields - {k})][target := d[db].fields[k]], db, Some(target), v);
    }
  }

  /** The first key bound for the section's name. */
  lemma {:induction false} FirstBound(keys: seq<string>, db: string) returns (i: nat)
    requires !NotRenamedTo(keys, db)
    ensures i < |keys| && "db_" <= keys[i] && NewName(keys[i]) == db && NotRenamedTo(keys[..i], db)
    decreases keys
  {
    var front := keys[..|keys| - 1];
    if NotRenamedTo(front, db) {
      i := |keys| - 1;
      assert forall j | 0 <= j < i :: keys[j] == front[j];
    } else {
      i := FirstBound(front, db);
      assert front[..i] == keys[..i];
    }
  }

  /** A setting that takes the section's name before the last key is not there in
      the end. */
  lemma TakenEarlyIsLost(d: Fields, db: string, keys: seq<string>, i: nat)
    requires db in d && d[db].Obj? && Enumerates(keys, d[db].fields) && db != "technology"
    requires i < |keys| - 1 && "db_" <= keys[i] && NewName(keys[i]) == db && NotRenamedTo(keys[..i], db)
    requires MoveKeys(d["technology" := Str(db)], db, keys, None).Some?
    ensures keys[i] in d[db].fields
    ensures var r := MoveKeys(d["technology" := Str(db)], db, keys, None).value;
            db in r && r[db] != d[db].fields[keys[i]]
  {
    var options, front, rest, k := d["technology" := Str(db)], keys[..i], keys[i..], keys[i];
    assert k in keys && keys[i + 1] in keys;
    assert keys == front + rest && rest[0] == k;
    MoveSplits(options, db, front, rest, None);
    MovePops(options, db, front, None);
    var r := MoveKeys(options, db, front, None).value;
    var v := d[db].fields[k];
    assert k !in front;
    assert r[db].fields[k] == v && TlsName(k[3..]) == db;
    var taken := r[db := Obj(r[db].fields - {k})][db := v];
    assert MoveKeys(r, db, rest, None) == MoveKeys(taken, db, rest[1..], Some(db));
    TakenIsReduced(taken, db, rest[1..], Some(db), v);
    ReducedDiffers(MoveKeys(taken, db, rest[1..], Some(db)).value[db], v);
  }

  // ---------------------------------------------------------------- exactly when

  /** The migration keeps its promise exactly when the names fit. */
  lemma MigratesExactly(d: Fields, db: string, keys: seq<string>)
    requires db in d && d[db].Obj? && Enumerates(keys, d[db].fields)
    ensures (var r := MigrateSection(d, db, keys); r.Some? && MovedAsPromised(d, db, r.value))
       <==> NamesFit(d, db, keys)
  {
    if NamesFit(d, db, keys) {
      FittingNamesMove(d, db, keys);
    }
    var r := MigrateSection(d, db, keys);
    if r.Some? && MovedAsPromised(d, db, r.value) {
      assert keys != [] ==> "db_" <= keys[0];
      PromiseNeedsLast(d, db, keys);
      PromiseNeedsFit(d, db, keys);
    }
  }

  lemma TakenLastIsFree(section: Fields, db: string, keys: seq<string>)
    requires SectionTakenLast(section, db, keys)
    ensures FreeOrLast(keys, db)
  {
    if !NotRenamedTo(keys, db) {
      var i := FirstBound(keys, db);
    }
  }

  lemma SettledIsRight(d: Fields, db: string, keys: seq<string>, x: string, v: Json)
    requires db in d && d[db].Obj? && Enumerates(keys, d[db].fields) && LastIsRight(d, db, keys) && x != db
    requires Settled(d["technology" := Str(db)], d[db].fields, keys, None, x, v)
    ensures Right(d, db, x, v)
  {
    if i :| LastTo(keys, None, x, i) && keys[i] in d[db].fields && d[db].fields[keys[i]] == v {
    } else {
      forall k | k in d[db].fields && "db_" <= k
        ensures NewName(k) != x
      {
        var i :| 0 <= i < |keys| && keys[i] == k;
        assert Target(keys, None, i) == Some(NewName(k));
      }
    }
  }

  ghost predicate AllRight(d: Fields, db: string, r: Fields)
    requires db in d && d[db].Obj?
  {
    && "technology" in r
    && (forall x | x in d :: x in r)
    && (forall k | k in d[db].fields && "db_" <= k :: NewName(k) in r)
    && (forall x | x in r && x != db :: Right(d, db, x, r[x]))
  }

  lemma SettledAreRight(d: Fields, db: string, keys: seq<string>, r: Fields)
    requires db in d && d[db].Obj? && Enumerates(keys, d[db].fields) && LastIsRight(d, db, keys)
    requires AllSettled(d["technology" := Str(db)], d[db].fields, db, keys, r)
    ensures AllRight(d, db, r)
  {
    var options := d["technology" := Str(db)];
    assert "technology" in options && forall x | x in d :: x in options;
    forall x | x in r && x != db
      ensures Right(d, db, x, r[x])
    {
      SettledIsRight(d, db, keys, x, r[x]);
    }
    forall k | k in d[db].fields && "db_" <= k
      ensures NewName(k) in r
    {
      var i :| 0 <= i < |keys| && keys[i] == k;
    }
  }

  lemma FittingNamesMove(d: Fields, db: string, keys: seq<string>)
    requires db in d && d[db].Obj? && Enumerates(keys, d[db].fields) && NamesFit(d, db, keys)
    ensures MigrateSection(d, db, keys).Some? && MovedAsPromised(d, db, MigrateSection(d, db, keys).value)
  {
    TakenLastIsFree(d[db].fields, db, keys);
    var r := Outcome(d, d["technology" := Str(db)], db, keys);
    SettledAreRight(d, db, keys, r);
    if NotRenamedTo(keys, db) {
      FreeIsPromised(d, db, keys, r);
    } else {
      LastIsPromised(d, db, keys, r);
      TidyKeeps(r, db, r[db]);
    }
  }

  lemma FreeIsPromised(d: Fields, db: string, keys: seq<string>, r: Fields)
    requires db in d && d[db].Obj? && Enumerates(keys, d[db].fields) && NotRenamedTo(keys, db) && db != "technology"
    requires UnprefixedStay(d[db].fields, db, keys) && db in r && r[db] == EMPTY
    requires AllRight(d, db, r)
    ensures Tidy(r, db) == Some(r - {db}) && MovedAsPromised(d, db, r - {db})
  {
    forall k | k in d[db].fields
      ensures "db_" <= k && NewName(k) != db
    {
      var i :| 0 <= i < |keys| && keys[i] == k;
      if "db_" <= k { assert NewName(keys[i]) != db; }
    }
  }

  lemma LastIsPromised(d: Fields, db: string, keys: seq<string>, r: Fields)
    requires db in d && d[db].Obj? && Enumerates(keys, d[db].fields) && !NotRenamedTo(keys, db) && db != "technology"
    requires UnprefixedStay(d[db].fields, db, keys) && SectionTakenLast(d[db].fields, db, keys) && db in r
    requires var k := keys[|keys| - 1]; k in d[db].fields && r[db] == d[db].fields[k]
    requires AllRight(d, db, r)
    ensures MovedAsPromised(d, db, r) && Length(r[db]).Some? && Length(r[db]).value > 0
  {
    var section, last := d[db].fields, keys[|keys| - 1];
    var i :| 0 <= i < |keys| && "db_" <= keys[i] && NewName(keys[i]) == db;
    assert keys[i] == last && !NoneBoundFor(section, db);
    forall k | k in section && "db_" <= k
      ensures r[NewName(k)] == section[k]
    {
      if NewName(k) == db {
        var j :| 0 <= j < |keys| && keys[j] == k;
        assert keys[j] == last;
      }
    }
  }

  lemma TidyKeeps(r: Fields, db: string, v: Json)
    requires db in r && r[db] == v && Length(v).Some? && Length(v).value > 0
    ensures Tidy(r, db) == Some(r)
  {
  }

  lemma PromiseNeedsLast(d: Fields, db: string, keys: seq<string>)
    requires db in d && d[db].Obj? && Enumerates(keys, d[db].fields) && db != "technology"
    requires MigrateSection(d, db, keys).Some? && MovedAsPromised(d, db, MigrateSection(d, db, keys).value)
    ensures SectionTakenLast(d[db].fields, db, keys)
  {
    if !NotRenamedTo(keys, db) {
      var i := FirstBound(keys, db);
      assert keys[i] in keys;
      if i < |keys| - 1 {
        TakenEarlyIsLost(d, db, keys, i);
        assert false;
      }
      LastHasLength(d, db, keys);
      assert forall j | 0 <= j < i :: keys[..i][j] == keys[j];
    }
  }

  lemma LastHasLength(d: Fields, db: string, keys: seq<string>)
    requires db in d && d[db].Obj? && Enumerates(keys, d[db].fields) && keys != [] && db != "technology"
    requires var k := keys[|keys| - 1]; "db_" <= k && NewName(k) == db
    requires NotRenamedTo(keys[..|keys| - 1], db)
    requires MigrateSection(d, db, keys).Some? && MovedAsPromised(d, db, MigrateSection(d, db, keys).value)
    ensures var k := keys[|keys| - 1];
            k in d[db].fields && Length(d[db].fields[k]).Some? && Length(d[db].fields[k]).value > 0
  {
    var k := keys[|keys| - 1];
    LastTakesSection(d, db, keys);
    assert MoveKeys(d["technology" := Str(db)], db, keys, None).value[db] == d[db].fields[k];
    assert db in MigrateSection(d, db, keys).value;
  }

  lemma {:induction false} TargetIsNewName(keys: seq<string>, i: nat)
    requires i < |keys| && "db_" <= keys[0]
    ensures exists j | 0 <= j < |keys| && "db_" <= keys[j] :: Target(keys, None, i) == Some(NewName(keys[j]))
  {
    if !("db_" <= keys[i]) { TargetIsNewName(keys, i - 1); }
  }

  lemma LastValue(d: Fields, section: Fields, keys: seq<string>, x: string, i: int, v: Json)
    requires LastTo(keys, None, x, i) && Settled(d, section, keys, None, x, v)
    ensures keys[i] in section && v == section[keys[i]]
  {
    if j :| LastTo(keys, None, x, j) && keys[j] in section && section[keys[j]] == v {
      assert i == j;
    }
  }

  lemma PromiseNeedsFit(d: Fields, db: string, keys: seq<string>)
    requires db in d && d[db].Obj? && Enumerates(keys, d[db].fields) && db != "technology"
    requires (keys != [] ==> "db_" <= keys[0]) && SectionTakenLast(d[db].fields, db, keys)
    requires MigrateSection(d, db, keys).Some? && MovedAsPromised(d, db, MigrateSection(d, db, keys).value)
    ensures UnprefixedStay(d[db].fields, db, keys) && LastIsRight(d, db, keys)
  {
    TakenLastIsFree(d[db].fields, db, keys);
    var r := Outcome(d, d["technology" := Str(db)], db, keys);
    var tidied := MigrateSection(d, db, keys).value;
    assert forall x | x in r && x != db :: x in tidied && tidied[x] == r[x];
    forall x, i | LastTo(keys, None, x, i) && x != db
      ensures keys[i] in d[db].fields && Right(d, db, x, d[db].fields[keys[i]])
    {
      TargetIsNewName(keys, i);
      LastValue(d["technology" := Str(db)], d[db].fields, keys, x, i, r[x]);
    }
  }

  // --------------------------------------------------- sections with the prefix throughout

  /** The new names do not get in each other's way, nor in the way of what is
      already there under other values. */
  ghost predicate NamesApart(d: Fields, db: string)
    requires db in d && d[db].Obj? && AllPrefixed(d[db].fields)
  {
    var section := d[db].fields;
    && db != "technology"
    && (forall k, l | k in section && l in section && NewName(k) == NewName(l) :: section[k] == section[l])
    && (forall k | k in section && NewName(k) == "technology" :: section[k] == Str(db))
    && (forall k | k in section && NewName(k) in d && NewName(k) != "technology" && NewName(k) != db ::
          section[k] == d[NewName(k)])
  }

  /** With the prefix on every key the order matters only to the section's name. */
  lemma PrefixedFit(d: Fields, db: string, keys: seq<string>)
    requires db in d && d[db].Obj? && Enumerates(keys, d[db].fields) && AllPrefixed(d[db].fields)
    ensures NamesFit(d, db, keys) <==> NamesApart(d, db) && SectionTakenLast(d[db].fields, db, keys)
  {
    if NamesApart(d, db) && SectionTakenLast(d[db].fields, db, keys) {
      ApartNamesFit(d, db, keys);
    }
    if NamesFit(d, db, keys) {
      FittingNamesApart(d, db, keys);
    }
  }

  lemma KeyPrefixed(section: Fields, keys: seq<string>, i: int)
    requires Enumerates(keys, section) && AllPrefixed(section) && 0 <= i < |keys|
    ensures keys[i] in section && "db_" <= keys[i]
  {
    assert keys[i] in keys;
  }

  lemma ApartNamesFit(d: Fields, db: string, keys: seq<string>)
    requires db in d && d[db].Obj? && Enumerates(keys, d[db].fields) && AllPrefixed(d[db].fields)
    requires NamesApart(d, db) && SectionTakenLast(d[db].fields, db, keys)
    ensures NamesFit(d, db, keys)
  {
    if keys != [] { KeyPrefixed(d[db].fields, keys, 0); }
    forall x, i | LastTo(keys, None, x, i) && x != db
      ensures keys[i] in d[db].fields && Right(d, db, x, d[db].fields[keys[i]])
    {
      KeyPrefixed(d[db].fields, keys, i);
      assert NewName(keys[i]) == x;
    }
  }

  lemma FittingNamesApart(d: Fields, db: string, keys: seq<string>)
    requires db in d && d[db].Obj? && Enumerates(keys, d[db].fields) && AllPrefixed(d[db].fields)
    requires NamesFit(d, db, keys)
    ensures NamesApart(d, db)
  {
    forall k | k in d[db].fields && NewName(k) != db
      ensures Right(d, db, NewName(k), d[db].fields[k])
    {
      ValueIsRight(d, db, keys, k);
    }
    BoundAreOne(d[db].fields, db, keys);
  }

  lemma ValueIsRight(d: Fields, db: string, keys: seq<string>, k: string)
    requires db in d && d[db].Obj? && Enumerates(keys, d[db].fields) && LastIsRight(d, db, keys)
    requires k in d[db].fields && "db_" <= k && NewName(k) != db
    ensures Right(d, db, NewName(k), d[db].fields[k])
  {
    var i :| 0 <= i < |keys| && keys[i] == k;
    var j := LastExists(keys, NewName(k), i);
    assert Right(d, db, NewName(k), d[db].fields[keys[j]]);
  }

  lemma BoundAreOne(section: Fields, db: string, keys: seq<string>)
    requires Enumerates(keys, section) && SectionTakenLast(section, db, keys)
    ensures forall k, l | k in section && l in section && "db_" <= k && "db_" <= l && NewName(k) == db == NewName(l) ::
              k == l
  {
    forall k | k in section && "db_" <= k && NewName(k) == db
      ensures keys != [] && k == keys[|keys| - 1]
    {
      var i :| 0 <= i < |keys| && keys[i] == k;
      assert "db_" <= keys[i] && NewName(keys[i]) == db;
    }
  }

  lemma {:induction false} LastExists(keys: seq<string>, x: string, i: nat) returns (j: nat)
    requires i < |keys| && Target(keys, None, i) == Some(x)
    ensures LastTo(keys, None, x, j)
    decreases |keys| - i
  {
    if k :| i < k < |keys| && Target(keys, None, k) == Some(x) {
      j := LastExists(keys, x, k);
    } else {
      j := i;
    }
  }

  // -------------------------------------------------------------------- examples

  lemma MoveStep(d: Fields, db: string, k: string, rest: seq<string>, name: Option<string>, target: string,
                 left: Fields)
    requires db in d && Get(d[db], k).Some? && left == d[db].fields - {k}
    requires if "db_" <= k then target == NewName(k) else name.Some? && target == TlsName(name.value)
    ensures MoveKeys(d, db, [k] + rest, name)
         == MoveKeys(d[db := Obj(left)][target := d[db].fields[k]], db, rest, Some(target))
  {
    assert ([k] + rest)[1..] == rest;
  }

  /** A setting without the prefix overwrites the one before it, and before all
      others it stops the upgrade. */
  lemma UnprefixedOverwrites(db: string, k: string, u: string, v: Json, w: Json)
    requires "db_" <= k && !("db_" <= u) && db != "technology" && NewName(k) != "technology" && NewName(k) != db
    ensures var d: Fields := map[db := Obj(map[k := v, u := w])];
            && MigrateSection(d, db, [k, u]) == Some(map["technology" := Str(db), NewName(k) := w])
            && MigrateSection(d, db, [u, k]) == None
  {
    var section: Fields, x := map[k := v, u := w], NewName(k);
    var d: Fields := map[db := Obj(section)];
    var d0 := d["technology" := Str(db)];
    TwoMoves(d0, db, k, u, v, w);
    var d2 := d0[db := EMPTY][x := w];
    assert Tidy(d2, db) == Some(d2 - {db});
    assert d2 - {db} == map["technology" := Str(db), x := w];
  }

  lemma TwoMoves(d: Fields, db: string, k: string, u: string, v: Json, w: Json)
    requires "db_" <= k && !("db_" <= u) && NewName(k) != db && db in d && d[db] == Obj(map[k := v, u := w])
    ensures MoveKeys(d, db, [k, u], None) == Some(d[db := EMPTY][NewName(k) := w])
  {
    var section: Fields, left: Fields, x := map[k := v, u := w], map[u := w], NewName(k);
    assert section - {k} == left && left - {u} == map[];
    MoveStep(d, db, k, [u], None, x, left);
    var d1 := d[db := Obj(left)][x := v];
    TlsNameStable(k[3..]);
    MoveStep(d1, db, u, [], Some(x), x, map[]);
    assert [k] + [u] == [k, u] && [u] + [] == [u];
    assert d1[db := EMPTY][x := w] == d[db := EMPTY][x := w];
  }

  lemma UnprefixedSettingIsLost()
    ensures var d := map["postgres" := Obj(map["db_host" := Str("h"), "odbc" := Str("o")])];
            && MigrateSection(d, "postgres", ["db_host", "odbc"])
               == Some(map["technology" := Str("postgres"), "host" := Str("o")])
            && MigrateSection(d, "postgres", ["odbc", "db_host"]) == None
  {
    assert "db_host"[3..] == "host" && "host"[0] == 'h' && "ssl"[0] == 's';
    assert NewName("db_host") == "host";
    assert "odbc"[0] != "db_"[0] && "host"[0] != "technology"[0] && "host"[0] != "postgres"[0];
    assert "postgres"[0] != "technology"[0];
    UnprefixedOverwrites("postgres", "db_host", "odbc", Str("h"), Str("o"));
  }

  lemma SectionNameCanBeTaken()
    ensures var d := map["host" := Obj(map["db_host" := Str("x")])];
            MigrateSection(d, "host", ["db_host"]) == Some(map["technology" := Str("host"), "host" := Str("x")])
  {
    var section: Fields := map["db_host" := Str("x")];
    var d := map["host" := Obj(section)];
    var d0 := d["technology" := Str("host")];
    assert "db_host"[3..] == "host" && "host"[0] == 'h' && "ssl"[0] == 's';
    assert section - {"db_host"} == map[];
    MoveStep(d0, "host", "db_host", [], None, "host", map[]);
    assert ["db_host"] + [] == ["db_host"];
    assert d0["host" := EMPTY]["host" := Str("x")] == map["technology" := Str("host"), "host" := Str("x")];
  }

  /** A setting without the prefix can stay: when the key before it has the same
      value, and the last setting takes the section's name and brings it along. */
  lemma UnprefixedCanStay(db: string, k: string, u: string, l: string, v: Json)
    requires "db_" <= k && !("db_" <= u) && "db_" <= l && NewName(l) == db && db != "technology"
    requires NewName(k) != db && NewName(k) != "technology"
    ensures var d: Fields := map[db := Obj(map[k := v, u := v, l := Obj(map[u := v])])];
            NamesFit(d, db, [k, u, l])
  {
    var keys, bag := [k, u, l], Obj(map[u := v]);
    var section: Fields := map[k := v, u := v, l := bag];
    var d: Fields := map[db := Obj(section)];
    assert keys[2] == l && Target(keys, None, 0) == Some(NewName(k)) == Target(keys, None, 1);
    assert Target(keys, None, 2) == Some(db);
    assert |bag.fields| == 1;
    forall x, i | LastTo(keys, None, x, i) && x != db
      ensures keys[i] in section && Right(d, db, x, section[keys[i]])
    {
      assert section[keys[i]] == v;
    }
  }
}
