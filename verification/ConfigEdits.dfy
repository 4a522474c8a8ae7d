/** Assignments, pops and renames in a configuration dictionary, and what a
    series of them leaves alone. */
module ConfigEdits {

  import opened Common
  import opened JsonMerge

  datatype At = Top | In(section: string)

  /** One assignment, pop or rename, at the top level or inside one section. */
  datatype Edit =
    | Set(at: At, key: string, value: Json)
    | Drop(at: At, key: string)
    | Rename(at: At, key: string, name: string)
    | Ensure(at: At, key: string)

  function EditFields(m: map<string, Json>, e: Edit): map<string, Json> {
    match e
    case Set(_, key, value) => m[key := value]
    case Drop(_, key) => m - {key}
    case Rename(_, key, name) => if key in m then (m - {key})[name := m[key]] else m
    case Ensure(_, key) => if key in m then m else m[key := EMPTY]
  }

  /** None when the section is missing or is not a dictionary. */
  function Apply(j: Json, e: Edit): (r: Option<Json>)
    requires j.Obj?
    ensures r.Some? ==> r.value.Obj?
  {
    match e.at
    case Top => Some(Obj(EditFields(j.fields, e)))
    case In(s) =>
      if s in j.fields && j.fields[s].Obj?
      then Some(Obj(j.fields[s := Obj(EditFields(j.fields[s].fields, e))]))
      else None
  }

  function ApplyAll(j: Json, es: seq<Edit>): (r: Option<Json>)
    requires j.Obj?
    ensures r.Some? ==> r.value.Obj?
    decreases es
  {
    if es == [] then Some(j) else
      var r := Apply(j, es[0]);
      if r.None? then None else ApplyAll(r.value, es[1..])
  }

  function Under(at: At, key: string): seq<string> {
    if at.Top? then [key] else [at.section, key]
  }

  /** The edit does not reach the setting at `path`. */
  predicate Spares(e: Edit, path: seq<string>) {
    match e
    case Ensure(_, _) => true
    case Rename(at, key, name) => !(Under(at, key) <= path) && !(Under(at, name) <= path)
    case _ => !(Under(e.at, e.key) <= path)
  }

  predicate AllSpare(es: seq<Edit>, path: seq<string>) {
    forall i | 0 <= i < |es| :: Spares(es[i], path)
  }

  lemma FieldsKept(m: map<string, Json>, e: Edit, k: string)
    requires k in m
    requires e.Ensure? || (k != e.key && (e.Rename? ==> k != e.name))
    ensures k in EditFields(m, e) && EditFields(m, e)[k] == m[k]
  {
  }

  lemma ApplyKeeps(j: Json, e: Edit, path: seq<string>)
    requires j.Obj? && IsLeaf(Lookup(j, path)) && Spares(e, path) && Apply(j, e).Some?
    ensures Lookup(Apply(j, e).value, path) == Lookup(j, path)
  {
    var k := path[0];
    match e.at
    case Top =>
      assert [e.key] <= path <==> e.key == k;
      assert e.Rename? ==> ([e.name] <= path <==> e.name == k);
      FieldsKept(j.fields, e, k);
    case In(s) =>
      if k == s {
        assert Lookup(j, path) == Lookup(j.fields[s], path[1..]);
        var rest := path[1..];
        assert rest != [];
        assert Lookup(j.fields[s], rest)
            == if rest[0] in j.fields[s].fields then Lookup(j.fields[s].fields[rest[0]], rest[1..]) else None;
        var l := path[1];
        assert [s, e.key] <= path <==> e.key == l;
        assert e.Rename? ==> ([s, e.name] <= path <==> e.name == l);
        FieldsKept(j.fields[s].fields, e, l);
      }
  }

  lemma {:induction false} ApplyAllKeeps(j: Json, es: seq<Edit>, path: seq<string>)
    requires j.Obj? && IsLeaf(Lookup(j, path)) && AllSpare(es, path) && ApplyAll(j, es).Some?
    ensures Lookup(ApplyAll(j, es).value, path) == Lookup(j, path)
    decreases es
  {
    if es != [] {
      ApplyKeeps(j, es[0], path);
      ApplyAllKeeps(Apply(j, es[0]).value, es[1..], path);
    }
  }

  function DropAll(keys: seq<string>): seq<Edit> {
    if keys == [] then [] else [Drop(Top, keys[0])] + DropAll(keys[1..])
  }

  lemma AllSpareConcat(a: seq<Edit>, b: seq<Edit>, path: seq<string>)
    requires AllSpare(a, path) && AllSpare(b, path)
    ensures AllSpare(a + b, path)
  {
  }

  lemma {:induction false} DropsSpare(keys: seq<string>, path: seq<string>)
    requires forall k | k in keys :: !([k] <= path)
    ensures AllSpare(DropAll(keys), path)
  {
    if keys != [] { DropsSpare(keys[1..], path); }
  }

  // ----------------------------------------------------------------------- renames

  lemma {:induction false} ApplyAllSplits(j: Json, es: seq<Edit>, fs: seq<Edit>)
    requires j.Obj? && ApplyAll(j, es + fs).Some?
    ensures ApplyAll(j, es).Some? && ApplyAll(j, es + fs) == ApplyAll(ApplyAll(j, es).value, fs)
    decreases es
  {
    if es == [] {
      assert es + fs == fs;
    } else {
      assert (es + fs)[1..] == es[1..] + fs;
      ApplyAllSplits(Apply(j, es[0]).value, es[1..], fs);
    }
  }

  lemma RenameMoves(j: Json, at: At, key: string, name: string)
    requires j.Obj? && IsLeaf(Lookup(j, Under(at, key))) && Apply(j, Rename(at, key, name)).Some?
    ensures Lookup(Apply(j, Rename(at, key, name)).value, Under(at, name)) == Lookup(j, Under(at, key))
  {
    if at.Top? {
      assert [key][1..] == [] && [name][1..] == [];
    } else {
      var s := at.section;
      assert [s, key][1..] == [key] && [s, name][1..] == [name] && [key][1..] == [] && [name][1..] == [];
      assert Lookup(j, [s, key]) == Lookup(j.fields[s], [key]);
    }
  }

  /** A rename in the middle of a series carries the user's value to the new name. */
  lemma RenameCarries(j: Json, before: seq<Edit>, at: At, key: string, name: string, after: seq<Edit>)
    requires j.Obj? && IsLeaf(Lookup(j, Under(at, key)))
    requires AllSpare(before, Under(at, key)) && AllSpare(after, Under(at, name))
    requires ApplyAll(j, before + [Rename(at, key, name)] + after).Some?
    ensures Lookup(ApplyAll(j, before + [Rename(at, key, name)] + after).value, Under(at, name))
         == Lookup(j, Under(at, key))
  {
    var e := Rename(at, key, name);
    ApplyAllSplits(j, before + [e], after);
    ApplyAllSplits(j, before, [e]);
    var j1 := ApplyAll(j, before).value;
    ApplyAllKeeps(j, before, Under(at, key));
    assert [e][1..] == [];
    assert ApplyAll(j1, [e]) == Apply(j1, e);
    RenameMoves(j1, at, key, name);
    ApplyAllKeeps(Apply(j1, e).value, after, Under(at, name));
  }

  // --------------------------------------------------- edits that miss a section

  /** The edit does not enter `section`, or enters it for other keys than `name`. */
  predicate Misses(e: Edit, section: string, name: string) {
    if e.at.Top? then e.Ensure? || (e.key != section && (e.Rename? ==> e.name != section))
    else e.at.section != section || (e.key != name && (e.Rename? ==> e.name != name))
  }

  predicate AllMiss(es: seq<Edit>, section: string, name: string) {
    forall i | 0 <= i < |es| :: Misses(es[i], section, name)
  }

  /** None of the edits enters `section` at all. */
  predicate AllOutside(es: seq<Edit>, section: string) {
    forall i | 0 <= i < |es| :: es[i].at != In(section) && Misses(es[i], section, "")
  }

  lemma MissSpares(es: seq<Edit>, section: string, name: string)
    requires AllMiss(es, section, name)
    ensures AllSpare(es, [section, name])
  {
    forall i | 0 <= i < |es|
      ensures Spares(es[i], [section, name])
    {
      var e, path := es[i], [section, name];
      assert Misses(e, section, name) && path[0] == section && path[1] == name;
    }
  }

  lemma OutsideSpares(es: seq<Edit>, path: seq<string>)
    requires path != [] && AllOutside(es, path[0])
    ensures AllSpare(es, path)
  {
    forall i | 0 <= i < |es|
      ensures Spares(es[i], path)
    {
      assert es[i].at != In(path[0]) && Misses(es[i], path[0], "");
    }
  }

  lemma OutsideConcat(a: seq<Edit>, b: seq<Edit>, section: string)
    requires AllOutside(a, section) && AllOutside(b, section)
    ensures AllOutside(a + b, section)
  {
  }

  lemma {:induction false} DropsOutside(keys: seq<string>, section: string)
    requires section !in keys
    ensures AllOutside(DropAll(keys), section)
  {
    if keys != [] { DropsOutside(keys[1..], section); }
  }

  lemma {:induction false} OutsideKeeps(j: Json, es: seq<Edit>, section: string)
    requires j.Obj? && section in j.fields && AllOutside(es, section) && ApplyAll(j, es).Some?
    ensures Get(ApplyAll(j, es).value, section) == Get(j, section)
    decreases es
  {
    if es != [] {
      assert Misses(es[0], section, "") && es[0].at != In(section);
      OutsideKeeps(Apply(j, es[0]).value, es[1..], section);
    }
  }

  // ------------------------------------------------------- what a section holds

  function Inside(j: Json, section: string, name: string): Option<Json> {
    var s := Get(j, section);
    if s.None? then None else Get(s.value, name)
  }

  lemma InsideLookup(j: Json, section: string, name: string)
    ensures Lookup(j, [section, name]) == Inside(j, section, name)
  {
    var path := [section, name];
    assert path[1..] == [name] && [name][1..] == [];
    if Get(j, section).Some? {
      assert Lookup(j, path) == Lookup(j.fields[section], [name]);
      assert Lookup(j.fields[section], [name]) == Get(j.fields[section], name);
    }
  }

  lemma {:induction false} MissKeepsInside(j: Json, es: seq<Edit>, section: string, name: string)
    requires j.Obj? && AllMiss(es, section, name) && ApplyAll(j, es).Some?
    ensures Inside(ApplyAll(j, es).value, section, name) == Inside(j, section, name)
    decreases es
  {
    if es != [] {
      assert Misses(es[0], section, name);
      MissKeepsInside(Apply(j, es[0]).value, es[1..], section, name);
    }
  }

  lemma AllMissConcat(a: seq<Edit>, b: seq<Edit>, section: string, name: string)
    requires AllMiss(a, section, name) && AllMiss(b, section, name)
    ensures AllMiss(a + b, section, name)
  {
  }

  lemma OutsideMisses(es: seq<Edit>, section: string, name: string)
    requires AllOutside(es, section)
    ensures AllMiss(es, section, name)
  {
    forall i | 0 <= i < |es|
      ensures Misses(es[i], section, name)
    {
      assert es[i].at != In(section) && Misses(es[i], section, "");
    }
  }

  /** The first edit sets the value and the others leave it. */
  lemma SetFirst(j: Json, es: seq<Edit>, section: string, name: string)
    requires j.Obj? && es != [] && es[0].Set? && es[0].at == In(section) && es[0].key == name
    requires AllMiss(es[1..], section, name) && ApplyAll(j, es).Some?
    ensures Inside(ApplyAll(j, es).value, section, name) == Some(es[0].value)
  {
    MissKeepsInside(Apply(j, es[0]).value, es[1..], section, name);
  }

  lemma SetKeyFirst(j: Json, es: seq<Edit>, key: string)
    requires j.Obj? && es != [] && es[0].Set? && es[0].at.Top? && es[0].key == key
    requires AllOutside(es[1..], key) && ApplyAll(j, es).Some?
    ensures Get(ApplyAll(j, es).value, key) == Some(es[0].value)
  {
    OutsideKeeps(Apply(j, es[0]).value, es[1..], key);
  }

  /** Edits of one section, and others that leave it where it is, all run. */
  predicate AllWithin(es: seq<Edit>, section: string) {
    forall i | 0 <= i < |es| :: es[i].at == In(section) || (es[i].at.Top? && Misses(es[i], section, ""))
  }

  lemma WithinConcat(a: seq<Edit>, b: seq<Edit>, section: string)
    requires AllWithin(a, section) && AllWithin(b, section)
    ensures AllWithin(a + b, section)
  {
  }

  lemma {:induction false} DropsWithin(keys: seq<string>, section: string)
    requires section !in keys
    ensures AllWithin(DropAll(keys), section)
  {
    if keys != [] { DropsWithin(keys[1..], section); }
  }

  lemma {:induction false} WithinRuns(j: Json, es: seq<Edit>, section: string)
    requires j.Obj? && AllWithin(es, section) && Get(j, section).Some? && Get(j, section).value.Obj?
    ensures ApplyAll(j, es).Some?
    ensures Get(ApplyAll(j, es).value, section).Some? && Get(ApplyAll(j, es).value, section).value.Obj?
    decreases es
  {
    if es != [] {
      assert es[0].at == In(section) || (es[0].at.Top? && Misses(es[0], section, ""));
      WithinRuns(Apply(j, es[0]).value, es[1..], section);
    }
  }

  // -------------------------------------------- settings and sections of a configuration

  const ADVANCED: At := In("advanced_settings")
  const PLUGINS: string := "plugin_configuration"
  const SLEEP_TIME: string := "rule_engine_server_sleep_time_in_seconds"

  /** What the upgrade reads besides the configuration: whether a host name is the
      local host's, the old database configuration, the template, the service
      account's environment, and the two host files. A file may be missing, and the
      look-up of a host may fail. */
  datatype Site = Site(local: Json -> Option<bool>, database: Option<Json>, template: Json, env: map<string, Json>,
                       hosts: Option<Json>, access: Option<Json>)

  /** [e[key] for e in items] */
  function Column(items: seq<Json>, key: string): Option<seq<Json>> {
    if items == [] then Some([]) else
      var first, rest := Get(items[0], key), Column(items[1..], key);
      if first.None? || rest.None? then None else Some([first.value] + rest.value)
  }

  /** Anything else that can be iterated over works only when it is empty. */
  function ColumnOf(j: Json, key: string): Option<seq<Json>> {
    match j
    case Arr(items) => Column(items, key)
    case _ => if Length(j) == Some(0) then Some([]) else None
  }

  lemma MissConcat(a: seq<Edit>, b: seq<Edit>, name: string)
    requires AllMiss(a, "advanced_settings", name)
    requires AllMiss(b, "advanced_settings", name) || AllOutside(b, "advanced_settings")
    ensures AllMiss(a + b, "advanced_settings", name)
  {
  }

  lemma TwoEdits(j: Json, a: Edit, b: Edit)
    requires j.Obj? && ApplyAll(j, [a, b]).Some?
    ensures Apply(j, a).Some? && ApplyAll(j, [a, b]) == Apply(Apply(j, a).value, b)
  {
    assert [a, b][1..] == [b] && [b][1..] == [];
    assert ApplyAll(Apply(j, a).value, [b]) == Apply(Apply(j, a).value, b);
  }

  lemma SetIsFound(j: Json, section: string, key: string, value: Json)
    requires j.Obj? && Apply(j, Set(In(section), key, value)).Some?
    ensures Lookup(Apply(j, Set(In(section), key, value)).value, [section, key]) == Some(value)
  {
    var r := Apply(j, Set(In(section), key, value)).value;
    var path := [section, key];
    assert path[1..] == [key] && [key][1..] == [];
    assert Lookup(r, path) == Lookup(r.fields[section], [key]);
    assert Lookup(r.fields[section], [key]) == Lookup(value, []);
  }

  /** Merging over a template never loses a setting of the user's. */
  lemma MergeKeepsLeaf(template: Json, config: Json, path: seq<string>)
    requires template.Obj? && config.Obj? && Merge(template, config).Some? && IsLeaf(Lookup(config, path))
    ensures Lookup(Merge(template, config).value, path) == Lookup(config, path)
  {
    MergeLookup(template, config, path);
  }

  /** The dictionary at plugin_configuration.database. */
  function DatabaseOf(j: Json): Option<Json> {
    Inside(j, PLUGINS, "database")
  }

  lemma DatabaseLookup(j: Json)
    ensures Lookup(j, [PLUGINS, "database"]) == DatabaseOf(j)
  {
    InsideLookup(j, PLUGINS, "database");
  }

  /** Where the database sections are. */
  const DATABASE: seq<string> := [PLUGINS, "database"]

  lemma MergeGivesDatabase(template: Json, config: Json)
    requires template.Obj? && config.Obj? && Merge(template, config).Some?
    ensures DatabaseOf(Merge(template, config).value) == Expected(template, config, DATABASE)
  {
    DatabaseLookup(Merge(template, config).value);
    MergeLookup(template, config, DATABASE);
  }
}
