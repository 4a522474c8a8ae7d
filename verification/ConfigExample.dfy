/** A configuration that the upgrade takes from version 3 to version 5, so that
    what is proved of successful upgrades is not about nothing. */
module ConfigExample {

  import opened Common
  import opened ConfigEdits
  import opened ConfigSurvival
  import opened ConfigUpgrade
  import opened ConfigV3
  import opened ConfigV4
  import opened ConfigV5
  import opened DatabaseMigration
  import opened JsonMerge

  /** Some order of the keys of every dictionary. */
  ghost function KeysOf(m: map<string, Json>): (keys: seq<string>)
    ensures Enumerates(keys, m)
    decreases |m|
  {
    if m == map[] then [] else
      var k :| k in m;
      assert |m - {k}| < |m| by { assert (m - {k}).Keys == m.Keys - {k}; }
      [k] + KeysOf(m - {k})
  }

  lemma SomeOrder() returns (order: KeyOrder)
    ensures IsOrder(order)
  {
    order := m => KeysOf(m);
  }

  lemma Repeated(keys: seq<string>, k: string)
    requires |keys| >= 2 && forall i | 0 <= i < |keys| :: keys[i] == k
    ensures exists i, j | 0 <= i < j < |keys| :: keys[i] == keys[j]
  {
    assert keys[0] == keys[1];
  }

  lemma SingleKey(keys: seq<string>, k: string, v: Json)
    requires Enumerates(keys, map[k := v])
    ensures keys == [k]
  {
    assert k in keys && keys != [];
    forall i | 0 <= i < |keys|
      ensures keys[i] == k
    {
      assert keys[i] in keys;
    }
    if |keys| >= 2 { Repeated(keys, k); }
  }

  const SECTIONS: Json := Obj(map["advanced_settings" := EMPTY, USER_LIST := EMPTY])

  /** Over a template of empty sections everything merges. */
  lemma MergeOverSections(config: Json)
    requires config.Obj?
    ensures Merge(SECTIONS, config).Some? && Merge(SECTIONS, config).value.Obj?
    ensures forall k :: Get(Merge(SECTIONS, config).value, k)
                     == if k in config.fields then Get(config, k) else Get(SECTIONS, k)
  {
    forall k | k in config.fields
      ensures MergeValue(Get(SECTIONS, k), config.fields[k]) == Some(config.fields[k])
    {
      assert Get(SECTIONS, k) == None || Get(SECTIONS, k) == Some(EMPTY);
      if config.fields[k].Obj? { MergeIntoEmpty(config.fields[k]); }
    }
    MergeFields(SECTIONS, config);
  }

  lemma V4Within()
    ensures AllWithin(V4_EDITS, "advanced_settings") && AllOutside(V4_EDITS, USER_LIST)
  {
    var renames := [POLICY_RENAME, SLEEP_RENAME, COUNT_RENAME];
    assert AllWithin(renames, "advanced_settings") && AllWithin(V4_REMOVALS, "advanced_settings");
    WithinConcat(renames, V4_REMOVALS, "advanced_settings");
    assert AllOutside(renames, USER_LIST) && AllOutside(V4_REMOVALS, USER_LIST);
    OutsideConcat(renames, V4_REMOVALS, USER_LIST);
  }

  /** The setting is a dictionary. */
  predicate HasSection(j: Json, section: string) {
    Get(j, section).Some? && Get(j, section).value.Obj?
  }

  /** The sections of the template are missing, or dictionaries as there. */
  predicate FitsSections(config: Json) {
    (Get(config, "advanced_settings").Some? ==> HasSection(config, "advanced_settings"))
    && (Get(config, USER_LIST).Some? ==> Get(config, USER_LIST) == Some(EMPTY))
  }

  lemma EditedForV4(merged: Json) returns (edited: Json)
    requires merged.Obj? && HasSection(merged, "advanced_settings") && Get(merged, USER_LIST) == Some(EMPTY)
    requires PLUGINS in merged.fields
    ensures edited.Obj? && ApplyAll(merged, V4_EDITS) == Some(edited) && HasSection(edited, "advanced_settings")
    ensures Get(edited, USER_LIST) == Some(EMPTY) && Get(edited, PLUGINS) == Get(merged, PLUGINS)
  {
    V4Within();
    WithinRuns(merged, V4_EDITS, "advanced_settings");
    OutsideKeeps(merged, V4_EDITS, USER_LIST);
    V4OutsidePlugins();
    OutsideKeeps(merged, V4_EDITS, PLUGINS);
    edited := ApplyAll(merged, V4_EDITS).value;
  }

  lemma NothingToTranslate(j: Json)
    requires j.Obj? && Get(j, USER_LIST) == Some(EMPTY)
    ensures TranslateControlType(j) == Some(j)
  {
  }

  lemma V4GoesThrough(config: Json)
    requires config.Obj? && PLUGINS in config.fields && FitsSections(config)
    ensures ToV4(SECTIONS, config).Some?
    ensures var r := ToV4(SECTIONS, config).value;
            HasSection(r, "advanced_settings") && Get(r, PLUGINS) == Get(config, PLUGINS)
  {
    MergeOverSections(config);
    var merged := Merge(SECTIONS, config).value;
    assert Get(merged, USER_LIST) == Some(EMPTY) && HasSection(merged, "advanced_settings");
    assert Get(merged, PLUGINS) == Get(config, PLUGINS);
    var edited := EditedForV4(merged);
    NothingToTranslate(edited);
  }

  lemma KeepaliveWithin(env: map<string, Json>, section: string)
    requires section !in DERIVED
    ensures AllWithin(KeepaliveEdits(env), section)
  {
    var a := SetFromEnv(env, "irods_tcp_keepalive_intvl_in_seconds", "tcp_keepalive_intvl_in_seconds");
    var b := SetFromEnv(env, "irods_tcp_keepalive_probes", "tcp_keepalive_probes");
    var c := SetFromEnv(env, "irods_tcp_keepalive_time_in_seconds", "tcp_keepalive_time_in_seconds");
    WithinConcat(a, b, section);
    WithinConcat(a + b, c, section);
  }

  lemma EncryptionWithin(env: map<string, Json>, section: string)
    requires section !in DERIVED
    ensures AllWithin(EncryptionEdits(env), section)
  {
  }

  lemma TlsServerWithin(env: map<string, Json>, section: string)
    requires section !in DERIVED
    ensures AllWithin(TlsServerEdits(env), section)
  {
  }

  lemma LaterWithin(env: map<string, Json>, section: string)
    requires Underived(section) && TlsClientEdits(env) == []
    ensures AllWithin(LaterV5Edits(env), section)
  {
    DropsWithin(REMOVED_IN_V5, section);
    EncryptionWithin(env, section);
    TlsServerWithin(env, section);
    KeepaliveWithin(env, section);
    var a, b, c := DropAll(REMOVED_IN_V5), EncryptionEdits(env), TlsServerEdits(env);
    assert c + TlsClientEdits(env) == c;
    WithinConcat(a, b, section);
    WithinConcat(a + b, c, section);
    WithinConcat(a + b + c, KeepaliveEdits(env), section);
  }

  lemma FirstWithin(host: Json)
    ensures AllWithin(FirstV5Edits(host), "advanced_settings")
  {
  }

  lemma V5Within(env: map<string, Json>)
    requires "irods_host" in env && TlsClientEdits(env) == []
    ensures AllWithin(V5Edits(env), "advanced_settings")
  {
    AdvancedUnderived();
    LaterWithin(env, "advanced_settings");
    FirstWithin(env["irods_host"]);
    WithinConcat(FirstV5Edits(env["irods_host"]), LaterV5Edits(env), "advanced_settings");
  }

  lemma EditedForV5(merged: Json, env: map<string, Json>)
    requires merged.Obj? && HasSection(merged, "advanced_settings") && PLUGINS in merged.fields
    requires "irods_host" in env && TlsClientEdits(env) == []
    ensures ApplyAll(merged, V5Edits(env)).Some?
    ensures Get(ApplyAll(merged, V5Edits(env)).value, PLUGINS) == Get(merged, PLUGINS)
  {
    V5Within(env);
    WithinRuns(merged, V5Edits(env), "advanced_settings");
    V5OutsidePlugins(env);
    OutsideKeeps(merged, V5Edits(env), PLUGINS);
  }

  lemma MigrationGoesThrough(j: Json, order: KeyOrder, d: map<string, Json>)
    requires j.Obj? && DatabaseOf(j) == Some(Obj(d)) && d != map[] && MigrateFirst(d, order).Some?
    ensures MigrateConfig(j, order).Some?
  {
  }

  lemma V5GoesThrough(config: Json, env: map<string, Json>, order: KeyOrder, d: map<string, Json>)
    requires config.Obj? && HasSection(config, "advanced_settings") && "irods_host" in env && TlsClientEdits(env) == []
    requires DatabaseOf(config) == Some(Obj(d)) && d != map[] && MigrateFirst(d, order).Some?
    ensures ToV5(SECTIONS, config, env, order).Some?
  {
    MergeOverSections(config);
    var merged := Merge(SECTIONS, config).value;
    assert Get(merged, "advanced_settings") == Get(config, "advanced_settings");
    assert Get(merged, PLUGINS) == Get(config, PLUGINS);
    EditedForV5(merged, env);
    MigrationGoesThrough(ApplyAll(merged, V5Edits(env)).value, order, d);
  }

  lemma SmallDatabaseMigrates(d: map<string, Json>, order: KeyOrder)
    requires IsOrder(order) && d == map["postgres" := Obj(map["db_host" := Str("h")])]
    ensures MigrateFirst(d, order).Some?
  {
    var section := map["db_host" := Str("h")];
    assert Enumerates(order(d), d) && Enumerates(order(section), section);
    SingleKey(order(d), "postgres", Obj(section));
    SingleKey(order(section), "db_host", Str("h"));
    assert "db_host"[3..] == "host" && "host"[0] == 'h' && "ssl"[0] == 's';
    assert NewName("db_host") == "host";
    assert "host"[0] != "postgres"[0] && "host"[0] != "technology"[0] && "postgres"[0] != "technology"[0];
    MigratesExactly(d, "postgres", order(section));
  }

  /** A configuration with a setting of its own and a database section. */
  ghost predicate Upgrades(config: Json, target: nat, site: Site, order: KeyOrder, d: map<string, Json>, r: Json) {
    && target == 5 && config.Obj? && site.template.Obj? && IsOrder(order) && d != map[]
    && MergedDatabase(config, 3, site) == Some(Obj(d))
    && IsLeaf(Lookup(config, ["x"])) && LeftAlone("server_config", 3, target, site, ["x"])
    && UpgradeFrom(config, "server_config", 3, target, site, order) == Some(r)
  }

  lemma LeftAloneExample(target: nat, site: Site)
    ensures LeftAlone("server_config", 3, target, site, ["x"])
  {
    ExampleUnnamed();
    assert ["x"][0] == "x";
    UnnamedLeftAlone(target, site, ["x"]);
  }

  lemma ExampleUnnamed()
    ensures Unnamed("x")
  {
  }

  lemma FirstStep(config: Json, site: Site, order: KeyOrder) returns (d4: Json)
    requires config.Obj? && PLUGINS in config.fields && FitsSections(config)
    requires site.template == SECTIONS && site.hosts.None? && site.access.None?
    ensures d4.Obj? && RunSchemaUpdate(config, "server_config", 4, site, order) == Some(d4)
    ensures HasSection(d4, "advanced_settings") && DatabaseOf(d4) == DatabaseOf(config)
  {
    V4GoesThrough(config);
    var c4 := ToV4(SECTIONS, config).value;
    assert StepToV4(site, config) == Some(c4);
    StepFour(config, site, order);
    d4 := Apply(c4, Set(Top, "schema_version", Tag(4))).value;
    TagKeepsDatabase(c4, 4);
  }

  lemma SecondStep(config: Json, site: Site, order: KeyOrder, d: map<string, Json>)
    requires config.Obj? && site.template == SECTIONS && HasSection(config, "advanced_settings")
    requires "irods_host" in site.env && TlsClientEdits(site.env) == []
    requires DatabaseOf(config) == Some(Obj(d)) && d != map[] && MigrateFirst(d, order).Some?
    ensures RunSchemaUpdate(config, "server_config", 5, site, order).Some?
  {
    V5GoesThrough(config, site.env, order, d);
    StepFive(config, site, order);
  }

  lemma ExampleGoesThrough(config: Json, target: nat, site: Site, order: KeyOrder, d: map<string, Json>)
    requires config.Obj? && PLUGINS in config.fields && FitsSections(config)
    requires site.template == SECTIONS && site.hosts.None? && site.access.None?
    requires "irods_host" in site.env && TlsClientEdits(site.env) == []
    requires DatabaseOf(config) == Some(Obj(d)) && d != map[] && MigrateFirst(d, order).Some?
    requires target == 5
    ensures UpgradeFrom(config, "server_config", 3, target, site, order).Some?
  {
    var d4 := FirstStep(config, site, order);
    SecondStep(d4, site, order, d);
    assert UpgradeFrom(d4, "server_config", 4, target, site, order).Some?;
  }

  lemma UpgradeCanSucceed()
    returns (config: Json, target: nat, site: Site, order: KeyOrder, d: map<string, Json>, r: Json)
    ensures Upgrades(config, target, site, order, d, r)
  {
    order := SomeOrder();
    target := 5;
    d := map["postgres" := Obj(map["db_host" := Str("h")])];
    config := Obj(map["x" := Num(1), PLUGINS := Obj(map["database" := Obj(d)])]);
    site := Site(_ => None, None, SECTIONS, map["irods_host" := Str("h")], None, None);
    SmallDatabaseMigrates(d, order);
    assert "postgres" in d;
    ExampleGoesThrough(config, target, site, order, d);
    LeftAloneExample(target, site);
    ExampleDatabase(config, d);
    r := UpgradeFrom(config, "server_config", 3, target, site, order).value;
  }

  lemma ExampleDatabase(config: Json, d: map<string, Json>)
    requires config == Obj(map["x" := Num(1), PLUGINS := Obj(map["database" := Obj(d)])])
    ensures Expected(SECTIONS, config, DATABASE) == Some(Obj(d)) && IsLeaf(Lookup(config, ["x"]))
  {
    DatabaseLookup(config);
    DatabaseLookup(SECTIONS);
    MergeIntoEmpty(Obj(d));
    assert ["x"][1..] == [];
  }

  // ------------------------------------------------------------- from version 2, as a provider

  lemma {:induction false} TopEditsRun(j: Json, es: seq<Edit>)
    requires j.Obj? && forall i | 0 <= i < |es| :: es[i].at.Top?
    ensures ApplyAll(j, es).Some?
    decreases es
  {
    if es != [] { TopEditsRun(Apply(j, es[0]).value, es[1..]); }
  }

  lemma {:induction false} EditsJoin(j: Json, a: seq<Edit>, b: seq<Edit>)
    requires j.Obj? && ApplyAll(j, a).Some?
    ensures ApplyAll(j, a + b) == ApplyAll(ApplyAll(j, a).value, b)
    decreases a
  {
    if a == [] {
      assert a + b == b;
    } else {
      assert (a + b)[1..] == a[1..] + b;
      EditsJoin(Apply(j, a[0]).value, a[1..], b);
    }
  }

  /** A provider's configuration of version 2 with no more than it has to hold. */
  const OLD: Json := Obj(map["icat_host" := Str("h"), RULE_SETS[0] := Arr([]), RULE_SETS[1] := Arr([]),
                             RULE_SETS[2] := Arr([]), "pam_no_extend" := Bool(true), USER_LIST := EMPTY])

  lemma OldKeys()
    ensures Get(OLD, "icat_host") == Some(Str("h")) && Get(OLD, "pam_no_extend") == Some(Bool(true))
    ensures forall i | 0 <= i < 3 :: Get(OLD, RULE_SETS[i]) == Some(Arr([]))
    ensures Get(OLD, USER_LIST) == Some(EMPTY)
    ensures Get(OLD, PLUGINS) == None && Get(OLD, "federation") == None && Get(OLD, "kerberos_name") == None
  {
  }

  /** Missing, or a dictionary. */
  predicate NoLeafAt(j: Json, section: string) {
    Get(j, section).Some? ==> HasSection(j, section)
  }

  lemma {:induction false} OutsideKeepsSection(j: Json, es: seq<Edit>, section: string)
    requires j.Obj? && AllOutside(es, section) && ApplyAll(j, es).Some? && NoLeafAt(j, section)
    ensures NoLeafAt(ApplyAll(j, es).value, section)
    decreases es
  {
    if es != [] {
      assert Misses(es[0], section, "") && es[0].at != In(section);
      OutsideKeepsSection(Apply(j, es[0]).value, es[1..], section);
    }
  }

  /** What the groups of edits need and keep. */
  predicate Sound(j: Json) {
    j.Obj? && NoLeafAt(j, PLUGINS) && NoLeafAt(j, "advanced_settings") && Get(j, USER_LIST) == Some(EMPTY)
  }

  ghost predicate Aside(es: seq<Edit>) {
    AllOutside(es, "advanced_settings") && AllOutside(es, USER_LIST)
  }

  lemma AsideKeeps(j: Json, es: seq<Edit>)
    requires Sound(j) && Aside(es) && ApplyAll(j, es).Some? && NoLeafAt(ApplyAll(j, es).value, PLUGINS)
    ensures Sound(ApplyAll(j, es).value)
  {
    OutsideKeepsSection(j, es, "advanced_settings");
    OutsideKeeps(j, es, USER_LIST);
  }

  lemma TopGroup(j: Json, es: seq<Edit>)
    requires Sound(j) && Aside(es) && AllOutside(es, PLUGINS) && forall i | 0 <= i < |es| :: es[i].at.Top?
    ensures ApplyAll(j, es).Some? && Sound(ApplyAll(j, es).value)
  {
    TopEditsRun(j, es);
    OutsideKeepsSection(j, es, PLUGINS);
    AsideKeeps(j, es);
  }

  lemma PluginsGroup(j: Json, es: seq<Edit>)
    requires Sound(j) && HasSection(j, PLUGINS) && Aside(es) && AllWithin(es, PLUGINS)
    ensures ApplyAll(j, es).Some? && Sound(ApplyAll(j, es).value) && HasSection(ApplyAll(j, es).value, PLUGINS)
  {
    WithinRuns(j, es, PLUGINS);
    AsideKeeps(j, es);
  }

  lemma RoleAside(host: Json, provider: bool)
    ensures Aside(RoleEdits(host, provider)) && AllOutside(RoleEdits(host, provider), PLUGINS)
  {
  }

  lemma {:induction false} DropsAreTop(keys: seq<string>)
    ensures forall i | 0 <= i < |DropAll(keys)| :: DropAll(keys)[i].at.Top?
  {
    if keys != [] { DropsAreTop(keys[1..]); }
  }

  lemma SectionsUnnamed()
    ensures UnnamedInV3("advanced_settings") && UnnamedInV3(USER_LIST) && PLUGINS !in RULE_SETS && PLUGINS !in PAM_KEYS
    ensures USER_LIST != "advanced_settings" && PLUGINS != "kerberos_name"
  {
  }

  lemma RuleEngineGroup(j: Json, config: Json)
    requires Sound(j) && RuleEngineEdits(config).Some?
    ensures var es := RuleEngineEdits(config).value;
            ApplyAll(j, es).Some? && Sound(ApplyAll(j, es).value) && HasSection(ApplyAll(j, es).value, PLUGINS)
  {
    var es, drops := RuleEngineEdits(config).value, DropAll(RULE_SETS);
    var n := |drops|;
    assert es[..n] == drops && es == drops + es[n..] && es[n] == Ensure(Top, PLUGINS);
    SectionsUnnamed();
    DropsAreTop(RULE_SETS);
    DropsOutside(RULE_SETS, PLUGINS);
    DropsOutside(RULE_SETS, "advanced_settings");
    DropsOutside(RULE_SETS, USER_LIST);
    TopGroup(j, drops);
    EditsJoin(j, drops, es[n..]);
    EngineGroup(ApplyAll(j, drops).value, es[n], es[n + 1]);
    assert es[n..] == [es[n], es[n + 1]];
  }

  lemma EngineGroup(j: Json, a: Edit, b: Edit)
    requires Sound(j) && a == Ensure(Top, PLUGINS) && b.Set? && b.at == In(PLUGINS)
    ensures ApplyAll(j, [a, b]).Some? && Sound(ApplyAll(j, [a, b]).value)
    ensures HasSection(ApplyAll(j, [a, b]).value, PLUGINS)
  {
    var ensured := Apply(j, a).value;
    assert HasSection(ensured, PLUGINS) && Sound(ensured);
    assert Aside([b]) && AllWithin([b], PLUGINS);
    PluginsGroup(ensured, [b]);
    assert [a, b][1..] == [b];
  }

  lemma AuthenticationGroup(j: Json, config: Json)
    requires Sound(j) && HasSection(j, PLUGINS) && AuthenticationEdits(config).Some?
    ensures var es := AuthenticationEdits(config).value;
            ApplyAll(j, es).Some? && Sound(ApplyAll(j, es).value) && HasSection(ApplyAll(j, es).value, PLUGINS)
  {
    var es := AuthenticationEdits(config).value;
    var first := [Set(In(PLUGINS), "authentication", Authentication(config).value), Ensure(In(PLUGINS), "network"),
                  Ensure(In(PLUGINS), "resource")];
    SectionsUnnamed();
    AuthenticationOutside(config, "advanced_settings");
    AuthenticationOutside(config, USER_LIST);
    DropsWithin(PAM_KEYS, PLUGINS);
    DropsWithin(["kerberos_name"], PLUGINS);
    WithinConcat(first, DropAll(PAM_KEYS), PLUGINS);
    WithinConcat(first + DropAll(PAM_KEYS), DropAll(["kerberos_name"]), PLUGINS);
    PluginsGroup(j, es);
  }

  lemma SleepGroup(j: Json)
    requires Sound(j) && HasSection(j, PLUGINS)
    ensures ApplyAll(j, SLEEP_EDITS).Some?
    ensures var r := ApplyAll(j, SLEEP_EDITS).value;
            Sound(r) && HasSection(r, PLUGINS) && HasSection(r, "advanced_settings")
  {
    var ensured := Apply(j, SLEEP_EDITS[0]).value;
    assert HasSection(ensured, "advanced_settings");
    assert SLEEP_EDITS[1..] == [SLEEP_EDITS[1]] && [SLEEP_EDITS[1]][1..] == [];
    assert ApplyAll(ensured, [SLEEP_EDITS[1]]) == Apply(ensured, SLEEP_EDITS[1]);
  }

  lemma DatabaseGroup(j: Json, config: Json, file: Option<Json>)
    requires Sound(j) && HasSection(j, PLUGINS) && HasSection(j, "advanced_settings")
    requires DatabaseEdits(config, file).Some?
    ensures var es := DatabaseEdits(config, file).value;
            && ApplyAll(j, es).Some?
            && var r := ApplyAll(j, es).value; FitsSections(r) && PLUGINS in r.fields
  {
    var es := DatabaseEdits(config, file).value;
    PluginsGroup(j, es);
  }

  lemma FiveGroups(j: Json, a: seq<Edit>, b: seq<Edit>, c: seq<Edit>, d: seq<Edit>, e: seq<Edit>, j1: Json, j2: Json,
                   j3: Json, j4: Json)
    requires j.Obj? && j1.Obj? && j2.Obj? && j3.Obj? && j4.Obj?
    requires ApplyAll(j, a) == Some(j1) && ApplyAll(j1, b) == Some(j2) && ApplyAll(j2, c) == Some(j3)
    requires ApplyAll(j3, d) == Some(j4)
    ensures ApplyAll(j, a + b + c + d + e) == ApplyAll(j4, e)
  {
    EditsJoin(j, a, b);
    EditsJoin(j, a + b, c);
    EditsJoin(j, a + b + c, d);
    EditsJoin(j, a + b + c + d, e);
  }

  lemma ProviderBefore(config: Json, host: Json)
    requires FederationEdits(config) == Some([]) && RuleEngineEdits(config).Some? && AuthenticationEdits(config).Some?
    ensures EditsBefore(config, host, true)
         == Some(RoleEdits(host, true) + RuleEngineEdits(config).value + AuthenticationEdits(config).value)
  {
    WithNothing(RoleEdits(host, true));
  }

  lemma WithNothing(es: seq<Edit>)
    ensures es + [] == es
  {
  }

  lemma ProviderEdits(config: Json, site: Site, host: Json, before: seq<Edit>, after: seq<Edit>)
    requires Get(config, "icat_host") == Some(host) && site.local(host) == Some(true)
    requires EditsBefore(config, host, true) == Some(before) && DatabaseEdits(config, site.database) == Some(after)
    ensures V3ServerEdits(config, site) == Some(before + SLEEP_EDITS + after)
  {
  }

  /** The groups one after the other. */
  lemma V3GoesThrough(config: Json, site: Site, host: Json) returns (r: Json)
    requires Sound(config) && Get(config, "icat_host") == Some(host) && site.local(host) == Some(true)
    requires FederationEdits(config) == Some([]) && RuleEngineEdits(config).Some? && AuthenticationEdits(config).Some?
    requires DatabaseEdits(config, site.database).Some?
    ensures r.Obj? && ToV3(config, "server_config", site) == Some(r) && FitsSections(r) && PLUGINS in r.fields
  {
    var named := NamedIsSound(config);
    var j1 := RoleGroup(named, host);
    RuleEngineGroup(j1, config);
    var j2 := ApplyAll(j1, RuleEngineEdits(config).value).value;
    AuthenticationGroup(j2, config);
    var j3 := ApplyAll(j2, AuthenticationEdits(config).value).value;
    SleepGroup(j3);
    var j4 := ApplyAll(j3, SLEEP_EDITS).value;
    DatabaseGroup(j4, config, site.database);
    r := ApplyAll(j4, DatabaseEdits(config, site.database).value).value;
    FiveGroups(named, RoleEdits(host, true), RuleEngineEdits(config).value, AuthenticationEdits(config).value,
               SLEEP_EDITS, DatabaseEdits(config, site.database).value, j1, j2, j3, j4);
    ProviderBefore(config, host);
    ProviderEdits(config, site, host, EditsBefore(config, host, true).value,
                  DatabaseEdits(config, site.database).value);
  }

  lemma NamedIsSound(config: Json) returns (named: Json)
    requires Sound(config)
    ensures Sound(named) && Apply(config, Set(Top, "schema_name", Str("server_config"))) == Some(named)
  {
    named := Apply(config, Set(Top, "schema_name", Str("server_config"))).value;
  }

  lemma RoleGroup(j: Json, host: Json) returns (r: Json)
    requires Sound(j)
    ensures Sound(r) && ApplyAll(j, RoleEdits(host, true)) == Some(r)
  {
    RoleAside(host, true);
    TopGroup(j, RoleEdits(host, true));
    r := ApplyAll(j, RoleEdits(host, true)).value;
  }

  const OLD_FILE: Json := Obj(map["catalog_database_type" := Str("postgres"), "db_host" := Str("h")])

  lemma OldIsSound()
    ensures Sound(OLD) && FederationEdits(OLD) == Some([])
  {
    OldKeys();
    assert Get(OLD, "advanced_settings") == None;
  }

  lemma OldAuthentication()
    ensures AuthenticationEdits(OLD).Some? && RuleEngineEdits(OLD).Some?
  {
    OldKeys();
  }

  ghost predicate Local(site: Site) {
    forall host :: site.local(host) == Some(true)
  }

  lemma OldDatabase(site: Site)
    requires Local(site) && site.database == Some(OLD_FILE)
    ensures DatabaseEdits(OLD, site.database).Some?
    ensures DatabaseFrom(OLD, site) == Some(Obj(map["postgres" := Obj(map["db_host" := Str("h")])]))
  {
    OldKeys();
    assert OLD_FILE.fields - {"catalog_database_type"} == map["db_host" := Str("h")];
  }

  /** A configuration of version 2 with a moved setting and a database file. */
  ghost predicate UpgradesFromTwo(config: Json, target: nat, site: Site, order: KeyOrder, d: map<string, Json>, r: Json)
  {
    && target == 5 && config.Obj? && site.template.Obj? && IsOrder(order) && d != map[]
    && MergedDatabase(config, 2, site) == Some(Obj(d)) && IsLeaf(Get(config, "pam_no_extend"))
    && UpgradeFrom(config, "server_config", 2, target, site, order) == Some(r)
  }

  lemma OldUpgradeCanSucceed()
    returns (config: Json, target: nat, site: Site, order: KeyOrder, d: map<string, Json>, r: Json)
    ensures UpgradesFromTwo(config, target, site, order, d, r)
  {
    order := SomeOrder();
    target := 5;
    d := map["postgres" := Obj(map["db_host" := Str("h")])];
    site := OldSite();
    SmallDatabaseMigrates(d, order);
    config := OldConfig(site, d);
    r := OldGoesThrough(config, target, site, order, d);
  }

  lemma OldSite() returns (site: Site)
    ensures Local(site) && site.database == Some(OLD_FILE) && site.template == SECTIONS
    ensures site.hosts.None? && site.access.None? && "irods_host" in site.env && TlsClientEdits(site.env) == []
  {
    site := Site(_ => Some(true), Some(OLD_FILE), SECTIONS, map["irods_host" := Str("h")], None, None);
  }

  lemma OldGoesThrough(config: Json, target: nat, site: Site, order: KeyOrder, d: map<string, Json>) returns (r: Json)
    requires Local(site) && site.template == SECTIONS && site.hosts.None? && site.access.None?
    requires "irods_host" in site.env && TlsClientEdits(site.env) == [] && target == 5
    requires Sound(config) && Get(config, "icat_host").Some?
    requires FederationEdits(config) == Some([]) && RuleEngineEdits(config).Some? && AuthenticationEdits(config).Some?
    requires DatabaseEdits(config, site.database).Some? && DatabaseFrom(config, site) == Some(Obj(d))
    requires d != map[] && MigrateFirst(d, order).Some?
    ensures UpgradeFrom(config, "server_config", 2, target, site, order) == Some(r)
  {
    var c3 := OldAtThree(config, site, order, d);
    ExampleGoesThrough(c3, target, site, order, d);
    StartAtTwo(config, c3, target, site, order);
    r := UpgradeFrom(c3, "server_config", 3, target, site, order).value;
  }

  lemma StartAtTwo(config: Json, c3: Json, target: nat, site: Site, order: KeyOrder)
    requires config.Obj? && c3.Obj? && site.template.Obj? && target > 2
    requires RunSchemaUpdate(config, "server_config", 3, site, order) == Some(c3)
    ensures UpgradeFrom(config, "server_config", 2, target, site, order)
         == UpgradeFrom(c3, "server_config", 3, target, site, order)
  {
  }

  lemma OldConfig(site: Site, d: map<string, Json>) returns (config: Json)
    requires Local(site) && site.database == Some(OLD_FILE) && site.template == SECTIONS
    requires d == map["postgres" := Obj(map["db_host" := Str("h")])]
    ensures Sound(config) && Get(config, "icat_host").Some? && IsLeaf(Get(config, "pam_no_extend"))
    ensures FederationEdits(config) == Some([]) && RuleEngineEdits(config).Some? && AuthenticationEdits(config).Some?
    ensures DatabaseEdits(config, site.database).Some? && DatabaseFrom(config, site) == Some(Obj(d))
    ensures d != map[] && MergedDatabase(config, 2, site) == Some(Obj(d))
  {
    config := OLD;
    OldKeys();
    OldIsSound();
    OldAuthentication();
    OldDatabase(site);
    MergeIntoEmpty(Obj(d));
    assert "postgres" in d;
  }

  lemma OldAtThree(config: Json, site: Site, order: KeyOrder, d: map<string, Json>) returns (c3: Json)
    requires Local(site) && site.template.Obj?
    requires Sound(config) && Get(config, "icat_host").Some?
    requires FederationEdits(config) == Some([]) && RuleEngineEdits(config).Some? && AuthenticationEdits(config).Some?
    requires DatabaseEdits(config, site.database).Some? && DatabaseFrom(config, site) == Some(Obj(d))
    ensures c3.Obj? && RunSchemaUpdate(config, "server_config", 3, site, order) == Some(c3)
    ensures PLUGINS in c3.fields && FitsSections(c3) && DatabaseOf(c3) == Some(Obj(d))
  {
    var v3 := V3GoesThrough(config, site, Get(config, "icat_host").value);
    V3TakesDatabase(config, site, v3);
    StepThree(config, "server_config", site, order);
    TagKeepsDatabase(v3, 3);
    c3 := TagFits(v3);
  }

  lemma TagFits(v3: Json) returns (c3: Json)
    requires v3.Obj? && FitsSections(v3) && PLUGINS in v3.fields
    ensures c3.Obj? && Apply(v3, Set(Top, "schema_version", Tag(3))) == Some(c3)
    ensures FitsSections(c3) && PLUGINS in c3.fields
  {
    c3 := Apply(v3, Set(Top, "schema_version", Tag(3))).value;
  }
}
