/** The conversion of a configuration to schema version 3, as in
    scripts/irods/upgrade_configuration.py, and what it leaves alone. */
module ConfigV3 {

  import opened Common
  import opened ConfigEdits
  import opened JsonMerge

  function NewFederation(items: seq<Json>): Option<seq<Json>> {
    if items == [] then Some([]) else
      var host, rest := Get(items[0], "icat_host"), NewFederation(items[1..]);
      if host.None? || rest.None? then None
      else Some([Obj((items[0].fields - {"icat_host"})["catalog_provider_hosts" := Arr([host.value])])] + rest.value)
  }

  function FederationEdits(config: Json): Option<seq<Edit>> {
    match Get(config, "federation")
    case None => Some([])
    case Some(Arr(items)) =>
      var entries := NewFederation(items);
      if entries.None? then None else Some([Set(Top, "federation", Arr(entries.value))])
    case Some(other) => if Length(other) == Some(0) then Some([]) else None
  }

  const RULE_SETS: seq<string> := ["re_data_variable_mapping_set", "re_function_name_mapping_set", "re_rulebase_set"]

  function RuleEngine(variables: seq<Json>, functions: seq<Json>, rules: seq<Json>): Json {
    Obj(map[
      "instance_name" := Str("irods_rule_engine_plugin-irods_rule_language-instance"),
      "plugin_name" := Str("irods_rule_engine_plugin-irods_rule_language"),
      "plugin_specific_configuration" := Obj(map[
        "re_data_variable_mapping_set" := Arr(variables),
        "re_function_name_mapping_set" := Arr(functions),
        "re_rulebase_set" := Arr(rules),
        "regexes_for_supported_peps" :=
          Arr([Str("ac[^ ]*"), Str("msi[^ ]*"), Str("[^ ]*pep_[^ ]*_(pre|post|except|finally)")])]),
      "shared_memory_instance" := Str("upgraded_irods_rule_language_rule_engine")])
  }

  function FileNames(config: Json, key: string): Option<seq<Json>> {
    if Get(config, key).None? then None else ColumnOf(Get(config, key).value, "filename")
  }

  function RuleEngineEdits(config: Json): Option<seq<Edit>> {
    var variables := FileNames(config, RULE_SETS[0]);
    var functions := FileNames(config, RULE_SETS[1]);
    var rules := FileNames(config, RULE_SETS[2]);
    if variables.None? || functions.None? || rules.None? then None
    else
      var engine := RuleEngine(variables.value, functions.value, rules.value);
      Some(DropAll(RULE_SETS) + [Ensure(Top, PLUGINS), Set(In(PLUGINS), "rule_engines", Arr([engine]))])
  }

  const PAM_KEYS: seq<string> :=
    ["pam_no_extend", "pam_password_length", "pam_password_max_time", "pam_password_min_time"]
  const PAM_NAMES: seq<string> := ["no_extend", "password_length", "password_max_time", "password_min_time"]

  /** The PAM options that are set, in their own dictionary under new names. */
  function PamOptions(config: Json, i: nat): map<string, Json>
    requires i <= 4
  {
    if i == 0 then map[] else
      var before, v := PamOptions(config, i - 1), Get(config, PAM_KEYS[i - 1]);
      if v.None? then before else before[PAM_NAMES[i - 1] := v.value]
  }

  /** `authentication` with the options in its dictionary `key`, if there are any. */
  function WithOptions(authentication: Json, key: string, options: map<string, Json>): Option<Json> {
    if options == map[] then Some(authentication)
    else if !authentication.Obj? then None
    else
      var was := Get(authentication, key);
      if was.Some? && !was.value.Obj? then None
      else Some(Obj(authentication.fields[key := Obj((if was.Some? then was.value.fields else map[]) + options)]))
  }

  function Authentication(config: Json): Option<Json> {
    var plugins := Get(config, PLUGINS);
    var was := if plugins.Some? then Get(plugins.value, "authentication") else None;
    var pam := WithOptions(if was.Some? then was.value else EMPTY, "pam", PamOptions(config, 4));
    var name := Get(config, "kerberos_name");
    if pam.None? || name.None? then pam
    else if Get(pam.value, "krb").None? then None
    else WithOptions(pam.value, "krb", map["name" := name.value])
  }

  function AuthenticationEdits(config: Json): Option<seq<Edit>> {
    var authentication := Authentication(config);
    if authentication.None? then None
    else Some([Set(In(PLUGINS), "authentication", authentication.value), Ensure(In(PLUGINS), "network"),
               Ensure(In(PLUGINS), "resource")] + DropAll(PAM_KEYS) + DropAll(["kerberos_name"]))
  }

  /** A catalog provider takes over its old database configuration. */
  function DatabaseEdits(config: Json, file: Option<Json>): Option<seq<Edit>> {
    var plugins := Get(config, PLUGINS);
    var was := if plugins.Some? then Get(plugins.value, "database") else None;
    var sections := if was.Some? then was.value else EMPTY;
    if file.None? || !sections.Obj? then None else
      match Get(file.value, "catalog_database_type")
      case Some(Str(kind)) =>
        var section := Obj(file.value.fields - {"catalog_database_type"});
        Some([Set(In(PLUGINS), "database", Obj(sections.fields[kind := section]))])
      case _ => None
  }

  function RoleEdits(host: Json, provider: bool): seq<Edit> {
    [Set(Top, "catalog_service_role", Str(if provider then "provider" else "consumer")),
     Drop(Top, "icat_host"),
     Set(Top, "catalog_provider_hosts", Arr([host])),
     Set(Top, "rule_engine_namespaces", Arr([Str("")]))]
  }

  const SLEEP_EDITS: seq<Edit> :=
    [Ensure(Top, "advanced_settings"), Set(ADVANCED, SLEEP_TIME, Num(30))]

  /** What comes before the sleep time is set, and after. */
  function EditsBefore(config: Json, host: Json, provider: bool): Option<seq<Edit>> {
    var federation, rules := FederationEdits(config), RuleEngineEdits(config);
    var authentication := AuthenticationEdits(config);
    if federation.None? || rules.None? || authentication.None? then None
    else Some(RoleEdits(host, provider) + federation.value + rules.value + authentication.value)
  }

  function EditsAfter(config: Json, file: Option<Json>, provider: bool): Option<seq<Edit>> {
    if provider then DatabaseEdits(config, file) else Some([])
  }

  function V3ServerEdits(config: Json, site: Site): Option<seq<Edit>> {
    var host := Get(config, "icat_host");
    if host.None? || site.local(host.value).None? then None else
      var provider := site.local(host.value).value;
      var before, after := EditsBefore(config, host.value, provider), EditsAfter(config, site.database, provider);
      if before.None? || after.None? then None else Some(before.value + SLEEP_EDITS + after.value)
  }

  function ToV3(config: Json, schema: string, site: Site): (r: Option<Json>)
    requires config.Obj?
    ensures r.Some? ==> r.value.Obj?
  {
    var named := Apply(config, Set(Top, "schema_name", Str(schema))).value;
    if schema != "server_config" then Some(named) else
      var edits := V3ServerEdits(config, site);
      if edits.None? then None else ApplyAll(named, edits.value)
  }

  // ---------------------------------------------------------------- what it leaves alone

  /** The path is none that the step to version 3 writes, pops or sets, when the
      configuration is the server's. */
  ghost predicate SparedByV3(path: seq<string>) {
    && AllSpare(RoleEdits(Null, true), path) && AllSpare(SLEEP_EDITS, path)
    && AllSpare(DropAll(RULE_SETS), path) && AllSpare(DropAll(PAM_KEYS), path)
    && AllSpare(DropAll(["kerberos_name"]), path)
    && !(["federation"] <= path) && !([PLUGINS, "rule_engines"] <= path)
    && !([PLUGINS, "authentication"] <= path) && !([PLUGINS, "database"] <= path)
  }

  lemma RoleSpares(host: Json, provider: bool, path: seq<string>)
    requires AllSpare(RoleEdits(Null, true), path)
    ensures AllSpare(RoleEdits(host, provider), path)
  {
    var es, fs := RoleEdits(host, provider), RoleEdits(Null, true);
    forall i | 0 <= i < |es|
      ensures Spares(es[i], path)
    {
      assert Spares(fs[i], path) && es[i].at == fs[i].at && es[i].key == fs[i].key;
    }
  }

  lemma FederationSpares(config: Json, path: seq<string>)
    requires FederationEdits(config).Some? && !(["federation"] <= path)
    ensures AllSpare(FederationEdits(config).value, path)
  {
  }

  lemma EngineSpares(engine: Json, path: seq<string>)
    requires !([PLUGINS, "rule_engines"] <= path)
    ensures AllSpare([Ensure(Top, PLUGINS), Set(In(PLUGINS), "rule_engines", Arr([engine]))], path)
  {
  }

  lemma RuleEngineSpares(config: Json, path: seq<string>)
    requires RuleEngineEdits(config).Some? && AllSpare(DropAll(RULE_SETS), path) && !([PLUGINS, "rule_engines"] <= path)
    ensures AllSpare(RuleEngineEdits(config).value, path)
  {
    var variables, functions := FileNames(config, RULE_SETS[0]).value, FileNames(config, RULE_SETS[1]).value;
    var engine := RuleEngine(variables, functions, FileNames(config, RULE_SETS[2]).value);
    EngineSpares(engine, path);
    AllSpareConcat(DropAll(RULE_SETS), [Ensure(Top, PLUGINS), Set(In(PLUGINS), "rule_engines", Arr([engine]))], path);
  }

  lemma AuthenticationSpares(config: Json, path: seq<string>)
    requires AuthenticationEdits(config).Some? && !([PLUGINS, "authentication"] <= path)
    requires AllSpare(DropAll(PAM_KEYS), path) && AllSpare(DropAll(["kerberos_name"]), path)
    ensures AllSpare(AuthenticationEdits(config).value, path)
  {
    var first := [Set(In(PLUGINS), "authentication", Authentication(config).value), Ensure(In(PLUGINS), "network"),
                  Ensure(In(PLUGINS), "resource")];
    AllSpareConcat(first, DropAll(PAM_KEYS), path);
    AllSpareConcat(first + DropAll(PAM_KEYS), DropAll(["kerberos_name"]), path);
  }

  lemma BeforeSpares(config: Json, host: Json, provider: bool, path: seq<string>)
    requires EditsBefore(config, host, provider).Some? && SparedByV3(path)
    ensures AllSpare(EditsBefore(config, host, provider).value, path)
  {
    var a, b := RoleEdits(host, provider), FederationEdits(config).value;
    var c, d := RuleEngineEdits(config).value, AuthenticationEdits(config).value;
    RoleSpares(host, provider, path);
    FederationSpares(config, path);
    RuleEngineSpares(config, path);
    AuthenticationSpares(config, path);
    AllSpareConcat(a, b, path);
    AllSpareConcat(a + b, c, path);
    AllSpareConcat(a + b + c, d, path);
  }

  lemma AfterSpares(config: Json, file: Option<Json>, provider: bool, path: seq<string>)
    requires EditsAfter(config, file, provider).Some? && !([PLUGINS, "database"] <= path)
    ensures AllSpare(EditsAfter(config, file, provider).value, path)
  {
  }

  lemma V3Spares(config: Json, site: Site, path: seq<string>)
    requires V3ServerEdits(config, site).Some? && SparedByV3(path)
    ensures AllSpare(V3ServerEdits(config, site).value, path)
  {
    var host := Get(config, "icat_host").value;
    var provider := site.local(host).value;
    var before, after := EditsBefore(config, host, provider).value, EditsAfter(config, site.database, provider).value;
    BeforeSpares(config, host, provider, path);
    AfterSpares(config, site.database, provider, path);
    AllSpareConcat(before, SLEEP_EDITS, path);
    AllSpareConcat(before + SLEEP_EDITS, after, path);
  }

  lemma V3Keeps(config: Json, schema: string, site: Site, path: seq<string>)
    requires config.Obj? && IsLeaf(Lookup(config, path)) && ToV3(config, schema, site).Some?
    requires !(["schema_name"] <= path) && (schema == "server_config" ==> SparedByV3(path))
    ensures Lookup(ToV3(config, schema, site).value, path) == Lookup(config, path)
  {
    var naming := Set(Top, "schema_name", Str(schema));
    ApplyKeeps(config, naming, path);
    if schema == "server_config" {
      V3Spares(config, site, path);
      ApplyAllKeeps(Apply(config, naming).value, V3ServerEdits(config, site).value, path);
    }
  }

  /** None of the keys and sections that the step writes, pops or sets. */
  predicate UnnamedInV3(key: string) {
    && key !in RULE_SETS && key !in PAM_KEYS && key != "kerberos_name" && key != "federation" && key != PLUGINS
    && key != "catalog_service_role" && key != "icat_host" && key != "catalog_provider_hosts"
    && key != "rule_engine_namespaces"
  }

  lemma DropsSpared(path: seq<string>)
    requires path != [] && UnnamedInV3(path[0])
    ensures AllSpare(DropAll(RULE_SETS), path) && AllSpare(DropAll(PAM_KEYS), path)
    ensures AllSpare(DropAll(["kerberos_name"]), path) && AllSpare(RoleEdits(Null, true), path)
  {
    DropsOutside(RULE_SETS, path[0]);
    OutsideSpares(DropAll(RULE_SETS), path);
    DropsOutside(PAM_KEYS, path[0]);
    OutsideSpares(DropAll(PAM_KEYS), path);
    DropsOutside(["kerberos_name"], path[0]);
    OutsideSpares(DropAll(["kerberos_name"]), path);
    assert AllOutside(RoleEdits(Null, true), path[0]);
    OutsideSpares(RoleEdits(Null, true), path);
  }

  lemma TopSpared(key: string)
    requires UnnamedInV3(key) && key != "advanced_settings"
    ensures SparedByV3([key])
  {
    assert [key][0] == key;
    DropsSpared([key]);
    assert AllOutside(SLEEP_EDITS, key);
    OutsideSpares(SLEEP_EDITS, [key]);
  }

  lemma AdvancedSpared(name: string)
    requires name != SLEEP_TIME
    ensures SparedByV3(["advanced_settings", name]) && !(["schema_name"] <= ["advanced_settings", name])
  {
    var path := ["advanced_settings", name];
    assert path[0] == "advanced_settings";
    DropsSpared(path);
    MissSpares(SLEEP_EDITS, "advanced_settings", name);
  }

  // -------------------------------------------------------------- the sleep time it sets

  lemma SetIsThere(j: Json)
    requires j.Obj? && ApplyAll(j, SLEEP_EDITS).Some?
    ensures Lookup(ApplyAll(j, SLEEP_EDITS).value, ["advanced_settings", SLEEP_TIME]) == Some(Num(30))
  {
    TwoEdits(j, SLEEP_EDITS[0], SLEEP_EDITS[1]);
    SetIsFound(Apply(j, SLEEP_EDITS[0]).value, "advanced_settings", SLEEP_TIME, Num(30));
  }

  lemma SetInTheMiddle(j: Json, before: seq<Edit>, after: seq<Edit>)
    requires j.Obj? && ApplyAll(j, before + SLEEP_EDITS + after).Some?
    requires AllSpare(after, ["advanced_settings", SLEEP_TIME])
    ensures Lookup(ApplyAll(j, before + SLEEP_EDITS + after).value, ["advanced_settings", SLEEP_TIME])
         == Some(Num(30))
  {
    ApplyAllSplits(j, before + SLEEP_EDITS, after);
    ApplyAllSplits(j, before, SLEEP_EDITS);
    SetIsThere(ApplyAll(j, before).value);
    ApplyAllKeeps(ApplyAll(j, before + SLEEP_EDITS).value, after, ["advanced_settings", SLEEP_TIME]);
  }

  // ------------------------------------------------------------- one group of edits at a time

  /** What the configuration is after each group of edits. */
  datatype Run = Run(host: Json, provider: bool, roles: Json, hosts: Json, rules: Json, authenticated: Json,
                     timed: Json)

  ghost predicate IsRun(run: Run, config: Json, site: Site, r: Json)
    requires config.Obj?
  {
    && Get(config, "icat_host") == Some(run.host) && site.local(run.host) == Some(run.provider)
    && FederationEdits(config).Some? && RuleEngineEdits(config).Some? && AuthenticationEdits(config).Some?
    && EditsAfter(config, site.database, run.provider).Some?
    && run.roles.Obj? && run.hosts.Obj? && run.rules.Obj? && run.authenticated.Obj? && run.timed.Obj?
    && var named := Apply(config, Set(Top, "schema_name", Str("server_config"))).value;
    && ApplyAll(named, RoleEdits(run.host, run.provider)) == Some(run.roles)
    && ApplyAll(run.roles, FederationEdits(config).value) == Some(run.hosts)
    && ApplyAll(run.hosts, RuleEngineEdits(config).value) == Some(run.rules)
    && ApplyAll(run.rules, AuthenticationEdits(config).value) == Some(run.authenticated)
    && ApplyAll(run.authenticated, SLEEP_EDITS) == Some(run.timed)
    && ApplyAll(run.timed, EditsAfter(config, site.database, run.provider).value) == Some(r)
  }

  lemma RunOf(config: Json, site: Site, r: Json) returns (run: Run)
    requires config.Obj? && ToV3(config, "server_config", site) == Some(r)
    ensures IsRun(run, config, site, r)
  {
    var host := Get(config, "icat_host").value;
    var provider := site.local(host).value;
    var named := Apply(config, Set(Top, "schema_name", Str("server_config"))).value;
    var a, b := RoleEdits(host, provider), FederationEdits(config).value;
    var c, d := RuleEngineEdits(config).value, AuthenticationEdits(config).value;
    var after := EditsAfter(config, site.database, provider).value;
    ApplyAllSplits(named, a + b + c + d + SLEEP_EDITS, after);
    ApplyAllSplits(named, a + b + c + d, SLEEP_EDITS);
    ApplyAllSplits(named, a + b + c, d);
    ApplyAllSplits(named, a + b, c);
    ApplyAllSplits(named, a, b);
    run := Run(host, provider, ApplyAll(named, a).value, ApplyAll(named, a + b).value, ApplyAll(named, a + b + c).value,
               ApplyAll(named, a + b + c + d).value, ApplyAll(named, a + b + c + d + SLEEP_EDITS).value);
  }

  // ------------------------------------------------------------------ the settings it moves

  lemma AuthenticationSet(config: Json)
    requires AuthenticationEdits(config).Some?
    ensures var es := AuthenticationEdits(config).value;
            && Authentication(config).Some? && es != []
            && es[0] == Set(In(PLUGINS), "authentication", Authentication(config).value)
            && AllMiss(es[1..], PLUGINS, "authentication")
  {
    var first := [Set(In(PLUGINS), "authentication", Authentication(config).value), Ensure(In(PLUGINS), "network"),
                  Ensure(In(PLUGINS), "resource")];
    DropsOutside(PAM_KEYS, PLUGINS);
    OutsideMisses(DropAll(PAM_KEYS), PLUGINS, "authentication");
    DropsOutside(["kerberos_name"], PLUGINS);
    OutsideMisses(DropAll(["kerberos_name"]), PLUGINS, "authentication");
    AllMissConcat(first[1..], DropAll(PAM_KEYS), PLUGINS, "authentication");
    AllMissConcat(first[1..] + DropAll(PAM_KEYS), DropAll(["kerberos_name"]), PLUGINS, "authentication");
    assert AuthenticationEdits(config).value[1..] == first[1..] + DropAll(PAM_KEYS) + DropAll(["kerberos_name"]);
  }

  lemma SleepMissesPlugins(name: string)
    ensures AllMiss(SLEEP_EDITS, PLUGINS, name)
  {
  }

  lemma AfterMisses(config: Json, file: Option<Json>, provider: bool, name: string)
    requires EditsAfter(config, file, provider).Some? && name != "database"
    ensures AllMiss(EditsAfter(config, file, provider).value, PLUGINS, name)
  {
  }

  lemma AuthenticationArrives(config: Json, site: Site, run: Run, r: Json)
    requires config.Obj? && IsRun(run, config, site, r)
    ensures Authentication(config).Some? && Inside(r, PLUGINS, "authentication") == Authentication(config)
  {
    AuthenticationSet(config);
    SetFirst(run.rules, AuthenticationEdits(config).value, PLUGINS, "authentication");
    SleepMissesPlugins("authentication");
    MissKeepsInside(run.authenticated, SLEEP_EDITS, PLUGINS, "authentication");
    AfterMisses(config, site.database, run.provider, "authentication");
    MissKeepsInside(run.timed, EditsAfter(config, site.database, run.provider).value, PLUGINS, "authentication");
  }

  lemma PamNamesDiffer(i: nat, j: nat)
    requires i < 4 && j < 4 && i != j
    ensures PAM_NAMES[i] != PAM_NAMES[j]
  {
    assert PAM_NAMES[2][10] == 'a' && PAM_NAMES[3][10] == 'i';
  }

  lemma {:induction false} PamOptionIsSet(config: Json, n: nat, i: nat)
    requires i < n <= 4 && Get(config, PAM_KEYS[i]).Some?
    ensures PAM_NAMES[i] in PamOptions(config, n)
    ensures PamOptions(config, n)[PAM_NAMES[i]] == Get(config, PAM_KEYS[i]).value
  {
    if i < n - 1 {
      PamOptionIsSet(config, n - 1, i);
      PamNamesDiffer(i, n - 1);
    }
  }

  lemma OptionIsThere(authentication: Json, key: string, options: map<string, Json>, name: string)
    requires name in options && WithOptions(authentication, key, options).Some?
    ensures Inside(WithOptions(authentication, key, options).value, key, name) == Some(options[name])
  {
  }

  lemma OtherKeyKept(authentication: Json, key: string, options: map<string, Json>, other: string)
    requires WithOptions(authentication, key, options).Some? && other != key
    ensures Get(WithOptions(authentication, key, options).value, other) == Get(authentication, other)
  {
  }

  /** The PAM options and the Kerberos name inside the authentication section. */
  lemma AuthenticationHolds(config: Json)
    requires Authentication(config).Some?
    ensures forall i | 0 <= i < 4 && Get(config, PAM_KEYS[i]).Some? ::
              Inside(Authentication(config).value, "pam", PAM_NAMES[i]) == Get(config, PAM_KEYS[i])
    ensures Get(config, "kerberos_name").Some? ==>
              Inside(Authentication(config).value, "krb", "name") == Get(config, "kerberos_name")
  {
    var plugins := Get(config, PLUGINS);
    var was := if plugins.Some? then Get(plugins.value, "authentication") else None;
    var start, options := if was.Some? then was.value else EMPTY, PamOptions(config, 4);
    var pam := WithOptions(start, "pam", options).value;
    var name := Get(config, "kerberos_name");
    if name.Some? {
      OtherKeyKept(pam, "krb", map["name" := name.value], "pam");
      OptionIsThere(pam, "krb", map["name" := name.value], "name");
    }
    forall i | 0 <= i < 4 && Get(config, PAM_KEYS[i]).Some?
      ensures Inside(Authentication(config).value, "pam", PAM_NAMES[i]) == Get(config, PAM_KEYS[i])
    {
      PamOptionIsSet(config, 4, i);
      OptionIsThere(start, "pam", options, PAM_NAMES[i]);
    }
  }

  // -------------------------------------------------------------- the provider's host

  const HOSTS: string := "catalog_provider_hosts"

  lemma HostSet(j: Json, host: Json, provider: bool)
    requires j.Obj? && ApplyAll(j, RoleEdits(host, provider)).Some?
    ensures Get(ApplyAll(j, RoleEdits(host, provider)).value, HOSTS) == Some(Arr([host]))
  {
    var es := RoleEdits(host, provider);
    assert es == es[..2] + es[2..];
    ApplyAllSplits(j, es[..2], es[2..]);
    assert AllOutside(es[2..][1..], HOSTS);
    SetKeyFirst(ApplyAll(j, es[..2]).value, es[2..], HOSTS);
  }

  lemma FederationOutside(config: Json, key: string)
    requires FederationEdits(config).Some? && key != "federation"
    ensures AllOutside(FederationEdits(config).value, key)
  {
  }

  lemma RuleEngineOutside(config: Json, key: string)
    requires RuleEngineEdits(config).Some? && key !in RULE_SETS && key != PLUGINS
    ensures AllOutside(RuleEngineEdits(config).value, key)
  {
    DropsOutside(RULE_SETS, key);
  }

  lemma AuthenticationOutside(config: Json, key: string)
    requires AuthenticationEdits(config).Some? && key !in PAM_KEYS && key != "kerberos_name" && key != PLUGINS
    ensures AllOutside(AuthenticationEdits(config).value, key)
  {
    DropsOutside(PAM_KEYS, key);
    DropsOutside(["kerberos_name"], key);
  }

  lemma AfterOutside(config: Json, file: Option<Json>, provider: bool, key: string)
    requires EditsAfter(config, file, provider).Some? && key != PLUGINS && key != "advanced_settings"
    ensures AllOutside(EditsAfter(config, file, provider).value, key) && AllOutside(SLEEP_EDITS, key)
  {
  }

  lemma HostArrives(config: Json, site: Site, run: Run, r: Json)
    requires config.Obj? && IsRun(run, config, site, r)
    ensures Get(r, HOSTS) == Some(Arr([run.host]))
  {
    HostSet(Apply(config, Set(Top, "schema_name", Str("server_config"))).value, run.host, run.provider);
    HostsUnnamed();
    FederationOutside(config, HOSTS);
    OutsideKeeps(run.roles, FederationEdits(config).value, HOSTS);
    RuleEngineOutside(config, HOSTS);
    OutsideKeeps(run.hosts, RuleEngineEdits(config).value, HOSTS);
    AuthenticationOutside(config, HOSTS);
    OutsideKeeps(run.rules, AuthenticationEdits(config).value, HOSTS);
    AfterOutside(config, site.database, run.provider, HOSTS);
    OutsideKeeps(run.authenticated, SLEEP_EDITS, HOSTS);
    OutsideKeeps(run.timed, EditsAfter(config, site.database, run.provider).value, HOSTS);
  }

  lemma HostsUnnamed()
    ensures HOSTS !in RULE_SETS && HOSTS !in PAM_KEYS && HOSTS != "kerberos_name" && HOSTS != PLUGINS
    ensures HOSTS != "advanced_settings" && HOSTS != "federation"
  {
  }

  /** Where the PAM options and the Kerberos name are from version 3 on. */
  function PamPath(i: nat): seq<string>
    requires i < 4
  {
    [PLUGINS, "authentication", "pam", PAM_NAMES[i]]
  }

  const KERBEROS: seq<string> := [PLUGINS, "authentication", "krb", "name"]

  lemma FourSteps(j: Json, a: string, b: string, c: string, d: string)
    requires Inside(j, a, b).Some?
    ensures Lookup(j, [a, b, c, d]) == Inside(Inside(j, a, b).value, c, d)
  {
    var path := [a, b, c, d];
    assert path[1..] == [b, c, d] && path[1..][1..] == [c, d];
    assert Lookup(j, path) == Lookup(j.fields[a], path[1..]);
    assert Lookup(j.fields[a], path[1..]) == Lookup(j.fields[a].fields[b], [c, d]);
    InsideLookup(j.fields[a].fields[b], c, d);
  }

  /** The settings that the step to version 3 moves are found at their new places. */
  lemma V3Moves(config: Json, site: Site, r: Json)
    requires config.Obj? && ToV3(config, "server_config", site) == Some(r)
    ensures forall i | 0 <= i < 4 && Get(config, PAM_KEYS[i]).Some? :: Lookup(r, PamPath(i)) == Get(config, PAM_KEYS[i])
    ensures Get(config, "kerberos_name").Some? ==> Lookup(r, KERBEROS) == Get(config, "kerberos_name")
    ensures Get(config, "icat_host").Some? && Get(r, HOSTS) == Some(Arr([Get(config, "icat_host").value]))
  {
    var run := RunOf(config, site, r);
    AuthenticationArrives(config, site, run, r);
    AuthenticationHolds(config);
    HostArrives(config, site, run, r);
    FourSteps(r, PLUGINS, "authentication", "krb", "name");
    forall i | 0 <= i < 4 && Get(config, PAM_KEYS[i]).Some?
      ensures Lookup(r, PamPath(i)) == Get(config, PAM_KEYS[i])
    {
      FourSteps(r, PLUGINS, "authentication", "pam", PAM_NAMES[i]);
    }
  }

  // ---------------------------------------------------------------- the database sections

  /** The database sections after the step to version 3: a provider takes in its
      old database configuration under the name of its technology. */
  function DatabaseFrom(config: Json, site: Site): Option<Json> {
    var host, was := Get(config, "icat_host"), DatabaseOf(config);
    if host.Some? && site.local(host.value) == Some(true) then
      var kind := if site.database.Some? then Get(site.database.value, "catalog_database_type") else None;
      if kind.None? || !kind.value.Str? then None else
        var others := if was.Some? && was.value.Obj? then was.value.fields else map[];
        Some(Obj(others[kind.value.s := Obj(site.database.value.fields - {"catalog_database_type"})]))
    else was
  }

  lemma RoleMisses(host: Json, provider: bool)
    ensures AllMiss(RoleEdits(host, provider), PLUGINS, "database")
  {
  }

  lemma FederationMisses(config: Json)
    requires FederationEdits(config).Some?
    ensures AllMiss(FederationEdits(config).value, PLUGINS, "database")
  {
    FederationOutside(config, PLUGINS);
    OutsideMisses(FederationEdits(config).value, PLUGINS, "database");
  }

  lemma RuleEngineMisses(config: Json)
    requires RuleEngineEdits(config).Some?
    ensures AllMiss(RuleEngineEdits(config).value, PLUGINS, "database")
  {
    var es := RuleEngineEdits(config).value;
    DropsOutside(RULE_SETS, PLUGINS);
    OutsideMisses(DropAll(RULE_SETS), PLUGINS, "database");
    var n := |DropAll(RULE_SETS)|;
    assert es[..n] == DropAll(RULE_SETS) && es[n] == Ensure(Top, PLUGINS);
    assert AllMiss(es[n..], PLUGINS, "database");
    AllMissConcat(es[..n], es[n..], PLUGINS, "database");
    assert es == es[..n] + es[n..];
  }

  lemma AuthenticationMisses(config: Json)
    requires AuthenticationEdits(config).Some?
    ensures AllMiss(AuthenticationEdits(config).value, PLUGINS, "database")
  {
    var first := [Set(In(PLUGINS), "authentication", Authentication(config).value), Ensure(In(PLUGINS), "network"),
                  Ensure(In(PLUGINS), "resource")];
    DropsOutside(PAM_KEYS, PLUGINS);
    OutsideMisses(DropAll(PAM_KEYS), PLUGINS, "database");
    DropsOutside(["kerberos_name"], PLUGINS);
    OutsideMisses(DropAll(["kerberos_name"]), PLUGINS, "database");
    AllMissConcat(first, DropAll(PAM_KEYS), PLUGINS, "database");
    AllMissConcat(first + DropAll(PAM_KEYS), DropAll(["kerberos_name"]), PLUGINS, "database");
  }

  lemma RolesKeepDatabase(config: Json, host: Json, provider: bool, roles: Json)
    requires config.Obj?
    requires ApplyAll(Apply(config, Set(Top, "schema_name", Str("server_config"))).value, RoleEdits(host, provider))
          == Some(roles)
    ensures DatabaseOf(roles) == DatabaseOf(config)
  {
    var naming := Set(Top, "schema_name", Str("server_config"));
    var named := Apply(config, naming).value;
    assert "schema_name" != PLUGINS;
    assert DatabaseOf(named) == DatabaseOf(config);
    RoleMisses(host, provider);
    MissKeepsInside(named, RoleEdits(host, provider), PLUGINS, "database");
  }

  lemma RulesKeepDatabase(config: Json, roles: Json, hosts: Json, rules: Json)
    requires FederationEdits(config).Some? && RuleEngineEdits(config).Some? && roles.Obj? && hosts.Obj?
    requires ApplyAll(roles, FederationEdits(config).value) == Some(hosts)
    requires ApplyAll(hosts, RuleEngineEdits(config).value) == Some(rules)
    ensures DatabaseOf(rules) == DatabaseOf(roles)
  {
    FederationMisses(config);
    MissKeepsInside(roles, FederationEdits(config).value, PLUGINS, "database");
    RuleEngineMisses(config);
    MissKeepsInside(hosts, RuleEngineEdits(config).value, PLUGINS, "database");
  }

  lemma TimedKeepsDatabase(config: Json, site: Site, run: Run, r: Json)
    requires config.Obj? && IsRun(run, config, site, r)
    ensures DatabaseOf(run.timed) == DatabaseOf(config)
  {
    RolesKeepDatabase(config, run.host, run.provider, run.roles);
    RulesKeepDatabase(config, run.roles, run.hosts, run.rules);
    AuthenticationMisses(config);
    MissKeepsInside(run.rules, AuthenticationEdits(config).value, PLUGINS, "database");
    SleepMissesPlugins("database");
    MissKeepsInside(run.authenticated, SLEEP_EDITS, PLUGINS, "database");
  }

  lemma ProviderTakesDatabase(config: Json, file: Option<Json>, timed: Json, r: Json)
    requires timed.Obj? && DatabaseEdits(config, file).Some?
    requires ApplyAll(timed, DatabaseEdits(config, file).value) == Some(r)
    ensures file.Some? && Get(file.value, "catalog_database_type").Some?
    ensures var kind := Get(file.value, "catalog_database_type").value;
            var was := DatabaseOf(config);
            && kind.Str? && (was.Some? ==> was.value.Obj?)
            && DatabaseOf(r) == Some(Obj((if was.Some? then was.value.fields else map[])
                                         [kind.s := Obj(file.value.fields - {"catalog_database_type"})]))
  {
    SetFirst(timed, DatabaseEdits(config, file).value, PLUGINS, "database");
  }

  lemma V3TakesDatabase(config: Json, site: Site, r: Json)
    requires config.Obj? && ToV3(config, "server_config", site) == Some(r)
    ensures DatabaseOf(r) == DatabaseFrom(config, site)
    ensures Get(r, PLUGINS).Some? && Get(r, PLUGINS).value.Obj?
  {
    var run := RunOf(config, site, r);
    AuthenticationArrives(config, site, run, r);
    TimedKeepsDatabase(config, site, run, r);
    LastGroup(config, site, run.host, run.provider, run.timed, r);
  }

  lemma LastGroup(config: Json, site: Site, host: Json, provider: bool, timed: Json, r: Json)
    requires Get(config, "icat_host") == Some(host) && site.local(host) == Some(provider)
    requires timed.Obj? && DatabaseOf(timed) == DatabaseOf(config) && EditsAfter(config, site.database, provider).Some?
    requires ApplyAll(timed, EditsAfter(config, site.database, provider).value) == Some(r)
    ensures DatabaseOf(r) == DatabaseFrom(config, site)
  {
    if provider {
      ProviderTakesDatabase(config, site.database, timed, r);
    }
  }
}
