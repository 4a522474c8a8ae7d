/** The conversion of a configuration to schema version 4: a merge over the template,
    renames and removals, and the two host files taken in. */
module ConfigV4 {

  import opened Common
  import opened ConfigEdits
  import opened JsonMerge

  const POLICY_RENAME: Edit := Rename(Top, "client_api_whitelist_policy", "client_api_allowlist_policy")
  const SLEEP_RENAME: Edit := Rename(ADVANCED, SLEEP_TIME, "delay_server_sleep_time_in_seconds")
  const COUNT_RENAME: Edit :=
    Rename(ADVANCED, "maximum_number_of_concurrent_rule_engine_server_processes",
           "number_of_concurrent_delay_rule_executors")

  const V4_REMOVALS: seq<Edit> := [
    Drop(Top, "xmsg_port"),
    Drop(ADVANCED, "default_log_rotation_in_days"),
    Drop(ADVANCED, "rule_engine_server_execution_time_in_seconds")
  ]

  const V4_EDITS: seq<Edit> := [POLICY_RENAME, SLEEP_RENAME, COUNT_RENAME] + V4_REMOVALS

  const USER_LIST: string := "controlled_user_connection_list"

  /** The list types were renamed: whitelist to allowlist, blacklist to denylist. */
  function NewControlType(v: Json): Json {
    if v == Str("whitelist") then Str("allowlist") else if v == Str("blacklist") then Str("denylist") else v
  }

  function TranslateControlType(j: Json): (r: Option<Json>)
    requires j.Obj?
    ensures r.Some? ==> r.value.Obj?
  {
    if USER_LIST !in j.fields then None else
      var l := j.fields[USER_LIST];
      var present := Contains(l, "control_type");
      if present.None? then None
      else if !present.value then Some(j)
      else if !l.Obj? then None
      else Apply(j, Set(In(USER_LIST), "control_type", NewControlType(l.fields["control_type"])))
  }

  function ToV4(template: Json, config: Json): (r: Option<Json>)
    requires template.Obj? && config.Obj?
    ensures r.Some? ==> r.value.Obj?
  {
    MergeFields(template, config);
    var merged := Merge(template, config);
    if merged.None? then None else
      var edited := ApplyAll(merged.value, V4_EDITS);
      if edited.None? then None else TranslateControlType(edited.value)
  }

  // --------------------------------------------------- absorbing the separate host files

  /** The list under `key`; Some(None) when there is nothing to absorb. */
  function Entries(file: Option<Json>, key: string): Option<Option<Json>> {
    if file.None? then Some(None) else
      match Contains(file.value, key)
      case None => None
      case Some(false) => Some(None)
      case Some(true) =>
        if Get(file.value, key).None? then None else
          var entries := Get(file.value, key).value;
          if Length(entries).None? then None
          else if Length(entries).value == 0 then Some(None)
          else Some(Some(entries))
  }

  function HostEntries(items: seq<Json>): Option<seq<Json>> {
    if items == [] then Some([]) else
      var kind, addresses, rest := Get(items[0], "address_type"), Get(items[0], "addresses"), HostEntries(items[1..]);
      if kind.None? || addresses.None? || rest.None? then None else
        var column := ColumnOf(addresses.value, "address");
        if column.None? then None
        else Some([Obj(map["address_type" := kind.value, "addresses" := Arr(column.value)])] + rest.value)
  }

  function AbsorbHosts(j: Json, file: Option<Json>): (r: Option<Json>)
    requires j.Obj?
    ensures r.Some? ==> r.value.Obj?
  {
    var entries := Entries(file, "host_entries");
    if entries.None? then None
    else if entries.value.None? then Some(j)
    else if !entries.value.value.Arr? then None
    else
      var added := HostEntries(entries.value.value.items);
      var section := Get(j, "host_resolution");
      if added.None? || section.None? then None else
        var already := Get(section.value, "host_entries");
        if already.None? || !already.value.Arr? then None
        else Apply(j, Set(In("host_resolution"), "host_entries", Arr(already.value.items + added.value)))
  }

  function AbsorbAccess(j: Json, file: Option<Json>): (r: Option<Json>)
    requires j.Obj?
    ensures r.Some? ==> r.value.Obj?
  {
    var entries := Entries(file, "access_entries");
    if entries.None? then None
    else if entries.value.None? then Some(j)
    else Apply(j, Set(In("host_access_control"), "access_entries", entries.value.value))
  }

  function Absorb(j: Json, site: Site): (r: Option<Json>)
    requires j.Obj?
    ensures r.Some? ==> r.value.Obj?
  {
    var resolved := AbsorbHosts(j, site.hosts);
    if resolved.None? then None else AbsorbAccess(resolved.value, site.access)
  }

  function StepToV4(site: Site, config: Json): (r: Option<Json>)
    requires site.template.Obj? && config.Obj?
    ensures r.Some? ==> r.value.Obj?
  {
    var converted := ToV4(site.template, config);
    if converted.None? then None else Absorb(converted.value, site)
  }

  // ---------------------------------------------------------------- what it leaves alone

  lemma TranslateKeeps(j: Json, path: seq<string>)
    requires j.Obj? && IsLeaf(Lookup(j, path)) && TranslateControlType(j).Some?
    requires !([USER_LIST, "control_type"] <= path)
    ensures Lookup(TranslateControlType(j).value, path) == Lookup(j, path)
  {
    var l := j.fields[USER_LIST];
    if Contains(l, "control_type") == Some(true) {
      ApplyKeeps(j, Set(In(USER_LIST), "control_type", NewControlType(l.fields["control_type"])), path);
    }
  }

  lemma V4Keeps(template: Json, config: Json, path: seq<string>)
    requires template.Obj? && config.Obj? && IsLeaf(Lookup(config, path)) && ToV4(template, config).Some?
    requires AllSpare(V4_EDITS, path) && !([USER_LIST, "control_type"] <= path)
    ensures Lookup(ToV4(template, config).value, path) == Lookup(config, path)
  {
    MergeFields(template, config);
    MergeKeepsLeaf(template, config, path);
    var merged := Merge(template, config).value;
    ApplyAllKeeps(merged, V4_EDITS, path);
    TranslateKeeps(ApplyAll(merged, V4_EDITS).value, path);
  }

  ghost predicate NotAbsorbed(path: seq<string>) {
    !(["host_resolution", "host_entries"] <= path) && !(["host_access_control", "access_entries"] <= path)
  }

  lemma AbsorbHostsKeeps(j: Json, file: Option<Json>, path: seq<string>)
    requires j.Obj? && IsLeaf(Lookup(j, path)) && AbsorbHosts(j, file).Some? && NotAbsorbed(path)
    ensures Lookup(AbsorbHosts(j, file).value, path) == Lookup(j, path)
  {
    var entries := Entries(file, "host_entries").value;
    if entries.Some? {
      var already := Get(Get(j, "host_resolution").value, "host_entries").value;
      var all := Arr(already.items + HostEntries(entries.value.items).value);
      ApplyKeeps(j, Set(In("host_resolution"), "host_entries", all), path);
    }
  }

  lemma AbsorbAccessKeeps(j: Json, file: Option<Json>, path: seq<string>)
    requires j.Obj? && IsLeaf(Lookup(j, path)) && AbsorbAccess(j, file).Some? && NotAbsorbed(path)
    ensures Lookup(AbsorbAccess(j, file).value, path) == Lookup(j, path)
  {
    var entries := Entries(file, "access_entries").value;
    if entries.Some? {
      ApplyKeeps(j, Set(In("host_access_control"), "access_entries", entries.value), path);
    }
  }

  lemma AbsorbKeeps(j: Json, site: Site, path: seq<string>)
    requires j.Obj? && IsLeaf(Lookup(j, path)) && Absorb(j, site).Some? && NotAbsorbed(path)
    ensures Lookup(Absorb(j, site).value, path) == Lookup(j, path)
  {
    AbsorbHostsKeeps(j, site.hosts, path);
    AbsorbAccessKeeps(AbsorbHosts(j, site.hosts).value, site.access, path);
  }

  lemma StepToV4Keeps(config: Json, site: Site, path: seq<string>)
    requires config.Obj? && site.template.Obj? && IsLeaf(Lookup(config, path)) && StepToV4(site, config).Some?
    requires AllSpare(V4_EDITS, path) && !([USER_LIST, "control_type"] <= path) && NotAbsorbed(path)
    ensures Lookup(StepToV4(site, config).value, path) == Lookup(config, path)
  {
    V4Keeps(site.template, config, path);
    AbsorbKeeps(ToV4(site.template, config).value, site, path);
  }

  predicate UnnamedInV4(section: string) {
    && section != POLICY_RENAME.key && section != POLICY_RENAME.name
    && section != "advanced_settings" && section != "xmsg_port"
  }

  lemma V4Outside(section: string)
    requires UnnamedInV4(section)
    ensures AllOutside(V4_EDITS, section)
  {
    assert AllOutside([POLICY_RENAME, SLEEP_RENAME, COUNT_RENAME], section);
    assert AllOutside(V4_REMOVALS, section);
    OutsideConcat([POLICY_RENAME, SLEEP_RENAME, COUNT_RENAME], V4_REMOVALS, section);
  }

  lemma V4OutsidePlugins()
    ensures AllOutside(V4_EDITS, PLUGINS)
  {
    assert UnnamedInV4(PLUGINS);
    V4Outside(PLUGINS);
  }

  lemma V4KeepsDatabase(template: Json, config: Json, d: map<string, Json>)
    requires template.Obj? && config.Obj? && ToV4(template, config).Some?
    requires Expected(template, config, DATABASE) == Some(Obj(d))
    ensures DatabaseOf(ToV4(template, config).value) == Some(Obj(d))
  {
    MergeFields(template, config);
    MergeGivesDatabase(template, config);
    V4OutsidePlugins();
    OutsideKeeps(Merge(template, config).value, V4_EDITS, PLUGINS);
  }

  lemma AbsorbKeepsDatabase(j: Json, site: Site)
    requires j.Obj? && Absorb(j, site).Some?
    ensures DatabaseOf(Absorb(j, site).value) == DatabaseOf(j)
  {
    var resolved := AbsorbHosts(j, site.hosts).value;
    assert Get(resolved, PLUGINS) == Get(j, PLUGINS);
    assert Get(AbsorbAccess(resolved, site.access).value, PLUGINS) == Get(resolved, PLUGINS);
  }

  // --------------------------------------------------------------------- what it renames

  lemma ControlTypeApart(name: string)
    ensures !([USER_LIST, "control_type"] <= ["advanced_settings", name])
    ensures !([PLUGINS, "database"] <= ["advanced_settings", name])
    ensures !(["schema_version"] <= ["advanced_settings", name]) && NotAbsorbed(["advanced_settings", name])
  {
    var path := ["advanced_settings", name];
    assert path[0] == "advanced_settings";
  }

  lemma V4Carries(template: Json, config: Json, before: seq<Edit>, key: string, name: string, after: seq<Edit>)
    requires template.Obj? && config.Obj? && ToV4(template, config).Some?
    requires V4_EDITS == before + [Rename(ADVANCED, key, name)] + after
    requires AllMiss(before, "advanced_settings", key) && AllMiss(after, "advanced_settings", name)
    requires IsLeaf(Lookup(config, ["advanced_settings", key]))
    ensures Lookup(ToV4(template, config).value, ["advanced_settings", name])
         == Lookup(config, ["advanced_settings", key])
  {
    MergeFields(template, config);
    MergeKeepsLeaf(template, config, ["advanced_settings", key]);
    var merged := Merge(template, config).value;
    MissSpares(before, "advanced_settings", key);
    MissSpares(after, "advanced_settings", name);
    RenameCarries(merged, before, ADVANCED, key, name, after);
    ControlTypeApart(name);
    TranslateKeeps(ApplyAll(merged, V4_EDITS).value, ["advanced_settings", name]);
  }

  /** The version 4 edits rename `key` to `name`, and no other edit of either
      version touches the value on its way. */
  ghost predicate Undisturbed(before: seq<Edit>, key: string, name: string, after: seq<Edit>) {
    && V4_EDITS == before + [Rename(ADVANCED, key, name)] + after
    && AllMiss(before, "advanced_settings", key) && AllMiss(after, "advanced_settings", name)
    && name != "agent_factory_watcher_sleep_time_in_seconds"
  }

  lemma V4RemovalsMiss(name: string)
    requires name != "default_log_rotation_in_days" && name != "rule_engine_server_execution_time_in_seconds"
    ensures AllMiss(V4_REMOVALS, "advanced_settings", name)
  {
  }

  lemma SleepTimeUndisturbed()
    ensures Undisturbed([POLICY_RENAME], SLEEP_RENAME.key, SLEEP_RENAME.name, [COUNT_RENAME] + V4_REMOVALS)
  {
    assert AllMiss([POLICY_RENAME], "advanced_settings", SLEEP_RENAME.key);
    assert AllMiss([COUNT_RENAME], "advanced_settings", SLEEP_RENAME.name);
    V4RemovalsMiss(SLEEP_RENAME.name);
    MissConcat([COUNT_RENAME], V4_REMOVALS, SLEEP_RENAME.name);
  }

  lemma ExecutorCountUndisturbed()
    ensures Undisturbed([POLICY_RENAME, SLEEP_RENAME], COUNT_RENAME.key, COUNT_RENAME.name, V4_REMOVALS)
  {
    assert AllMiss([POLICY_RENAME, SLEEP_RENAME], "advanced_settings", COUNT_RENAME.key);
    V4RemovalsMiss(COUNT_RENAME.name);
  }

  lemma PolicyAlone()
    ensures AllOutside([SLEEP_RENAME, COUNT_RENAME] + V4_REMOVALS, POLICY_RENAME.name)
    ensures !([USER_LIST, "control_type"] <= [POLICY_RENAME.name]) && NotAbsorbed([POLICY_RENAME.name])
  {
    var name := POLICY_RENAME.name;
    assert AllOutside([SLEEP_RENAME, COUNT_RENAME], name) && AllOutside(V4_REMOVALS, name);
    OutsideConcat([SLEEP_RENAME, COUNT_RENAME], V4_REMOVALS, name);
  }

  /** The API policy is found under its new name. */
  lemma PolicyCarries(config: Json, site: Site)
    requires site.template.Obj? && config.Obj? && StepToV4(site, config).Some?
    requires IsLeaf(Lookup(config, [POLICY_RENAME.key]))
    ensures Lookup(StepToV4(site, config).value, [POLICY_RENAME.name]) == Lookup(config, [POLICY_RENAME.key])
  {
    MergeFields(site.template, config);
    MergeKeepsLeaf(site.template, config, [POLICY_RENAME.key]);
    var merged := Merge(site.template, config).value;
    PolicyRenamed(merged);
    PolicyAlone();
    TranslateKeeps(ApplyAll(merged, V4_EDITS).value, [POLICY_RENAME.name]);
    AbsorbKeeps(ToV4(site.template, config).value, site, [POLICY_RENAME.name]);
  }

  lemma PolicyRenamed(merged: Json)
    requires merged.Obj? && ApplyAll(merged, V4_EDITS).Some? && IsLeaf(Lookup(merged, [POLICY_RENAME.key]))
    ensures Lookup(ApplyAll(merged, V4_EDITS).value, [POLICY_RENAME.name]) == Lookup(merged, [POLICY_RENAME.key])
  {
    var key, name, after := POLICY_RENAME.key, POLICY_RENAME.name, [SLEEP_RENAME, COUNT_RENAME] + V4_REMOVALS;
    PolicyAlone();
    OutsideSpares(after, [name]);
    assert V4_EDITS == [] + [Rename(Top, key, name)] + after;
    RenameCarries(merged, [], Top, key, name, after);
  }
}
