/** What the configuration upgrade keeps, carries over and moves, from any
    version to any other. */
module ConfigSurvival {

  import opened Common
  import opened ConfigEdits
  import opened ConfigUpgrade
  import opened ConfigV3
  import opened ConfigV4
  import opened ConfigV5
  import opened DatabaseMigration
  import opened JsonMerge

  // ------------------------------------------------------------------ any run of steps

  /** The step to version `next` neither renames, removes, derives, translates nor
      absorbs the setting. */
  ghost predicate LeftAloneBy(schema: string, next: nat, site: Site, path: seq<string>) {
    && !(["schema_version"] <= path)
    && (next == 3 ==> !(["schema_name"] <= path))
    && (schema == "server_config" ==>
          && (next == 3 ==> SparedByV3(path))
          && (next == 4 ==> AllSpare(V4_EDITS, path) && !([USER_LIST, "control_type"] <= path) && NotAbsorbed(path))
          && (next == 5 && "irods_host" in site.env ==> AllSpare(V5Edits(site.env), path))
          && (next == 5 ==> !([PLUGINS, "database"] <= path)))
  }

  lemma StepThree(config: Json, schema: string, site: Site, order: KeyOrder)
    requires config.Obj? && site.template.Obj?
    ensures RunSchemaUpdate(config, schema, 3, site, order)
         == match ToV3(config, schema, site)
            case None => None
            case Some(c) => Apply(c, Set(Top, "schema_version", Tag(3)))
  {
  }

  lemma StepFour(config: Json, site: Site, order: KeyOrder)
    requires config.Obj? && site.template.Obj?
    ensures RunSchemaUpdate(config, "server_config", 4, site, order)
         == match StepToV4(site, config)
            case None => None
            case Some(c) => Apply(c, Set(Top, "schema_version", Tag(4)))
  {
  }

  lemma StepFive(config: Json, site: Site, order: KeyOrder)
    requires config.Obj? && site.template.Obj?
    ensures RunSchemaUpdate(config, "server_config", 5, site, order)
         == match ToV5(site.template, config, site.env, order)
            case None => None
            case Some(c) => Apply(c, Set(Top, "schema_version", Tag(5)))
  {
  }

  lemma OtherStep(config: Json, schema: string, next: nat, site: Site, order: KeyOrder)
    requires config.Obj? && site.template.Obj? && next != 3 && (schema != "server_config" || (next != 4 && next != 5))
    ensures RunSchemaUpdate(config, schema, next, site, order) == Apply(config, Set(Top, "schema_version", Tag(next)))
  {
  }

  lemma TagKeeps(config: Json, next: nat, path: seq<string>)
    requires config.Obj? && IsLeaf(Lookup(config, path)) && !(["schema_version"] <= path)
    ensures Lookup(Apply(config, Set(Top, "schema_version", Tag(next))).value, path) == Lookup(config, path)
  {
    ApplyKeeps(config, Set(Top, "schema_version", Tag(next)), path);
  }

  lemma StepThreeKeeps(config: Json, schema: string, site: Site, order: KeyOrder, path: seq<string>)
    requires config.Obj? && site.template.Obj? && IsLeaf(Lookup(config, path))
    requires RunSchemaUpdate(config, schema, 3, site, order).Some? && LeftAloneBy(schema, 3, site, path)
    ensures Lookup(RunSchemaUpdate(config, schema, 3, site, order).value, path) == Lookup(config, path)
  {
    StepThree(config, schema, site, order);
    V3Keeps(config, schema, site, path);
    TagKeeps(ToV3(config, schema, site).value, 3, path);
  }

  lemma StepFourKeeps(config: Json, site: Site, order: KeyOrder, path: seq<string>)
    requires config.Obj? && site.template.Obj? && IsLeaf(Lookup(config, path))
    requires RunSchemaUpdate(config, "server_config", 4, site, order).Some?
    requires LeftAloneBy("server_config", 4, site, path)
    ensures Lookup(RunSchemaUpdate(config, "server_config", 4, site, order).value, path) == Lookup(config, path)
  {
    StepFour(config, site, order);
    StepToV4Keeps(config, site, path);
    TagKeeps(StepToV4(site, config).value, 4, path);
  }

  lemma StepFiveKeeps(config: Json, site: Site, order: KeyOrder, path: seq<string>)
    requires config.Obj? && site.template.Obj? && IsLeaf(Lookup(config, path))
    requires RunSchemaUpdate(config, "server_config", 5, site, order).Some?
    requires LeftAloneBy("server_config", 5, site, path)
    ensures Lookup(RunSchemaUpdate(config, "server_config", 5, site, order).value, path) == Lookup(config, path)
  {
    StepFive(config, site, order);
    V5Keeps(site.template, config, site.env, order, path);
    TagKeeps(ToV5(site.template, config, site.env, order).value, 5, path);
  }

  lemma StepKeeps(config: Json, schema: string, next: nat, site: Site, order: KeyOrder, path: seq<string>)
    requires config.Obj? && site.template.Obj? && IsLeaf(Lookup(config, path))
    requires RunSchemaUpdate(config, schema, next, site, order).Some? && LeftAloneBy(schema, next, site, path)
    ensures Lookup(RunSchemaUpdate(config, schema, next, site, order).value, path) == Lookup(config, path)
  {
    if next == 3 {
      StepThreeKeeps(config, schema, site, order, path);
    } else if schema == "server_config" && next == 4 {
      StepFourKeeps(config, site, order, path);
    } else if schema == "server_config" && next == 5 {
      StepFiveKeeps(config, site, order, path);
    } else {
      OtherStep(config, schema, next, site, order);
      TagKeeps(config, next, path);
    }
  }

  ghost predicate LeftAlone(schema: string, version: nat, target: nat, site: Site, path: seq<string>) {
    forall next | version < next <= target :: LeftAloneBy(schema, next, site, path)
  }

  /** Every such setting keeps its value from any version to any other, whatever
      the template, the environment and the files hold. */
  lemma {:induction false} SettingsSurvive(config: Json, schema: string, version: nat, target: nat, site: Site,
                                           order: KeyOrder, path: seq<string>)
    requires config.Obj? && site.template.Obj? && IsLeaf(Lookup(config, path))
    requires LeftAlone(schema, version, target, site, path)
    requires UpgradeFrom(config, schema, version, target, site, order).Some?
    ensures Lookup(UpgradeFrom(config, schema, version, target, site, order).value, path) == Lookup(config, path)
    decreases target - version
  {
    if version < target {
      var next := RunSchemaUpdate(config, schema, version + 1, site, order).value;
      assert LeftAloneBy(schema, version + 1, site, path);
      StepKeeps(config, schema, version + 1, site, order, path);
      SettingsSurvive(next, schema, version + 1, target, site, order, path);
    }
  }

  /** A top-level section that the steps to versions 4 and 5 do not name. */
  predicate Unnamed(section: string) {
    && UnnamedInV4(section) && Underived(section) && section != "host"
    && section != "schema_version" && section != USER_LIST
    && section != "host_resolution" && section != "host_access_control"
  }

  lemma UnnamedAtFour(site: Site, path: seq<string>)
    requires path != [] && Unnamed(path[0])
    ensures LeftAloneBy("server_config", 4, site, path)
  {
    V4Outside(path[0]);
    OutsideSpares(V4_EDITS, path);
  }

  lemma UnnamedAtFive(site: Site, path: seq<string>)
    requires path != [] && Unnamed(path[0]) && !([PLUGINS, "database"] <= path)
    ensures LeftAloneBy("server_config", 5, site, path)
  {
    if "irods_host" in site.env {
      V5Outside(site.env, path[0]);
      OutsideSpares(V5Edits(site.env), path);
    }
  }

  lemma UnnamedLeftAlone(target: nat, site: Site, path: seq<string>)
    requires path != [] && Unnamed(path[0]) && !([PLUGINS, "database"] <= path)
    ensures LeftAlone("server_config", 3, target, site, path)
  {
    forall next | 3 < next <= target
      ensures LeftAloneBy("server_config", next, site, path)
    {
      if next == 4 { UnnamedAtFour(site, path); }
      if next == 5 { UnnamedAtFive(site, path); }
    }
  }

  lemma {:induction false} UpgradeSplits(config: Json, schema: string, version: nat, middle: nat, target: nat,
                                         site: Site, order: KeyOrder) returns (between: Json)
    requires config.Obj? && site.template.Obj? && version <= middle <= target
    requires UpgradeFrom(config, schema, version, target, site, order).Some?
    ensures between.Obj? && UpgradeFrom(config, schema, version, middle, site, order) == Some(between)
    ensures UpgradeFrom(between, schema, middle, target, site, order)
         == UpgradeFrom(config, schema, version, target, site, order)
    decreases middle - version
  {
    if version == middle {
      between := config;
    } else {
      var next := RunSchemaUpdate(config, schema, version + 1, site, order).value;
      between := UpgradeSplits(next, schema, version + 1, middle, target, site, order);
    }
  }

  // ----------------------------------------------------------------- renamed settings

  /** The step to version 4 renames the setting. */
  lemma StepCarries(config: Json, site: Site, order: KeyOrder, before: seq<Edit>, key: string, name: string,
                    after: seq<Edit>) returns (d4: Json)
    requires config.Obj? && site.template.Obj? && IsLeaf(Lookup(config, ["advanced_settings", key]))
    requires Undisturbed(before, key, name, after) && RunSchemaUpdate(config, "server_config", 4, site, order).Some?
    ensures d4.Obj? && RunSchemaUpdate(config, "server_config", 4, site, order) == Some(d4)
    ensures Lookup(d4, ["advanced_settings", name]) == Lookup(config, ["advanced_settings", key])
  {
    var path := ["advanced_settings", name];
    ControlTypeApart(name);
    V4Carries(site.template, config, before, key, name, after);
    var c4 := ToV4(site.template, config).value;
    AbsorbKeeps(c4, site, path);
    ApplyKeeps(Absorb(c4, site).value, Set(Top, "schema_version", Tag(4)), path);
    d4 := RunSchemaUpdate(config, "server_config", 4, site, order).value;
  }

  lemma LeftAloneAfterV4(target: nat, site: Site, name: string)
    requires name != "agent_factory_watcher_sleep_time_in_seconds"
    ensures LeftAlone("server_config", 4, target, site, ["advanced_settings", name])
  {
    ControlTypeApart(name);
    if "irods_host" in site.env {
      V5Misses(site.env, name);
      MissSpares(V5Edits(site.env), "advanced_settings", name);
    }
  }

  lemma CarryOver(config: Json, target: nat, site: Site, order: KeyOrder, before: seq<Edit>, key: string, name: string,
                  after: seq<Edit>)
    requires target >= 4 && config.Obj? && site.template.Obj? && IsLeaf(Lookup(config, ["advanced_settings", key]))
    requires Undisturbed(before, key, name, after)
    requires UpgradeFrom(config, "server_config", 3, target, site, order).Some?
    ensures Lookup(UpgradeFrom(config, "server_config", 3, target, site, order).value, ["advanced_settings", name])
         == Lookup(config, ["advanced_settings", key])
  {
    var d4 := StepCarries(config, site, order, before, key, name, after);
    LeftAloneAfterV4(target, site, name);
    SettingsSurvive(d4, "server_config", 4, target, site, order, ["advanced_settings", name]);
  }

  /** A setting `from` of advanced_settings is found under `to` afterwards. */
  ghost predicate CarriedTo(config: Json, from: string, r: Json, to: string) {
    IsLeaf(Lookup(config, ["advanced_settings", from]))
    ==> Lookup(r, ["advanced_settings", to]) == Lookup(config, ["advanced_settings", from])
  }

  lemma CarryOverIfSet(config: Json, target: nat, site: Site, order: KeyOrder, r: Json, before: seq<Edit>, key: string,
                       name: string, after: seq<Edit>)
    requires target >= 4 && config.Obj? && site.template.Obj? && Undisturbed(before, key, name, after)
    requires UpgradeFrom(config, "server_config", 3, target, site, order) == Some(r)
    ensures CarriedTo(config, key, r, name)
  {
    if IsLeaf(Lookup(config, ["advanced_settings", key])) {
      CarryOver(config, target, site, order, before, key, name, after);
    }
  }

  lemma CountUntilV3(version: nat, site: Site)
    requires version <= 3
    ensures LeftAlone("server_config", version, 3, site, ["advanced_settings", COUNT_RENAME.key])
  {
    ControlTypeApart(COUNT_RENAME.key);
    AdvancedSpared(COUNT_RENAME.key);
  }

  lemma CountCarriesOver(config: Json, version: nat, c3: Json, target: nat, site: Site, order: KeyOrder, r: Json)
    requires target >= 4 && config.Obj? && c3.Obj? && site.template.Obj? && version <= 3
    requires UpgradeFrom(config, "server_config", version, 3, site, order) == Some(c3)
    requires UpgradeFrom(c3, "server_config", 3, target, site, order) == Some(r)
    ensures CarriedTo(config, COUNT_RENAME.key, r, COUNT_RENAME.name)
  {
    ExecutorCountUndisturbed();
    CarryOverIfSet(c3, target, site, order, r, [POLICY_RENAME, SLEEP_RENAME], COUNT_RENAME.key, COUNT_RENAME.name,
                   V4_REMOVALS);
    if IsLeaf(Lookup(config, ["advanced_settings", COUNT_RENAME.key])) {
      CountUntilV3(version, site);
      SettingsSurvive(config, "server_config", version, 3, site, order, ["advanced_settings", COUNT_RENAME.key]);
    }
  }

  /** The number of executors reaches version 4 and all later ones under its new
      key, over any default the template has; so does the sleep time from version 3,
      while the step to version 3 sets it to 30 seconds whatever it was. */
  lemma RenamedSettingsCarryOver(config: Json, version: nat, target: nat, site: Site, order: KeyOrder, r: Json)
    requires config.Obj? && site.template.Obj? && version <= 3 && target >= 4
    requires UpgradeFrom(config, "server_config", version, target, site, order) == Some(r)
    ensures CarriedTo(config, COUNT_RENAME.key, r, COUNT_RENAME.name)
    ensures version == 3 ==> CarriedTo(config, SLEEP_RENAME.key, r, SLEEP_RENAME.name)
    ensures version < 3 ==> Lookup(r, ["advanced_settings", SLEEP_RENAME.name]) == Some(Num(30))
  {
    var c3 := UpgradeSplits(config, "server_config", version, 3, target, site, order);
    CountCarriesOver(config, version, c3, target, site, order, r);
    SleepCarriesOver(c3, target, site, order, r);
    if version < 3 { SleepAtThree(config, version, c3, site, order); }
  }

  lemma SleepCarriesOver(config: Json, target: nat, site: Site, order: KeyOrder, r: Json)
    requires target >= 4 && config.Obj? && site.template.Obj?
    requires UpgradeFrom(config, "server_config", 3, target, site, order) == Some(r)
    ensures CarriedTo(config, SLEEP_RENAME.key, r, SLEEP_RENAME.name)
  {
    SleepTimeUndisturbed();
    CarryOverIfSet(config, target, site, order, r, [POLICY_RENAME], SLEEP_RENAME.key, SLEEP_RENAME.name,
                   [COUNT_RENAME] + V4_REMOVALS);
  }

  lemma SleepAtThree(config: Json, version: nat, c3: Json, site: Site, order: KeyOrder)
    requires config.Obj? && site.template.Obj? && version < 3
    requires UpgradeFrom(config, "server_config", version, 3, site, order) == Some(c3)
    ensures Lookup(c3, ["advanced_settings", SLEEP_RENAME.key]) == Some(Num(30))
  {
    var c2 := UpgradeSplits(config, "server_config", version, 2, 3, site, order);
    assert UpgradeFrom(c2, "server_config", 2, 3, site, order) == RunSchemaUpdate(c2, "server_config", 3, site, order);
    SleepTimeIsSet(c2, site, order);
  }

  lemma SleepTimeIsSet(config: Json, site: Site, order: KeyOrder)
    requires config.Obj? && site.template.Obj? && RunSchemaUpdate(config, "server_config", 3, site, order).Some?
    ensures Lookup(RunSchemaUpdate(config, "server_config", 3, site, order).value,
                   ["advanced_settings", SLEEP_RENAME.key]) == Some(Num(30))
  {
    var host := Get(config, "icat_host").value;
    var provider := site.local(host).value;
    var before, after := EditsBefore(config, host, provider).value, EditsAfter(config, site.database, provider).value;
    var named := Apply(config, Set(Top, "schema_name", Str("server_config"))).value;
    ControlTypeApart(SLEEP_RENAME.key);
    AfterSpares(config, site.database, provider, ["advanced_settings", SLEEP_RENAME.key]);
    SetInTheMiddle(named, before, after);
    TagKeeps(ToV3(config, "server_config", site).value, 3, ["advanced_settings", SLEEP_RENAME.key]);
  }

  // --------------------------------------------- settings that the step to version 3 moves

  lemma {:induction false} TagsOnly(config: Json, version: nat, c2: Json, site: Site, order: KeyOrder)
    requires version <= 2 && config.Obj? && site.template.Obj?
    requires UpgradeFrom(config, "server_config", version, 2, site, order) == Some(c2)
    ensures c2.Obj? && forall key | key != "schema_version" :: Get(c2, key) == Get(config, key)
    decreases 2 - version
  {
    if version < 2 {
      OtherStep(config, "server_config", version + 1, site, order);
      var next := Apply(config, Set(Top, "schema_version", Tag(version + 1))).value;
      TagsOnly(next, version + 1, c2, site, order);
    }
  }

  /** Before the step to version 3 only the tag changes. */
  lemma StepToThree(config: Json, version: nat, c3: Json, site: Site, order: KeyOrder) returns (c2: Json, v3: Json)
    requires version < 3 && config.Obj? && site.template.Obj?
    requires UpgradeFrom(config, "server_config", version, 3, site, order) == Some(c3)
    ensures c2.Obj? && forall key | key != "schema_version" :: Get(c2, key) == Get(config, key)
    ensures v3.Obj? && ToV3(c2, "server_config", site) == Some(v3)
    ensures Apply(v3, Set(Top, "schema_version", Tag(3))) == Some(c3)
  {
    c2 := UpgradeSplits(config, "server_config", version, 2, 3, site, order);
    TagsOnly(config, version, c2, site, order);
    var next := OneStep(c2, 2, 3, site, order, c3);
    StepThree(c2, "server_config", site, order);
    v3 := ToV3(c2, "server_config", site).value;
  }

  /** The setting `key` is found at `path` afterwards. */
  ghost predicate Arrives(config: Json, key: string, r: Json, path: seq<string>) {
    IsLeaf(Get(config, key)) ==> Lookup(r, path) == Get(config, key)
  }

  lemma MovedNamesUnnamed()
    ensures Unnamed(PLUGINS) && Unnamed(HOSTS)
  {
    PluginsUnderived();
  }

  /** From any version before 3 to any from 3 on, the PAM options, the Kerberos name
      and the catalog host are found where the step to version 3 puts them. */
  lemma MovedSettingsArrive(config: Json, version: nat, target: nat, site: Site, order: KeyOrder, r: Json)
    requires version < 3 <= target && config.Obj? && site.template.Obj?
    requires UpgradeFrom(config, "server_config", version, target, site, order) == Some(r)
    ensures forall i | 0 <= i < 4 :: Arrives(config, PAM_KEYS[i], r, PamPath(i))
    ensures Arrives(config, "kerberos_name", r, KERBEROS)
    ensures Get(config, "icat_host").Some? && Lookup(r, [HOSTS]) == Some(Arr([Get(config, "icat_host").value]))
  {
    var c3 := UpgradeSplits(config, "server_config", version, 3, target, site, order);
    var c2, v3 := StepToThree(config, version, c3, site, order);
    ArrivedAtThree(config, c2, v3, site);
    forall i | 0 <= i < 4
      ensures Arrives(config, PAM_KEYS[i], r, PamPath(i))
    {
      AuthenticationPath(PamPath(i));
      ArrivalStays(config, PAM_KEYS[i], v3, c3, target, site, order, r, PamPath(i));
    }
    AuthenticationPath(KERBEROS);
    ArrivalStays(config, "kerberos_name", v3, c3, target, site, order, r, KERBEROS);
    HostsStay(v3, c3, target, site, order, r);
  }

  lemma ArrivedAtThree(config: Json, c2: Json, v3: Json, site: Site)
    requires forall key | key != "schema_version" :: Get(c2, key) == Get(config, key)
    requires c2.Obj? && ToV3(c2, "server_config", site) == Some(v3)
    ensures forall i | 0 <= i < 4 :: Arrives(config, PAM_KEYS[i], v3, PamPath(i))
    ensures Arrives(config, "kerberos_name", v3, KERBEROS)
    ensures Get(config, "icat_host").Some? && Get(v3, HOSTS) == Some(Arr([Get(config, "icat_host").value]))
  {
    MovedKeysKept(config, c2);
    V3Moves(c2, site, v3);
  }

  lemma AuthenticationPath(path: seq<string>)
    requires |path| >= 2 && path[0] == PLUGINS && path[1] == "authentication"
    ensures Unnamed(path[0]) && !([PLUGINS, "database"] <= path)
  {
    MovedNamesUnnamed();
    assert [PLUGINS, "database"][1] != path[1];
  }

  lemma ArrivalStays(config: Json, key: string, v3: Json, c3: Json, target: nat, site: Site, order: KeyOrder, r: Json,
                     path: seq<string>)
    requires v3.Obj? && c3.Obj? && site.template.Obj? && Apply(v3, Set(Top, "schema_version", Tag(3))) == Some(c3)
    requires UpgradeFrom(c3, "server_config", 3, target, site, order) == Some(r)
    requires path != [] && Unnamed(path[0]) && !([PLUGINS, "database"] <= path) && Arrives(config, key, v3, path)
    ensures Arrives(config, key, r, path)
  {
    if IsLeaf(Get(config, key)) { StaysFromThree(v3, c3, target, site, order, r, path); }
  }

  lemma HostsStay(v3: Json, c3: Json, target: nat, site: Site, order: KeyOrder, r: Json)
    requires v3.Obj? && c3.Obj? && site.template.Obj? && Apply(v3, Set(Top, "schema_version", Tag(3))) == Some(c3)
    requires UpgradeFrom(c3, "server_config", 3, target, site, order) == Some(r)
    requires IsLeaf(Get(v3, HOSTS))
    ensures Lookup(r, [HOSTS]) == Get(v3, HOSTS)
  {
    MovedNamesUnnamed();
    var path := [HOSTS];
    assert path[1..] == [] && path[0] == HOSTS;
    StaysFromThree(v3, c3, target, site, order, r, path);
  }

  lemma MovedKeysKept(config: Json, c2: Json)
    requires forall key | key != "schema_version" :: Get(c2, key) == Get(config, key)
    ensures forall i | 0 <= i < 4 :: Get(c2, PAM_KEYS[i]) == Get(config, PAM_KEYS[i])
    ensures Get(c2, "kerberos_name") == Get(config, "kerberos_name") && Get(c2, "icat_host") == Get(config, "icat_host")
  {
  }

  lemma StaysFromThree(v3: Json, c3: Json, target: nat, site: Site, order: KeyOrder, r: Json, path: seq<string>)
    requires v3.Obj? && c3.Obj? && site.template.Obj? && Apply(v3, Set(Top, "schema_version", Tag(3))) == Some(c3)
    requires UpgradeFrom(c3, "server_config", 3, target, site, order) == Some(r)
    requires path != [] && Unnamed(path[0]) && !([PLUGINS, "database"] <= path) && IsLeaf(Lookup(v3, path))
    ensures Lookup(r, path) == Lookup(v3, path)
  {
    TagKeeps(v3, 3, path);
    UnnamedLeftAlone(target, site, path);
    SettingsSurvive(c3, "server_config", 3, target, site, order, path);
  }

  lemma PolicySpared()
    ensures SparedByV3([POLICY_RENAME.key])
    ensures !(["schema_name"] <= [POLICY_RENAME.key]) && !(["schema_version"] <= [POLICY_RENAME.key])
    ensures !(["schema_version"] <= [POLICY_RENAME.name])
  {
    TopSpared(POLICY_RENAME.key);
  }

  /** The API policy reaches version 4 under its new name. */
  lemma PolicyReachesFour(config: Json, version: nat, site: Site, order: KeyOrder, r: Json)
    requires version <= 3 && config.Obj? && site.template.Obj? && IsLeaf(Lookup(config, [POLICY_RENAME.key]))
    requires UpgradeFrom(config, "server_config", version, 4, site, order) == Some(r)
    ensures Lookup(r, [POLICY_RENAME.name]) == Lookup(config, [POLICY_RENAME.key])
  {
    var c3 := UpgradeSplits(config, "server_config", version, 3, 4, site, order);
    PolicySpared();
    SettingsSurvive(config, "server_config", version, 3, site, order, [POLICY_RENAME.key]);
    var next := OneStep(c3, 3, 4, site, order, r);
    StepFour(c3, site, order);
    PolicyCarries(c3, site);
    TagKeeps(StepToV4(site, c3).value, 4, [POLICY_RENAME.name]);
  }

  // ------------------------------------------------ the database section, end to end

  /** Merging over the template a second time adds nothing. */
  lemma ExpectedAgain(template: Json, config: Json, later: Json, d: map<string, Json>)
    requires Expected(template, config, DATABASE) == Some(Obj(d)) && DatabaseOf(later) == Some(Obj(d))
    ensures Expected(template, later, DATABASE) == Some(Obj(d))
  {
    DatabaseLookup(later);
    var t, u := Lookup(template, DATABASE), Lookup(config, DATABASE);
    var from := if t.Some? then t.value else EMPTY;
    if u.Some? {
      MergeAgain(from, u.value, Obj(d));
    } else {
      MergeSelf(Obj(d));
    }
  }

  /** The database sections that a configuration of this version brings along,
      merged over those of the template. Below version 3 they are what the step to
      version 3 leaves. */
  function MergedDatabase(config: Json, version: nat, site: Site): Option<Json> {
    if version >= 3 then Expected(site.template, config, DATABASE) else
      var own := DatabaseFrom(config, site);
      if own.Some? then MergeValue(DatabaseOf(site.template), own.value) else DatabaseOf(site.template)
  }

  /** They reach version 5 and all later ones as the migration leaves them. */
  lemma DatabaseIsMigrated(config: Json, version: nat, target: nat, site: Site, order: KeyOrder, d: map<string, Json>,
                           r: Json)
    requires version < 5 <= target && config.Obj? && site.template.Obj? && d != map[]
    requires MergedDatabase(config, version, site) == Some(Obj(d))
    requires UpgradeFrom(config, "server_config", version, target, site, order) == Some(r)
    ensures MigrateFirst(d, order).Some?
    ensures DatabaseOf(r) == Some(Obj(MigrateFirst(d, order).value))
  {
    if version == 4 {
      MigratedFromFour(config, target, site, order, d, r);
    } else {
      var c3 := UpgradeSplits(config, "server_config", version, 3, target, site, order);
      if version < 3 { DatabaseAtThree(config, version, c3, site, order); }
      MigratedFromThree(c3, target, site, order, d, r);
    }
  }

  lemma DatabaseAtThree(config: Json, version: nat, c3: Json, site: Site, order: KeyOrder)
    requires version < 3 && config.Obj? && c3.Obj? && site.template.Obj?
    requires UpgradeFrom(config, "server_config", version, 3, site, order) == Some(c3)
    ensures Expected(site.template, c3, DATABASE) == MergedDatabase(config, version, site)
  {
    var c2, v3 := StepToThree(config, version, c3, site, order);
    V3TakesDatabase(c2, site, v3);
    SameDatabase(config, c2, site);
    TaggedDatabase(config, version, v3, c3, site);
  }

  lemma SameDatabase(config: Json, c2: Json, site: Site)
    requires forall key | key != "schema_version" :: Get(c2, key) == Get(config, key)
    ensures DatabaseFrom(c2, site) == DatabaseFrom(config, site)
  {
    assert Get(c2, "icat_host") == Get(config, "icat_host") && Get(c2, PLUGINS) == Get(config, PLUGINS);
  }

  lemma TaggedDatabase(config: Json, version: nat, v3: Json, c3: Json, site: Site)
    requires version < 3 && v3.Obj? && c3.Obj? && Apply(v3, Set(Top, "schema_version", Tag(3))) == Some(c3)
    requires DatabaseOf(v3) == DatabaseFrom(config, site) && Get(v3, PLUGINS).Some? && Get(v3, PLUGINS).value.Obj?
    ensures Expected(site.template, c3, DATABASE) == MergedDatabase(config, version, site)
  {
    assert Get(c3, PLUGINS) == Get(v3, PLUGINS);
    PluginsNotCut(c3);
    DatabaseLookup(c3);
    DatabaseLookup(site.template);
  }

  lemma PluginsNotCut(j: Json)
    requires j.Obj? && Get(j, PLUGINS).Some? && Get(j, PLUGINS).value.Obj?
    ensures !CutOff(j, DATABASE)
  {
    forall i | 0 <= i < |DATABASE|
      ensures !IsLeaf(Lookup(j, DATABASE[..i]))
    {
      if i == 0 {
        assert DATABASE[..0] == [];
      } else {
        assert DATABASE[..1] == [PLUGINS] && [PLUGINS][1..] == [];
        assert Lookup(j, [PLUGINS]) == Lookup(j.fields[PLUGINS], []);
      }
    }
  }

  lemma MigratedFromThree(config: Json, target: nat, site: Site, order: KeyOrder, d: map<string, Json>, r: Json)
    requires target >= 5 && config.Obj? && site.template.Obj? && d != map[]
    requires Expected(site.template, config, DATABASE) == Some(Obj(d))
    requires UpgradeFrom(config, "server_config", 3, target, site, order) == Some(r)
    ensures MigrateFirst(d, order).Some?
    ensures DatabaseOf(r) == Some(Obj(MigrateFirst(d, order).value))
  {
    var d4 := OneStep(config, 3, target, site, order, r);
    StepFour(config, site, order);
    V4KeepsDatabase(site.template, config, d);
    AbsorbKeepsDatabase(ToV4(site.template, config).value, site);
    TagKeepsDatabase(StepToV4(site, config).value, 4);
    ExpectedAgain(site.template, config, d4, d);
    MigratedFromFour(d4, target, site, order, d, r);
  }

  lemma MigratedFromFour(config: Json, target: nat, site: Site, order: KeyOrder, d: map<string, Json>, r: Json)
    requires target >= 5 && config.Obj? && site.template.Obj? && d != map[]
    requires Expected(site.template, config, DATABASE) == Some(Obj(d))
    requires UpgradeFrom(config, "server_config", 4, target, site, order) == Some(r)
    ensures MigrateFirst(d, order).Some?
    ensures DatabaseOf(r) == Some(Obj(MigrateFirst(d, order).value))
  {
    var d5 := OneStep(config, 4, target, site, order, r);
    StepFive(config, site, order);
    V5MigratesDatabase(site.template, config, site.env, order, d);
    TagKeepsDatabase(ToV5(site.template, config, site.env, order).value, 5);
    LaterStepsKeepDatabase(d5, 5, target, site, order);
  }

  lemma {:induction false} LaterStepsKeepDatabase(config: Json, version: nat, target: nat, site: Site, order: KeyOrder)
    requires config.Obj? && site.template.Obj? && version >= 5
    requires UpgradeFrom(config, "server_config", version, target, site, order).Some?
    ensures DatabaseOf(UpgradeFrom(config, "server_config", version, target, site, order).value) == DatabaseOf(config)
    decreases target - version
  {
    if version < target {
      OtherStep(config, "server_config", version + 1, site, order);
      TagKeepsDatabase(config, version + 1);
      var next := Apply(config, Set(Top, "schema_version", Tag(version + 1))).value;
      LaterStepsKeepDatabase(next, version + 1, target, site, order);
    }
  }

  /** So they end up as the code's comments promise exactly when the names fit. */
  lemma DatabaseMovesAsPromised(config: Json, version: nat, target: nat, site: Site, order: KeyOrder,
                                d: map<string, Json>, r: Json)
    requires version < 5 <= target && config.Obj? && site.template.Obj? && d != map[] && IsOrder(order)
    requires MergedDatabase(config, version, site) == Some(Obj(d))
    requires UpgradeFrom(config, "server_config", version, target, site, order) == Some(r)
    ensures order(d) != [] && var db := order(d)[0];
            && db in d && d[db].Obj? && DatabaseOf(r).Some? && DatabaseOf(r).value.Obj?
            && (MovedAsPromised(d, db, DatabaseOf(r).value.fields) <==> NamesFit(d, db, order(d[db].fields)))
  {
    DatabaseIsMigrated(config, version, target, site, order, d, r);
    var db := order(d)[0];
    MigratesExactly(d, db, order(d[db].fields));
  }

  lemma TagKeepsDatabase(j: Json, version: nat)
    requires j.Obj?
    ensures DatabaseOf(Apply(j, Set(Top, "schema_version", Tag(version))).value) == DatabaseOf(j)
  {
  }

  lemma OneStep(config: Json, version: nat, target: nat, site: Site, order: KeyOrder, r: Json) returns (next: Json)
    requires version < target && config.Obj? && site.template.Obj?
    requires UpgradeFrom(config, "server_config", version, target, site, order) == Some(r)
    ensures next.Obj? && RunSchemaUpdate(config, "server_config", version + 1, site, order) == Some(next)
    ensures UpgradeFrom(next, "server_config", version + 1, target, site, order) == Some(r)
  {
    next := RunSchemaUpdate(config, "server_config", version + 1, site, order).value;
  }
}
