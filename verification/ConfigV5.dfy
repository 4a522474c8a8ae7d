/** The conversion of a configuration to schema version 5: a merge over the template,
    settings taken from the environment, removals, and the database section moved. */
module ConfigV5 {

  import opened Common
  import opened ConfigEdits
  import opened DatabaseMigration
  import opened JsonMerge

  function EnvOrNull(env: map<string, Json>, key: string): Json {
    if key in env then env[key] else Null
  }

  function SetFromEnv(env: map<string, Json>, variable: string, key: string): seq<Edit> {
    if variable in env then [Set(Top, key, env[variable])] else []
  }

  function TlsServerEdits(env: map<string, Json>): seq<Edit> {
    if || "irods_ssl_certificate_chain_file" in env || "irods_ssl_certificate_key_file" in env
       || "irods_ssl_dh_params_file" in env
    then [Set(Top, "tls_server", Obj(map[
            "certificate_chain_file" := EnvOrNull(env, "irods_ssl_certificate_chain_file"),
            "certificate_key_file" := EnvOrNull(env, "irods_ssl_certificate_key_file"),
            "dh_params_file" := EnvOrNull(env, "irods_ssl_dh_params_file")]))]
    else []
  }

  function TlsClientEdits(env: map<string, Json>): seq<Edit> {
    var file := if "irods_ssl_ca_certificate_file" !in env then [] else
                  [Ensure(Top, "tls_client"),
                   Set(In("tls_client"), "ca_certificate_file", env["irods_ssl_ca_certificate_file"])];
    var path := if "irods_ssl_ca_certificate_path" !in env then [] else
                  [Ensure(Top, "tls_client"),
                   Set(In("tls_client"), "ca_certificate_path", env["irods_ssl_ca_certificate_path"])];
    var verify := if file + path == [] then [] else
                  [Set(In("tls_client"), "verify_server", EnvOrNull(env, "irods_ssl_verify_server"))];
    file + path + verify
  }

  const REMOVED_IN_V5: seq<string> := [
    "client_api_allowlist_policy",
    "schema_validation_base_uri",
    "server_control_plane_encryption_algorithm",
    "server_control_plane_encryption_num_hash_rounds",
    "server_control_plane_key",
    "server_control_plane_port",
    "server_control_plane_timeout_milliseconds"
  ]

  function EncryptionEdits(env: map<string, Json>): seq<Edit> {
    [Set(Top, "client_server_policy", EnvOrNull(env, "irods_client_server_policy")),
     Set(Top, "encryption", Obj(map[
       "algorithm" := EnvOrNull(env, "irods_encryption_algorithm"),
       "key_size" := EnvOrNull(env, "irods_encryption_key_size"),
       "num_hash_rounds" := EnvOrNull(env, "irods_encryption_num_hash_rounds"),
       "salt_size" := EnvOrNull(env, "irods_encryption_salt_size")]))]
  }

  function KeepaliveEdits(env: map<string, Json>): seq<Edit> {
    SetFromEnv(env, "irods_tcp_keepalive_intvl_in_seconds", "tcp_keepalive_intvl_in_seconds")
    + SetFromEnv(env, "irods_tcp_keepalive_probes", "tcp_keepalive_probes")
    + SetFromEnv(env, "irods_tcp_keepalive_time_in_seconds", "tcp_keepalive_time_in_seconds")
  }

  function FirstV5Edits(host: Json): seq<Edit> {
    [Set(Top, "host", host), Drop(ADVANCED, "agent_factory_watcher_sleep_time_in_seconds")]
  }

  /** Everything after the first two edits for version 5. */
  function LaterV5Edits(env: map<string, Json>): seq<Edit> {
    DropAll(REMOVED_IN_V5) + EncryptionEdits(env) + (TlsServerEdits(env) + TlsClientEdits(env)) + KeepaliveEdits(env)
  }

  function V5Edits(env: map<string, Json>): seq<Edit>
    requires "irods_host" in env
  {
    FirstV5Edits(env["irods_host"]) + LaterV5Edits(env)
  }

  /** The first key names the database; an order that yields no key of the
      dictionary stands for nothing and fails here. */
  function MigrateFirst(d: map<string, Json>, order: KeyOrder): Option<map<string, Json>> {
    if order(d) == [] || order(d)[0] !in d || !d[order(d)[0]].Obj? then None
    else MigrateSection(d, order(d)[0], order(d[order(d)[0]].fields))
  }

  /** The database part of the version 5 conversion, on the whole configuration. */
  function MigrateConfig(j: Json, order: KeyOrder): (r: Option<Json>)
    requires j.Obj?
    ensures r.Some? ==> r.value.Obj?
  {
    if "plugin_configuration" !in j.fields then Some(j) else
      var plugins := j.fields["plugin_configuration"];
      var present := Contains(plugins, "database");
      if present.None? then None
      else if !present.value then Some(j)
      else if !plugins.Obj? then None
      else
        var database := plugins.fields["database"];
        if Length(database).None? then None
        else if Length(database).value == 0 then Some(j)
        else if !database.Obj? then None
        else
          var migrated := MigrateFirst(database.fields, order);
          if migrated.None? then None
          else Apply(j, Set(In("plugin_configuration"), "database", Obj(migrated.value)))
  }

  function ToV5(template: Json, config: Json, env: map<string, Json>, order: KeyOrder): (r: Option<Json>)
    requires template.Obj? && config.Obj?
    ensures r.Some? ==> r.value.Obj?
  {
    MergeFields(template, config);
    var merged := Merge(template, config);
    if merged.None? || "irods_host" !in env then None else
      var edited := ApplyAll(merged.value, V5Edits(env));
      if edited.None? then None else MigrateConfig(edited.value, order)
  }

  // ---------------------------------------------------------------- what it leaves alone

  lemma MigrateKeeps(j: Json, order: KeyOrder, path: seq<string>)
    requires j.Obj? && IsLeaf(Lookup(j, path)) && MigrateConfig(j, order).Some?
    requires !([PLUGINS, "database"] <= path)
    ensures Lookup(MigrateConfig(j, order).value, path) == Lookup(j, path)
  {
    if PLUGINS in j.fields && Contains(j.fields[PLUGINS], "database") == Some(true) {
      var database := j.fields[PLUGINS].fields["database"];
      if Length(database).value != 0 {
        var migrated := MigrateFirst(database.fields, order).value;
        ApplyKeeps(j, Set(In(PLUGINS), "database", Obj(migrated)), path);
      }
    }
  }

  lemma V5Keeps(template: Json, config: Json, env: map<string, Json>, order: KeyOrder, path: seq<string>)
    requires template.Obj? && config.Obj? && IsLeaf(Lookup(config, path)) && ToV5(template, config, env, order).Some?
    requires AllSpare(V5Edits(env), path) && !([PLUGINS, "database"] <= path)
    ensures Lookup(ToV5(template, config, env, order).value, path) == Lookup(config, path)
  {
    MergeFields(template, config);
    MergeKeepsLeaf(template, config, path);
    var merged := Merge(template, config).value;
    ApplyAllKeeps(merged, V5Edits(env), path);
    MigrateKeeps(ApplyAll(merged, V5Edits(env)).value, order, path);
  }

  /** The top-level settings that the step to version 5 takes from the environment. */
  const DERIVED: set<string> :=
    {"tls_server", "tls_client", "client_server_policy", "encryption", "tcp_keepalive_intvl_in_seconds",
     "tcp_keepalive_probes", "tcp_keepalive_time_in_seconds"}

  predicate Underived(section: string) {
    section !in REMOVED_IN_V5 && section !in DERIVED
  }

  lemma TlsServerOutside(env: map<string, Json>, section: string)
    requires section != "tls_server"
    ensures AllOutside(TlsServerEdits(env), section)
  {
  }

  lemma TlsClientOutside(env: map<string, Json>, section: string)
    requires section != "tls_client"
    ensures AllOutside(TlsClientEdits(env), section)
  {
    var es := TlsClientEdits(env);
    forall i | 0 <= i < |es|
      ensures es[i].at != In(section) && Misses(es[i], section, "")
    {
      assert es[i].Ensure? || es[i].at == In("tls_client");
    }
  }

  lemma EncryptionOutside(env: map<string, Json>, section: string)
    requires section != "client_server_policy" && section != "encryption"
    ensures AllOutside(EncryptionEdits(env), section)
  {
  }

  lemma KeepaliveOutside(env: map<string, Json>, section: string)
    requires section !in DERIVED
    ensures AllOutside(KeepaliveEdits(env), section)
  {
    var a := SetFromEnv(env, "irods_tcp_keepalive_intvl_in_seconds", "tcp_keepalive_intvl_in_seconds");
    var b := SetFromEnv(env, "irods_tcp_keepalive_probes", "tcp_keepalive_probes");
    var c := SetFromEnv(env, "irods_tcp_keepalive_time_in_seconds", "tcp_keepalive_time_in_seconds");
    OutsideConcat(a, b, section);
    OutsideConcat(a + b, c, section);
  }

  lemma LaterEditsOutside(env: map<string, Json>, section: string)
    requires Underived(section)
    ensures AllOutside(LaterV5Edits(env), section)
  {
    DropsOutside(REMOVED_IN_V5, section);
    TlsServerOutside(env, section);
    TlsClientOutside(env, section);
    EncryptionOutside(env, section);
    KeepaliveOutside(env, section);
    var a, b := DropAll(REMOVED_IN_V5), EncryptionEdits(env);
    var c := TlsServerEdits(env) + TlsClientEdits(env);
    OutsideConcat(TlsServerEdits(env), TlsClientEdits(env), section);
    OutsideConcat(a, b, section);
    OutsideConcat(a + b, c, section);
    OutsideConcat(a + b + c, KeepaliveEdits(env), section);
  }

  lemma AdvancedUnderived()
    ensures Underived("advanced_settings")
  {
  }

  lemma PluginsUnderived()
    ensures Underived(PLUGINS)
  {
  }

  lemma FirstEditsMiss(host: Json, name: string)
    requires name != "agent_factory_watcher_sleep_time_in_seconds"
    ensures AllMiss(FirstV5Edits(host), "advanced_settings", name)
  {
  }

  lemma V5Misses(env: map<string, Json>, name: string)
    requires "irods_host" in env && name != "agent_factory_watcher_sleep_time_in_seconds"
    ensures AllMiss(V5Edits(env), "advanced_settings", name)
  {
    AdvancedUnderived();
    LaterEditsOutside(env, "advanced_settings");
    FirstEditsMiss(env["irods_host"], name);
    MissConcat(FirstV5Edits(env["irods_host"]), LaterV5Edits(env), name);
  }

  lemma V5Outside(env: map<string, Json>, section: string)
    requires "irods_host" in env && Underived(section) && section != "host" && section != "advanced_settings"
    ensures AllOutside(V5Edits(env), section)
  {
    LaterEditsOutside(env, section);
    assert AllOutside(FirstV5Edits(env["irods_host"]), section);
    OutsideConcat(FirstV5Edits(env["irods_host"]), LaterV5Edits(env), section);
  }

  lemma V5OutsidePlugins(env: map<string, Json>)
    requires "irods_host" in env
    ensures AllOutside(V5Edits(env), PLUGINS)
  {
    PluginsUnderived();
    V5Outside(env, PLUGINS);
  }

  // ---------------------------------------------------------------- the database section

  lemma MigratesDatabaseOf(j: Json, order: KeyOrder, d: map<string, Json>)
    requires j.Obj? && d != map[] && DatabaseOf(j) == Some(Obj(d)) && MigrateConfig(j, order).Some?
    ensures MigrateFirst(d, order).Some?
    ensures DatabaseOf(MigrateConfig(j, order).value) == Some(Obj(MigrateFirst(d, order).value))
  {
  }

  lemma V5MigratesDatabase(template: Json, config: Json, env: map<string, Json>, order: KeyOrder, d: map<string, Json>)
    requires template.Obj? && config.Obj? && ToV5(template, config, env, order).Some? && d != map[]
    requires Expected(template, config, DATABASE) == Some(Obj(d))
    ensures MigrateFirst(d, order).Some?
    ensures DatabaseOf(ToV5(template, config, env, order).value) == Some(Obj(MigrateFirst(d, order).value))
  {
    MergeFields(template, config);
    MergeGivesDatabase(template, config);
    V5OutsidePlugins(env);
    OutsideKeeps(Merge(template, config).value, V5Edits(env), PLUGINS);
    MigratesDatabaseOf(ApplyAll(Merge(template, config).value, V5Edits(env)).value, order, d);
  }
}
