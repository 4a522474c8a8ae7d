/** The server_config.json schema upgrade of scripts/irods/upgrade_configuration.py,
    one schema version at a time. */
module ConfigUpgrade {

  import opened Common
  import opened ConfigEdits
  import opened ConfigV3
  import opened ConfigV4
  import opened ConfigV5
  import opened DatabaseMigration
  import opened JsonMerge

  // ------------------------------------------------------------------------ version tags

  function Decimal(n: nat): string {
    if n < 10 then [(n + '0' as int) as char] else Decimal(n / 10) + [(n % 10 + '0' as int) as char]
  }

  function ParseDecimal(s: string): Option<nat> {
    if s == "" then None
    else
      var c := s[|s| - 1];
      if !('0' <= c <= '9') then None
      else if |s| == 1 then Some(c as int - '0' as int)
      else
        var front := ParseDecimal(s[..|s| - 1]);
        if front.None? then None else Some(10 * front.value + (c as int - '0' as int))
  }

  lemma {:induction false} DecimalParses(n: nat)
    ensures Decimal(n) != "" && ParseDecimal(Decimal(n)) == Some(n)
  {
    if n >= 10 {
      DecimalParses(n / 10);
      var s := Decimal(n);
      assert s[..|s| - 1] == Decimal(n / 10);
    }
  }

  /** 'v%d' */
  function Tag(n: nat): Json {
    Str("v" + Decimal(n))
  }

  /** schema_version_as_int, on such tags */
  function VersionOf(j: Json): Option<nat> {
    if j.Str? && "v" <= j.s then ParseDecimal(j.s[1..]) else None
  }

  lemma TagReadsBack(n: nat)
    ensures VersionOf(Tag(n)) == Some(n)
  {
    DecimalParses(n);
    assert ("v" + Decimal(n))[1..] == Decimal(n);
  }

  // -------------------------------------------------------------------- the version loop

  function RunSchemaUpdate(config: Json, schema: string, next: nat, site: Site, order: KeyOrder): (r: Option<Json>)
    requires config.Obj? && site.template.Obj?
    ensures r.Some? ==> r.value.Obj? && Get(r.value, "schema_version") == Some(Tag(next))
  {
    var converted :=
      if next == 3 then ToV3(config, schema, site)
      else if schema != "server_config" then Some(config)
      else if next == 4 then StepToV4(site, config)
      else if next == 5 then ToV5(site.template, config, site.env, order)
      else Some(config);
    if converted.None? then None else Apply(converted.value, Set(Top, "schema_version", Tag(next)))
  }

  function UpgradeFrom(config: Json, schema: string, version: nat, target: nat, site: Site, order: KeyOrder)
    : Option<Json>
    requires config.Obj? && site.template.Obj?
    decreases target - version
  {
    if version >= target then Some(config) else
      var r := RunSchemaUpdate(config, schema, version + 1, site, order);
      if r.None? then None else UpgradeFrom(r.value, schema, version + 1, target, site, order)
  }

  datatype Upgrade = Downgrade | Raised | UpToDate | Committed(config: Json)

  method UpgradeConfigFile(config: Json, schema: string, version: nat, target: nat, site: Site, order: KeyOrder)
    returns (r: Upgrade)
    requires config.Obj? && site.template.Obj?
    ensures r.Downgrade? <==> version > target
    ensures r.UpToDate? <==> version == target
    ensures version < target ==> match UpgradeFrom(config, schema, version, target, site, order)
                                 case None => r == Raised
                                 case Some(c) => r == Committed(c)
    ensures r.Committed? ==> Get(r.config, "schema_version") == Some(Tag(target))
  {
    if version > target {
      return Downgrade;
    }
    if version == target {
      return UpToDate;
    }
    var current, schemaVersion := config, version;
    while schemaVersion < target
      invariant current.Obj? && version <= schemaVersion <= target
      invariant schemaVersion > version ==> Get(current, "schema_version") == Some(Tag(schemaVersion))
      invariant UpgradeFrom(current, schema, schemaVersion, target, site, order)
             == UpgradeFrom(config, schema, version, target, site, order)
      decreases target - schemaVersion
    {
      var next := RunSchemaUpdate(current, schema, schemaVersion + 1, site, order);
      if next.None? {
        return Raised;
      }
      current := next.value;
      TagReadsBack(schemaVersion + 1);
      schemaVersion := VersionOf(current.fields["schema_version"]).value;
    }
    return Committed(current);
  }
}
