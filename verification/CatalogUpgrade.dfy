/** The catalog schema upgrade: one version at a time, each in a transaction
    that is committed or rolled back (scripts/irods/database_interface.py,
    scripts/irods/database_upgrade.py). */
module CatalogUpgrade {

  import opened Common

  /** The catalog: its recorded schema version, and everything else. */
  datatype Db<D> = Db(version: int, data: D)

  /** The statements that lead up to a version, for the rest of the catalog;
      None when one of them cannot be executed. */
  type Steps<!D> = (int, D) -> Option<D>

  /** What may happen to an attempt at one version: nothing, a failure after some
      statements have changed the uncommitted catalog, or a failed commit. */
  datatype Fault<D> = NoFault | During(partial: Db<D>) | AtCommit

  const FIRST_VERSION: int := 2
  const LAST_VERSION: int := 13

  // ------------------------------------------------------------------- one version

  /** What a fault-free run_update makes of the catalog. */
  function Next<D>(step: Steps<D>, db: Db<D>): Option<Db<D>> {
    var v := db.version + 1;
    if !(FIRST_VERSION <= v <= LAST_VERSION) then None else
      var d := step(v, db.data);
      if d.None? then None else Some(Db(v, d.value))
  }

  /** Next, v - db.version times over. */
  function Replay<D>(step: Steps<D>, db: Db<D>, v: int): Option<Db<D>>
    requires db.version <= v
    decreases v - db.version
  {
    if db.version == v then Some(db) else
      var next := Next(step, db);
      if next.None? then None else Replay(step, next.value, v)
  }

  /** One call of update_catalog_schema: the catalog it leaves and whether it
      returned normally. The n-th attempt meets the n-th fault. */
  function Run<D>(step: Steps<D>, db: Db<D>, target: int, faults: nat -> Fault<D>, n: nat): (Db<D>, bool)
    decreases target - db.version
  {
    if db.version == target then (db, true)
    else if db.version > target then (db, false)
    else
      var next := Next(step, db);
      if faults(n).NoFault? && next.Some? then Run(step, next.value, target, faults, n + 1) else (db, false)
  }

  class Connection<D> {
    /** What every other connection and a later run sees. */
    var committed: Db<D>
    /** What this connection's cursor sees. */
    var working: Db<D>

    constructor (db: Db<D>)
      ensures committed == working == db
    {
      committed, working := db, db;
    }

    method Commit()
      modifies this
      ensures committed == working == old(working)
    {
      committed := working;
    }

    method Rollback()
      modifies this
      ensures committed == working == old(committed)
    {
      working := committed;
    }

    /** run_update: false when it raises. */
    method RunUpdate(step: Steps<D>, fault: Fault<D>) returns (ok: bool)
      modifies this`working
      ensures ok <==> !fault.During? && Next(step, old(working)).Some?
      ensures ok ==> working == Next(step, old(working)).value
    {
      var newVersion := working.version + 1;
      if fault.During? {
        working := fault.partial;
        return false;
      }
      if newVersion < FIRST_VERSION || newVersion > LAST_VERSION {
        return false;
      }
      var data := step(newVersion, working.data);
      if data.None? {
        return false;
      }
      working := Db(working.version, data.value);
      working := Db(newVersion, working.data);
      return true;
    }

    method UpdateCatalogSchema(step: Steps<D>, target: int, faults: nat -> Fault<D>) returns (ok: bool)
      requires committed == working
      modifies this
      ensures committed == working
      ensures (committed, ok) == Run(step, old(committed), target, faults, 0)
    {
      var n: nat := 0;
      while true
        invariant committed == working
        invariant Run(step, committed, target, faults, n) == Run(step, old(committed), target, faults, 0)
        decreases target - working.version
      {
        var version := working.version;
        if version == target {
          return true;
        } else if version < target {
          var done := RunUpdate(step, faults(n));
          if !done || faults(n).AtCommit? {
            Rollback();
            return false;
          }
          Commit();
        } else {
          return false;
        }
        n := n + 1;
      }
    }
  }

  // ------------------------------------------------------------- what any run leaves

  /** Whatever goes wrong at whatever attempt, the committed catalog is the one
      that the steps up to its version give, in order and each once; the run
      returns normally exactly when that version is the target. */
  lemma {:induction false} RunLeavesPrefix<D>(step: Steps<D>, db: Db<D>, target: int, faults: nat -> Fault<D>, n: nat)
    ensures var (after, ok) := Run(step, db, target, faults, n);
            && db.version <= after.version && Replay(step, db, after.version) == Some(after)
            && (ok <==> after.version == target)
            && (if db.version <= target then after.version <= target else after == db)
    decreases target - db.version
  {
    if db.version < target && faults(n).NoFault? && Next(step, db).Some? {
      RunLeavesPrefix(step, Next(step, db).value, target, faults, n + 1);
    }
  }

  /** Without faults a run goes through exactly when every step can be executed. */
  lemma {:induction false} FaultlessRun<D>(step: Steps<D>, db: Db<D>, target: int, n: nat)
    requires db.version <= target
    ensures var (after, ok) := Run(step, db, target, _ => NoFault, n);
            && (ok <==> Replay(step, db, target).Some?)
            && (ok ==> Replay(step, db, target) == Some(after))
    decreases target - db.version
  {
    if db.version < target && Next(step, db).Some? {
      FaultlessRun(step, Next(step, db).value, target, n + 1);
    }
  }

  // ------------------------------------------------------------------ crash and resume

  /** One run after the other on the same catalog, each with its own faults. */
  function Runs<D>(step: Steps<D>, db: Db<D>, target: int, schedules: seq<nat -> Fault<D>>): Db<D>
    decreases |schedules|
  {
    if schedules == [] then db else Runs(step, Run(step, db, target, schedules[0], 0).0, target, schedules[1..])
  }

  lemma {:induction false} ReplayContinues<D>(step: Steps<D>, db: Db<D>, v: int, w: int)
    requires db.version <= v <= w && Replay(step, db, v).Some?
    ensures Replay(step, db, v).value.version == v
    ensures Replay(step, Replay(step, db, v).value, w) == Replay(step, db, w)
    decreases v - db.version
  {
    if db.version < v {
      ReplayContinues(step, Next(step, db).value, v, w);
    }
  }

  lemma {:induction false} RunsLeavePrefix<D>(step: Steps<D>, db: Db<D>, target: int, schedules: seq<nat -> Fault<D>>)
    ensures var after := Runs(step, db, target, schedules);
            && db.version <= after.version && Replay(step, db, after.version) == Some(after)
            && (if db.version <= target then after.version <= target else after == db)
    decreases |schedules|
  {
    if schedules != [] {
      var first := Run(step, db, target, schedules[0], 0).0;
      RunLeavesPrefix(step, db, target, schedules[0], 0);
      RunsLeavePrefix(step, first, target, schedules[1..]);
      var after := Runs(step, db, target, schedules);
      ReplayContinues(step, db, first.version, after.version);
    }
  }

  /** Any number of runs that failed anywhere, followed by one that succeeds,
      leave the catalog of a single uninterrupted run. */
  lemma ResumeIsUninterrupted<D>(step: Steps<D>, db: Db<D>, target: int, failed: seq<nat -> Fault<D>>,
                                 last: nat -> Fault<D>)
    requires Run(step, Runs(step, db, target, failed), target, last, 0).1
    ensures Run(step, db, target, _ => NoFault, 0) == Run(step, Runs(step, db, target, failed), target, last, 0)
  {
    var before := Runs(step, db, target, failed);
    RunsLeavePrefix(step, db, target, failed);
    RunLeavesPrefix(step, before, target, last, 0);
    var after := Run(step, before, target, last, 0).0;
    ReplayContinues(step, db, before.version, target);
    FaultlessRun(step, db, target, 0);
  }
}
