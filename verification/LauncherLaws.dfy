/** What one launcher cycle does to each worker and asks of the postmaster and of shared
    memory, in terms of the table, the clock and the handle statuses alone. */
module LauncherLaws {
  import opened Common
  import opened Launcher
  import opened LauncherLoop
  import opened RestartRuns

  /* ---- the enabled set ---- */

  /** The first row of the database is row i, and it is enabled. */
  ghost predicate EnabledAt(rows: seq<Row>, db: nat, i: nat) {
    && i < |rows| && rows[i].dbOid == db && rows[i].enabled
    && forall j :: 0 <= j < i ==> rows[j].dbOid != db
  }

  ghost predicate EnabledAs(rows: seq<Row>, db: nat, g: int) {
    exists i: nat :: EnabledAt(rows, db, i) && rows[i].restartGeneration == g
  }

  ghost predicate IsEnabled(rows: seq<Row>, db: nat) { exists i: nat :: EnabledAt(rows, db, i) }

  lemma {:induction false} FindRowIsFirst(rows: seq<Row>, db: nat) returns (i: nat)
    ensures i <= |rows| && forall j :: 0 <= j < i ==> rows[j].dbOid != db
    ensures i < |rows| ==> rows[i].dbOid == db && FindRow(rows, db) == Some(rows[i])
    ensures i == |rows| ==> FindRow(rows, db).None?
  {
    i := 0;
    if rows != [] && rows[0].dbOid != db {
      var k := FindRowIsFirst(rows[1..], db);
      i := k + 1;
    }
  }

  lemma {:induction false} EnabledIs(rows: seq<Row>, db: nat)
    ensures FindEnabled(rows, db).Some? <==> IsEnabled(rows, db)
    ensures forall g :: EnabledAs(rows, db, g) <==>
      FindEnabled(rows, db).Some? && FindEnabled(rows, db).value.restartGeneration == g
    ensures FindRow(rows, db).None? <==> forall row :: row in rows ==> row.dbOid != db
  {
    var i := FindRowIsFirst(rows, db);
    if i < |rows| && rows[i].enabled { assert EnabledAt(rows, db, i); }
    forall k: nat | EnabledAt(rows, db, k) ensures k == i {}
  }

  /* ---- membership in what the passes ask for ---- */

  lemma {:induction false} LivenessAsks(ws: seq<Worker>, e: Env, c: Call)
    ensures c in LivenessCalls(ws, e.rows, e.statusA, e.now) <==>
      exists w :: w in ws && c in SettleCalls(e.rows, w, e.statusA(w.handle), e.now)
  {
    if ws != [] {
      LivenessAsks(ws[1..], e, c);
      assert ws == [ws[0]] + ws[1..];
    }
  }

  lemma {:induction false} TerminateAsks(ws: seq<Worker>, e: Env, c: Call)
    ensures c in TerminateCalls(ws, e) <==>
      exists w :: w in ws && c == TerminateWorker(w.handle)
                  && e.statusA(w.handle) == Started && !IsEnabled(e.rows, w.dbOid)
  {
    if ws != [] {
      TerminateAsks(ws[1..], e, c);
      EnabledIs(e.rows, ws[0].dbOid);
      assert ws == [ws[0]] + ws[1..];
    }
  }

  lemma {:induction false} ConvergeAsks(ws: seq<Worker>, e: Env, c: Call)
    ensures c in AllConvergeCalls(ws, e) <==> exists w :: w in ws && c in ConvergeCalls(w, e)
  {
    if ws != [] {
      ConvergeAsks(ws[1..], e, c);
      assert ws == [ws[0]] + ws[1..];
    }
  }

  /** An entry stays through the liveness pass, stamped when first seen started. */
  ghost predicate Stays(w: Worker, e: Env) {
    e.statusA(w.handle) != Stopped || (IsEnabled(e.rows, w.dbOid) && w.restart.restarting)
  }

  function StartedAt(w: Worker, e: Env): int {
    if w.startedTime == 0 && e.statusA(w.handle) == Started then e.now else w.startedTime
  }

  lemma {:induction false} SurvivorsAre(ws: seq<Worker>, e: Env, x: Worker)
    ensures x in Survivors(ws, e.rows, e.statusA, e.now) <==>
      exists w :: w in ws && Stays(w, e) && x == w.(startedTime := StartedAt(w, e))
  {
    if ws != [] {
      SurvivorsAre(ws[1..], e, x);
      EnabledIs(e.rows, ws[0].dbOid);
      assert ws == [ws[0]] + ws[1..];
    }
  }

  /* ---- what settling a stopped worker asks for ---- */

  /** A stopped worker's accounts: cleared for a disabled database, its slots and control
      block given up for a removed one, its heartbeat cleared for one being restarted, and
      otherwise a crash, after which backoff starts over if it ran for ten seconds. */
  lemma SettleIs(w: Worker, e: Env, c: Call)
    ensures c in SettleCalls(e.rows, w, e.statusA(w.handle), e.now) <==>
      var removed := forall row :: row in e.rows ==> row.dbOid != w.dbOid;
      var enabled := IsEnabled(e.rows, w.dbOid);
      e.statusA(w.handle) == Stopped &&
      match c
      case BackoffClear(db) => db == w.dbOid && !enabled
      case DropQueuedSlots(db) => db == w.dbOid && removed
      case ReleaseSlot(db) => db == w.dbOid && removed
      case ClearHeartbeat(db) => db == w.dbOid && enabled && w.restart.restarting
      case RecordDeath(db, recovered) =>
        && db == w.dbOid && enabled && !w.restart.restarting
        && (recovered <==> w.startedTime != 0 && e.now - w.startedTime > 9_999_000)
      case ClearDeadEntry(db) => db == w.dbOid && enabled && !w.restart.restarting
      case _ => false
  {
    EnabledIs(e.rows, w.dbOid);
  }

  /** An enabled database's worker is due a restart: its generation has moved and no restart
      is in flight. */
  ghost predicate DueRestart(w: Worker, e: Env) {
    !w.restart.restarting && exists g :: EnabledAs(e.rows, w.dbOid, g) && w.restart.serviced != g
  }

  lemma DueIs(w: Worker, e: Env)
    ensures var row := FindEnabled(e.rows, w.dbOid);
      DueRestart(w, e) <==> row.Some? && !w.restart.restarting && w.restart.serviced != row.value.restartGeneration
  {
    EnabledIs(e.rows, w.dbOid);
    var row := FindEnabled(e.rows, w.dbOid);
    if row.Some? { assert EnabledAs(e.rows, w.dbOid, row.value.restartGeneration); }
  }

  /** What convergence asks for one entry of an enabled database: a signal when its
      generation has moved and no restart is in flight, a warning once a drain has lasted
      the timeout, and the serviced generation when the drained worker is replaced. */
  lemma ConvergeIs(w: Worker, e: Env, c: Call)
    ensures c in ConvergeCalls(w, e) <==>
      match c
      case TerminateWorker(h) => h == w.handle && DueRestart(w, e)
      case WarnNotStopped(db) =>
        && db == w.dbOid && IsEnabled(e.rows, db) && w.restart.restarting && e.statusB(w.handle) != Stopped
        && e.now - (if w.restart.waitStarted == 0 then e.now else w.restart.waitStarted) >= e.stopTimeoutMs * 1000
      case PublishServiced(db, g) =>
        && db == w.dbOid && g == w.restart.target && IsEnabled(e.rows, db) && w.restart.restarting
        && e.statusB(w.handle) == Stopped && e.registers(db)
      case _ => false
  {
    EnabledIs(e.rows, w.dbOid);
    DueIs(w, e);
  }

  /* ---- a whole cycle ---- */

  lemma {:induction false} CycleAsks(s: State, e: Env, c: Call)
    ensures var kept := s.(ledger := Survivors(s.ledger, e.rows, e.statusA, e.now));
      c in CycleCalls(s, e) <==>
        || (exists w :: w in s.ledger && c in SettleCalls(e.rows, w, e.statusA(w.handle), e.now))
        || (exists w :: w in kept.ledger && c == TerminateWorker(w.handle)
                        && e.statusA(w.handle) == Started && !IsEnabled(e.rows, w.dbOid))
        || (exists w :: w in kept.ledger && c in ConvergeCalls(w, e))
        || c in SpawnCalls(ConvergeFrom(kept, 0, e), e.rows, e)
  {
    var kept := Survivors(s.ledger, e.rows, e.statusA, e.now);
    LivenessAsks(s.ledger, e, c);
    TerminateAsks(kept, e, c);
    ConvergeAsks(kept, e, c);
  }

  lemma {:induction false} SpawnsPublish(s: State, rows: seq<Row>, e: Env, c: Call)
    ensures c in SpawnCalls(s, rows, e) ==> c.PublishServiced?
    decreases |rows|
  {
    if rows != [] { SpawnsPublish(SpawnRow(s, rows[0], e), rows[1..], e, c); }
  }

  ghost predicate Signalled(w: Worker, e: Env) {
    if IsEnabled(e.rows, w.dbOid) then e.statusA(w.handle) != Stopped && DueRestart(w, e)
    else e.statusA(w.handle) == Started
  }

  /** Which workers a cycle signals: the started ones of databases that are not enabled, and
      of the enabled ones those whose generation has moved with no restart in flight. */
  lemma CycleSignals(s: State, e: Env, h: nat)
    ensures TerminateWorker(h) in CycleCalls(s, e) <==> exists w :: w in s.ledger && w.handle == h && Signalled(w, e)
  {
    if TerminateWorker(h) in CycleCalls(s, e) { var w := SignalledWhy(s, e, h); }
    if w :| w in s.ledger && w.handle == h && Signalled(w, e) { SignalledThen(s, e, w); }
  }

  /** In particular a worker that serves its database's generation is left alone. */
  lemma SettledIsNotSignalled(s: State, e: Env, w: Worker, g: int)
    requires Unique(s.ledger) && Owns(s) && w in s.ledger
    requires EnabledAs(e.rows, w.dbOid, g) && w.restart.serviced == g && !w.restart.restarting
    ensures TerminateWorker(w.handle) !in CycleCalls(s, e)
  {
    CycleSignals(s, e, w.handle);
    EnabledIs(e.rows, w.dbOid);
    forall v | v in s.ledger && v.handle == w.handle ensures v == w { SameHandle(s, v, w); }
  }

  lemma SameHandle(s: State, v: Worker, w: Worker)
    requires Unique(s.ledger) && Owns(s) && v in s.ledger && w in s.ledger && v.handle == w.handle
    ensures v == w
  {
    var i :| 0 <= i < |s.ledger| && s.ledger[i] == v;
    var j :| 0 <= j < |s.ledger| && s.ledger[j] == w;
    assert s.handles[v.handle] == v.dbOid && s.handles[w.handle] == w.dbOid;
    OneEntry(s.ledger, v, w);
  }

  lemma SignalledWhy(s: State, e: Env, h: nat) returns (w: Worker)
    requires TerminateWorker(h) in CycleCalls(s, e)
    ensures w in s.ledger && w.handle == h && Signalled(w, e)
  {
    var x := AskedWhy(s, e, h);
    SurvivorsAre(s.ledger, e, x);
    w :| w in s.ledger && Stays(w, e) && x == w.(startedTime := StartedAt(w, e));
    ConvergeIs(x, e, TerminateWorker(h));
    DueIsEnabled(w, e);
  }

  lemma DueIsEnabled(w: Worker, e: Env)
    ensures DueRestart(w, e) ==> IsEnabled(e.rows, w.dbOid)
  {
    EnabledIs(e.rows, w.dbOid);
  }

  lemma AskedWhy(s: State, e: Env, h: nat) returns (x: Worker)
    requires TerminateWorker(h) in CycleCalls(s, e)
    ensures x in Survivors(s.ledger, e.rows, e.statusA, e.now) && AskedFor(x, e, TerminateWorker(h))
  {
    var c := TerminateWorker(h);
    var kept := s.(ledger := Survivors(s.ledger, e.rows, e.statusA, e.now));
    CycleAsks(s, e, c);
    SpawnsPublish(ConvergeFrom(kept, 0, e), e.rows, e, c);
    forall w | w in s.ledger ensures c !in SettleCalls(e.rows, w, e.statusA(w.handle), e.now) { SettleIs(w, e, c); }
    x :| x in kept.ledger && AskedFor(x, e, c);
  }

  /** The disable or the convergence pass asks for c on account of x. */
  ghost predicate AskedFor(x: Worker, e: Env, c: Call) {
    || (c == TerminateWorker(x.handle) && e.statusA(x.handle) == Started && !IsEnabled(e.rows, x.dbOid))
    || c in ConvergeCalls(x, e)
  }

  lemma SignalledThen(s: State, e: Env, w: Worker)
    requires w in s.ledger && Signalled(w, e)
    ensures TerminateWorker(w.handle) in CycleCalls(s, e)
  {
    var c, x := TerminateWorker(w.handle), w.(startedTime := StartedAt(w, e));
    CycleAsks(s, e, c);
    SurvivorsAre(s.ledger, e, x);
    ConvergeIs(x, e, c);
  }

  /* ---- what becomes of each entry ---- */

  /** Where a cycle leaves the restart of an entry that is not replaced: a moved generation
      opens a drain towards it, a drain first seen waiting notes the time, and otherwise
      nothing changes. */
  ghost predicate RestartMoves(r: RestartState, r': RestartState, g: int, st: Status, now: int) {
    if !r.restarting && r.serviced != g then r' == RestartState(true, r.serviced, g, 0)
    else if r.restarting && st != Stopped then
      r' == RestartState(true, r.serviced, r.target, if r.waitStarted == 0 then now else r.waitStarted)
    else r' == r
  }

  /** An entry of an enabled database whose worker has not crashed is there after the cycle:
      under a new handle, not yet started and serving the generation it was drained for, if
      its drain has ended and a worker could be registered; else under its old handle, with
      the time it was first seen started. */
  lemma EntryAfterCycle(s: State, e: Env, w: Worker, g: int) returns (w': Worker)
    requires Unique(s.ledger) && w in s.ledger && EnabledAs(e.rows, w.dbOid, g) && Stays(w, e)
    ensures w' in Cycle(s, e).ledger && w'.dbOid == w.dbOid
    ensures if w.restart.restarting && e.statusB(w.handle) == Stopped && e.registers(w.dbOid) then
              && w'.handle >= |s.handles| && w'.startedTime == 0
              && w'.restart == RestartState(false, w.restart.target, w.restart.target, 0)
            else
              && w'.handle == w.handle && w'.startedTime == StartedAt(w, e)
              && RestartMoves(w.restart, w'.restart, g, e.statusB(w.handle), e.now)
  {
    var kept := s.(ledger := Survivors(s.ledger, e.rows, e.statusA, e.now));
    var x := w.(startedTime := StartedAt(w, e));
    EnabledIs(e.rows, w.dbOid);
    SurvivorsAre(s.ledger, e, x);
    SurvivorsUnique(s.ledger, e.rows, e.statusA, e.now);
    var k :| 0 <= k < |kept.ledger| && kept.ledger[k] == x;
    w' := EntryConverges(kept, 0, k, e, g);
    SpawnSpares(ConvergeFrom(kept, 0, e), e.rows, e, w');
  }

  lemma {:induction false} EntryConverges(s: State, i: nat, k: nat, e: Env, g: int) returns (w': Worker)
    requires Unique(s.ledger) && i <= k < |s.ledger|
    requires FindEnabled(e.rows, s.ledger[k].dbOid).Some?
    requires FindEnabled(e.rows, s.ledger[k].dbOid).value.restartGeneration == g
    ensures w' in ConvergeFrom(s, i, e).ledger && w'.dbOid == s.ledger[k].dbOid
    ensures var w := s.ledger[k];
      if w.restart.restarting && e.statusB(w.handle) == Stopped && e.registers(w.dbOid) then
        && w'.handle >= |s.handles| && w'.startedTime == 0
        && w'.restart == RestartState(false, w.restart.target, w.restart.target, 0)
      else
        && w'.handle == w.handle && w'.startedTime == w.startedTime
        && RestartMoves(w.restart, w'.restart, g, e.statusB(w.handle), e.now)
    decreases |s.ledger| - i
  {
    ConvergeAtUnique(s, i, e);
    if i == k {
      var r := ConvergeAt(s, k, e);
      w' := r.ledger[k];
      ConvergeBehind(r, k + 1, k, e);
      assert ConvergeFrom(r, k + 1, e).ledger[k] == w';
    } else {
      ConvergeAtOther(s, i, k, e);
      w' := EntryConverges(ConvergeAt(s, i, e), i + 1, k, e, g);
    }
  }

  /* ---- spawning ---- */

  /** A fresh entry: a new handle, not yet started, serving the generation of a row that
      enables its database. */
  ghost predicate FreshFor(x: Worker, row: Row, handles: nat) {
    && row.enabled && x.dbOid == row.dbOid && x.handle >= handles && x.startedTime == 0
    && x.restart == RestartState(false, row.restartGeneration, row.restartGeneration, 0)
  }

  ghost predicate MaySpawn(s: State, row: Row, e: Env) {
    && row.enabled && (forall w :: w in s.ledger ==> w.dbOid != row.dbOid)
    && e.spawnable(row.dbOid) && e.registers(row.dbOid)
  }

  /** The spawn pass keeps every entry, adds none but fresh ones for databases that had none,
      and adds one for every database that may have one. */
  lemma {:induction false} SpawnedAre(s: State, rows: seq<Row>, e: Env)
    ensures var r := SpawnAll(s, rows, e);
      && (forall w :: w in s.ledger ==> w in r.ledger)
      && (forall x :: x in r.ledger && x !in s.ledger ==> SpawnedFor(s, rows, e, x))
      && (forall row :: row in rows && MaySpawn(s, row, e) ==> Tracks(r.ledger, row.dbOid))
    decreases |rows|
  {
    if rows != [] {
      var s1 := SpawnRow(s, rows[0], e);
      var r := SpawnAll(s1, rows[1..], e);
      SpawnedAre(s1, rows[1..], e);
      forall x | x in r.ledger && x !in s.ledger ensures SpawnedFor(s, rows, e, x) {
        if x in s1.ledger {
          assert FreshFor(x, rows[0], |s.handles|) && rows[0] in rows;
        } else {
          var row :| row in rows[1..] && FreshFor(x, row, |s1.handles|) && MaySpawn(s1, row, e);
          assert row in rows && MaySpawn(s, row, e);
        }
      }
      forall row | row in rows && MaySpawn(s, row, e) ensures Tracks(r.ledger, row.dbOid) {
        if Tracks(s1.ledger, row.dbOid) {
          var w :| w in s1.ledger && w.dbOid == row.dbOid;
          assert w in r.ledger;
        } else {
          assert row in rows[1..] && MaySpawn(s1, row, e);
        }
      }
    }
  }

  /** The generation published for a spawned worker is the one its entry serves, and nothing
      is published for any other. */
  lemma {:induction false} SpawnPublishes(s: State, rows: seq<Row>, e: Env, db: nat, g: int)
    ensures PublishServiced(db, g) in SpawnCalls(s, rows, e) <==>
      exists x :: x in SpawnAll(s, rows, e).ledger && x !in s.ledger && x.dbOid == db && x.restart.serviced == g
    decreases |rows|
  {
    if rows != [] {
      var s1 := SpawnRow(s, rows[0], e);
      var r := SpawnAll(s1, rows[1..], e);
      SpawnPublishes(s1, rows[1..], e, db, g);
      SpawnedAre(s1, rows[1..], e);
      if Spawns(s, rows[0], e) {
        var x := s1.ledger[|s.ledger|];
        assert x in s1.ledger && x in r.ledger && x !in s.ledger;
        assert forall y :: y in s1.ledger <==> y in s.ledger || y == x;
      }
    }
  }

  /** An entry of a database that is not enabled waits for its worker to stop. */
  lemma DisabledEntryWaits(s: State, e: Env, w: Worker)
    requires Unique(s.ledger) && w in s.ledger && !IsEnabled(e.rows, w.dbOid) && e.statusA(w.handle) != Stopped
    ensures w.(startedTime := StartedAt(w, e)) in Cycle(s, e).ledger
  {
    var kept := s.(ledger := Survivors(s.ledger, e.rows, e.statusA, e.now));
    var x := w.(startedTime := StartedAt(w, e));
    EnabledIs(e.rows, w.dbOid);
    SurvivorsAre(s.ledger, e, x);
    SurvivorsUnique(s.ledger, e.rows, e.statusA, e.now);
    var k :| 0 <= k < |kept.ledger| && kept.ledger[k] == x;
    DisabledConverges(kept, 0, k, e);
    SpawnSpares(ConvergeFrom(kept, 0, e), e.rows, e, x);
  }

  lemma {:induction false} DisabledConverges(s: State, i: nat, k: nat, e: Env)
    requires Unique(s.ledger) && i <= k < |s.ledger| && FindEnabled(e.rows, s.ledger[k].dbOid).None?
    ensures s.ledger[k] in ConvergeFrom(s, i, e).ledger
    decreases |s.ledger| - i
  {
    ConvergeAtUnique(s, i, e);
    if i == k {
      ConvergeBehind(ConvergeAt(s, k, e), k + 1, k, e);
      assert ConvergeFrom(ConvergeAt(s, k, e), k + 1, e).ledger[k] == s.ledger[k];
    } else {
      ConvergeAtOther(s, i, k, e);
      DisabledConverges(ConvergeAt(s, i, e), i + 1, k, e);
    }
  }

  ghost predicate SpawnedFor(s: State, rows: seq<Row>, e: Env, x: Worker) {
    exists row :: row in rows && FreshFor(x, row, |s.handles|) && MaySpawn(s, row, e)
  }
}
