/** The launcher's reconcile cycle over its worker ledger: liveness, restart convergence
    and spawning, as values. */
module Launcher {
  import opened Common

  const DWELL_RESET_MS: int := 10000

  datatype Status = Started | NotYetStarted | Stopped | PostmasterDied

  datatype Row = Row(dbOid: nat, enabled: bool, restartGeneration: int)

  datatype RestartState = RestartState(restarting: bool, serviced: int, target: int, waitStarted: int)

  /** One tracked worker; handles are numbered in order of registration. */
  datatype Worker = Worker(dbOid: nat, handle: nat, startedTime: int, restart: RestartState)

  datatype Action = Noop | Terminate | Wait | WaitTimeout | Respawn

  datatype StopReason = StopRemoved | StopDisabled | StopRestartDrain | StopCrash

  /** The ledger, and the database each handle ever registered was for. */
  datatype State = State(ledger: seq<Worker>, handles: seq<nat>)

  /** What one cycle reads from outside: the table, the clock in microseconds, the handle
      statuses as the liveness and the convergence pass see them, which databases can
      register a worker now, and which may be spawned at all. */
  datatype Env = Env(
    rows: seq<Row>, now: int, stopTimeoutMs: int,
    statusA: nat -> Status, statusB: nat -> Status,
    registers: nat -> bool, spawnable: nat -> bool)

  /* ---- look-ups ---- */

  function FindRow(rows: seq<Row>, db: nat): (r: Option<Row>)
    ensures r.Some? ==> r.value in rows && r.value.dbOid == db
    ensures r.None? <==> forall x :: x in rows ==> x.dbOid != db
  {
    if rows == [] then None else if rows[0].dbOid == db then Some(rows[0]) else FindRow(rows[1..], db)
  }

  function FindEnabled(rows: seq<Row>, db: nat): Option<Row> {
    var r := FindRow(rows, db);
    if r.Some? && r.value.enabled then r else None
  }

  predicate Tracks(ledger: seq<Worker>, db: nat) { exists w :: w in ledger && w.dbOid == db }

  /** Why a worker's handle stopped. Leaving the enabled set outranks a restart in flight. */
  function Classify(rows: seq<Row>, w: Worker): (r: StopReason)
    ensures (r == StopRestartDrain || r == StopCrash) <==> FindEnabled(rows, w.dbOid).Some?
    ensures r == StopRemoved <==> forall x :: x in rows ==> x.dbOid != w.dbOid
  {
    var row := FindRow(rows, w.dbOid);
    if row.None? then StopRemoved
    else if !row.value.enabled then StopDisabled
    else if w.restart.restarting then StopRestartDrain
    else StopCrash
  }

  /* ---- the liveness pass ---- */

  /** A stopped entry stays only when a restart in flight is to respawn it. */
  predicate Keeps(rows: seq<Row>, w: Worker, st: Status) {
    st != Stopped || Classify(rows, w) == StopRestartDrain
  }

  function Stamped(w: Worker, st: Status, now: int): Worker {
    if st == Started && w.startedTime == 0 then w.(startedTime := now) else w
  }

  function Survivors(ws: seq<Worker>, rows: seq<Row>, st: nat -> Status, now: int): seq<Worker> {
    if ws == [] then []
    else
      (if Keeps(rows, ws[0], st(ws[0].handle)) then [Stamped(ws[0], st(ws[0].handle), now)] else [])
      + Survivors(ws[1..], rows, st, now)
  }

  /** What settling one entry asks of shared memory. */
  datatype Call =
    | BackoffClear(dbOid: nat)
    | DropQueuedSlots(dbOid: nat)
    | ReleaseSlot(dbOid: nat)
    | RecordDeath(dbOid: nat, recovered: bool)
    | ClearDeadEntry(dbOid: nat)
    | ClearHeartbeat(dbOid: nat)
    | TerminateWorker(handle: nat)
    | WarnNotStopped(dbOid: nat)
    | PublishServiced(dbOid: nat, generation: int)

  function SettleCalls(rows: seq<Row>, w: Worker, st: Status, now: int): seq<Call> {
    if st != Stopped then []
    else match Classify(rows, w)
      case StopRestartDrain => [ClearHeartbeat(w.dbOid)]
      case StopDisabled => [BackoffClear(w.dbOid)]
      case StopRemoved => [BackoffClear(w.dbOid), DropQueuedSlots(w.dbOid), ReleaseSlot(w.dbOid)]
      case StopCrash =>
        [RecordDeath(w.dbOid, w.startedTime != 0 && ElapsedMs(w.startedTime, now) >= DWELL_RESET_MS),
         ClearDeadEntry(w.dbOid)]
  }

  function LivenessCalls(ws: seq<Worker>, rows: seq<Row>, st: nat -> Status, now: int): seq<Call> {
    if ws == [] then []
    else SettleCalls(rows, ws[0], st(ws[0].handle), now) + LivenessCalls(ws[1..], rows, st, now)
  }

  /** Whole milliseconds from one microsecond timestamp to a later one, never negative
      and rounded up. */
  function ElapsedMs(start: int, stop: int): int { if stop <= start then 0 else (stop - start + 999) / 1000 }

  /** A timestamp difference of at least so many milliseconds. */
  predicate Exceeds(start: int, stop: int, ms: int) { stop - start >= ms * 1000 }

  /* ---- restart convergence ---- */

  function Advanced(s: RestartState, generation: int, st: Status, now: int): RestartState {
    if !s.restarting && s.serviced != generation then RestartState(true, s.serviced, generation, 0)
    else if s.restarting && st != Stopped && s.waitStarted == 0 then s.(waitStarted := now)
    else s
  }

  function ActionFor(s: RestartState, generation: int, st: Status, now: int, timeoutMs: int): Action {
    if !s.restarting then (if s.serviced == generation then Noop else Terminate)
    else if st == Stopped then Respawn
    else if Exceeds(Advanced(s, generation, st, now).waitStarted, now, timeoutMs) then WaitTimeout
    else Wait
  }

  function Respawned(w: Worker, handle: nat): Worker {
    Worker(w.dbOid, handle, 0, RestartState(false, w.restart.target, w.restart.target, 0))
  }

  function ConvergeAt(s: State, i: nat, e: Env): (r: State)
    requires i < |s.ledger|
    ensures |r.ledger| == |s.ledger|
  {
    var w := s.ledger[i];
    var row := FindEnabled(e.rows, w.dbOid);
    if row.None? then s
    else
      var g, st := row.value.restartGeneration, e.statusB(w.handle);
      if ActionFor(w.restart, g, st, e.now, e.stopTimeoutMs) == Respawn && e.registers(w.dbOid) then
        State(s.ledger[i := Respawned(w, |s.handles|)], s.handles + [w.dbOid])
      else
        s.(ledger := s.ledger[i := w.(restart := Advanced(w.restart, g, st, e.now))])
  }

  function ConvergeFrom(s: State, i: nat, e: Env): State
    requires i <= |s.ledger|
    decreases |s.ledger| - i
  {
    if i == |s.ledger| then s else ConvergeFrom(ConvergeAt(s, i, e), i + 1, e)
  }

  /* ---- spawning ---- */

  function SpawnRow(s: State, row: Row, e: Env): State {
    if row.enabled && !Tracks(s.ledger, row.dbOid) && e.spawnable(row.dbOid) && e.registers(row.dbOid) then
      State(
        s.ledger + [Worker(row.dbOid, |s.handles|, 0,
                           RestartState(false, row.restartGeneration, row.restartGeneration, 0))],
        s.handles + [row.dbOid])
    else s
  }

  function SpawnAll(s: State, rows: seq<Row>, e: Env): State
    decreases |rows|
  {
    if rows == [] then s else SpawnAll(SpawnRow(s, rows[0], e), rows[1..], e)
  }

  function Cycle(s: State, e: Env): State {
    var kept := s.(ledger := Survivors(s.ledger, e.rows, e.statusA, e.now));
    SpawnAll(ConvergeFrom(kept, 0, e), e.rows, e)
  }

  /* ---- single ownership ---- */

  predicate Unique(ws: seq<Worker>) { forall i, j :: 0 <= i < j < |ws| ==> ws[i].dbOid != ws[j].dbOid }

  predicate Owns(s: State) {
    forall i :: 0 <= i < |s.ledger| ==> s.ledger[i].handle < |s.handles| && s.handles[s.ledger[i].handle] == s.ledger[i].dbOid
  }

  predicate Held(ws: seq<Worker>, h: nat) { exists i :: 0 <= i < |ws| && ws[i].handle == h }

  /** At most one entry per database, each with a handle of its own database, and every
      handle that has not stopped is in the ledger. */
  ghost predicate Inv(s: State, st: nat -> Status) {
    && Unique(s.ledger) && Owns(s)
    && forall h: nat :: h < |s.handles| ==> st(h) == Stopped || Held(s.ledger, h)
  }

  /** A stopped handle never comes back. */
  ghost predicate Later(s: State, a: nat -> Status, b: nat -> Status) {
    forall h: nat :: h < |s.handles| && a(h) == Stopped ==> b(h) == Stopped
  }

  /** No database ever has two workers that have not stopped. */
  lemma OneLiveWorker(s: State, st: nat -> Status, g: nat, h: nat)
    requires Inv(s, st) && g < |s.handles| && h < |s.handles| && s.handles[g] == s.handles[h]
    requires st(g) != Stopped && st(h) != Stopped
    ensures g == h
  {
    var i :| 0 <= i < |s.ledger| && s.ledger[i].handle == g;
    var j :| 0 <= j < |s.ledger| && s.ledger[j].handle == h;
    assert s.ledger[i].dbOid == s.ledger[j].dbOid;
  }

  /** A handle the liveness pass sees stopped is dropped, or kept for the convergence pass
      to respawn: exactly one of the two. */
  lemma StoppedHasOneOwner(e: Env, w: Worker)
    ensures var row := FindEnabled(e.rows, w.dbOid);
      Keeps(e.rows, w, Stopped)
      <==> row.Some? && ActionFor(w.restart, row.value.restartGeneration, Stopped, e.now, e.stopTimeoutMs) == Respawn
    ensures var calls := SettleCalls(e.rows, w, Stopped, e.now);
      && (Keeps(e.rows, w, Stopped) <==> calls == [ClearHeartbeat(w.dbOid)])
      && (ReleaseSlot(w.dbOid) in calls <==> FindRow(e.rows, w.dbOid).None?)
      && ((exists r :: RecordDeath(w.dbOid, r) in calls) <==>
          FindEnabled(e.rows, w.dbOid).Some? && !w.restart.restarting)
  {
    var calls := SettleCalls(e.rows, w, Stopped, e.now);
    if Classify(e.rows, w) == StopCrash {
      assert RecordDeath(w.dbOid, calls[0].recovered) in calls;
    }
  }

  lemma {:induction false} SurvivorsFrom(ws: seq<Worker>, rows: seq<Row>, st: nat -> Status, now: int)
    ensures forall x :: x in Survivors(ws, rows, st, now) ==>
              exists w :: w in ws && x.dbOid == w.dbOid && x.handle == w.handle && Keeps(rows, w, st(w.handle))
  {
    if ws != [] {
      SurvivorsFrom(ws[1..], rows, st, now);
      forall x | x in Survivors(ws, rows, st, now)
        ensures exists w :: w in ws && x.dbOid == w.dbOid && x.handle == w.handle && Keeps(rows, w, st(w.handle))
      {
        if x in Survivors(ws[1..], rows, st, now) {
          var w :| w in ws[1..] && x.dbOid == w.dbOid && x.handle == w.handle && Keeps(rows, w, st(w.handle));
          assert w in ws;
        } else {
          assert ws[0] in ws;
        }
      }
    }
  }

  lemma {:induction false} SurvivorsUnique(ws: seq<Worker>, rows: seq<Row>, st: nat -> Status, now: int)
    requires Unique(ws)
    ensures Unique(Survivors(ws, rows, st, now))
  {
    if ws != [] {
      SurvivorsUnique(ws[1..], rows, st, now);
      SurvivorsFrom(ws[1..], rows, st, now);
    }
  }

  lemma {:induction false} SurvivorsHold(ws: seq<Worker>, rows: seq<Row>, st: nat -> Status, now: int, h: nat)
    requires Held(ws, h) && st(h) != Stopped
    ensures Held(Survivors(ws, rows, st, now), h)
  {
    var rest := Survivors(ws[1..], rows, st, now);
    if ws[0].handle == h {
      assert Survivors(ws, rows, st, now)[0].handle == h;
    } else {
      var i :| 0 <= i < |ws| && ws[i].handle == h;
      assert ws[1..][i - 1].handle == h;
      SurvivorsHold(ws[1..], rows, st, now, h);
      var j :| 0 <= j < |rest| && rest[j].handle == h;
      var all := Survivors(ws, rows, st, now);
      assert all[|all| - |rest| + j] == rest[j];
    }
  }

  lemma LivenessKeeps(s: State, e: Env)
    requires Inv(s, e.statusA)
    ensures Inv(s.(ledger := Survivors(s.ledger, e.rows, e.statusA, e.now)), e.statusA)
  {
    var kept := Survivors(s.ledger, e.rows, e.statusA, e.now);
    SurvivorsUnique(s.ledger, e.rows, e.statusA, e.now);
    SurvivorsFrom(s.ledger, e.rows, e.statusA, e.now);
    forall i | 0 <= i < |kept| ensures kept[i].handle < |s.handles| && s.handles[kept[i].handle] == kept[i].dbOid {
      assert kept[i] in kept;
    }
    forall h: nat | h < |s.handles| && e.statusA(h) != Stopped ensures Held(kept, h) {
      SurvivorsHold(s.ledger, e.rows, e.statusA, e.now, h);
    }
  }

  lemma ConvergeAtKeeps(s: State, i: nat, e: Env)
    requires Inv(s, e.statusB) && i < |s.ledger|
    ensures Inv(ConvergeAt(s, i, e), e.statusB)
  {
    var r := ConvergeAt(s, i, e);
    forall h: nat | h < |r.handles| && e.statusB(h) != Stopped ensures Held(r.ledger, h) {
      if h == |s.handles| {
        assert r.ledger[i].handle == h;
      } else {
        assert Held(s.ledger, h);
        var k :| 0 <= k < |s.ledger| && s.ledger[k].handle == h;
        assert r.ledger[k].handle == h;
      }
    }
  }

  lemma {:induction false} ConvergeKeeps(s: State, i: nat, e: Env)
    requires Inv(s, e.statusB) && i <= |s.ledger|
    ensures Inv(ConvergeFrom(s, i, e), e.statusB)
    decreases |s.ledger| - i
  {
    if i < |s.ledger| {
      ConvergeAtKeeps(s, i, e);
      ConvergeKeeps(ConvergeAt(s, i, e), i + 1, e);
    }
  }

  lemma SpawnRowKeeps(s: State, row: Row, e: Env)
    requires Inv(s, e.statusB)
    ensures Inv(SpawnRow(s, row, e), e.statusB)
  {
    var r := SpawnRow(s, row, e);
    forall h: nat | h < |r.handles| && e.statusB(h) != Stopped ensures Held(r.ledger, h) {
      if h == |s.handles| {
        assert r.ledger[|s.ledger|].handle == h;
      } else {
        assert Held(s.ledger, h);
        var k :| 0 <= k < |s.ledger| && s.ledger[k].handle == h;
        assert r.ledger[k].handle == h;
      }
    }
    if r != s {
      forall i | 0 <= i < |s.ledger| ensures s.ledger[i].dbOid != row.dbOid {
        assert s.ledger[i] in s.ledger;
      }
    }
  }

  lemma {:induction false} SpawnKeeps(s: State, rows: seq<Row>, e: Env)
    requires Inv(s, e.statusB)
    ensures Inv(SpawnAll(s, rows, e), e.statusB)
    decreases |rows|
  {
    if rows != [] {
      SpawnRowKeeps(s, rows[0], e);
      SpawnKeeps(SpawnRow(s, rows[0], e), rows[1..], e);
    }
  }

  /** Every cycle keeps the ledger in order. */
  lemma CycleKeeps(s: State, e: Env)
    requires Inv(s, e.statusA) && Later(s, e.statusA, e.statusB)
    ensures Inv(Cycle(s, e), e.statusB)
  {
    LivenessKeeps(s, e);
    var kept := s.(ledger := Survivors(s.ledger, e.rows, e.statusA, e.now));
    ConvergeKeeps(kept, 0, e);
    SpawnKeeps(ConvergeFrom(kept, 0, e), e.rows, e);
  }

  function Run(s: State, es: seq<Env>): State
    decreases |es|
  {
    if es == [] then s else Run(Cycle(s, es[0]), es[1..])
  }

  /** Stopped handles stay stopped from each look to the next, all along the run. */
  ghost predicate Steady(s: State, st: nat -> Status, es: seq<Env>)
    decreases |es|
  {
    es == [] ||
    (Later(s, st, es[0].statusA) && Later(s, es[0].statusA, es[0].statusB)
     && Steady(Cycle(s, es[0]), es[0].statusB, es[1..]))
  }

  function LastStatus(st: nat -> Status, es: seq<Env>): nat -> Status {
    if es == [] then st else es[|es| - 1].statusB
  }

  /** From an empty ledger, over any run of cycles, no database ever has two workers of
      this launcher that have not stopped, and the ledger never lists one twice. */
  lemma {:induction false} RunKeeps(s: State, st: nat -> Status, es: seq<Env>)
    requires Inv(s, st) && Steady(s, st, es)
    ensures Inv(Run(s, es), LastStatus(st, es))
    decreases |es|
  {
    if es != [] {
      CycleKeeps(s, es[0]);
      RunKeeps(Cycle(s, es[0]), es[0].statusB, es[1..]);
    }
  }
}
