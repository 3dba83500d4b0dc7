/** The launcher's passes as they run: loops over the ledger that delete, update and
    append entries in place. */
module LauncherLoop {
  import opened Common
  import opened Launcher

  /* ---- what the passes ask of the postmaster and of shared memory ---- */

  function TerminateCalls(ws: seq<Worker>, e: Env): seq<Call> {
    if ws == [] then []
    else
      (if FindEnabled(e.rows, ws[0].dbOid).None? && e.statusA(ws[0].handle) == Started
       then [TerminateWorker(ws[0].handle)] else [])
      + TerminateCalls(ws[1..], e)
  }

  function ConvergeCalls(w: Worker, e: Env): seq<Call> {
    var row := FindEnabled(e.rows, w.dbOid);
    if row.None? then []
    else match ActionFor(w.restart, row.value.restartGeneration, e.statusB(w.handle), e.now, e.stopTimeoutMs)
      case Noop => []
      case Wait => []
      case Terminate => [TerminateWorker(w.handle)]
      case WaitTimeout => [WarnNotStopped(w.dbOid)]
      case Respawn => if e.registers(w.dbOid) then [PublishServiced(w.dbOid, w.restart.target)] else []
  }

  function AllConvergeCalls(ws: seq<Worker>, e: Env): seq<Call> {
    if ws == [] then [] else ConvergeCalls(ws[0], e) + AllConvergeCalls(ws[1..], e)
  }

  predicate Spawns(s: State, row: Row, e: Env) {
    row.enabled && !Tracks(s.ledger, row.dbOid) && e.spawnable(row.dbOid) && e.registers(row.dbOid)
  }

  function SpawnCalls(s: State, rows: seq<Row>, e: Env): seq<Call>
    decreases |rows|
  {
    if rows == [] then []
    else
      (if Spawns(s, rows[0], e) then [PublishServiced(rows[0].dbOid, rows[0].restartGeneration)] else [])
      + SpawnCalls(SpawnRow(s, rows[0], e), rows[1..], e)
  }

  /** Everything one cycle asks for, in order. */
  function CycleCalls(s: State, e: Env): seq<Call> {
    var kept := s.(ledger := Survivors(s.ledger, e.rows, e.statusA, e.now));
    LivenessCalls(s.ledger, e.rows, e.statusA, e.now) + TerminateCalls(kept.ledger, e)
    + AllConvergeCalls(kept.ledger, e) + SpawnCalls(ConvergeFrom(kept, 0, e), e.rows, e)
  }

  /* ---- how far a pass has come ---- */

  ghost predicate SpawnAt(s: State, i: nat, calls: seq<Call>, s0: State, before: seq<Call>, e: Env) {
    && i <= |e.rows| && SpawnAll(s, e.rows[i..], e) == SpawnAll(s0, e.rows, e)
    && calls + SpawnCalls(s, e.rows[i..], e) == before + SpawnCalls(s0, e.rows, e)
  }

  lemma SpawnStep(s: State, i: nat, calls: seq<Call>, s0: State, before: seq<Call>, e: Env)
    requires i < |e.rows| && SpawnAt(s, i, calls, s0, before, e)
    ensures var row := e.rows[i];
      SpawnAt(SpawnRow(s, row, e), i + 1,
              calls + if Spawns(s, row, e) then [PublishServiced(row.dbOid, row.restartGeneration)] else [], s0, before, e)
  {
    var row, rest := e.rows[i], e.rows[i..];
    assert rest[0] == row && rest[1..] == e.rows[i + 1..];
    var asks, later := if Spawns(s, row, e) then [PublishServiced(row.dbOid, row.restartGeneration)] else [],
                       SpawnCalls(SpawnRow(s, row, e), rest[1..], e);
    assert calls + (asks + later) == (calls + asks) + later;
  }

  function KeptOf(w: Worker, e: Env): seq<Worker> {
    if Keeps(e.rows, w, e.statusA(w.handle)) then [Stamped(w, e.statusA(w.handle), e.now)] else []
  }

  ghost predicate LivenessAt(front: seq<Worker>, rest: seq<Worker>, calls: seq<Call>,
                             was: seq<Worker>, before: seq<Call>, e: Env)
  {
    && front + Survivors(rest, e.rows, e.statusA, e.now) == Survivors(was, e.rows, e.statusA, e.now)
    && calls + LivenessCalls(rest, e.rows, e.statusA, e.now)
       == before + LivenessCalls(was, e.rows, e.statusA, e.now)
  }

  lemma LivenessStep(front: seq<Worker>, rest: seq<Worker>, calls: seq<Call>,
                     was: seq<Worker>, before: seq<Call>, e: Env)
    requires rest != [] && LivenessAt(front, rest, calls, was, before, e)
    ensures LivenessAt(front + KeptOf(rest[0], e), rest[1..],
                       calls + SettleCalls(e.rows, rest[0], e.statusA(rest[0].handle), e.now), was, before, e)
  {
    var w, more := rest[0], rest[1..];
    var later := Survivors(more, e.rows, e.statusA, e.now);
    assert front + (KeptOf(w, e) + later) == (front + KeptOf(w, e)) + later;
    var asks, after := SettleCalls(e.rows, w, e.statusA(w.handle), e.now), LivenessCalls(more, e.rows, e.statusA, e.now);
    assert calls + (asks + after) == (calls + asks) + after;
  }

  ghost predicate ConvergeState(s: State, i: nat, calls: seq<Call>, s0: State, before: seq<Call>, e: Env) {
    && i <= |s.ledger| == |s0.ledger|
    && ConvergeFrom(s, i, e) == ConvergeFrom(s0, 0, e)
    && calls + AllConvergeCalls(s.ledger[i..], e) == before + AllConvergeCalls(s0.ledger, e)
  }

  lemma ConvergeStep(s: State, i: nat, calls: seq<Call>, s0: State, before: seq<Call>, e: Env)
    requires ConvergeState(s, i, calls, s0, before, e) && i < |s.ledger|
    ensures ConvergeState(ConvergeAt(s, i, e), i + 1, calls + ConvergeCalls(s.ledger[i], e), s0, before, e)
  {
    var rest, asks := s.ledger[i..], ConvergeCalls(s.ledger[i], e);
    assert rest[0] == s.ledger[i] && rest[1..] == s.ledger[i + 1..] == ConvergeAt(s, i, e).ledger[i + 1..];
    assert calls + (asks + AllConvergeCalls(rest[1..], e)) == (calls + asks) + AllConvergeCalls(rest[1..], e);
  }

  /* ---- the restart state of one entry ---- */

  /** Advance one entry's restart state, and say what to do about it. */
  method AdvanceRestart(state: RestartState, generation: int, st: Status, now: int, timeoutMs: int)
    returns (state': RestartState, action: Action)
    ensures state' == Advanced(state, generation, st, now)
    ensures action == ActionFor(state, generation, st, now, timeoutMs)
  {
    state' := state;
    if !state'.restarting && state'.serviced == generation { return state', Noop; }
    if !state'.restarting && state'.serviced != generation {
      state' := state'.(restarting := true, target := generation, waitStarted := 0);
      return state', Terminate;
    }
    if state'.restarting && st != Stopped {
      if state'.waitStarted == 0 { state' := state'.(waitStarted := now); }
      if Exceeds(state'.waitStarted, now, timeoutMs) { return state', WaitTimeout; }
      return state', Wait;
    }
    action := Respawn;
  }

  class Loop {
    var ledger: seq<Worker>
    var handles: seq<nat>
    var calls: seq<Call>

    ghost function View(): State
      reads this
    {
      State(ledger, handles)
    }

    constructor ()
      ensures View() == State([], []) && calls == []
    {
      ledger, handles, calls := [], [], [];
    }

    method FindLedgerEntry(dbOid: nat) returns (found: bool)
      ensures found <==> Tracks(ledger, dbOid)
    {
      for i := 0 to |ledger|
        invariant forall j :: 0 <= j < i ==> ledger[j].dbOid != dbOid
      {
        if ledger[i].dbOid == dbOid { return true; }
      }
      found := false;
    }

    /** Register a worker for a database; None when there is no slot or no process left. */
    method Register(dbOid: nat, e: Env) returns (handle: Option<nat>)
      modifies this`handles
      ensures handle == if e.registers(dbOid) then Some(|old(handles)|) else None
      ensures handles == if e.registers(dbOid) then old(handles) + [dbOid] else old(handles)
    {
      if !e.registers(dbOid) { return None; }
      handle := Some(|handles|);
      handles := handles + [dbOid];
    }

    /** Account for one stopped entry; true if it leaves the ledger. */
    method SettleStopped(w: Worker, e: Env) returns (drop: bool)
      requires e.statusA(w.handle) == Stopped
      modifies this`calls
      ensures drop <==> !Keeps(e.rows, w, Stopped)
      ensures calls == old(calls) + SettleCalls(e.rows, w, Stopped, e.now)
    {
      drop := true;
      match Classify(e.rows, w)
      case StopRestartDrain =>
        calls := calls + [ClearHeartbeat(w.dbOid)];
        drop := false;
      case StopDisabled =>
        calls := calls + [BackoffClear(w.dbOid)];
      case StopRemoved =>
        calls := calls + [BackoffClear(w.dbOid), DropQueuedSlots(w.dbOid), ReleaseSlot(w.dbOid)];
      case StopCrash =>
        var recovered := w.startedTime != 0 && ElapsedMs(w.startedTime, e.now) >= DWELL_RESET_MS;
        calls := calls + [RecordDeath(w.dbOid, recovered), ClearDeadEntry(w.dbOid)];
    }

    method ReconcileLiveness(e: Env)
      modifies this`ledger, this`calls
      ensures ledger == Survivors(old(ledger), e.rows, e.statusA, e.now)
      ensures calls == old(calls) + LivenessCalls(old(ledger), e.rows, e.statusA, e.now)
    {
      var i: nat := 0;
      assert ledger[..0] == [] && ledger[0..] == ledger;
      while i < |ledger|
        invariant i <= |ledger|
        invariant LivenessAt(ledger[..i], ledger[i..], calls, old(ledger), old(calls), e)
        decreases |ledger| - i
      {
        assert ledger[i..][0] == ledger[i] && ledger[i..][1..] == ledger[i + 1..];
        LivenessStep(ledger[..i], ledger[i..], calls, old(ledger), old(calls), e);
        i := SettleAt(i, ledger[i], e);
      }
      assert ledger[..i] == ledger && ledger[i..] == [];
    }

    /** Settle the entry at position i; the position to look at next. */
    method SettleAt(i: nat, w: Worker, e: Env) returns (next: nat)
      requires i < |ledger| && ledger[i] == w
      modifies this`ledger, this`calls
      ensures calls == old(calls) + SettleCalls(e.rows, w, e.statusA(w.handle), e.now)
      ensures next <= |ledger| && ledger[next..] == old(ledger[i + 1..])
      ensures ledger[..next] == old(ledger[..i]) + KeptOf(w, e)
    {
      var st := e.statusA(w.handle);
      next := i + 1;
      if st == Started && w.startedTime == 0 {
        ledger := ledger[i := w.(startedTime := e.now)];
      }
      if st != Stopped { return; }
      var drop := SettleStopped(w, e);
      if drop {
        ledger := ledger[..i] + ledger[i + 1..];
        next := i;
      }
    }

    method TerminateDisabled(e: Env)
      modifies this`calls
      ensures calls == old(calls) + TerminateCalls(ledger, e)
    {
      for i := 0 to |ledger|
        invariant calls + TerminateCalls(ledger[i..], e) == old(calls) + TerminateCalls(ledger, e)
      {
        var w := ledger[i];
        assert ledger[i..][1..] == ledger[i + 1..];
        if FindEnabled(e.rows, w.dbOid).None? && e.statusA(w.handle) == Started {
          calls := calls + [TerminateWorker(w.handle)];
        }
      }
    }

    /** Respawn a stopped worker in place; a failed registration leaves it pending. */
    method RespawnWorker(i: nat, e: Env)
      requires i < |ledger| && ledger[i].restart.restarting
      modifies this
      ensures if e.registers(old(ledger)[i].dbOid) then
                View() == State(old(ledger)[i := Respawned(old(ledger)[i], |old(handles)|)],
                                old(handles) + [old(ledger)[i].dbOid])
                && calls == old(calls) + [PublishServiced(old(ledger)[i].dbOid, old(ledger)[i].restart.target)]
              else View() == old(View()) && calls == old(calls)
    {
      var w := ledger[i];
      var handle := Register(w.dbOid, e);
      if handle.None? { return; }
      w := w.(handle := handle.value, startedTime := 0,
              restart := w.restart.(restarting := false, serviced := w.restart.target, waitStarted := 0));
      ledger := ledger[i := w];
      calls := calls + [PublishServiced(w.dbOid, w.restart.serviced)];
    }

    method ConvergeEntry(i: nat, e: Env)
      requires i < |ledger|
      modifies this
      ensures View() == ConvergeAt(old(View()), i, e)
      ensures calls == old(calls) + ConvergeCalls(old(ledger)[i], e)
    {
      var w := ledger[i];
      var row := FindEnabled(e.rows, w.dbOid);
      if row.None? { return; }
      var st := e.statusB(w.handle);
      var state', action := AdvanceRestart(w.restart, row.value.restartGeneration, st, e.now, e.stopTimeoutMs);
      ledger := ledger[i := w.(restart := state')];
      match action
      case Noop =>
      case Wait =>
      case Terminate => calls := calls + [TerminateWorker(w.handle)];
      case WaitTimeout => calls := calls + [WarnNotStopped(w.dbOid)];
      case Respawn => RespawnWorker(i, e);
    }

    method ReconcileRestarts(e: Env)
      modifies this
      ensures View() == ConvergeFrom(old(View()), 0, e)
      ensures calls == old(calls) + AllConvergeCalls(old(ledger), e)
    {
      var n := |ledger|;
      assert ledger[0..] == ledger;
      for i := 0 to n
        invariant |ledger| == n && ConvergeState(View(), i, calls, old(View()), old(calls), e)
      {
        ConvergeStep(View(), i, calls, old(View()), old(calls), e);
        ConvergeEntry(i, e);
      }
    }

    method SpawnWorker(row: Row, e: Env)
      requires row.enabled && !Tracks(ledger, row.dbOid) && e.spawnable(row.dbOid)
      modifies this
      ensures View() == SpawnRow(old(View()), row, e)
      ensures calls == old(calls) + if e.registers(row.dbOid)
                                    then [PublishServiced(row.dbOid, row.restartGeneration)] else []
    {
      var handle := Register(row.dbOid, e);
      if handle.None? { return; }
      ledger := ledger + [Worker(row.dbOid, handle.value, 0,
                                 RestartState(false, row.restartGeneration, row.restartGeneration, 0))];
      calls := calls + [PublishServiced(row.dbOid, row.restartGeneration)];
    }

    method SpawnMissing(e: Env)
      modifies this
      ensures View() == SpawnAll(old(View()), e.rows, e)
      ensures calls == old(calls) + SpawnCalls(old(View()), e.rows, e)
    {
      assert e.rows[0..] == e.rows;
      for i := 0 to |e.rows|
        invariant SpawnAt(View(), i, calls, old(View()), old(calls), e)
      {
        SpawnStep(View(), i, calls, old(View()), old(calls), e);
        var row := e.rows[i];
        if row.enabled {
          var found := FindLedgerEntry(row.dbOid);
          if !found && e.spawnable(row.dbOid) {
            SpawnWorker(row, e);
          }
        }
      }
    }

    /** One whole cycle, with everything it asks of the postmaster and of shared memory. */
    method ReconcileWorkers(e: Env)
      modifies this
      ensures View() == Cycle(old(View()), e)
      ensures calls == old(calls) + CycleCalls(old(View()), e)
    {
      ghost var kept := State(Survivors(ledger, e.rows, e.statusA, e.now), handles);
      ReconcileLiveness(e);
      TerminateDisabled(e);
      ReconcileRestarts(e);
      SpawnMissing(e);
      InOrder(old(calls), LivenessCalls(old(ledger), e.rows, e.statusA, e.now), TerminateCalls(kept.ledger, e),
              AllConvergeCalls(kept.ledger, e), SpawnCalls(ConvergeFrom(kept, 0, e), e.rows, e));
    }
  }

  lemma InOrder(before: seq<Call>, a: seq<Call>, b: seq<Call>, c: seq<Call>, d: seq<Call>)
    ensures before + a + b + c + d == before + (a + b + c + d)
  {}
}
