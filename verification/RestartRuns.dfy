/** How many respawns a restart request costs, over whole runs of the launcher. */
module RestartRuns {
  import opened Seqs
  import opened Launcher

  function Is(db: nat): nat -> int { (x: nat) => if x == db then 1 else 0 }

  /** Workers registered for a database so far. */
  function Registered(s: State, db: nat): int { Sum(s.handles, Is(db)) }

  lemma {:induction false} RegisteredSnoc(handles: seq<nat>, x: nat, db: nat)
    ensures Sum(handles + [x], Is(db)) == Sum(handles, Is(db)) + if x == db then 1 else 0
  {
    SumConcat(handles, [x], Is(db));
  }

  /* ---- what one cycle does to one entry ---- */

  predicate Respawns(w: Worker, e: Env) {
    w.restart.restarting && e.statusB(w.handle) == Stopped && e.registers(w.dbOid)
  }

  function Next(w: Worker, g: int, e: Env): RestartState {
    if Respawns(w, e) then RestartState(false, w.restart.target, w.restart.target, 0)
    else Advanced(w.restart, g, e.statusB(w.handle), e.now)
  }

  /** Stopped without having been asked to. */
  predicate Crashes(w: Worker, e: Env) { e.statusA(w.handle) == Stopped && !w.restart.restarting }

  lemma {:induction false} SurvivorsHas(ws: seq<Worker>, e: Env, w: Worker)
    requires w in ws && Keeps(e.rows, w, e.statusA(w.handle))
    ensures Stamped(w, e.statusA(w.handle), e.now) in Survivors(ws, e.rows, e.statusA, e.now)
  {
    if ws[0] != w {
      assert w in ws[1..];
      SurvivorsHas(ws[1..], e, w);
    }
  }

  lemma ConvergeAtOther(s: State, i: nat, k: nat, e: Env)
    requires Unique(s.ledger) && i < |s.ledger| && k < |s.ledger| && i != k
    ensures var r := ConvergeAt(s, i, e);
      r.ledger[k] == s.ledger[k] && Registered(r, s.ledger[k].dbOid) == Registered(s, s.ledger[k].dbOid)
  {
    RegisteredSnoc(s.handles, s.ledger[i].dbOid, s.ledger[k].dbOid);
  }

  lemma ConvergeAtSelf(s: State, k: nat, e: Env, g: int)
    requires k < |s.ledger|
    requires FindEnabled(e.rows, s.ledger[k].dbOid).Some?
    requires FindEnabled(e.rows, s.ledger[k].dbOid).value.restartGeneration == g
    ensures var r, w := ConvergeAt(s, k, e), s.ledger[k];
      && r.ledger[k].dbOid == w.dbOid && r.ledger[k].restart == Next(w, g, e)
      && Registered(r, w.dbOid) == Registered(s, w.dbOid) + if Respawns(w, e) then 1 else 0
  {
    RegisteredSnoc(s.handles, s.ledger[k].dbOid, s.ledger[k].dbOid);
  }

  lemma ConvergeAtUnique(s: State, i: nat, e: Env)
    requires Unique(s.ledger) && i < |s.ledger|
    ensures Unique(ConvergeAt(s, i, e).ledger)
  {}

  /** The pass visits each entry once: those behind it are settled. */
  lemma {:induction false} ConvergeBehind(s: State, i: nat, k: nat, e: Env)
    requires Unique(s.ledger) && k < i <= |s.ledger|
    ensures var r := ConvergeFrom(s, i, e);
      && |r.ledger| == |s.ledger| && r.ledger[k] == s.ledger[k]
      && Registered(r, s.ledger[k].dbOid) == Registered(s, s.ledger[k].dbOid)
    decreases |s.ledger| - i
  {
    if i < |s.ledger| {
      ConvergeAtOther(s, i, k, e);
      ConvergeAtUnique(s, i, e);
      ConvergeBehind(ConvergeAt(s, i, e), i + 1, k, e);
    }
  }

  lemma {:induction false} ConvergeAhead(s: State, i: nat, k: nat, e: Env, g: int)
    requires Unique(s.ledger) && i <= k < |s.ledger|
    requires FindEnabled(e.rows, s.ledger[k].dbOid).Some?
    requires FindEnabled(e.rows, s.ledger[k].dbOid).value.restartGeneration == g
    ensures var r, w := ConvergeFrom(s, i, e), s.ledger[k];
      && |r.ledger| == |s.ledger| && r.ledger[k].dbOid == w.dbOid && r.ledger[k].restart == Next(w, g, e)
      && Registered(r, w.dbOid) == Registered(s, w.dbOid) + if Respawns(w, e) then 1 else 0
    decreases |s.ledger| - i
  {
    ConvergeAtUnique(s, i, e);
    if i == k {
      ConvergeAtSelf(s, k, e, g);
      ConvergeBehind(ConvergeAt(s, k, e), k + 1, k, e);
    } else {
      ConvergeAtOther(s, i, k, e);
      ConvergeAhead(ConvergeAt(s, i, e), i + 1, k, e, g);
    }
  }

  lemma {:induction false} SpawnSpares(s: State, rows: seq<Row>, e: Env, w: Worker)
    requires w in s.ledger
    ensures w in SpawnAll(s, rows, e).ledger
    ensures Registered(SpawnAll(s, rows, e), w.dbOid) == Registered(s, w.dbOid)
    decreases |rows|
  {
    if rows != [] {
      assert Tracks(s.ledger, w.dbOid);
      RegisteredSnoc(s.handles, rows[0].dbOid, w.dbOid);
      SpawnSpares(SpawnRow(s, rows[0], e), rows[1..], e, w);
    }
  }

  /** Through a whole cycle, an entry whose database is enabled and whose worker did not
      crash advances one step, and costs a registration exactly when it respawns. */
  lemma CycleEntry(s: State, e: Env, w: Worker, g: int) returns (w': Worker)
    requires Unique(s.ledger) && w in s.ledger && !Crashes(w, e)
    requires FindEnabled(e.rows, w.dbOid).Some? && FindEnabled(e.rows, w.dbOid).value.restartGeneration == g
    ensures w' in Cycle(s, e).ledger && w'.dbOid == w.dbOid && w'.restart == Next(w, g, e)
    ensures Registered(Cycle(s, e), w.dbOid) == Registered(s, w.dbOid) + if Respawns(w, e) then 1 else 0
  {
    var kept := s.(ledger := Survivors(s.ledger, e.rows, e.statusA, e.now));
    var v := Stamped(w, e.statusA(w.handle), e.now);
    SurvivorsHas(s.ledger, e, w);
    SurvivorsUnique(s.ledger, e.rows, e.statusA, e.now);
    var k :| 0 <= k < |kept.ledger| && kept.ledger[k] == v;
    ConvergeAhead(kept, 0, k, e, g);
    w' := ConvergeFrom(kept, 0, e).ledger[k];
    SpawnSpares(ConvergeFrom(kept, 0, e), e.rows, e, w');
  }

  /* ---- the fate of a stopped handle ---- */

  lemma {:induction false} ConvergeKeepsOids(s: State, i: nat, e: Env)
    requires i <= |s.ledger|
    ensures var r := ConvergeFrom(s, i, e);
      |r.ledger| == |s.ledger| && forall k :: 0 <= k < |s.ledger| ==> r.ledger[k].dbOid == s.ledger[k].dbOid
    decreases |s.ledger| - i
  {
    if i < |s.ledger| { ConvergeKeepsOids(ConvergeAt(s, i, e), i + 1, e); }
  }

  /** The convergence pass registers a worker only for a database in the ledger. */
  lemma {:induction false} ConvergeRegistersTracked(s: State, i: nat, e: Env, db: nat)
    requires i <= |s.ledger| && forall k :: 0 <= k < |s.ledger| ==> s.ledger[k].dbOid != db
    ensures Registered(ConvergeFrom(s, i, e), db) == Registered(s, db)
    decreases |s.ledger| - i
  {
    if i < |s.ledger| {
      RegisteredSnoc(s.handles, s.ledger[i].dbOid, db);
      ConvergeRegistersTracked(ConvergeAt(s, i, e), i + 1, e, db);
    }
  }

  lemma {:induction false} ConvergeGrows(s: State, i: nat, e: Env)
    requires i <= |s.ledger|
    ensures |s.handles| <= |ConvergeFrom(s, i, e).handles|
    decreases |s.ledger| - i
  {
    if i < |s.ledger| { ConvergeGrows(ConvergeAt(s, i, e), i + 1, e); }
  }

  /** What the pass makes of an entry whose restart has drained: a new worker in its place,
      or the entry as it was if none could be registered. */
  lemma {:induction false} DrainedEntry(s: State, i: nat, k: nat, e: Env) returns (h: nat)
    requires Unique(s.ledger) && i <= k < |s.ledger|
    requires s.ledger[k].restart.restarting && e.statusB(s.ledger[k].handle) == Stopped
    requires FindEnabled(e.rows, s.ledger[k].dbOid).Some?
    ensures h >= |s.handles| && |ConvergeFrom(s, i, e).ledger| == |s.ledger|
    ensures ConvergeFrom(s, i, e).ledger[k]
         == if e.registers(s.ledger[k].dbOid) then Respawned(s.ledger[k], h) else s.ledger[k]
    decreases |s.ledger| - i
  {
    ConvergeAtUnique(s, i, e);
    if i == k {
      h := |s.handles|;
      ConvergeBehind(ConvergeAt(s, k, e), k + 1, k, e);
    } else {
      ConvergeAtOther(s, i, k, e);
      h := DrainedEntry(ConvergeAt(s, i, e), i + 1, k, e);
    }
  }

  lemma OneEntry(ledger: seq<Worker>, v: Worker, w: Worker)
    requires Unique(ledger) && v in ledger && w in ledger && v.dbOid == w.dbOid
    ensures v == w
  {
    var i :| 0 <= i < |ledger| && ledger[i] == v;
    var j :| 0 <= j < |ledger| && ledger[j] == w;
    assert i == j;
  }

  lemma DroppedIsGone(s: State, e: Env, w: Worker)
    requires Unique(s.ledger) && w in s.ledger && !Keeps(e.rows, w, e.statusA(w.handle))
    ensures forall x :: x in Survivors(s.ledger, e.rows, e.statusA, e.now) ==> x.dbOid != w.dbOid
  {
    SurvivorsFrom(s.ledger, e.rows, e.statusA, e.now);
    forall x | x in Survivors(s.ledger, e.rows, e.statusA, e.now) ensures x.dbOid != w.dbOid {
      var v :| v in s.ledger && x.dbOid == v.dbOid && x.handle == v.handle && Keeps(e.rows, v, e.statusA(v.handle));
      if v.dbOid == w.dbOid { OneEntry(s.ledger, v, w); }
    }
  }

  /** Every entry the liveness pass sees stopped is, when the spawn pass begins, either gone
      with no worker registered for it, or still there: respawned in place under a new handle
      where a worker could be registered, and otherwise exactly as it was, to be tried again. */
  lemma {:induction false} StoppedIsDroppedOrRespawned(s: State, e: Env, w: Worker)
    requires Unique(s.ledger) && w in s.ledger
    requires e.statusA(w.handle) == Stopped && e.statusB(w.handle) == Stopped
    ensures var pre := ConvergeFrom(s.(ledger := Survivors(s.ledger, e.rows, e.statusA, e.now)), 0, e);
      if Classify(e.rows, w) != StopRestartDrain then
        !Tracks(pre.ledger, w.dbOid) && Registered(pre, w.dbOid) == Registered(s, w.dbOid)
      else if !e.registers(w.dbOid) then
        w in pre.ledger && Registered(pre, w.dbOid) == Registered(s, w.dbOid)
      else
        && (exists h :: h >= |s.handles| && Respawned(w, h) in pre.ledger)
        && w !in pre.ledger && Registered(pre, w.dbOid) == Registered(s, w.dbOid) + 1
  {
    var kept := s.(ledger := Survivors(s.ledger, e.rows, e.statusA, e.now));
    var pre := ConvergeFrom(kept, 0, e);
    SurvivorsUnique(s.ledger, e.rows, e.statusA, e.now);
    if Classify(e.rows, w) != StopRestartDrain {
      DroppedIsGone(s, e, w);
      forall k | 0 <= k < |kept.ledger| ensures kept.ledger[k].dbOid != w.dbOid { assert kept.ledger[k] in kept.ledger; }
      ConvergeKeepsOids(kept, 0, e);
      ConvergeRegistersTracked(kept, 0, e, w.dbOid);
    } else {
      SurvivorsHas(s.ledger, e, w);
      var k :| 0 <= k < |kept.ledger| && kept.ledger[k] == w;
      RespawnedInPlace(kept, k, e);
    }
  }

  lemma {:induction false} RespawnedInPlace(s: State, k: nat, e: Env)
    requires Unique(s.ledger) && k < |s.ledger|
    requires s.ledger[k].restart.restarting && e.statusB(s.ledger[k].handle) == Stopped
    requires FindEnabled(e.rows, s.ledger[k].dbOid).Some?
    ensures var w, pre := s.ledger[k], ConvergeFrom(s, 0, e);
      if !e.registers(w.dbOid) then w in pre.ledger && Registered(pre, w.dbOid) == Registered(s, w.dbOid)
      else
        && (exists h :: h >= |s.handles| && Respawned(w, h) in pre.ledger)
        && w !in pre.ledger && Registered(pre, w.dbOid) == Registered(s, w.dbOid) + 1
  {
    var w, pre := s.ledger[k], ConvergeFrom(s, 0, e);
    var g := FindEnabled(e.rows, w.dbOid).value.restartGeneration;
    ConvergeAhead(s, 0, k, e, g);
    var h := DrainedEntry(s, 0, k, e);
    assert pre.ledger[k] in pre.ledger;
    ConvergeUnique(s, 0, e);
    if w in pre.ledger { OneEntry(pre.ledger, w, pre.ledger[k]); }
  }

  /* ---- the cost of settling ---- */

  /** Respawns still owed once the generation has settled. */
  function Owed(r: RestartState, g: int): nat {
    if !r.restarting then (if r.serviced == g then 0 else 1)
    else if r.target == g then 1
    else 2
  }

  /** Steps still to take: a drain to start before each respawn that has none in flight. */
  function StepsLeft(r: RestartState, g: int): nat {
    if !r.restarting then (if r.serviced == g then 0 else 2)
    else if r.target == g then 1
    else 3
  }

  lemma StepPays(w: Worker, g: int, e: Env)
    ensures Owed(Next(w, g, e), g) == Owed(w.restart, g) - if Respawns(w, e) then 1 else 0
    ensures StepsLeft(Next(w, g, e), g) ==
            if w.restart.restarting && !Respawns(w, e) then StepsLeft(w.restart, g)
            else Max(0, StepsLeft(w.restart, g) - 1)
  {}

  /** The generation has settled at g, the database stays enabled, and its worker never
      stops unasked. */
  ghost predicate Quiet(s: State, es: seq<Env>, db: nat, g: int)
    decreases |es|
  {
    es == [] ||
    (var row := FindEnabled(es[0].rows, db);
     && row.Some? && row.value.restartGeneration == g
     && (forall w :: w in s.ledger && w.dbOid == db ==> !Crashes(w, es[0]))
     && Later(s, es[0].statusA, es[0].statusB)
     && Quiet(Cycle(s, es[0]), es[1..], db, g))
  }

  lemma CycleUnique(s: State, e: Env)
    requires Unique(s.ledger)
    ensures Unique(Cycle(s, e).ledger)
  {
    SurvivorsUnique(s.ledger, e.rows, e.statusA, e.now);
    var kept := s.(ledger := Survivors(s.ledger, e.rows, e.statusA, e.now));
    ConvergeUnique(kept, 0, e);
    SpawnUnique(ConvergeFrom(kept, 0, e), e.rows, e);
  }

  lemma {:induction false} ConvergeUnique(s: State, i: nat, e: Env)
    requires Unique(s.ledger) && i <= |s.ledger|
    ensures Unique(ConvergeFrom(s, i, e).ledger)
    decreases |s.ledger| - i
  {
    if i < |s.ledger| {
      ConvergeAtUnique(s, i, e);
      ConvergeUnique(ConvergeAt(s, i, e), i + 1, e);
    }
  }

  lemma {:induction false} SpawnUnique(s: State, rows: seq<Row>, e: Env)
    requires Unique(s.ledger)
    ensures Unique(SpawnAll(s, rows, e).ledger)
    decreases |rows|
  {
    if rows != [] {
      forall i | 0 <= i < |s.ledger| && s.ledger[i].dbOid == rows[0].dbOid ensures Tracks(s.ledger, rows[0].dbOid) {
        assert s.ledger[i] in s.ledger;
      }
      SpawnUnique(SpawnRow(s, rows[0], e), rows[1..], e);
    }
  }

  /** However many bumps were coalesced before the generation settled at g, the worker is
      respawned at most twice more, and has been respawned as often as was owed exactly
      when it serves g. */
  lemma {:induction false} RestartCost(s: State, es: seq<Env>, w: Worker, g: int) returns (w': Worker)
    requires Unique(s.ledger) && w in s.ledger && Quiet(s, es, w.dbOid, g)
    ensures w' in Run(s, es).ledger && w'.dbOid == w.dbOid
    ensures Registered(Run(s, es), w.dbOid) - Registered(s, w.dbOid) + Owed(w'.restart, g) == Owed(w.restart, g) <= 2
    decreases |es|
  {
    w' := w;
    if es != [] {
      var v := CycleEntry(s, es[0], w, g);
      StepPays(w, g, es[0]);
      CycleUnique(s, es[0]);
      w' := RestartCost(Cycle(s, es[0]), es[1..], v, g);
    }
  }

  /** Cycles in which nothing holds the restart back: a draining worker has stopped and
      its replacement can be registered. */
  ghost function Unhindered(s: State, es: seq<Env>, db: nat): nat
    decreases |es|
  {
    if es == [] then 0
    else
      (if forall w :: w in s.ledger && w.dbOid == db && w.restart.restarting ==> Respawns(w, es[0]) then 1 else 0)
      + Unhindered(Cycle(s, es[0]), es[1..], db)
  }

  /** Three such cycles bring any entry to the settled generation, and it stays there. */
  lemma {:induction false} RestartConverges(s: State, es: seq<Env>, w: Worker, g: int) returns (w': Worker)
    requires Unique(s.ledger) && w in s.ledger && Quiet(s, es, w.dbOid, g)
    ensures w' in Run(s, es).ledger && w'.dbOid == w.dbOid
    ensures StepsLeft(w'.restart, g) <= Max(0, StepsLeft(w.restart, g) - Unhindered(s, es, w.dbOid))
    ensures Unhindered(s, es, w.dbOid) >= 3 ==> !w'.restart.restarting && w'.restart.serviced == g
    decreases |es|
  {
    w' := w;
    if es != [] {
      var v := CycleEntry(s, es[0], w, g);
      StepPays(w, g, es[0]);
      CycleUnique(s, es[0]);
      w' := RestartConverges(Cycle(s, es[0]), es[1..], v, g);
    }
  }
}
