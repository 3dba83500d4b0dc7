/** One index's life in the ledger, and what holds of it over whole runs: a rebuild
    given up restores the old size exactly, and the recorded sizes always account for the
    last raw measurement. */
module MemoryRuns {
  import opened Common
  import opened Seqs
  import opened MemoryLedger
  import opened MemoryInvariants

  /** relid's record in block b. */
  function Lookup(b: Block, relid: nat): Option<Record> {
    var i := Find(b.table, relid);
    if i < |b.table| then Some(b.table[i]) else None
  }

  /** Whether an aborted insert gives back a unit of headroom. */
  predicate Refunds(b: Block, op: Op) {
    op.AbortInsertOp? &&
    var k := FindInsertByOwner(b.inserts, op.relid, op.pid);
    k < |b.inserts| && b.inserts[k].usedHeadroom
  }

  /* ---- how one record moves ---- */

  predicate NamesIndex(op: Op) {
    !op.ReserveSlotOp? && !op.ReleaseSlotOp? && !op.AdmitOp? && !op.RestoreBudgetOp? && !op.ReapOp? && !op.DropStaleOp?
  }

  predicate Concerns(op: Op, relid: nat) {
    op.ReleaseSlotOp? || op.ReapOp? || op.DropStaleOp? || (NamesIndex(op) && op.relid == relid)
  }

  function Loaded(r: Option<Record>, relid: nat, measured: nat, headroom: nat, now: int, generation: nat): Record {
    match r
    case None => Record(relid, Resident, 0, now, measured, measured, 0, 0, headroom, 0, generation)
    case Some(q) => q.(phase := Resident, ownerPid := 0, measured := measured, headroom := headroom, prior := 0,
                       peak := 0, reclaimable := 0, generation := generation)
  }

  /** A build given up: a rebuild leaves the index resident at the size it had before, with
      nothing owned and no peak; a first build leaves nothing. */
  function GivenUp(q: Record): Option<Record> {
    if q.phase == Rebuilding then Some(q.(phase := Resident, measured := q.prior, prior := 0, ownerPid := 0, peak := 0))
    else None
  }

  /** The life cycle of one record: what it becomes when an operation that concerns it
      ends with outcome out, in a block whose generation counter then stands at g. */
  function After(op: Op, out: Outcome, r: Option<Record>, g: nat, pct: nat, refund: bool): Option<Record> {
    match op
    case ReserveBuildOp(_, relid, peak, estimate, pid, now) =>
      if out != Answer(true) then r
      else (match r
        case None => Some(FreeRecord.(relid := relid, ownerPid := pid, reservedAt := now, estimate := estimate, peak := peak))
        case Some(q) => Some(q.(ownerPid := pid, reservedAt := now, estimate := estimate, measured := 0, peak := peak,
                                prior := q.measured, phase := Rebuilding)))
    case ConfirmBuildOp(_, _, _, measured) =>
      if r.None? || out.Raised? then r
      else if out == Answer(true) then
        Some(r.value.(phase := Confirmed, measured := measured, prior := 0, peak := 0, reclaimable := 0, generation := g))
      else GivenUp(r.value)
    case HandoffBuildOp(_, _) =>
      if r.None? || out.Raised? then r else Some(r.value.(phase := Handoff))
    case AbortBuildOp(_, _) =>
      if r.None? || r.value.phase == Resident then r else GivenUp(r.value)
    case ReconcileLoadOp(_, relid, measured, headroom, now) =>
      if out != Answer(true) then r else Some(Loaded(r, relid, measured, headroom, now, g))
    case SeedDurableOp(_, relid, durable, now) =>
      if out != Answer(true) || r.Some? then r else Some(Loaded(r, relid, durable, 0, now, g))
    case ReserveInsertOp(_, _, _, _, _) =>
      if r.None? || out != Answer(true) || r.value.headroom == 0 then r
      else Some(r.value.(headroom := r.value.headroom - 1))
    case AbortInsertOp(_, _, _) =>
      if r.None? || !refund then r else Some(r.value.(headroom := r.value.headroom + 1))
    case AccountUnloadOp(_, _) => None
    case ReanchorInsertOp(_, _, measured) =>
      if r.None? then r
      else if measured < r.value.reclaimable then Some(r.value.(measured := 0, reclaimable := measured))
      else Some(r.value.(measured := measured - r.value.reclaimable))
    case ReconcileResidentOp(_, _, measured, setHeadroom, headroom) =>
      if r.None? || out.Raised? then r
      else Some(r.value.(measured := measured, reclaimable := 0,
                         headroom := if setHeadroom then headroom else r.value.headroom))
    case CreditOp(_, _, generation, growth) =>
      if r.None? || r.value.phase != Resident || r.value.generation != generation || pct >= 100 then r
      else
        var credit := if growth < r.value.measured then growth else r.value.measured;
        Some(r.value.(measured := r.value.measured - credit, reclaimable := r.value.reclaimable + credit))
    case ReapOp(_, dead) =>
      if r.Some? && (r.value.phase == Reserved || r.value.phase == Rebuilding)
         && r.value.ownerPid != 0 && (r.value.ownerPid, r.value.reservedAt) in dead
      then GivenUp(r.value) else r
    case DropStaleOp(_, live) =>
      if r.Some? && r.value.phase == Resident && r.value.relid !in live then None else r
    case ReleaseSlotOp(_) => None
    case _ => r
  }

  /* ---- every step moves every record along its life cycle ---- */

  lemma {:induction false} FindIs(t: seq<Record>, relid: nat, i: nat)
    requires i <= |t| && (i < |t| ==> t[i].relid == relid) && forall j :: 0 <= j < i ==> t[j].relid != relid
    ensures Find(t, relid) == i
  {}

  /** What putting record r in slot j does to what is found under relid. */
  lemma LookupPut(b: Block, j: nat, r: Record, relid: nat)
    requires UniqueRelids(b.table) && j < |b.table| && relid != 0
    requires r.relid == 0 || r.relid == b.table[j].relid || Find(b.table, r.relid) == |b.table|
    ensures Lookup(Put(b, j, r), relid)
      == if r.relid == relid then Some(r)
         else if b.table[j].relid == relid then None
         else Lookup(b, relid)
  {
    var t' := b.table[j := r];
    if r.relid == relid {
      FindIs(t', relid, j);
    } else if b.table[j].relid == relid {
      FindIs(t', relid, |t'|);
    } else {
      FindIs(t', relid, Find(b.table, relid));
    }
  }

  lemma LookupSame(b: Block, b': Block, relid: nat)
    requires b'.table == b.table
    ensures Lookup(b', relid) == Lookup(b, relid)
  {}

  /** b' is b with one slot rewritten, apart from inserts, budget and generation. */
  lemma LookupAfterPut(b: Block, j: nat, r: Record, b': Block, relid: nat)
    requires WellFormed(b) && j < |b.table| && relid != 0 && b'.table == b.table[j := r]
    requires r.relid == 0 || r.relid == b.table[j].relid || Find(b.table, r.relid) == |b.table|
    ensures Lookup(b', relid)
      == if r.relid == relid then Some(r)
         else if b.table[j].relid == relid then None
         else Lookup(b, relid)
  {
    LookupPut(b, j, r, relid);
    LookupSame(Put(b, j, r), b', relid);
  }

  /** The record operations: the named index moves along its life cycle, no other moves. */
  ghost predicate Follows(b: Block, b': Block, op: Op, out: Outcome, relid: nat, pct: nat) {
    Lookup(b', relid)
      == if Concerns(op, relid) then After(op, out, Lookup(b, relid), b'.nextGeneration, pct, Refunds(b, op))
         else Lookup(b, relid)
  }

  lemma ReserveBuildFollows(c: Cluster, b: Block, op: Op, relid: nat)
    requires WellFormed(b) && ValidOp(op) && relid != 0
    requires op.ReserveBuildOp?
    ensures var (b', out) := BlockStep(c, b, op); Follows(b, b', op, out, relid, c.compactPct)
  {
    var (b', out) := BlockStep(c, b, op);
    var i := Find(b.table, op.relid);
    if i < |b.table| { LookupAfterPut(b, i, b'.table[i], b', relid); }
    else if out == Answer(true) {
      var k := Find(b.table, 0);
      LookupAfterPut(b, k, b'.table[k], b', relid);
    }
  }

  lemma LoadFollows(c: Cluster, b: Block, op: Op, relid: nat)
    requires WellFormed(b) && ValidOp(op) && relid != 0
    requires op.ReconcileLoadOp?
    ensures var (b', out) := BlockStep(c, b, op); Follows(b, b', op, out, relid, c.compactPct)
  {
    var (b', out) := BlockStep(c, b, op);
    var i := Find(b.table, op.relid);
    if i < |b.table| { LookupAfterPut(b, i, b'.table[i], b', relid); }
    else if out == Answer(true) {
      var k := Find(b.table, 0);
      LookupAfterPut(b, k, b'.table[k], b', relid);
    }
  }

  lemma SeedFollows(c: Cluster, b: Block, op: Op, relid: nat)
    requires WellFormed(b) && ValidOp(op) && relid != 0
    requires op.SeedDurableOp?
    ensures var (b', out) := BlockStep(c, b, op); Follows(b, b', op, out, relid, c.compactPct)
  {
    if Find(b.table, op.relid) == |b.table| {
      LoadFollows(c, b, ReconcileLoadOp(op.dbOid, op.relid, op.durable, 0, op.now), relid);
    }
  }

  /** The operations that rewrite the slot they find, or none. */
  predicate Rewrites(op: Op) { MovesPhase(op) || MovesSize(op) || MovesHeadroom(op) }

  predicate MovesPhase(op: Op) { op.ConfirmBuildOp? || op.HandoffBuildOp? || op.AbortBuildOp? || op.AccountUnloadOp? }

  predicate MovesSize(op: Op) { op.ReconcileResidentOp? || op.ReanchorInsertOp? || op.CreditOp? }

  predicate MovesHeadroom(op: Op) { op.ReserveInsertOp? || op.AbortInsertOp? }

  /** What a slot shows: a record, or nothing once it is free. */
  function Shown(r: Record): Option<Record> { if r.relid == 0 then None else Some(r) }

  /** At most the found slot is rewritten, to what the life cycle says. */
  ghost predicate SlotFollows(b: Block, b': Block, op: Op, out: Outcome, pct: nat)
    requires Rewrites(op)
  {
    var i, g, refund := Find(b.table, op.relid), b'.nextGeneration, Refunds(b, op);
    if i == |b.table| then b'.table == b.table && After(op, out, None, g, pct, refund).None?
    else |b'.table| == |b.table| && b'.table == b.table[i := b'.table[i]]
         && Shown(b'.table[i]) == After(op, out, Some(b.table[i]), g, pct, refund)
         && (b'.table[i].relid == 0 || b'.table[i].relid == op.relid)
  }

  lemma PhaseMoves(c: Cluster, b: Block, op: Op)
    requires ValidOp(op) && MovesPhase(op)
    ensures var (b', out) := BlockStep(c, b, op); SlotFollows(b, b', op, out, c.compactPct)
  {}

  lemma SizeMoves(c: Cluster, b: Block, op: Op)
    requires ValidOp(op) && MovesSize(op)
    ensures var (b', out) := BlockStep(c, b, op); SlotFollows(b, b', op, out, c.compactPct)
  {}

  lemma HeadroomMoves(c: Cluster, b: Block, op: Op)
    requires ValidOp(op) && MovesHeadroom(op)
    ensures var (b', out) := BlockStep(c, b, op); SlotFollows(b, b', op, out, c.compactPct)
  {}

  /** The three kinds share one argument: no other slot changes, so no other record moves. */
  lemma RewriteFollows(b: Block, b': Block, op: Op, out: Outcome, relid: nat, pct: nat)
    requires WellFormed(b) && ValidOp(op) && relid != 0 && Rewrites(op) && SlotFollows(b, b', op, out, pct)
    ensures Follows(b, b', op, out, relid, pct)
  {
    if Find(b.table, op.relid) < |b.table| {
      RewriteFound(b, b', op, out, relid, pct);
    } else {
      LookupSame(b, b', relid);
    }
  }

  lemma RewriteFound(b: Block, b': Block, op: Op, out: Outcome, relid: nat, pct: nat)
    requires WellFormed(b) && ValidOp(op) && relid != 0 && Rewrites(op) && SlotFollows(b, b', op, out, pct)
    requires Find(b.table, op.relid) < |b.table|
    ensures Follows(b, b', op, out, relid, pct)
  {
    var i := Find(b.table, op.relid);
    LookupAfterPut(b, i, b'.table[i], b', relid);
  }

  lemma CloseInsertFollows(c: Cluster, b: Block, op: Op, relid: nat)
    requires WellFormed(b) && ValidOp(op) && relid != 0
    requires op.CloseInsertOp?
    ensures var (b', out) := BlockStep(c, b, op); Follows(b, b', op, out, relid, c.compactPct)
  {
    LookupSame(b, BlockStep(c, b, op).0, relid);
  }

  /** A clean-up that treats each record on its own moves each record on its own. */
  lemma {:induction false} CleanUpFollows(b: Block, f: Record -> Record, relid: nat)
    requires WellFormed(b) && relid != 0 && forall r :: r in b.table ==> CleansUp(r, f(r))
    ensures var t, i := Map(b.table, f), Find(b.table, relid);
      Find(t, relid) == if i < |b.table| && f(b.table[i]).relid == relid then i else |b.table|
  {
    var t, i := Map(b.table, f), Find(b.table, relid);
    forall j | 0 <= j < |t| ensures t[j].relid == b.table[j].relid || t[j].relid == 0 {
      assert b.table[j] in b.table;
    }
    FindIs(t, relid, if i < |b.table| && f(b.table[i]).relid == relid then i else |b.table|);
  }

  lemma ReapFollows(c: Cluster, b: Block, op: Op, relid: nat)
    requires WellFormed(b) && ValidOp(op) && relid != 0 && op.ReapOp?
    ensures var (b', out) := BlockStep(c, b, op); Follows(b, b', op, out, relid, c.compactPct)
  {
    CleanUpFollows(b, ReapRecordOf(op.dead), relid);
  }

  lemma DropFollows(c: Cluster, b: Block, op: Op, relid: nat)
    requires WellFormed(b) && ValidOp(op) && relid != 0 && op.DropStaleOp?
    ensures var (b', out) := BlockStep(c, b, op); Follows(b, b', op, out, relid, c.compactPct)
  {
    CleanUpFollows(b, DropIfStaleOf(op.live), relid);
  }

  lemma ReleaseFollows(c: Cluster, b: Block, op: Op, relid: nat)
    requires WellFormed(b) && ValidOp(op) && relid != 0 && op.ReleaseSlotOp?
    ensures var (b', out) := BlockStep(c, b, op); Follows(b, b', op, out, relid, c.compactPct)
  {
    FindIs(Reset(b, 0).table, relid, |b.table|);
  }

  lemma StepFollows(c: Cluster, b: Block, op: Op, relid: nat)
    requires WellFormed(b) && ValidOp(op) && relid != 0
    ensures var (b', out) := BlockStep(c, b, op); Follows(b, b', op, out, relid, c.compactPct)
  {
    if Rewrites(op) {
      var (b', out) := BlockStep(c, b, op);
      if MovesPhase(op) {
        PhaseMoves(c, b, op);
      } else if MovesSize(op) {
        SizeMoves(c, b, op);
      } else {
        HeadroomMoves(c, b, op);
      }
      RewriteFollows(b, b', op, out, relid, c.compactPct);
    } else {
      match op
      case ReserveBuildOp(_, _, _, _, _, _) => ReserveBuildFollows(c, b, op, relid);
      case ReconcileLoadOp(_, _, _, _, _) => LoadFollows(c, b, op, relid);
      case SeedDurableOp(_, _, _, _) => SeedFollows(c, b, op, relid);
      case CloseInsertOp(_, _) => CloseInsertFollows(c, b, op, relid);
      case ReapOp(_, _) => ReapFollows(c, b, op, relid);
      case DropStaleOp(_, _) => DropFollows(c, b, op, relid);
      case ReleaseSlotOp(_) => ReleaseFollows(c, b, op, relid);
      case _ =>
    }
  }

  /* ---- the same in the cluster ---- */

  predicate Hits(c: Cluster, op: Op, i: nat) { FindBlock(c.blocks, op.dbOid) == i }

  /** A step changes the block it is addressed to; claiming a free block only names it. */
  lemma StepOnBlock(c: Cluster, op: Op, i: nat)
    requires i < |c.blocks|
    ensures var c' := Step(c, op).0;
      && |c'.blocks| == |c.blocks| && c'.compactPct == c.compactPct
      && c'.blocks[i] == (if Hits(c, op, i) then BlockStep(c, c.blocks[i], op).0
                          else c.blocks[i].(dbOid := c'.blocks[i].dbOid))
      && (Hits(c, op, i) ==> Step(c, op).1 == BlockStep(c, c.blocks[i], op).1)
  {}

  /** What one step does to relid's record in block i. */
  lemma RecordStep(c: Cluster, op: Op, i: nat, relid: nat)
    requires WellFormedCluster(c) && ValidOp(op) && i < |c.blocks| && relid != 0
    ensures var (c', out) := Step(c, op); var r := Lookup(c.blocks[i], relid);
      && |c'.blocks| == |c.blocks|
      && Lookup(c'.blocks[i], relid)
           == (if Hits(c, op, i) && Concerns(op, relid)
               then After(op, out, r, c'.blocks[i].nextGeneration, c.compactPct, Refunds(c.blocks[i], op)) else r)
  {
    StepOnBlock(c, op, i);
    if Hits(c, op, i) { StepFollows(c, c.blocks[i], op, relid); }
  }

  /* ---- a rebuild given up restores what was there ---- */

  /** The calls that leave a rebuild of the index under way: all but a confirm, an abort,
      an unload, a load that fits, a reanchor, a release, and the reaping of its owner. */
  predicate Passes(op: Op, out: Outcome, pid: int, since: int) {
    match op
    case ConfirmBuildOp(_, _, _, _) => out.Raised?
    case AbortBuildOp(_, _) => false
    case AccountUnloadOp(_, _) => false
    case ReconcileLoadOp(_, _, _, _, _) => out != Answer(true)
    case ReanchorInsertOp(_, _, _) => false
    case ReleaseSlotOp(_) => false
    case ReapOp(_, dead) => !OwnerDead(dead, pid, since)
    case _ => true
  }

  /** Every step of the run that concerns the index in block i leaves its rebuild alone. */
  ghost predicate Spared(c: Cluster, ops: seq<Op>, i: nat, relid: nat, pid: int, since: int)
    decreases |ops|
  {
    ops == [] ||
    ((Hits(c, ops[0], i) && Concerns(ops[0], relid) ==> Passes(ops[0], Step(c, ops[0]).1, pid, since))
     && Spared(Step(c, ops[0]).0, ops[1..], i, relid, pid, since))
  }

  /** Headroom one step takes from the index's record in block i, or gives back. */
  function HeadroomShift(c: Cluster, op: Op, i: nat, relid: nat): int
    requires i < |c.blocks|
  {
    var r := Lookup(c.blocks[i], relid);
    if !Hits(c, op, i) || !Concerns(op, relid) || r.None? then 0
    else if op.ReserveInsertOp? && Step(c, op).1 == Answer(true) && r.value.headroom > 0 then -1
    else if Refunds(c.blocks[i], op) then 1
    else 0
  }

  ghost function HeadroomDrift(c: Cluster, ops: seq<Op>, i: nat, relid: nat): int
    requires i < |c.blocks|
    decreases |ops|
  {
    if ops == [] then 0
    else
      HeadroomShift(c, ops[0], i, relid) + HeadroomDrift(Step(c, ops[0]).0, ops[1..], i, relid)
  }

  function Moved(r: Record, shift: int): Record
    requires r.headroom + shift >= 0
  {
    r.(headroom := r.headroom + shift)
  }

  lemma SparedStep(op: Op, out: Outcome, r: Record, g: nat, pct: nat, refund: bool)
    requires r.relid != 0 && r.phase == Rebuilding && Passes(op, out, r.ownerPid, r.reservedAt)
    requires Legal(op, out, Some(r)) && (refund ==> op.AbortInsertOp?)
    ensures After(op, out, Some(r), g, pct, refund)
         == Some(r.(headroom := if op.ReserveInsertOp? && out == Answer(true) && r.headroom > 0 then r.headroom - 1
                                else if refund then r.headroom + 1 else r.headroom))
  {}

  lemma SparedStepInCluster(c: Cluster, op: Op, i: nat, r: Record)
    requires WellFormedCluster(c) && ValidOp(op) && Guard(c, op) && i < |c.blocks| && r.relid != 0 && r.phase == Rebuilding
    requires Lookup(c.blocks[i], r.relid) == Some(r)
    requires Hits(c, op, i) && Concerns(op, r.relid) ==> Passes(op, Step(c, op).1, r.ownerPid, r.reservedAt)
    ensures WellFormedCluster(Step(c, op).0) && |Step(c, op).0.blocks| == |c.blocks|
    ensures r.headroom + HeadroomShift(c, op, i, r.relid) >= 0
    ensures Lookup(Step(c, op).0.blocks[i], r.relid) == Some(Moved(r, HeadroomShift(c, op, i, r.relid)))
  {
    StepKeeps(c, op);
    RecordStep(c, op, i, r.relid);
    if Hits(c, op, i) && Concerns(op, r.relid) {
      OutcomeIsLegal(c, op, i, r.relid);
      var (c', out) := Step(c, op);
      SparedStep(op, out, r, c'.blocks[i].nextGeneration, c.compactPct, Refunds(c.blocks[i], op));
    }
  }

  lemma {:induction false} DriftAdds(c: Cluster, ops: seq<Op>, i: nat, relid: nat)
    requires i < |c.blocks| && ops != []
    ensures HeadroomDrift(c, ops, i, relid)
         == HeadroomShift(c, ops[0], i, relid) + HeadroomDrift(Step(c, ops[0]).0, ops[1..], i, relid)
  {}

  lemma MovedAsFar(r: Record, a: int, q: Record, b: int)
    requires q == r.(headroom := q.headroom) && r.headroom + a == q.headroom + b >= 0
    ensures Moved(q, b) == Moved(r, a)
  {}

  /** A rebuild under way keeps its record, but for the headroom inserts use and return. */
  lemma {:induction false} SparedRun(c: Cluster, ops: seq<Op>, i: nat, r: Record)
    requires WellFormedCluster(c) && GuardedRun(c, ops) && i < |c.blocks| && r.relid != 0 && r.phase == Rebuilding
    requires Lookup(c.blocks[i], r.relid) == Some(r) && Spared(c, ops, i, r.relid, r.ownerPid, r.reservedAt)
    ensures WellFormedCluster(Run(c, ops)) && |Run(c, ops).blocks| == |c.blocks|
    ensures r.headroom + HeadroomDrift(c, ops, i, r.relid) >= 0
    ensures Lookup(Run(c, ops).blocks[i], r.relid) == Some(Moved(r, HeadroomDrift(c, ops, i, r.relid)))
    decreases |ops|
  {
    if ops != [] {
      var c', rest, r' := SparedFirst(c, ops, i, r);
      SparedRun(c', rest, i, r');
      MovedAsFar(r, HeadroomDrift(c, ops, i, r.relid), r', HeadroomDrift(c', rest, i, r.relid));
    }
  }

  lemma {:induction false} SparedFirst(c: Cluster, ops: seq<Op>, i: nat, r: Record)
    returns (c': Cluster, rest: seq<Op>, r': Record)
    requires WellFormedCluster(c) && GuardedRun(c, ops) && i < |c.blocks| && r.relid != 0 && r.phase == Rebuilding
    requires Lookup(c.blocks[i], r.relid) == Some(r) && Spared(c, ops, i, r.relid, r.ownerPid, r.reservedAt)
    requires ops != []
    ensures WellFormedCluster(c') && GuardedRun(c', rest) && |c'.blocks| == |c.blocks| && |rest| < |ops|
    ensures r' == r.(headroom := r'.headroom) && Lookup(c'.blocks[i], r.relid) == Some(r')
    ensures Spared(c', rest, i, r.relid, r.ownerPid, r.reservedAt) && Run(c, ops) == Run(c', rest)
    ensures r.headroom + HeadroomDrift(c, ops, i, r.relid) == r'.headroom + HeadroomDrift(c', rest, i, r.relid)
  {
    c', rest := Step(c, ops[0]).0, ops[1..];
    SparedStepInCluster(c, ops[0], i, r);
    r' := Moved(r, HeadroomShift(c, ops[0], i, r.relid));
    DriftAdds(c, ops, i, r.relid);
  }

  /** The record of a rebuild of resident r. */
  function RebuildOf(r: Record, op: Op): Record
    requires op.ReserveBuildOp?
  {
    r.(ownerPid := op.pid, reservedAt := op.now, estimate := op.estimate, measured := 0, peak := op.peak,
       prior := r.measured, phase := Rebuilding)
  }

  /** The ways off a rebuild other than a confirm that fits. */
  predicate GivesUp(c: Cluster, op: Op, relid: nat, pid: int, now: int) {
    || (op.AbortBuildOp? && op.relid == relid)
    || (op.ConfirmBuildOp? && op.relid == relid && Step(c, op).1 == Answer(false))
    || (op.ReapOp? && OwnerDead(op.dead, pid, now))
  }

  /** A rebuild that is aborted, reaped or rejected leaves the index resident at exactly
      its old size, debt and generation, with no peak outstanding and only the headroom that
      inserts took or gave back meanwhile, whatever else was called on it or on others. */
  lemma {:induction false} RebuildRollback(c: Cluster, i: nat, r: Record, start: Op, ops: seq<Op>, last: Op)
    requires WellFormedCluster(c) && i < |c.blocks| && r.relid != 0 && r.phase == Resident
    requires Lookup(c.blocks[i], r.relid) == Some(r)
    requires start.ReserveBuildOp? && ValidOp(start) && start.relid == r.relid && Hits(c, start, i)
    requires Step(c, start).1 == Answer(true)
    requires GuardedRun(Step(c, start).0, ops) && Spared(Step(c, start).0, ops, i, r.relid, start.pid, start.now)
    requires var c2 := Run(Step(c, start).0, ops);
      && ValidOp(last) && Hits(c2, last, i) && GivesUp(c2, last, r.relid, start.pid, start.now)
    ensures var c3 := Step(Run(Step(c, start).0, ops), last).0;
      var headroom := r.headroom + HeadroomDrift(Step(c, start).0, ops, i, r.relid);
      && |c3.blocks| == |c.blocks| && headroom >= 0
      && Lookup(c3.blocks[i], r.relid)
         == Some(r.(ownerPid := 0, reservedAt := start.now, estimate := start.estimate, headroom := headroom))
  {
    StepKeeps(c, start);
    RebuildStarts(c, i, r, start);
    ResidentFields(c, i, r);
    RollbackFrom(Step(c, start).0, i, RebuildOf(r, start), ops, last);
    RestoredRebuild(r, start, HeadroomDrift(Step(c, start).0, ops, i, r.relid));
  }

  lemma RestoredRebuild(r: Record, start: Op, drift: int)
    requires r.relid != 0 && r.phase == Resident && PhaseFields(r) && start.ReserveBuildOp? && r.headroom + drift >= 0
    ensures Restored(Moved(RebuildOf(r, start), drift))
         == r.(ownerPid := 0, reservedAt := start.now, estimate := start.estimate, headroom := r.headroom + drift)
  {}

  lemma {:induction false} RollbackFrom(c: Cluster, i: nat, q: Record, ops: seq<Op>, last: Op)
    requires WellFormedCluster(c) && i < |c.blocks| && q.relid != 0 && q.phase == Rebuilding
    requires Lookup(c.blocks[i], q.relid) == Some(q)
    requires GuardedRun(c, ops) && Spared(c, ops, i, q.relid, q.ownerPid, q.reservedAt)
    requires var c2 := Run(c, ops);
      ValidOp(last) && Hits(c2, last, i) && GivesUp(c2, last, q.relid, q.ownerPid, q.reservedAt)
    ensures var c3 := Step(Run(c, ops), last).0; var drift := HeadroomDrift(c, ops, i, q.relid);
      && |c3.blocks| == |c.blocks| && q.headroom + drift >= 0
      && Lookup(c3.blocks[i], q.relid) == Some(Restored(Moved(q, drift)))
  {
    SparedRun(c, ops, i, q);
    RebuildEnds(Run(c, ops), i, Moved(q, HeadroomDrift(c, ops, i, q.relid)), last);
  }

  lemma RebuildStarts(c: Cluster, i: nat, r: Record, start: Op)
    requires WellFormedCluster(c) && i < |c.blocks| && r.relid != 0 && Lookup(c.blocks[i], r.relid) == Some(r)
    requires start.ReserveBuildOp? && ValidOp(start) && start.relid == r.relid && Hits(c, start, i)
    requires Step(c, start).1 == Answer(true)
    ensures |Step(c, start).0.blocks| == |c.blocks|
    ensures Lookup(Step(c, start).0.blocks[i], r.relid) == Some(RebuildOf(r, start))
  {
    RecordStep(c, start, i, r.relid);
  }

  lemma RebuildEnds(c: Cluster, i: nat, q: Record, last: Op)
    requires WellFormedCluster(c) && i < |c.blocks| && q.relid != 0 && q.phase == Rebuilding
    requires Lookup(c.blocks[i], q.relid) == Some(q)
    requires ValidOp(last) && Hits(c, last, i) && GivesUp(c, last, q.relid, q.ownerPid, q.reservedAt)
    ensures |Step(c, last).0.blocks| == |c.blocks|
    ensures Lookup(Step(c, last).0.blocks[i], q.relid) == Some(Restored(q))
  {
    RecordStep(c, last, i, q.relid);
  }

  lemma ResidentFields(c: Cluster, i: nat, r: Record)
    requires WellFormedCluster(c) && i < |c.blocks| && r.relid != 0 && Lookup(c.blocks[i], r.relid) == Some(r)
    ensures PhaseFields(r)
  {
    var t := c.blocks[i].table;
    assert PhaseFields(t[Find(t, r.relid)]);
  }

  /* ---- the recorded sizes account for the last raw measurement ---- */

  /** The raw size an operation measures the index at, if it does. */
  function Measurement(op: Op, out: Outcome, r: Option<Record>): Option<nat> {
    match op
    case ConfirmBuildOp(_, _, _, measured) => if r.Some? && out == Answer(true) then Some(measured) else None
    case ReconcileLoadOp(_, _, measured, _, _) => if out == Answer(true) then Some(measured) else None
    case SeedDurableOp(_, _, durable, _) => if r.None? && out == Answer(true) then Some(durable) else None
    case ReanchorInsertOp(_, _, measured) => if r.Some? then Some(measured) else None
    case ReconcileResidentOp(_, _, measured, _, _) => if r.Some? && !out.Raised? then Some(measured) else None
    case _ => None
  }

  /** A record past its first build holds, net size and debt together, exactly raw bytes. */
  predicate AccountsFor(r: Option<Record>, raw: nat) {
    r.Some? && r.value.phase != Reserved ==> Raw(r.value) == raw
  }

  predicate MeasuresUnbuilt(op: Op, r: Option<Record>) {
    op.ReanchorInsertOp? && r.Some? && (r.value.phase == Reserved || r.value.phase == Rebuilding)
  }

  /** The phases in which the ledger lets each transition happen. */
  predicate Legal(op: Op, out: Outcome, r: Option<Record>) {
    r.Some? && !out.Raised? ==>
      match op
      case ReserveBuildOp(_, _, _, _, _, _) => r.value.phase == Resident
      case ConfirmBuildOp(_, _, _, _) => r.value.phase == Reserved || r.value.phase == Rebuilding
      case HandoffBuildOp(_, _) => r.value.phase == Confirmed
      case ReconcileResidentOp(_, _, _, _, _) => r.value.phase == Resident
      case _ => true
  }

  lemma OutcomeIsLegal(c: Cluster, op: Op, i: nat, relid: nat)
    requires i < |c.blocks| && relid != 0 && ValidOp(op) && Hits(c, op, i) && Concerns(op, relid)
    ensures Legal(op, Step(c, op).1, Lookup(c.blocks[i], relid))
  {
    StepOnBlock(c, op, i);
  }

  lemma AfterAccountsFor(op: Op, out: Outcome, r: Option<Record>, g: nat, pct: nat, refund: bool, raw: nat)
    requires AccountsFor(r, raw) && (r.Some? ==> r.value.relid != 0 && PhaseFields(r.value))
    requires !MeasuresUnbuilt(op, r) && Legal(op, out, r)
    ensures var m := Measurement(op, out, r);
      AccountsFor(After(op, out, r, g, pct, refund), if m.Some? then m.value else raw)
  {}

  /** The last raw measurement of relid in block i over a run. */
  ghost function LastRaw(c: Cluster, ops: seq<Op>, i: nat, relid: nat, raw: nat): nat
    requires i < |c.blocks|
    decreases |ops|
  {
    if ops == [] then raw
    else
      var (c', out) := Step(c, ops[0]);
      var m := if Hits(c, ops[0], i) && Concerns(ops[0], relid)
               then Measurement(ops[0], out, Lookup(c.blocks[i], relid)) else None;
      LastRaw(c', ops[1..], i, relid, if m.Some? then m.value else raw)
  }

  /** Inserts are only ever measured against a graph that exists. */
  ghost predicate BuiltRun(c: Cluster, ops: seq<Op>, i: nat, relid: nat)
    requires i < |c.blocks|
    decreases |ops|
  {
    ops == [] ||
    (!(Hits(c, ops[0], i) && Concerns(ops[0], relid) && MeasuresUnbuilt(ops[0], Lookup(c.blocks[i], relid)))
     && BuiltRun(Step(c, ops[0]).0, ops[1..], i, relid))
  }

  /** Over every run, through rebuilds, rollbacks, credits and compactions, an index's net
      size (or the size it had before a rebuild) and its debt add up to the last raw
      measurement taken of it. */
  lemma {:induction false} RawIsAccountedFor(c: Cluster, ops: seq<Op>, i: nat, relid: nat, raw: nat)
    requires WellFormedCluster(c) && GuardedRun(c, ops) && i < |c.blocks| && relid != 0
    requires BuiltRun(c, ops, i, relid) && AccountsFor(Lookup(c.blocks[i], relid), raw)
    ensures |Run(c, ops).blocks| == |c.blocks|
    ensures AccountsFor(Lookup(Run(c, ops).blocks[i], relid), LastRaw(c, ops, i, relid, raw))
    decreases |ops|
  {
    if ops != [] {
      var (c', out) := Step(c, ops[0]);
      var r := Lookup(c.blocks[i], relid);
      StepKeeps(c, ops[0]);
      RecordStep(c, ops[0], i, relid);
      StepOnBlock(c, ops[0], i);
      if r.Some? { LookupFields(c, i, relid); }
      var m := if Hits(c, ops[0], i) && Concerns(ops[0], relid) then Measurement(ops[0], out, r) else None;
      if Hits(c, ops[0], i) && Concerns(ops[0], relid) {
        OutcomeIsLegal(c, ops[0], i, relid);
        AfterAccountsFor(ops[0], out, r, c'.blocks[i].nextGeneration, c.compactPct, Refunds(c.blocks[i], ops[0]), raw);
      }
      RawIsAccountedFor(c', ops[1..], i, relid, if m.Some? then m.value else raw);
    }
  }

  lemma LookupFields(c: Cluster, i: nat, relid: nat)
    requires WellFormedCluster(c) && i < |c.blocks| && relid != 0 && Lookup(c.blocks[i], relid).Some?
    ensures var r := Lookup(c.blocks[i], relid).value; PhaseFields(r) && r.relid == relid
  {
    var t := c.blocks[i].table;
    assert PhaseFields(t[Find(t, relid)]);
  }
}
