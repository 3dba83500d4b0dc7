/** The pending inserts of a database: which slot each call takes or frees, and that the
    spare capacity of an index is neither lost nor doubled over a run. */
module MemoryInserts {
  import opened Common
  import opened Seqs
  import opened MemoryLedger
  import opened MemoryInvariants
  import opened MemoryRuns

  /* ---- the slots ---- */

  /** The oldest pending insert of the index is freed, if it has one; nothing else changes. */
  ghost predicate FreesOldest(s: seq<Pending>, s': seq<Pending>, relid: nat) {
    if forall j :: 0 <= j < |s| ==> s[j].relid != relid then s' == s
    else
      exists k :: 0 <= k < |s| && s[k].relid == relid && s' == s[k := Pending(0, 0, 0, 0, false)]
                  && forall j :: 0 <= j < |s| && s[j].relid == relid ==> s[k].reservedAt <= s[j].reservedAt
  }

  /** One pending insert of the index by this process is freed, if there is one. */
  ghost predicate FreesOwn(s: seq<Pending>, s': seq<Pending>, relid: nat, pid: int) {
    if forall j :: 0 <= j < |s| ==> s[j].relid != relid || s[j].ownerPid != pid then s' == s
    else exists k :: 0 <= k < |s| && s[k].relid == relid && s[k].ownerPid == pid && s' == s[k := Pending(0, 0, 0, 0, false)]
  }

  /** An insert takes a free slot, with no bytes charged if it draws on spare capacity. */
  ghost predicate TakesSlot(s: seq<Pending>, s': seq<Pending>, op: Op, spare: bool)
    requires op.ReserveInsertOp?
  {
    exists k :: 0 <= k < |s| && s[k].relid == 0
                && s' == s[k := Pending(op.relid, op.pid, op.now, if spare then 0 else op.delta, spare)]
  }

  /** Exactly the pending inserts whose owner died are freed. */
  ghost predicate FreesDead(s: seq<Pending>, s': seq<Pending>, dead: set<(int, int)>) {
    && |s'| == |s|
    && forall j :: 0 <= j < |s| ==>
         s'[j] == if s[j].relid != 0 && s[j].ownerPid != 0 && (s[j].ownerPid, s[j].reservedAt) in dead
                  then Pending(0, 0, 0, 0, false) else s[j]
  }

  /** What each call does to the pending inserts. */
  lemma InsertSlots(c: Cluster, b: Block, op: Op)
    requires ValidOp(op)
    ensures var (b', out) := BlockStep(c, b, op);
      match op
      case ReserveInsertOp(_, relid, _, _, _) =>
        if out == Answer(true)
        then TakesSlot(b.inserts, b'.inserts, op, Lookup(b, relid).Some? && Lookup(b, relid).value.headroom > 0)
        else b'.inserts == b.inserts
      case ReanchorInsertOp(_, relid, _) =>
        if Lookup(b, relid).Some? then FreesOldest(b.inserts, b'.inserts, relid) else b'.inserts == b.inserts
      case CloseInsertOp(_, relid) => FreesOldest(b.inserts, b'.inserts, relid)
      case AbortInsertOp(_, relid, pid) => FreesOwn(b.inserts, b'.inserts, relid, pid)
      case ReapOp(_, dead) => FreesDead(b.inserts, b'.inserts, dead)
      case ReleaseSlotOp(_) => |b'.inserts| == |b.inserts| && forall j :: 0 <= j < |b.inserts| ==> b'.inserts[j].relid == 0
      case _ => b'.inserts == b.inserts
  {
    match op
    case ReserveInsertOp(_, _, _, _, _) => ReserveTakes(c, b, op);
    case ReanchorInsertOp(_, relid, measured) => OldestFreed(b, relid);
    case CloseInsertOp(_, relid) => OldestFreed(b, relid);
    case AbortInsertOp(_, relid, pid) => OwnFreed(c, b, op);
    case _ =>
  }

  lemma ReserveTakes(c: Cluster, b: Block, op: Op)
    requires op.ReserveInsertOp?
    ensures var (b', out) := BlockStep(c, b, op); var r := Lookup(b, op.relid);
      if out == Answer(true) then TakesSlot(b.inserts, b'.inserts, op, r.Some? && r.value.headroom > 0)
      else b'.inserts == b.inserts
  {
    var k := FindFreeInsert(b.inserts);
    if BlockStep(c, b, op).1 == Answer(true) { assert b.inserts[k].relid == 0; }
  }

  lemma OldestFreed(b: Block, relid: nat)
    ensures FreesOldest(b.inserts, ReleaseOldest(b, relid).inserts, relid)
  {
    var k := Oldest(b.inserts, relid, |b.inserts|);
    if k < |b.inserts| { assert b.inserts[k].relid == relid; }
  }

  lemma OwnFreed(c: Cluster, b: Block, op: Op)
    requires op.AbortInsertOp?
    ensures FreesOwn(b.inserts, BlockStep(c, b, op).0.inserts, op.relid, op.pid)
  {
    var k := FindInsertByOwner(b.inserts, op.relid, op.pid);
    if k < |b.inserts| { assert b.inserts[k].relid == op.relid && b.inserts[k].ownerPid == op.pid; }
  }

  /* ---- spare capacity ---- */

  function Draws(relid: nat): Pending -> int {
    (p: Pending) => if p.relid == relid && p.usedHeadroom then 1 else 0
  }

  /** Pending inserts that draw on the index's spare capacity. */
  function Drawn(b: Block, relid: nat): int { Sum(b.inserts, Draws(relid)) }

  /** Spare capacity of the index, counting what pending inserts have drawn. */
  function Capacity(b: Block, relid: nat): int {
    var r := Lookup(b, relid);
    Drawn(b, relid) + if r.Some? then r.value.headroom else 0
  }

  lemma DrawnAfter(b: Block, k: nat, p: Pending, relid: nat)
    requires k < |b.inserts|
    ensures Sum(b.inserts[k := p], Draws(relid)) == Drawn(b, relid) - Draws(relid)(b.inserts[k]) + Draws(relid)(p)
  {
    SumUpdate(b.inserts, k, p, Draws(relid));
  }

  /** Reserving an insert and aborting it move capacity between the index and the pending
      insert, and neither make nor lose any. */
  lemma CapacityKept(c: Cluster, b: Block, op: Op, relid: nat)
    requires WellFormed(b) && ValidOp(op) && relid != 0 && Lookup(b, relid).Some?
    requires op.ReserveInsertOp? || op.AbortInsertOp?
    ensures Capacity(BlockStep(c, b, op).0, relid) == Capacity(b, relid)
  {
    if op.ReserveInsertOp? { ReserveMoves(c, b, op, relid); } else { AbortMoves(c, b, op, relid); }
  }

  lemma ReserveMoves(c: Cluster, b: Block, op: Op, relid: nat)
    requires WellFormed(b) && ValidOp(op) && relid != 0 && Lookup(b, relid).Some? && op.ReserveInsertOp?
    ensures Capacity(BlockStep(c, b, op).0, relid) == Capacity(b, relid)
  {
    var (b', out) := BlockStep(c, b, op);
    var k := FindFreeInsert(b.inserts);
    StepFollows(c, b, op, relid);
    if out == Answer(true) { DrawnAfter(b, k, b'.inserts[k], relid); }
  }

  lemma AbortMoves(c: Cluster, b: Block, op: Op, relid: nat)
    requires WellFormed(b) && ValidOp(op) && relid != 0 && Lookup(b, relid).Some? && op.AbortInsertOp?
    ensures Capacity(BlockStep(c, b, op).0, relid) == Capacity(b, relid)
  {
    var k := FindInsertByOwner(b.inserts, op.relid, op.pid);
    StepFollows(c, b, op, relid);
    if k < |b.inserts| { DrawnAfter(b, k, FreePending, relid); }
  }

  /** The calls that set an index's spare capacity anew, or end its record. */
  predicate SetsCapacity(op: Op) {
    || op.ReconcileLoadOp? || op.SeedDurableOp? || (op.ReconcileResidentOp? && op.setHeadroom)
    || op.AccountUnloadOp? || op.ConfirmBuildOp? || op.AbortBuildOp? || op.ReapOp? || op.DropStaleOp? || op.ReleaseSlotOp?
  }

  /** The calls that settle an insert: what it drew is used up. */
  predicate Settles(op: Op) { op.CloseInsertOp? || op.ReanchorInsertOp? }

  lemma CapacityStep(c: Cluster, b: Block, op: Op, relid: nat)
    requires WellFormed(b) && ValidOp(op) && relid != 0 && Lookup(b, relid).Some? && !SetsCapacity(op)
    ensures var b' := BlockStep(c, b, op).0;
      && Lookup(b', relid).Some?
      && Capacity(b', relid) == Capacity(b, relid) - if Settles(op) then Drawn(b, relid) - Drawn(b', relid) else 0
  {
    var b' := BlockStep(c, b, op).0;
    StepFollows(c, b, op, relid);
    if op.ReserveInsertOp? || op.AbortInsertOp? { CapacityKept(c, b, op, relid); }
  }

  /** How many draws on the index's capacity the inserts settled in the run used up. */
  ghost function UsedUp(c: Cluster, ops: seq<Op>, i: nat, relid: nat): int
    requires i < |c.blocks|
    decreases |ops|
  {
    if ops == [] then 0
    else
      var c' := Step(c, ops[0]).0;
      (if Hits(c, ops[0], i) && Settles(ops[0]) then Drawn(c.blocks[i], relid) - Drawn(c'.blocks[i], relid) else 0)
      + UsedUp(c', ops[1..], i, relid)
  }

  ghost predicate Undisturbed(c: Cluster, ops: seq<Op>, i: nat)
    decreases |ops|
  {
    ops == [] || ((Hits(c, ops[0], i) ==> !SetsCapacity(ops[0])) && Undisturbed(Step(c, ops[0]).0, ops[1..], i))
  }

  lemma CapacityInCluster(c: Cluster, op: Op, i: nat, relid: nat)
    requires WellFormedCluster(c) && ValidOp(op) && i < |c.blocks| && relid != 0 && Lookup(c.blocks[i], relid).Some?
    requires Hits(c, op, i) ==> !SetsCapacity(op)
    ensures var b, b' := c.blocks[i], Step(c, op).0.blocks[i];
      && Lookup(b', relid).Some?
      && Capacity(b', relid)
         == Capacity(b, relid) - if Hits(c, op, i) && Settles(op) then Drawn(b, relid) - Drawn(b', relid) else 0
  {
    StepOnBlock(c, op, i);
    if Hits(c, op, i) { CapacityStep(c, c.blocks[i], op, relid); }
  }

  /** Over any run that does not set it anew, an index's spare capacity, with what pending
      inserts have drawn, falls by exactly what the inserts settled meanwhile had drawn. */
  lemma {:induction false} CapacityRun(c: Cluster, ops: seq<Op>, i: nat, relid: nat)
    requires WellFormedCluster(c) && GuardedRun(c, ops) && i < |c.blocks| && relid != 0
    requires Lookup(c.blocks[i], relid).Some? && Undisturbed(c, ops, i)
    ensures |Run(c, ops).blocks| == |c.blocks|
    ensures Capacity(Run(c, ops).blocks[i], relid) == Capacity(c.blocks[i], relid) - UsedUp(c, ops, i, relid)
    decreases |ops|
  {
    if ops != [] {
      StepKeeps(c, ops[0]);
      CapacityInCluster(c, ops[0], i, relid);
      CapacityRun(Step(c, ops[0]).0, ops[1..], i, relid);
    }
  }

  /** Settling an insert uses up one draw at most, and that only if the insert freed had
      drawn one. */
  lemma SettledOnce(c: Cluster, b: Block, op: Op, relid: nat)
    requires ValidOp(op) && Settles(op) && relid != 0
    ensures var b' := BlockStep(c, b, op).0; 0 <= Drawn(b, relid) - Drawn(b', relid) <= 1
  {
    var k := Oldest(b.inserts, op.relid, |b.inserts|);
    if k < |b.inserts| { DrawnAfter(b, k, FreePending, relid); }
  }
}
