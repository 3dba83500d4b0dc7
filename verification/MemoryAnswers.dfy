/** What the ledger's calls answer and when, in terms of the records, sums and limits a
    caller could look up beforehand; and that a refused call changes nothing. */
module MemoryAnswers {
  import opened Common
  import opened Seqs
  import opened MemoryLedger
  import opened MemoryInvariants
  import opened MemoryRuns

  /** Some slot of the table is free. */
  predicate HasRoom(b: Block) { exists i :: 0 <= i < |b.table| && b.table[i].relid == 0 }

  predicate HasInsertRoom(b: Block) { exists i :: 0 <= i < |b.inserts| && b.inserts[i].relid == 0 }

  /** What the index holds now, which a new size for it would replace. */
  function Held(r: Option<Record>): nat {
    if r.None? then 0
    else if r.value.phase == Reserved then r.value.estimate
    else if r.value.phase == Rebuilding then r.value.prior
    else r.value.measured
  }

  lemma HeldIs(b: Block, relid: nat)
    requires relid != 0
    ensures Lookup(b, relid).Some? ==> Contribution(Lookup(b, relid).value) == Held(Lookup(b, relid))
  {}

  lemma RoomIs(b: Block)
    ensures HasRoom(b) <==> Find(b.table, 0) < |b.table|
    ensures HasInsertRoom(b) <==> FindFreeInsert(b.inserts) < |b.inserts|
  {
    if Find(b.table, 0) < |b.table| { assert b.table[Find(b.table, 0)].relid == 0; }
    if FindFreeInsert(b.inserts) < |b.inserts| { assert b.inserts[FindFreeInsert(b.inserts)].relid == 0; }
  }

  /* ---- builds ---- */

  /** A build is reserved if and only if the database has a budget, the index has no build
      under way, the estimate fits the budget in place of what the index holds, there is a
      slot for it, and its peak fits what the whole cluster may use for builds. */
  lemma ReserveBuildAnswers(c: Cluster, b: Block, op: Op)
    requires op.ReserveBuildOp? && ValidOp(op)
    ensures var r, out := Lookup(b, op.relid), BlockStep(c, b, op).1;
      && (out.Raised? || out == Answer(true))
      && (out == Answer(true) <==>
          && b.budget > 0 && (r.Some? ==> r.value.phase == Resident)
          && Committed(b) - Held(r) + op.estimate <= b.budget
          && (r.Some? || HasRoom(b)) && BuildTotal(c) + op.peak <= c.buildCeiling)
      && (out.Raised? ==>
          match out.error
          case NotAdmitted => b.budget == 0
          case AlreadyReserved => r.Some? && r.value.phase != Resident
          case OverBudget => Committed(b) - Held(r) + op.estimate > b.budget
          case TableFull => r.None? && !HasRoom(b)
          case OverBuildCeiling => BuildTotal(c) + op.peak > c.buildCeiling
          case _ => false)
  {
    RoomIs(b);
  }

  /** A build under way is confirmed if and only if its measured size fits the budget in
      place of what was held for it; any other record, or none, is an error. */
  lemma ConfirmBuildAnswers(c: Cluster, b: Block, op: Op)
    requires op.ConfirmBuildOp? && ValidOp(op)
    ensures var r, out := Lookup(b, op.relid), BlockStep(c, b, op).1;
      if r.None? then out == Raised(NoReservation)
      else if r.value.phase != Reserved && r.value.phase != Rebuilding then out == Raised(NotPending)
      else out == Answer(Committed(b) - Held(r) + op.measured <= b.budget)
  {
    HeldIs(b, op.relid);
  }

  lemma FinishBuildAnswers(c: Cluster, b: Block, op: Op)
    requires (op.HandoffBuildOp? || op.AbortBuildOp?) && ValidOp(op)
    ensures var r, out := Lookup(b, op.relid), BlockStep(c, b, op).1;
      if op.AbortBuildOp? then out == Answer(true)
      else if r.None? then out == Raised(NoReservation)
      else out == if r.value.phase == Confirmed then Answer(true) else Raised(NotConfirmed)
  {}

  /* ---- residency ---- */

  /** A load is accepted if and only if the database has a budget, the size fits it in place
      of what the index holds, and there is a slot for it; a seed of an index that already
      has a record is accepted and does nothing. */
  lemma LoadAnswers(c: Cluster, b: Block, op: Op)
    requires (op.ReconcileLoadOp? || op.SeedDurableOp?) && ValidOp(op)
    ensures var r, out := Lookup(b, op.relid), BlockStep(c, b, op).1;
      var size := if op.SeedDurableOp? then op.durable else op.measured;
      if op.SeedDurableOp? && r.Some? then out == Answer(true)
      else if b.budget == 0 then out == Raised(NotAdmitted)
      else if Committed(b) - Held(r) + size > b.budget then out == Answer(false)
      else if r.None? && !HasRoom(b) then out == Raised(TableFull)
      else out == Answer(true)
  {
    RoomIs(b);
    HeldIs(b, op.relid);
  }

  /** A measurement of an insert answers by how much the index has grown beyond its last raw
      size, and the generation it was measured at. */
  lemma MeasurementAnswers(c: Cluster, b: Block, op: Op)
    requires (op.ReanchorInsertOp? || op.ReconcileResidentOp? || op.AccountUnloadOp?) && ValidOp(op)
    ensures var r, out := Lookup(b, op.relid), BlockStep(c, b, op).1;
      if op.AccountUnloadOp? then out == Answer(r.Some?)
      else if r.None? then out == Raised(NoReservation)
      else if op.ReconcileResidentOp? then
        out == if r.value.phase == Resident then Answer(true) else Raised(NotResident)
      else
        out == Reanchored(Max(0, op.measured - r.value.measured - r.value.reclaimable), r.value.generation)
  {}

  /** A credit asks for a compaction if and only if it applies and the reclaimable bytes of
      the database then exceed the configured percentage of its budget. */
  lemma CreditAnswers(c: Cluster, b: Block, op: Op)
    requires op.CreditOp? && ValidOp(op)
    ensures var (b', out) := BlockStep(c, b, op); var r := Lookup(b, op.relid);
      var applies := r.Some? && r.value.phase == Resident && r.value.generation == op.generation && c.compactPct < 100;
      out == Answer(applies && 100 * ReclaimableTotal(b') > b.budget * c.compactPct)
  {
    var b' := BlockStep(c, b, op).0;
    PercentIs(ReclaimableTotal(b'), b.budget * c.compactPct);
  }

  lemma PercentIs(x: int, y: int)
    requires y >= 0
    ensures x > y / 100 <==> 100 * x > y
  {}

  /* ---- inserts ---- */

  /** An insert is reserved if and only if the database has a budget, the bytes fit it, or
      the index has spare capacity that makes them free, and there is a slot for it. */
  lemma ReserveInsertAnswers(c: Cluster, b: Block, op: Op)
    requires op.ReserveInsertOp? && ValidOp(op)
    ensures var r, out := Lookup(b, op.relid), BlockStep(c, b, op).1;
      var bytes := if r.Some? && r.value.headroom > 0 then 0 else op.delta;
      if b.budget == 0 then out == Raised(NotAdmitted)
      else if Committed(b) + bytes > b.budget then out == Answer(false)
      else out == if HasInsertRoom(b) then Answer(true) else Raised(InsertSlotsFull)
  {
    RoomIs(b);
  }

  lemma AbortInsertAnswers(c: Cluster, b: Block, op: Op)
    requires op.AbortInsertOp? && ValidOp(op)
    ensures BlockStep(c, b, op).1 ==
      Answer(exists i :: 0 <= i < |b.inserts| && b.inserts[i].relid == op.relid && b.inserts[i].ownerPid == op.pid)
  {
    var k := FindInsertByOwner(b.inserts, op.relid, op.pid);
    if k < |b.inserts| { assert b.inserts[k].relid == op.relid && b.inserts[k].ownerPid == op.pid; }
  }

  /* ---- budgets ---- */

  /** A budget is admitted if and only if it is positive, covers what the database holds and
      its durable floor, and fits under the ceiling in place of the old one; a budget put
      back is raised to what the database holds. No other call changes a budget, but for
      the release of the block. */
  lemma BudgetAnswers(c: Cluster, b: Block, op: Op)
    requires ValidOp(op)
    ensures var (b', out) := BlockStep(c, b, op); var usage := Committed(b) + ReclaimableTotal(b);
      match op
      case AdmitOp(_, budget, durableFloor) =>
        && (out == Answer(true) || out.Raised?)
        && (out == Answer(true) <==>
            && budget > 0 && budget >= usage && budget >= durableFloor
            && BudgetTotal(c) - b.budget + budget <= c.residencyCeiling)
        && b'.budget == (if out == Answer(true) then budget else b.budget)
        && (out.Raised? ==>
            match out.error
            case ZeroBudget => budget == 0
            case BelowCommitted => budget < usage || budget < durableFloor
            case OverResidencyCeiling => BudgetTotal(c) - b.budget + budget > c.residencyCeiling
            case _ => false)
      case RestoreBudgetOp(_, prior) => b'.budget == Max(prior, usage) && out == Answer(true)
      case ReleaseSlotOp(_) => b'.budget == 0 && out == Answer(true)
      case _ => b'.budget == b.budget
  {
    SumsNonNegative(b);
  }

  /* ---- clean-ups ---- */

  /** Dropping stale residency frees exactly the resident indexes that are no longer live. */
  lemma DropStaleExactly(c: Cluster, b: Block, op: Op, relid: nat)
    requires WellFormed(b) && ValidOp(op) && op.DropStaleOp? && relid != 0
    ensures var r, r' := Lookup(b, relid), Lookup(BlockStep(c, b, op).0, relid);
      r' == if r.Some? && r.value.phase == Resident && relid !in op.live then None else r
  {
    StepFollows(c, b, op, relid);
  }

  /** Reaping gives up exactly the builds whose owner has died: a first build disappears, a
      rebuild leaves the index resident as it was. */
  lemma ReapExactly(c: Cluster, b: Block, op: Op, relid: nat)
    requires WellFormed(b) && ValidOp(op) && op.ReapOp? && relid != 0
    ensures var r, r' := Lookup(b, relid), Lookup(BlockStep(c, b, op).0, relid);
      var dies := r.Some? && r.value.ownerPid != 0 && (r.value.ownerPid, r.value.reservedAt) in op.dead;
      if dies && r.value.phase == Reserved then r' == None
      else if dies && r.value.phase == Rebuilding then
        r' == Some(r.value.(phase := Resident, measured := r.value.prior, prior := 0, ownerPid := 0, peak := 0))
      else r' == r
  {
    StepFollows(c, b, op, relid);
  }

  /* ---- refusals ---- */

  /** A call that raises an error changes nothing, nor does one that answers no, except a
      build rejected at its confirmation, which gives its record up, and a credit, whose no
      only means that no compaction is called for. */
  lemma RefusedChangesNothing(c: Cluster, op: Op)
    ensures var (c', out) := Step(c, op);
      out.Raised? || (out == Answer(false) && !op.ConfirmBuildOp? && !op.CreditOp?) ==> c' == c
  {
    var i := FindBlock(c.blocks, op.dbOid);
    if i < |c.blocks| {
      RefusedBlock(c, c.blocks[i], op);
      assert c.blocks[i := c.blocks[i]] == c.blocks;
    }
  }

  lemma RefusedBlock(c: Cluster, b: Block, op: Op)
    ensures var (b', out) := BlockStep(c, b, op);
      out.Raised? || (out == Answer(false) && !op.ConfirmBuildOp? && !op.CreditOp?) ==> b' == b
  {}

  /** A call on a database without a control block: the block is claimed by the one call
      that asks for it, if any is free; the calls made on behalf of a database that may be
      gone say no, and the others raise an error. */
  lemma UnknownDatabase(c: Cluster, op: Op)
    requires ValidOp(op) && forall i :: 0 <= i < |c.blocks| ==> c.blocks[i].dbOid != op.dbOid
    ensures var (c', out) := Step(c, op);
      if op.ReserveSlotOp? && exists i :: 0 <= i < |c.blocks| && c.blocks[i].dbOid == 0 then
        && out == Answer(true)
        && exists i :: 0 <= i < |c.blocks| && c.blocks[i].dbOid == 0
                       && c' == c.(blocks := c.blocks[i := c.blocks[i].(dbOid := op.dbOid)])
      else
        && c' == c
        && out == if op.RestoreBudgetOp? || op.CreditOp? || op.ReapOp? || op.ReleaseSlotOp? then Answer(false)
                  else Raised(NoSlot)
  {
    var i := FindBlock(c.blocks, 0);
    if i < |c.blocks| { assert c.blocks[i].dbOid == 0; }
  }
}
