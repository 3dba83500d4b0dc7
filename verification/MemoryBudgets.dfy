/** When a database goes over its residency budget, and the cluster's budgets over their
    ceiling: exactly when a fresh measurement, or a restored budget, does not fit. */
module MemoryBudgets {
  import opened Seqs
  import opened MemoryLedger
  import opened MemoryInvariants
  import opened MemoryRuns

  predicate WithinBudget(b: Block) { Committed(b) <= b.budget }

  /** The calls that record a size the graph already has, whatever the budget says. */
  predicate Remeasures(op: Op) { op.ReanchorInsertOp? || op.ReconcileResidentOp? }

  /* ---- one block ---- */

  lemma BuildStepWithin(c: Cluster, b: Block, op: Op)
    requires WellFormed(b) && ValidOp(op) && WithinBudget(b)
    requires op.ReserveBuildOp? || op.ConfirmBuildOp? || op.HandoffBuildOp? || op.AbortBuildOp?
    ensures WithinBudget(BlockStep(c, b, op).0)
  {
    var b' := BlockStep(c, b, op).0;
    var i, free := Find(b.table, op.relid), Find(b.table, 0);
    if i < |b.table| {
      PutSums(b, i, b'.table[i]);
    } else if free < |b.table| {
      PutSums(b, free, b'.table[free]);
    }
  }

  lemma LoadWithin(c: Cluster, b: Block, op: Op)
    requires WellFormed(b) && ValidOp(op) && WithinBudget(b) && op.ReconcileLoadOp?
    ensures WithinBudget(BlockStep(c, b, op).0)
  {
    var b' := BlockStep(c, b, op).0;
    var i, free := Find(b.table, op.relid), Find(b.table, 0);
    if i < |b.table| {
      PutSums(b, i, b'.table[i]);
    } else if free < |b.table| {
      PutSums(b, free, b'.table[free]);
    }
  }

  lemma SeedWithin(c: Cluster, b: Block, op: Op)
    requires WellFormed(b) && ValidOp(op) && WithinBudget(b) && op.SeedDurableOp?
    ensures WithinBudget(BlockStep(c, b, op).0)
  {
    LoadWithin(c, b, ReconcileLoadOp(op.dbOid, op.relid, op.durable, 0, op.now));
  }

  lemma ShrinkWithin(c: Cluster, b: Block, op: Op)
    requires WellFormed(b) && ValidOp(op) && WithinBudget(b) && (op.AccountUnloadOp? || op.CreditOp?)
    ensures WithinBudget(BlockStep(c, b, op).0)
  {
    var b', i := BlockStep(c, b, op).0, Find(b.table, op.relid);
    if i < |b.table| { PutSums(b, i, b'.table[i]); }
  }

  lemma ReserveInsertWithin(c: Cluster, b: Block, op: Op)
    requires WellFormed(b) && ValidOp(op) && WithinBudget(b) && op.ReserveInsertOp?
    ensures WithinBudget(BlockStep(c, b, op).0)
  {
    var (b', out) := BlockStep(c, b, op);
    var i, k := Find(b.table, op.relid), FindFreeInsert(b.inserts);
    if out == Answer(true) {
      var b1 := PutInsert(b, k, b'.inserts[k]);
      PutInsertSums(b, k, b'.inserts[k]);
      if i < |b.table| { PutSums(b1, i, b'.table[i]); }
    }
  }

  lemma EndInsertWithin(c: Cluster, b: Block, op: Op)
    requires WellFormed(b) && ValidOp(op) && WithinBudget(b) && (op.CloseInsertOp? || op.AbortInsertOp?)
    ensures WithinBudget(BlockStep(c, b, op).0)
  {
    var b' := BlockStep(c, b, op).0;
    var i := Find(b.table, op.relid);
    var k := if op.CloseInsertOp? then Oldest(b.inserts, op.relid, |b.inserts|)
             else FindInsertByOwner(b.inserts, op.relid, op.pid);
    if k < |b.inserts| {
      var b1 := PutInsert(b, k, FreePending);
      PutInsertSums(b, k, FreePending);
      if op.AbortInsertOp? && i < |b.table| { PutSums(b1, i, b'.table[i]); }
    }
  }

  lemma {:induction false} MapShrinks<T>(s: seq<T>, f: T -> T, size: T -> int)
    requires forall x :: x in s ==> size(f(x)) <= size(x)
    ensures Sum(Map(s, f), size) <= Sum(s, size)
  {
    if s != [] {
      assert s[0] in s;
      MapShrinks(s[1..], f, size);
      assert Map(s, f)[1..] == Map(s[1..], f);
    }
  }

  lemma CleanUpWithin(c: Cluster, b: Block, op: Op)
    requires WellFormed(b) && ValidOp(op) && WithinBudget(b) && (op.ReapOp? || op.DropStaleOp?)
    ensures WithinBudget(BlockStep(c, b, op).0)
  {
    match op
    case ReapOp(_, dead) =>
      forall r | r in b.table ensures ContributionOf(ReapRecordOf(dead)(r)) <= ContributionOf(r) {}
      MapShrinks(b.table, ReapRecordOf(dead), ContributionOf);
      MapShrinks(b.inserts, ReapPendingOf(dead), DeltaOf);
    case DropStaleOp(_, live) =>
      MapShrinks(b.table, DropIfStaleOf(live), ContributionOf);
  }

  /** No call but a fresh measurement takes a block that is within its budget over it. */
  lemma BlockStepWithin(c: Cluster, b: Block, op: Op)
    requires WellFormed(b) && ValidOp(op) && WithinBudget(b) && !Remeasures(op)
    ensures WithinBudget(BlockStep(c, b, op).0)
  {
    match op
    case ReserveBuildOp(_, _, _, _, _, _) => BuildStepWithin(c, b, op);
    case ConfirmBuildOp(_, _, _, _) => BuildStepWithin(c, b, op);
    case HandoffBuildOp(_, _) => BuildStepWithin(c, b, op);
    case AbortBuildOp(_, _) => BuildStepWithin(c, b, op);
    case ReconcileLoadOp(_, _, _, _, _) => LoadWithin(c, b, op);
    case SeedDurableOp(_, _, _, _) => SeedWithin(c, b, op);
    case AccountUnloadOp(_, _) => ShrinkWithin(c, b, op);
    case CreditOp(_, _, _, _) => ShrinkWithin(c, b, op);
    case ReserveInsertOp(_, _, _, _, _) => ReserveInsertWithin(c, b, op);
    case CloseInsertOp(_, _) => EndInsertWithin(c, b, op);
    case AbortInsertOp(_, _, _) => EndInsertWithin(c, b, op);
    case ReapOp(_, _) => CleanUpWithin(c, b, op);
    case DropStaleOp(_, _) => CleanUpWithin(c, b, op);
    case ReleaseSlotOp(_) => ResetKeeps(b, 0);
    case AdmitOp(_, _, _) => SumsNonNegative(b);
    case RestoreBudgetOp(_, _) => SumsNonNegative(b);
    case ReserveSlotOp(_) =>
  }

  /** What b will have committed once op has measured an index afresh: the new net size in
      place of the old, and for an insert its oldest pending reservation released. */
  function CommittedAfter(b: Block, op: Op): int
    requires Remeasures(op)
  {
    var i := Find(b.table, op.relid);
    if i == |b.table| then Committed(b)
    else if op.ReanchorInsertOp? then
      var k := Oldest(b.inserts, op.relid, |b.inserts|);
      Committed(b) - Contribution(b.table[i]) + Contribution(Remeasured(b.table[i], op.measured))
      - (if k < |b.inserts| then b.inserts[k].delta else 0)
    else if b.table[i].phase == Resident then Committed(b) - b.table[i].measured + op.measured
    else Committed(b)
  }

  /** The condition, read off the block before the call. */
  predicate MeasurementFits(b: Block, op: Op) {
    Remeasures(op) ==> CommittedAfter(b, op) <= b.budget
  }

  lemma ReanchorCommits(c: Cluster, b: Block, op: Op)
    requires ValidOp(op) && op.ReanchorInsertOp?
    ensures var b' := BlockStep(c, b, op).0; b'.budget == b.budget && Committed(b') == CommittedAfter(b, op)
  {
    var i, k := Find(b.table, op.relid), Oldest(b.inserts, op.relid, |b.inserts|);
    if i < |b.table| {
      var r := Remeasured(b.table[i], op.measured);
      PutSums(b, i, r);
      if k < |b.inserts| { PutInsertSums(Put(b, i, r), k, FreePending); }
    }
  }

  lemma ReconcileCommits(c: Cluster, b: Block, op: Op)
    requires ValidOp(op) && op.ReconcileResidentOp?
    ensures var b' := BlockStep(c, b, op).0; b'.budget == b.budget && Committed(b') == CommittedAfter(b, op)
  {
    var b', i := BlockStep(c, b, op).0, Find(b.table, op.relid);
    if i < |b.table| { PutSums(b, i, b'.table[i]); }
  }

  /** A database within its budget is still within it after a call if and only if the call
      is not a measurement, or is one that fits. */
  lemma StaysWithinExactly(c: Cluster, b: Block, op: Op)
    requires WellFormed(b) && ValidOp(op) && WithinBudget(b)
    ensures WithinBudget(BlockStep(c, b, op).0) <==> MeasurementFits(b, op)
  {
    if op.ReanchorInsertOp? {
      ReanchorCommits(c, b, op);
    } else if op.ReconcileResidentOp? {
      ReconcileCommits(c, b, op);
    } else {
      BlockStepWithin(c, b, op);
    }
  }

  /* ---- runs ---- */

  /** Every measurement of an index of block i fits at the point where it is made. */
  ghost predicate MeasurementsFit(c: Cluster, ops: seq<Op>, i: nat)
    requires i < |c.blocks|
    decreases |ops|
  {
    ops == [] ||
    ((Hits(c, ops[0], i) ==> MeasurementFits(c.blocks[i], ops[0])) && MeasurementsFit(Step(c, ops[0]).0, ops[1..], i))
  }

  /** Block i is within its budget after every step of the run. */
  ghost predicate AlwaysWithin(c: Cluster, ops: seq<Op>, i: nat)
    requires i < |c.blocks|
    decreases |ops|
  {
    WithinBudget(c.blocks[i]) && (ops == [] || AlwaysWithin(Step(c, ops[0]).0, ops[1..], i))
  }

  lemma StepStaysWithin(c: Cluster, op: Op, i: nat)
    requires WellFormedCluster(c) && ValidOp(op) && i < |c.blocks| && WithinBudget(c.blocks[i])
    ensures WithinBudget(Step(c, op).0.blocks[i]) <==> (Hits(c, op, i) ==> MeasurementFits(c.blocks[i], op))
  {
    StepOnBlock(c, op, i);
    if Hits(c, op, i) { StaysWithinExactly(c, c.blocks[i], op); }
  }

  /** Over any guarded run, a database that starts within its budget is within it all along
      if and only if every measurement of its indexes fits when it is made. */
  lemma {:induction false} RunWithinBudget(c: Cluster, ops: seq<Op>, i: nat)
    requires WellFormedCluster(c) && GuardedRun(c, ops) && i < |c.blocks| && WithinBudget(c.blocks[i])
    ensures AlwaysWithin(c, ops, i) <==> MeasurementsFit(c, ops, i)
    decreases |ops|
  {
    if ops != [] {
      var c' := Step(c, ops[0]).0;
      StepKeeps(c, ops[0]);
      StepStaysWithin(c, ops[0], i);
      if WithinBudget(c'.blocks[i]) { RunWithinBudget(c', ops[1..], i); }
    }
  }

  /** Being within the budget all along includes the end of the run. */
  lemma {:induction false} WithinAtEnd(c: Cluster, ops: seq<Op>, i: nat)
    requires i < |c.blocks| && AlwaysWithin(c, ops, i)
    ensures |Run(c, ops).blocks| == |c.blocks| && WithinBudget(Run(c, ops).blocks[i])
    decreases |ops|
  {
    if ops != [] { WithinAtEnd(Step(c, ops[0]).0, ops[1..], i); }
  }

  /** A measurement that does not fit is accepted all the same: any resident index found
      larger than the whole budget takes its database over it. */
  lemma MeasurementCanExceed(c: Cluster, b: Block, op: Op)
    requires WellFormed(b) && ValidOp(op) && op.ReconcileResidentOp? && Find(b.table, op.relid) < |b.table|
    requires b.table[Find(b.table, op.relid)].phase == Resident && op.measured > b.budget
    ensures BlockStep(c, b, op).1 == Answer(true) && !WithinBudget(BlockStep(c, b, op).0)
  {
    var b', i := BlockStep(c, b, op).0, Find(b.table, op.relid);
    SumsNonNegative(b');
    assert Contribution(b'.table[i]) == op.measured;
  }

  /* ---- the residency ceiling ---- */

  predicate BudgetsFit(c: Cluster) { BudgetTotal(c) <= c.residencyCeiling }

  /** The condition on a restored budget, read off the cluster before the call: it is
      raised to what the database really holds, and must fit in place of the old one. */
  predicate RestoreFits(c: Cluster, op: Op) {
    var i := FindBlock(c.blocks, op.dbOid);
    op.RestoreBudgetOp? && i < |c.blocks| ==>
      BudgetTotal(c) - c.blocks[i].budget + Max(op.priorBudget, Usage(c.blocks[i])) <= c.residencyCeiling
  }

  lemma BlockBudgetStep(c: Cluster, b: Block, op: Op)
    requires !op.RestoreBudgetOp?
    ensures var b' := BlockStep(c, b, op).0;
      b'.budget <= b.budget || BudgetTotal(c) - b.budget + b'.budget <= c.residencyCeiling
  {}

  lemma SameBudgets(c: Cluster, k: nat, b: Block)
    requires k < |c.blocks|
    ensures BudgetTotal(c.(blocks := c.blocks[k := b])) == BudgetTotal(c) - c.blocks[k].budget + b.budget
  {
    SumUpdate(c.blocks, k, b, BudgetOf);
  }

  /** Budgets that fit under the residency ceiling still do after a call if and only if the
      call does not restore a budget, or restores one that fits. */
  lemma BudgetsFitExactly(c: Cluster, op: Op)
    requires BudgetsFit(c)
    ensures BudgetsFit(Step(c, op).0) <==> RestoreFits(c, op)
    ensures Step(c, op).0.residencyCeiling == c.residencyCeiling
  {
    var i, free := FindBlock(c.blocks, op.dbOid), FindBlock(c.blocks, 0);
    if i < |c.blocks| {
      SameBudgets(c, i, BlockStep(c, c.blocks[i], op).0);
      if op.RestoreBudgetOp? {
        SumsNonNegative(c.blocks[i]);
      } else {
        BlockBudgetStep(c, c.blocks[i], op);
      }
    } else if free < |c.blocks| {
      SameBudgets(c, free, c.blocks[free].(dbOid := op.dbOid));
    }
  }

  ghost predicate RestoresFit(c: Cluster, ops: seq<Op>)
    decreases |ops|
  {
    ops == [] || (RestoreFits(c, ops[0]) && RestoresFit(Step(c, ops[0]).0, ops[1..]))
  }

  ghost predicate BudgetsAlwaysFit(c: Cluster, ops: seq<Op>)
    decreases |ops|
  {
    BudgetsFit(c) && (ops == [] || BudgetsAlwaysFit(Step(c, ops[0]).0, ops[1..]))
  }

  /** Over any run, budgets that start under the residency ceiling are under it all along if
      and only if every restored budget fits when it is restored. */
  lemma {:induction false} RunBudgetsFit(c: Cluster, ops: seq<Op>)
    requires BudgetsFit(c)
    ensures BudgetsAlwaysFit(c, ops) <==> RestoresFit(c, ops)
    decreases |ops|
  {
    if ops != [] {
      var c' := Step(c, ops[0]).0;
      BudgetsFitExactly(c, ops[0]);
      if BudgetsFit(c') { RunBudgetsFit(c', ops[1..]); }
    }
  }

  /* ---- a restored budget that does not fit ---- */

  /** Two enrolled databases that hold nothing, with these budgets. */
  datatype Pair = Pair(indexes: nat, pending: nat, a: nat, b: nat, ceiling: nat)

  function Empty(p: Pair, db: nat, budget: nat): Block { FreeBlock(db, p.indexes, p.pending, 0).(budget := budget) }

  function Both(p: Pair, forA: nat, forB: nat): Cluster {
    Cluster([Empty(p, p.a, forA), Empty(p, p.b, forB)], 0, p.ceiling, 50)
  }

  predicate TwoDatabases(p: Pair) { p.a != 0 && p.b != 0 && p.a != p.b }

  lemma EmptyHoldsNothing(p: Pair, db: nat, budget: nat)
    ensures Usage(Empty(p, db, budget)) == 0
  {
    FreeBlockSums(db, p.indexes, p.pending, 0);
    FreeSum(p.indexes, FreeRecord, ReclaimableOf);
  }

  lemma BothTotal(p: Pair, forA: nat, forB: nat)
    ensures BudgetTotal(Both(p, forA, forB)) == forA + forB
  {
    SumPair(Empty(p, p.a, forA), Empty(p, p.b, forB), BudgetOf);
  }

  lemma BothFind(p: Pair, forA: nat, forB: nat)
    requires TwoDatabases(p)
    ensures FindBlock(Both(p, forA, forB).blocks, p.a) == 0 && FindBlock(Both(p, forA, forB).blocks, p.b) == 1
  {
    var bs := Both(p, forA, forB).blocks;
    assert bs[1..] == [bs[1]];
  }

  /** Admitting either database at a budget that fits is accepted. */
  lemma AdmitEither(p: Pair, forA: nat, forB: nat, budget: nat)
    requires TwoDatabases(p) && budget > 0
    ensures budget + forB <= p.ceiling ==>
      Step(Both(p, forA, forB), AdmitOp(p.a, budget, 0)) == (Both(p, budget, forB), Answer(true))
    ensures forA + budget <= p.ceiling ==>
      Step(Both(p, forA, forB), AdmitOp(p.b, budget, 0)) == (Both(p, forA, budget), Answer(true))
  {
    var bs := Both(p, forA, forB).blocks;
    BothFind(p, forA, forB);
    BothTotal(p, forA, forB);
    EmptyHoldsNothing(p, p.a, forA);
    EmptyHoldsNothing(p, p.b, forB);
    assert bs[0 := Empty(p, p.a, budget)] == Both(p, budget, forB).blocks;
    assert bs[1 := Empty(p, p.b, budget)] == Both(p, forA, budget).blocks;
  }

  lemma RestoreFirst(p: Pair, forA: nat, forB: nat, prior: nat)
    requires TwoDatabases(p)
    ensures Step(Both(p, forA, forB), RestoreBudgetOp(p.a, prior)) == (Both(p, prior, forB), Answer(true))
  {
    var bs := Both(p, forA, forB).blocks;
    BothFind(p, forA, forB);
    EmptyHoldsNothing(p, p.a, forA);
    assert bs[0 := Empty(p, p.a, prior)] == Both(p, prior, forB).blocks;
  }

  /** Lower one database's budget, admit another into the room that makes, and put the old
      budget back: every call is accepted, and the budgets end up over the ceiling. */
  lemma RestoreCanExceed(p: Pair, prior: nat, lowered: nat)
    requires TwoDatabases(p) && 0 < lowered < prior <= p.ceiling
    ensures var room := p.ceiling - lowered;
      && Step(Both(p, 0, 0), AdmitOp(p.a, prior, 0)) == (Both(p, prior, 0), Answer(true))
      && Step(Both(p, prior, 0), AdmitOp(p.a, lowered, 0)) == (Both(p, lowered, 0), Answer(true))
      && Step(Both(p, lowered, 0), AdmitOp(p.b, room, 0)) == (Both(p, lowered, room), Answer(true))
      && Step(Both(p, lowered, room), RestoreBudgetOp(p.a, prior)) == (Both(p, prior, room), Answer(true))
      && BudgetsFit(Both(p, lowered, room)) && !BudgetsFit(Both(p, prior, room))
  {
    var room := p.ceiling - lowered;
    AdmitEither(p, 0, 0, prior);
    AdmitEither(p, prior, 0, lowered);
    AdmitEither(p, lowered, 0, room);
    RestoreFirst(p, lowered, room, prior);
    BothTotal(p, lowered, room);
    BothTotal(p, prior, room);
  }
}
