/** What every step of the ledger keeps. */
module MemoryInvariants {
  import opened Common
  import opened Seqs
  import opened MemoryLedger

  /* ---- sums under one update ---- */

  lemma PutSums(b: Block, i: nat, r: Record)
    requires i < |b.table|
    ensures Committed(Put(b, i, r)) == Committed(b) - Contribution(b.table[i]) + Contribution(r)
    ensures Peaks(Put(b, i, r)) == Peaks(b) - Peak(b.table[i]) + Peak(r)
    ensures ReclaimableTotal(Put(b, i, r)) == ReclaimableTotal(b) - Reclaimable(b.table[i]) + Reclaimable(r)
  {
    SumUpdate(b.table, i, r, ContributionOf);
    SumUpdate(b.table, i, r, PeakOf);
    SumUpdate(b.table, i, r, ReclaimableOf);
  }

  lemma PutInsertSums(b: Block, i: nat, p: Pending)
    requires i < |b.inserts|
    ensures Committed(PutInsert(b, i, p)) == Committed(b) - Delta(b.inserts[i]) + Delta(p)
    ensures Peaks(PutInsert(b, i, p)) == Peaks(b)
    ensures ReclaimableTotal(PutInsert(b, i, p)) == ReclaimableTotal(b)
  {
    SumUpdate(b.inserts, i, p, DeltaOf);
  }

  lemma SumsNonNegative(b: Block)
    ensures Committed(b) >= 0 && Peaks(b) >= 0 && ReclaimableTotal(b) >= 0
    ensures forall i :: 0 <= i < |b.table| ==> Contribution(b.table[i]) <= Sum(b.table, ContributionOf)
    ensures forall i :: 0 <= i < |b.table| ==> Contribution(b.table[i]) <= Committed(b) && Peak(b.table[i]) <= Peaks(b)
    ensures forall i :: 0 <= i < |b.inserts| ==> Delta(b.inserts[i]) <= Sum(b.inserts, DeltaOf) <= Committed(b)
  {
    SumNonNegative(b.table, ContributionOf);
    SumNonNegative(b.table, PeakOf);
    SumNonNegative(b.table, ReclaimableOf);
    SumNonNegative(b.inserts, DeltaOf);
    forall i | 0 <= i < |b.table|
      ensures Contribution(b.table[i]) <= Sum(b.table, ContributionOf) && Peak(b.table[i]) <= Peaks(b)
    {
      assert b.table[i] in b.table;
      assert ContributionOf(b.table[i]) <= Sum(b.table, ContributionOf);
      assert PeakOf(b.table[i]) <= Sum(b.table, PeakOf);
    }
    forall i | 0 <= i < |b.inserts| ensures Delta(b.inserts[i]) <= Sum(b.inserts, DeltaOf) {
      assert b.inserts[i] in b.inserts;
      assert DeltaOf(b.inserts[i]) <= Sum(b.inserts, DeltaOf);
    }
  }

  /* ---- every step keeps the block well formed ---- */

  lemma PutKeeps(b: Block, i: nat, r: Record)
    requires WellFormed(b) && i < |b.table| && PhaseFields(r) && (r.relid == 0 ==> r == FreeRecord)
    requires r.relid == 0 || r.relid == b.table[i].relid || Find(b.table, r.relid) == |b.table|
    ensures WellFormed(Put(b, i, r))
  {}

  lemma PutInsertKeeps(b: Block, i: nat, p: Pending)
    requires WellFormed(b) && i < |b.inserts| && (p.relid == 0 ==> p == FreePending)
    ensures WellFormed(PutInsert(b, i, p))
  {}

  lemma ReserveBuildKeeps(b: Block, relid: nat, peak: nat, estimate: nat, pid: int, now: int, total: int, ceiling: nat)
    requires WellFormed(b) && relid != 0
    ensures var (b', out) := ReserveBuild(b, relid, peak, estimate, pid, now, total, ceiling);
      && WellFormed(b')
      && (out == Answer(true) ==> Peaks(b') == Peaks(b) + peak && total + peak <= ceiling)
      && (out != Answer(true) ==> b' == b)
  {
    var (b', out) := ReserveBuild(b, relid, peak, estimate, pid, now, total, ceiling);
    if out == Answer(true) {
      var i := Find(b.table, relid);
      var k := if i < |b.table| then i else Find(b.table, 0);
      PutKeeps(b, k, b'.table[k]);
      PutSums(b, k, b'.table[k]);
      assert b' == Put(b, k, b'.table[k]);
    }
  }

  lemma ConfirmBuildKeeps(b: Block, relid: nat, measured: nat)
    requires WellFormed(b) && relid != 0
    ensures var b' := ConfirmBuild(b, relid, measured).0; WellFormed(b') && Peaks(b') <= Peaks(b)
  {
    var (b', out) := ConfirmBuild(b, relid, measured);
    var i := Find(b.table, relid);
    if i < |b.table| && out.Answer? {
      PutKeeps(b, i, b'.table[i]);
      PutSums(b, i, b'.table[i]);
    }
  }

  lemma AbortBuildKeeps(b: Block, relid: nat)
    requires WellFormed(b) && relid != 0
    ensures var b' := AbortBuild(b, relid).0; WellFormed(b') && Peaks(b') <= Peaks(b)
  {
    var b' := AbortBuild(b, relid).0;
    var i := Find(b.table, relid);
    if i < |b.table| {
      PutKeeps(b, i, b'.table[i]);
      PutSums(b, i, b'.table[i]);
    }
  }

  lemma ReconcileLoadKeeps(b: Block, relid: nat, measured: nat, headroom: nat, now: int)
    requires WellFormed(b) && relid != 0
    ensures var b' := ReconcileLoad(b, relid, measured, headroom, now).0; WellFormed(b') && Peaks(b') <= Peaks(b)
  {
    var (b', out) := ReconcileLoad(b, relid, measured, headroom, now);
    if out == Answer(true) {
      var i := Find(b.table, relid);
      var k := if i < |b.table| then i else Find(b.table, 0);
      PutKeeps(b, k, b'.table[k]);
      PutSums(b, k, b'.table[k]);
    }
  }

  lemma ReserveInsertKeeps(b: Block, relid: nat, delta: nat, pid: int, now: int)
    requires WellFormed(b) && relid != 0
    ensures var b' := ReserveInsert(b, relid, delta, pid, now).0; WellFormed(b') && Peaks(b') == Peaks(b)
  {
    var (b', out) := ReserveInsert(b, relid, delta, pid, now);
    if out == Answer(true) {
      var k, i := FindFreeInsert(b.inserts), Find(b.table, relid);
      var b1 := PutInsert(b, k, b'.inserts[k]);
      PutInsertKeeps(b, k, b'.inserts[k]);
      PutInsertSums(b, k, b'.inserts[k]);
      if i < |b.table| && b.table[i].headroom > 0 {
        PutKeeps(b1, i, b'.table[i]);
        PutSums(b1, i, b'.table[i]);
      }
    }
  }

  lemma ReleaseOldestKeeps(b: Block, relid: nat)
    requires WellFormed(b)
    ensures var b' := ReleaseOldest(b, relid); WellFormed(b') && Peaks(b') == Peaks(b) && b'.table == b.table
  {
    var k := Oldest(b.inserts, relid, |b.inserts|);
    if k < |b.inserts| {
      PutInsertKeeps(b, k, FreePending);
      PutInsertSums(b, k, FreePending);
    }
  }

  lemma ReanchorInsertKeeps(b: Block, relid: nat, measured: nat)
    requires WellFormed(b) && relid != 0 && BlockGuard(b, ReanchorInsertOp(b.dbOid, relid, measured))
    ensures var b' := ReanchorInsert(b, relid, measured).0; WellFormed(b') && Peaks(b') == Peaks(b)
  {
    var i := Find(b.table, relid);
    if i < |b.table| {
      var r' := Remeasured(b.table[i], measured);
      PutKeeps(b, i, r');
      PutSums(b, i, r');
      ReleaseOldestKeeps(Put(b, i, r'), relid);
    }
  }

  lemma AbortInsertKeeps(b: Block, relid: nat, pid: int)
    requires WellFormed(b) && relid != 0
    ensures var b' := AbortInsert(b, relid, pid).0; WellFormed(b') && Peaks(b') == Peaks(b)
  {
    var k, i := FindInsertByOwner(b.inserts, relid, pid), Find(b.table, relid);
    if k < |b.inserts| {
      var b1 := PutInsert(b, k, FreePending);
      PutInsertKeeps(b, k, FreePending);
      PutInsertSums(b, k, FreePending);
      if b.inserts[k].usedHeadroom && i < |b.table| {
        var r := b.table[i].(headroom := b.table[i].headroom + 1);
        PutKeeps(b1, i, r);
        PutSums(b1, i, r);
      }
    }
  }

  lemma CreditKeeps(b: Block, relid: nat, generation: nat, growth: nat, pct: nat)
    requires WellFormed(b) && relid != 0
    ensures var b' := CreditAbortedInserts(b, relid, generation, growth, pct).0; WellFormed(b') && Peaks(b') == Peaks(b)
  {
    var b' := CreditAbortedInserts(b, relid, generation, growth, pct).0;
    var i := Find(b.table, relid);
    if CreditApplies(b, relid, generation, pct) {
      PutKeeps(b, i, b'.table[i]);
      PutSums(b, i, b'.table[i]);
    }
  }

  /** What a per-record clean-up may do: keep the record's index or free the slot. */
  ghost predicate CleansUp(r: Record, r': Record) {
    && (PhaseFields(r) ==> PhaseFields(r'))
    && (r'.relid == r.relid || r' == FreeRecord)
    && (r.relid == 0 ==> r' == r)
    && Peak(r') <= Peak(r)
  }

  lemma CleanUpKeeps(b: Block, f: Record -> Record, inserts: seq<Pending>)
    requires WellFormed(b) && forall r :: r in b.table ==> CleansUp(r, f(r))
    requires |inserts| == |b.inserts|
    requires forall i :: 0 <= i < |inserts| && inserts[i].relid == 0 ==> inserts[i] == FreePending
    ensures var b' := b.(table := Map(b.table, f), inserts := inserts); WellFormed(b') && Peaks(b') <= Peaks(b)
  {
    var b' := b.(table := Map(b.table, f), inserts := inserts);
    forall i | 0 <= i < |b.table|
      ensures PhaseFields(b'.table[i]) && (b'.table[i].relid == 0 ==> b'.table[i] == FreeRecord)
      ensures b'.table[i].relid == b.table[i].relid || b'.table[i].relid == 0
    {
      assert b.table[i] in b.table;
    }
    var peakAfter := (r: Record) => Peak(f(r));
    SumMap(b.table, f, PeakOf, peakAfter);
    SumAtMost(b.table, peakAfter, PeakOf);
  }

  lemma ReapKeeps(b: Block, dead: set<(int, int)>)
    requires WellFormed(b)
    ensures var b' := Reap(b, dead); WellFormed(b') && Peaks(b') <= Peaks(b)
  {
    CleanUpKeeps(b, ReapRecordOf(dead), Map(b.inserts, ReapPendingOf(dead)));
  }

  lemma DropStaleKeeps(b: Block, live: set<nat>)
    requires WellFormed(b)
    ensures var b' := DropStale(b, live); WellFormed(b') && Peaks(b') <= Peaks(b)
  {
    CleanUpKeeps(b, DropIfStaleOf(live), b.inserts);
  }

  lemma {:induction false} FreeSum<T>(n: nat, x: T, f: T -> int)
    requires f(x) == 0
    ensures Sum(seq(n, _ => x), f) == 0
  {
    if n > 0 {
      FreeSum(n - 1, x, f);
      assert seq(n, _ => x)[1..] == seq(n - 1, _ => x);
    }
  }

  lemma FreeBlockSums(dbOid: nat, indexes: nat, pending: nat, nextGeneration: nat)
    ensures var b := FreeBlock(dbOid, indexes, pending, nextGeneration);
      && Peaks(b) == 0 && Committed(b) == 0
      && (indexes == MAX_INDEXES && pending == MAX_PENDING_INSERTS ==> WellFormed(b))
  {
    FreeSum(indexes, FreeRecord, PeakOf);
    FreeSum(indexes, FreeRecord, ContributionOf);
    FreeSum(pending, FreePending, DeltaOf);
  }

  lemma ResetKeeps(b: Block, dbOid: nat)
    requires WellFormed(b)
    ensures WellFormed(Reset(b, dbOid)) && Peaks(Reset(b, dbOid)) == 0 && Committed(Reset(b, dbOid)) == 0
  {
    FreeBlockSums(dbOid, |b.table|, |b.inserts|, b.nextGeneration);
  }

  /** What a step must leave behind: a well-formed block, and no peak past the ceiling. */
  ghost predicate KeepsBlock(c: Cluster, b: Block, op: Op) {
    var b' := BlockStep(c, b, op).0;
    && WellFormed(b')
    && (Peaks(b') <= Peaks(b) || BuildTotal(c) + Peaks(b') - Peaks(b) <= c.buildCeiling)
    && b'.dbOid == (if op.ReleaseSlotOp? then 0 else b.dbOid)
  }

  lemma BuildStepKeeps(c: Cluster, b: Block, op: Op)
    requires WellFormed(b) && ValidOp(op)
    requires op.ReserveBuildOp? || op.ConfirmBuildOp? || op.HandoffBuildOp? || op.AbortBuildOp?
    ensures KeepsBlock(c, b, op)
  {
    match op
    case ReserveBuildOp(_, relid, peak, estimate, pid, now) =>
      ReserveBuildKeeps(b, relid, peak, estimate, pid, now, BuildTotal(c), c.buildCeiling);
    case ConfirmBuildOp(_, relid, _, measured) => ConfirmBuildKeeps(b, relid, measured);
    case AbortBuildOp(_, relid) => AbortBuildKeeps(b, relid);
    case HandoffBuildOp(_, relid) =>
      var i := Find(b.table, relid);
      if i < |b.table| && b.table[i].phase == Confirmed {
        PutKeeps(b, i, b.table[i].(phase := Handoff));
        PutSums(b, i, b.table[i].(phase := Handoff));
      }
  }

  lemma ResidentStepKeeps(c: Cluster, b: Block, op: Op)
    requires WellFormed(b) && ValidOp(op)
    requires op.ReconcileLoadOp? || op.SeedDurableOp? || op.AccountUnloadOp? || op.ReconcileResidentOp?
    ensures KeepsBlock(c, b, op)
  {
    match op
    case ReconcileLoadOp(_, relid, measured, headroom, now) => ReconcileLoadKeeps(b, relid, measured, headroom, now);
    case SeedDurableOp(_, relid, durable, now) => ReconcileLoadKeeps(b, relid, durable, 0, now);
    case AccountUnloadOp(_, relid) =>
      var i := Find(b.table, relid);
      if i < |b.table| {
        PutKeeps(b, i, FreeRecord);
        PutSums(b, i, FreeRecord);
      }
    case ReconcileResidentOp(_, relid, measured, set_, headroom) =>
      var i := Find(b.table, relid);
      if i < |b.table| && b.table[i].phase == Resident {
        var r := ReconcileResident(b, relid, measured, set_, headroom).0.table[i];
        PutKeeps(b, i, r);
        PutSums(b, i, r);
      }
  }

  lemma BlockStepKeeps(c: Cluster, b: Block, op: Op)
    requires WellFormed(b) && ValidOp(op) && BlockGuard(b, op)
    ensures KeepsBlock(c, b, op)
  {
    match op
    case ReserveBuildOp(_, _, _, _, _, _) => BuildStepKeeps(c, b, op);
    case ConfirmBuildOp(_, _, _, _) => BuildStepKeeps(c, b, op);
    case HandoffBuildOp(_, _) => BuildStepKeeps(c, b, op);
    case AbortBuildOp(_, _) => BuildStepKeeps(c, b, op);
    case ReconcileLoadOp(_, _, _, _, _) => ResidentStepKeeps(c, b, op);
    case SeedDurableOp(_, _, _, _) => ResidentStepKeeps(c, b, op);
    case AccountUnloadOp(_, _) => ResidentStepKeeps(c, b, op);
    case ReconcileResidentOp(_, _, _, _, _) => ResidentStepKeeps(c, b, op);
    case ReserveInsertOp(_, relid, delta, pid, now) => ReserveInsertKeeps(b, relid, delta, pid, now);
    case ReanchorInsertOp(_, relid, measured) => ReanchorInsertKeeps(b, relid, measured);
    case CloseInsertOp(_, relid) => ReleaseOldestKeeps(b, relid);
    case AbortInsertOp(_, relid, pid) => AbortInsertKeeps(b, relid, pid);
    case CreditOp(_, relid, generation, growth) => CreditKeeps(b, relid, generation, growth, c.compactPct);
    case ReapOp(_, dead) => ReapKeeps(b, dead);
    case DropStaleOp(_, live) => DropStaleKeeps(b, live);
    case AdmitOp(_, _, _) =>
    case RestoreBudgetOp(_, _) =>
    case ReleaseSlotOp(_) => ResetKeeps(b, 0); SumsNonNegative(b);
    case ReserveSlotOp(_) =>
  }

  /* ---- and the cluster ---- */

  lemma BlockUpdateKeeps(c: Cluster, i: nat, b: Block)
    requires WellFormedCluster(c) && i < |c.blocks| && WellFormed(b)
    requires b.dbOid == 0 || b.dbOid == c.blocks[i].dbOid || FindBlock(c.blocks, b.dbOid) == |c.blocks|
    requires Peaks(b) <= Peaks(c.blocks[i]) || BuildTotal(c) + Peaks(b) - Peaks(c.blocks[i]) <= c.buildCeiling
    ensures WellFormedCluster(c.(blocks := c.blocks[i := b]))
    ensures BuildTotal(c.(blocks := c.blocks[i := b])) == BuildTotal(c) - Peaks(c.blocks[i]) + Peaks(b)
    ensures BudgetTotal(c.(blocks := c.blocks[i := b])) == BudgetTotal(c) - c.blocks[i].budget + b.budget
  {
    SumUpdate(c.blocks, i, b, Peaks);
    SumUpdate(c.blocks, i, b, BudgetOf);
  }

  /** Every guarded step keeps relids unique, every record's fields consistent with its
      phase, and the outstanding build peaks within the ceiling. */
  lemma StepKeeps(c: Cluster, op: Op)
    requires WellFormedCluster(c) && ValidOp(op) && Guard(c, op)
    ensures WellFormedCluster(Step(c, op).0)
  {
    var i := FindBlock(c.blocks, op.dbOid);
    if i < |c.blocks| {
      BlockStepKeeps(c, c.blocks[i], op);
      BlockUpdateKeeps(c, i, BlockStep(c, c.blocks[i], op).0);
    } else if op.ReserveSlotOp? {
      var free := FindBlock(c.blocks, 0);
      if free < |c.blocks| {
        BlockUpdateKeeps(c, free, c.blocks[free].(dbOid := op.dbOid));
      }
    }
  }

  /** So does every guarded run, however long. */
  lemma {:induction false} RunKeeps(c: Cluster, ops: seq<Op>)
    requires WellFormedCluster(c) && GuardedRun(c, ops)
    ensures WellFormedCluster(Run(c, ops))
    decreases |ops|
  {
    if ops != [] {
      StepKeeps(c, ops[0]);
      RunKeeps(Step(c, ops[0]).0, ops[1..]);
    }
  }
}
