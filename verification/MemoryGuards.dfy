/** Why the ledger's guards are needed: a short run of guarded steps after which each of
    them can be broken by a call the code accepts. */
module MemoryGuards {
  import opened Seqs
  import opened MemoryLedger
  import opened MemoryInvariants

  /** A build of one index in one freshly enrolled database. */
  datatype Scene = Scene(indexes: nat, pending: nat, db: nat, relid: nat, budget: nat, estimate: nat, peak: nat)

  predicate Sensible(s: Scene) {
    s.indexes > 0 && s.db != 0 && s.relid != 0 && s.peak > 0 && 0 < s.budget && s.estimate <= s.budget
  }

  function Enrolled(s: Scene): Block { FreeBlock(s.db, s.indexes, s.pending, 0) }
  function Admitted(s: Scene): Block { Enrolled(s).(budget := s.budget) }
  function Reservation(s: Scene): Record {
    FreeRecord.(relid := s.relid, ownerPid := 1, reservedAt := 1, estimate := s.estimate, peak := s.peak)
  }
  function Building(s: Scene): Block
    requires s.indexes > 0
  {
    Put(Admitted(s), 0, Reservation(s))
  }

  /** A cluster of that one control block, with room for this budget and this peak. */
  function Holding(s: Scene, b: Block): Cluster { Cluster([b], s.peak, s.budget, 50) }

  function Enroll(s: Scene): Op { ReserveSlotOp(s.db) }
  function Admission(s: Scene): Op { AdmitOp(s.db, s.budget, 0) }
  function Build(s: Scene): Op { ReserveBuildOp(s.db, s.relid, s.peak, s.estimate, 1, 1) }

  lemma HoldsNothing(s: Scene)
    requires Sensible(s)
    ensures var b := Enrolled(s);
      Committed(b) == 0 && Peaks(b) == 0 && ReclaimableTotal(b) == 0 && Find(b.table, s.relid) == |b.table|
    ensures var b := Admitted(s); Committed(b) == 0 && Peaks(b) == 0 && Find(b.table, 0) == 0
  {
    FreeBlockSums(s.db, s.indexes, s.pending, 0);
    FreeSum(s.indexes, FreeRecord, ReclaimableOf);
  }

  lemma OneBlock(b: Block)
    ensures Sum([b], Peaks) == Peaks(b) && Sum([b], BudgetOf) == b.budget
  {
    assert [b][1..] == [];
  }

  lemma StepOnOnly(s: Scene, b: Block, op: Op)
    requires b.dbOid == op.dbOid
    ensures Step(Holding(s, b), op).0 == Holding(s, BlockStep(Holding(s, b), b, op).0)
    ensures Step(Holding(s, b), op).1 == BlockStep(Holding(s, b), b, op).1
    ensures Guard(Holding(s, b), op) == BlockGuard(b, op)
  {
    var c := Holding(s, b);
    assert FindBlock(c.blocks, op.dbOid) == 0;
    assert forall b' :: c.blocks[0 := b'] == [b'];
  }

  lemma EnrollStep(s: Scene)
    requires Sensible(s)
    ensures var free := Holding(s, FreeBlock(0, s.indexes, s.pending, 0));
      Guard(free, Enroll(s)) && Step(free, Enroll(s)).0 == Holding(s, Enrolled(s))
  {
    var free := FreeBlock(0, s.indexes, s.pending, 0);
    var bs := [free];
    assert bs[1..] == [] && FindBlock(bs, s.db) == 1 && FindBlock(bs, 0) == 0;
    assert free.(dbOid := s.db) == Enrolled(s);
    assert bs[0 := Enrolled(s)] == [Enrolled(s)];
  }

  lemma AdmitStep(s: Scene)
    requires Sensible(s)
    ensures Step(Holding(s, Enrolled(s)), Admission(s)).0 == Holding(s, Admitted(s))
  {
    HoldsNothing(s);
    OneBlock(Enrolled(s));
    StepOnOnly(s, Enrolled(s), Admission(s));
  }

  lemma BuildStep(s: Scene)
    requires Sensible(s)
    ensures Step(Holding(s, Admitted(s)), Build(s)).0 == Holding(s, Building(s))
  {
    HoldsNothing(s);
    OneBlock(Admitted(s));
    StepOnOnly(s, Admitted(s), Build(s));
  }

  /** What the four calls return on the build under way: none of them is refused. */
  lemma AllAccepted(s: Scene, measured: nat, otherPeak: nat)
    requires Sensible(s) && measured <= s.budget
    ensures var c, b := Holding(s, Building(s)), Building(s);
      && BlockStep(c, b, ReconcileLoadOp(s.db, s.relid, measured, 0, 1)).1 == Answer(true)
      && BlockStep(c, b, AccountUnloadOp(s.db, s.relid)).1 == Answer(true)
      && BlockStep(c, b, ReanchorInsertOp(s.db, s.relid, measured)).1 == Reanchored(measured, 0)
      && BlockStep(c, b, ConfirmBuildOp(s.db, s.relid, otherPeak, measured)).1 == Answer(true)
  {
    HoldsNothing(s);
    PutSums(Admitted(s), 0, Reservation(s));
    assert Find(Building(s).table, s.relid) == 0 && Committed(Building(s)) == s.estimate;
  }

  lemma AllBreak(s: Scene, measured: nat, otherPeak: nat)
    requires Sensible(s) && 0 < measured <= s.budget && otherPeak != s.peak
    ensures var b := Building(s);
      && !BlockGuard(b, ReconcileLoadOp(s.db, s.relid, measured, 0, 1))
      && !BlockGuard(b, AccountUnloadOp(s.db, s.relid))
      && !BlockGuard(b, ReanchorInsertOp(s.db, s.relid, measured))
      && !BlockGuard(b, ConfirmBuildOp(s.db, s.relid, otherPeak, measured))
  {
    HoldsNothing(s);
    PutSums(Admitted(s), 0, Reservation(s));
    assert Find(Building(s).table, s.relid) == 0 && Committed(Building(s)) == s.estimate;
  }

  /** The state after enrolling a database, admitting its budget and reserving a build. */
  function Opened(s: Scene): Cluster {
    Step(Step(Step(Holding(s, FreeBlock(0, s.indexes, s.pending, 0)), Enroll(s)).0, Admission(s)).0, Build(s)).0
  }

  lemma OpenedIs(s: Scene)
    requires Sensible(s)
    ensures Opened(s) == Holding(s, Building(s))
  {
    EnrollStep(s);
    AdmitStep(s);
    BuildStep(s);
  }

  ghost predicate AcceptedButBreaks(c: Cluster, op: Op) {
    !Step(c, op).1.Raised? && Step(c, op).1 != Answer(false) && !Guard(c, op)
  }

  /** After enrolling a database, admitting its budget and reserving a build, each of these
      calls is accepted by the code and breaks the ledger: a load of the index that fits the
      budget, an unload of it, an insert measured against it, and a confirm naming another
      peak. */
  lemma GuardsCanFail(s: Scene, measured: nat, otherPeak: nat)
    requires Sensible(s) && 0 < measured <= s.budget && otherPeak != s.peak
    ensures AcceptedButBreaks(Opened(s), ReconcileLoadOp(s.db, s.relid, measured, 0, 1))
    ensures AcceptedButBreaks(Opened(s), AccountUnloadOp(s.db, s.relid))
    ensures AcceptedButBreaks(Opened(s), ReanchorInsertOp(s.db, s.relid, measured))
    ensures AcceptedButBreaks(Opened(s), ConfirmBuildOp(s.db, s.relid, otherPeak, measured))
  {
    OpenedIs(s);
    AllAccepted(s, measured, otherPeak);
    AllBreak(s, measured, otherPeak);
    StepOnOnly(s, Building(s), ReconcileLoadOp(s.db, s.relid, measured, 0, 1));
    StepOnOnly(s, Building(s), AccountUnloadOp(s.db, s.relid));
    StepOnOnly(s, Building(s), ReanchorInsertOp(s.db, s.relid, measured));
    StepOnOnly(s, Building(s), ConfirmBuildOp(s.db, s.relid, otherPeak, measured));
  }

  /** The three opening calls keep every guard. */
  lemma OpeningIsGuarded(s: Scene)
    requires Sensible(s)
    ensures GuardedRun(Holding(s, FreeBlock(0, s.indexes, s.pending, 0)), [Enroll(s), Admission(s), Build(s)])
  {
    var ops := [Enroll(s), Admission(s), Build(s)];
    assert ops[1..] == [Admission(s), Build(s)] && ops[1..][1..] == [Build(s)] && ops[1..][1..][1..] == [];
    EnrollStep(s);
    AdmitStep(s);
    BuildStep(s);
    StepOnOnly(s, Enrolled(s), Admission(s));
    StepOnOnly(s, Admitted(s), Build(s));
    assert GuardedRun(Holding(s, Building(s)), ops[1..][1..][1..]);
    assert GuardedRun(Holding(s, Admitted(s)), ops[1..][1..]);
    assert GuardedRun(Holding(s, Enrolled(s)), ops[1..]);
  }
}
