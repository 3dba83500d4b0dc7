/** The memory reservations of every database, stated without a single running
    total: what is committed is defined as the sum over the records that commit
    it. The steps are those of svs_memory.c, one per public function. */
module MemoryLedger {
  import opened Common
  import opened Seqs

  const MAX_PENDING_INSERTS: nat := 64

  datatype Phase = Reserved | Confirmed | Handoff | Resident | Rebuilding

  /** One index's build-to-residency record; relid 0 marks a free slot. */
  datatype Record = Record(relid: nat, phase: Phase, ownerPid: int, reservedAt: int, estimate: nat, measured: nat,
                           peak: nat, prior: nat, headroom: nat, reclaimable: nat, generation: nat)

  /** One insert batch reserved but not yet applied; relid 0 marks a free slot. */
  datatype Pending = Pending(relid: nat, ownerPid: int, reservedAt: int, delta: nat, usedHeadroom: bool)

  /** One database's control block; dbOid 0 marks a free block. */
  datatype Block = Block(dbOid: nat, budget: nat, table: seq<Record>, inserts: seq<Pending>, nextGeneration: nat)

  datatype Cluster = Cluster(blocks: seq<Block>, buildCeiling: nat, residencyCeiling: nat, compactPct: nat)

  datatype Error = NoSlot | NotAdmitted | AlreadyReserved | OverBudget | TableFull | OverBuildCeiling
    | NoReservation | NotPending | NotConfirmed | InsertSlotsFull | NotResident
    | ZeroBudget | BelowCommitted | OverResidencyCeiling

  /** What a call returns: a yes or no, the growth and generation of a reanchor, or an error. */
  datatype Outcome = Answer(yes: bool) | Reanchored(growth: nat, generation: nat) | Raised(error: Error)

  const FreeRecord := Record(0, Reserved, 0, 0, 0, 0, 0, 0, 0, 0, 0)
  const FreePending := Pending(0, 0, 0, 0, false)

  /* ---- what is committed ---- */

  /** The residency bytes a record holds, by phase. */
  function Contribution(r: Record): nat {
    if r.relid == 0 then 0
    else match r.phase
      case Reserved => r.estimate
      case Rebuilding => r.prior
      case _ => r.measured
  }

  function Peak(r: Record): nat { if r.relid == 0 then 0 else r.peak }
  function Reclaimable(r: Record): nat { if r.relid == 0 then 0 else r.reclaimable }
  function Delta(p: Pending): nat { if p.relid == 0 then 0 else p.delta }

  function ContributionOf(r: Record): int { Contribution(r) }
  function PeakOf(r: Record): int { Peak(r) }
  function ReclaimableOf(r: Record): int { Reclaimable(r) }
  function DeltaOf(p: Pending): int { Delta(p) }

  function Committed(b: Block): int { Sum(b.table, ContributionOf) + Sum(b.inserts, DeltaOf) }
  function Peaks(b: Block): int { Sum(b.table, PeakOf) }
  function ReclaimableTotal(b: Block): int { Sum(b.table, ReclaimableOf) }
  function BudgetOf(b: Block): int { b.budget }

  function BuildTotal(c: Cluster): int { Sum(c.blocks, Peaks) }
  function BudgetTotal(c: Cluster): int { Sum(c.blocks, BudgetOf) }

  /* ---- lookups ---- */

  /** The first record of relid, or |t|. */
  function Find(t: seq<Record>, relid: nat): (i: nat)
    ensures i <= |t|
    ensures i < |t| ==> t[i].relid == relid
    ensures forall j :: 0 <= j < i ==> t[j].relid != relid
  {
    if t == [] || t[0].relid == relid then 0 else 1 + Find(t[1..], relid)
  }

  function FindFreeInsert(s: seq<Pending>): (i: nat)
    ensures i <= |s|
    ensures i < |s| ==> s[i].relid == 0
    ensures forall j :: 0 <= j < i ==> s[j].relid != 0
  {
    if s == [] || s[0].relid == 0 then 0 else 1 + FindFreeInsert(s[1..])
  }

  function FindInsertByOwner(s: seq<Pending>, relid: nat, pid: int): (i: nat)
    ensures i <= |s|
    ensures i < |s| ==> s[i].relid == relid && s[i].ownerPid == pid
    ensures forall j :: 0 <= j < i ==> s[j].relid != relid || s[j].ownerPid != pid
  {
    if s == [] || (s[0].relid == relid && s[0].ownerPid == pid) then 0
    else 1 + FindInsertByOwner(s[1..], relid, pid)
  }

  /** The earliest pending insert of relid (lowest slot among equals), or |s|. */
  function Oldest(s: seq<Pending>, relid: nat, n: nat): (i: nat)
    requires n <= |s|
    ensures i == |s| || i < n
    ensures i == |s| ==> forall j :: 0 <= j < n ==> s[j].relid != relid
    ensures i < n ==> s[i].relid == relid
    ensures i < n ==> forall j :: 0 <= j < n && s[j].relid == relid ==> s[i].reservedAt <= s[j].reservedAt
    ensures i < n ==> forall j :: 0 <= j < i && s[j].relid == relid ==> s[i].reservedAt < s[j].reservedAt
  {
    if n == 0 then |s|
    else
      var best := Oldest(s, relid, n - 1);
      if s[n - 1].relid != relid then best
      else if best == |s| || s[n - 1].reservedAt < s[best].reservedAt then n - 1
      else best
  }

  function FindBlock(bs: seq<Block>, dbOid: nat): (i: nat)
    ensures i <= |bs|
    ensures i < |bs| ==> bs[i].dbOid == dbOid
    ensures forall j :: 0 <= j < i ==> bs[j].dbOid != dbOid
  {
    if bs == [] || bs[0].dbOid == dbOid then 0 else 1 + FindBlock(bs[1..], dbOid)
  }

  /* ---- well-formed blocks ---- */

  /** Which fields mean something in which phase. */
  predicate PhaseFields(r: Record) {
    r.relid != 0 ==>
      match r.phase
      case Reserved => r.measured == 0 && r.prior == 0 && r.reclaimable == 0
      case Confirmed => r.peak == 0 && r.prior == 0 && r.reclaimable == 0
      case Handoff => r.peak == 0 && r.prior == 0 && r.reclaimable == 0
      case Resident => r.peak == 0 && r.prior == 0
      case Rebuilding => r.measured == 0
  }

  ghost predicate UniqueRelids(t: seq<Record>) {
    forall i, j :: 0 <= i < j < |t| && t[i].relid != 0 ==> t[i].relid != t[j].relid
  }

  ghost predicate WellFormed(b: Block) {
    && |b.table| == MAX_INDEXES && |b.inserts| == MAX_PENDING_INSERTS
    && UniqueRelids(b.table)
    && (forall i :: 0 <= i < |b.table| ==> PhaseFields(b.table[i]))
    && (forall i :: 0 <= i < |b.table| && b.table[i].relid == 0 ==> b.table[i] == FreeRecord)
    && (forall i :: 0 <= i < |b.inserts| && b.inserts[i].relid == 0 ==> b.inserts[i] == FreePending)
  }

  ghost predicate WellFormedCluster(c: Cluster) {
    && (forall i :: 0 <= i < |c.blocks| ==> WellFormed(c.blocks[i]))
    && (forall i, j :: 0 <= i < j < |c.blocks| && c.blocks[i].dbOid != 0 ==> c.blocks[i].dbOid != c.blocks[j].dbOid)
    && BuildTotal(c) <= c.buildCeiling
  }

  /* ---- one block's steps ---- */

  const GENERATIONS := 0x1_0000_0000

  /** ++nextResidentGeneration on a uint32. */
  function Bump(generation: nat): nat { (generation + 1) % GENERATIONS }

  function Put(b: Block, i: nat, r: Record): Block
    requires i < |b.table|
  {
    b.(table := b.table[i := r])
  }

  function PutInsert(b: Block, i: nat, p: Pending): Block
    requires i < |b.inserts|
  {
    b.(inserts := b.inserts[i := p])
  }

  /** A rebuild given up: resident again at the size held before it began. */
  function Restored(r: Record): Record {
    r.(measured := r.prior, prior := 0, ownerPid := 0, peak := 0, phase := Resident)
  }

  /** A build that fits the budget takes its slot, if there is one and the peak fits too. */
  function PlaceBuild(b: Block, relid: nat, peak: nat, estimate: nat, pid: int, now: int, total: int, ceiling: nat)
    : (Block, Outcome)
  {
    var i := Find(b.table, relid);
    var free := Find(b.table, 0);
    var rebuild := i < |b.table|;
    if !rebuild && free == |b.table| then (b, Raised(TableFull))
    else if total + peak > ceiling then (b, Raised(OverBuildCeiling))
    else
      var base := if rebuild then b.table[i] else FreeRecord.(relid := relid);
      var r := base.(ownerPid := pid, reservedAt := now, estimate := estimate, measured := 0, peak := peak,
                     prior := base.measured, phase := if rebuild then Rebuilding else Reserved);
      (Put(b, if rebuild then i else free, r), Answer(true))
  }

  function ReserveBuild(b: Block, relid: nat, peak: nat, estimate: nat, pid: int, now: int, total: int, ceiling: nat)
    : (Block, Outcome)
  {
    var i := Find(b.table, relid);
    if b.budget == 0 then (b, Raised(NotAdmitted))
    else if i < |b.table| && b.table[i].phase != Resident then (b, Raised(AlreadyReserved))
    else
      var prior := if i < |b.table| then b.table[i].measured else 0;
      if Committed(b) - prior + estimate > b.budget then (b, Raised(OverBudget))
      else PlaceBuild(b, relid, peak, estimate, pid, now, total, ceiling)
  }

  function ConfirmBuild(b: Block, relid: nat, measured: nat): (Block, Outcome) {
    var i := Find(b.table, relid);
    if i == |b.table| then (b, Raised(NoReservation))
    else if b.table[i].phase != Reserved && b.table[i].phase != Rebuilding then (b, Raised(NotPending))
    else
      var r := b.table[i];
      if Committed(b) - Contribution(r) + measured <= b.budget then
        var g := Bump(b.nextGeneration);
        (Put(b, i, r.(phase := Confirmed, measured := measured, prior := 0, peak := 0, reclaimable := 0, generation := g))
           .(nextGeneration := g), Answer(true))
      else
        (Put(b, i, if r.phase == Rebuilding then Restored(r) else FreeRecord), Answer(false))
  }

  function HandoffBuild(b: Block, relid: nat): (Block, Outcome) {
    var i := Find(b.table, relid);
    if i == |b.table| then (b, Raised(NoReservation))
    else if b.table[i].phase != Confirmed then (b, Raised(NotConfirmed))
    else (Put(b, i, b.table[i].(phase := Handoff)), Answer(true))
  }

  function AbortBuild(b: Block, relid: nat): (Block, Outcome) {
    var i := Find(b.table, relid);
    if i == |b.table| || b.table[i].phase == Resident then (b, Answer(true))
    else (Put(b, i, if b.table[i].phase == Rebuilding then Restored(b.table[i]) else FreeRecord), Answer(true))
  }

  function ReconcileLoad(b: Block, relid: nat, measured: nat, headroom: nat, now: int): (Block, Outcome) {
    var i := Find(b.table, relid);
    var free := Find(b.table, 0);
    var g := Bump(b.nextGeneration);
    if b.budget == 0 then (b, Raised(NotAdmitted))
    else if i < |b.table| then
      var r := b.table[i];
      if Committed(b) - Contribution(r) + measured > b.budget then (b, Answer(false))
      else
        (Put(b, i, r.(phase := Resident, ownerPid := 0, measured := measured, headroom := headroom,
                      prior := 0, peak := 0, reclaimable := 0, generation := g)).(nextGeneration := g), Answer(true))
    else if Committed(b) + measured > b.budget then (b, Answer(false))
    else if free == |b.table| then (b, Raised(TableFull))
    else
      (Put(b, free, Record(relid, Resident, 0, now, measured, measured, 0, 0, headroom, 0, g)).(nextGeneration := g),
       Answer(true))
  }

  function AccountUnload(b: Block, relid: nat): (Block, Outcome) {
    var i := Find(b.table, relid);
    if i == |b.table| then (b, Answer(false)) else (Put(b, i, FreeRecord), Answer(true))
  }

  function ReserveInsert(b: Block, relid: nat, delta: nat, pid: int, now: int): (Block, Outcome) {
    var i := Find(b.table, relid);
    var uses := i < |b.table| && b.table[i].headroom > 0;
    var charge := if uses then 0 else delta;
    var k := FindFreeInsert(b.inserts);
    if b.budget == 0 then (b, Raised(NotAdmitted))
    else if Committed(b) + charge > b.budget then (b, Answer(false))
    else if k == |b.inserts| then (b, Raised(InsertSlotsFull))
    else
      var b' := PutInsert(b, k, Pending(relid, pid, now, charge, uses));
      (if uses then Put(b', i, b.table[i].(headroom := b.table[i].headroom - 1)) else b', Answer(true))
  }

  /** The oldest pending insert of relid, if any, is released. */
  function ReleaseOldest(b: Block, relid: nat): Block {
    var k := Oldest(b.inserts, relid, |b.inserts|);
    if k == |b.inserts| then b else PutInsert(b, k, FreePending)
  }

  /** The raw size a record last stood for. */
  function Raw(r: Record): nat {
    (if r.phase == Rebuilding then r.prior else r.measured) + r.reclaimable
  }

  /** The record after a fresh raw measurement: a drop below the debt shrinks the debt. */
  function Remeasured(r: Record, measured: nat): Record {
    var debt := if measured < r.reclaimable then measured else r.reclaimable;
    r.(measured := measured - debt, reclaimable := debt)
  }

  function Growth(r: Record, measured: nat): nat {
    if measured > r.measured + r.reclaimable then measured - (r.measured + r.reclaimable) else 0
  }

  function ReanchorInsert(b: Block, relid: nat, measured: nat): (Block, Outcome) {
    var i := Find(b.table, relid);
    if i == |b.table| then (b, Raised(NoReservation))
    else
      var r := b.table[i];
      (ReleaseOldest(Put(b, i, Remeasured(r, measured)), relid), Reanchored(Growth(r, measured), r.generation))
  }

  function ReconcileResident(b: Block, relid: nat, measured: nat, setHeadroom: bool, headroom: nat): (Block, Outcome) {
    var i := Find(b.table, relid);
    if i == |b.table| then (b, Raised(NoReservation))
    else if b.table[i].phase != Resident then (b, Raised(NotResident))
    else
      var r := b.table[i];
      (Put(b, i, r.(measured := measured, reclaimable := 0, headroom := if setHeadroom then headroom else r.headroom)),
       Answer(true))
  }

  function AbortInsert(b: Block, relid: nat, pid: int): (Block, Outcome) {
    var k := FindInsertByOwner(b.inserts, relid, pid);
    if k == |b.inserts| then (b, Answer(false))
    else
      var i := Find(b.table, relid);
      var b' := PutInsert(b, k, FreePending);
      (if b.inserts[k].usedHeadroom && i < |b.table|
       then Put(b', i, b.table[i].(headroom := b.table[i].headroom + 1)) else b', Answer(true))
  }

  predicate CreditApplies(b: Block, relid: nat, generation: nat, pct: nat) {
    var i := Find(b.table, relid);
    i < |b.table| && b.table[i].phase == Resident && b.table[i].generation == generation && pct < 100
  }

  function CreditAbortedInserts(b: Block, relid: nat, generation: nat, growth: nat, pct: nat): (Block, Outcome) {
    if !CreditApplies(b, relid, generation, pct) then (b, Answer(false))
    else
      var i := Find(b.table, relid);
      var r := b.table[i];
      var credit := if growth < r.measured then growth else r.measured;
      var b' := Put(b, i, r.(measured := r.measured - credit, reclaimable := r.reclaimable + credit));
      (b', Answer(ReclaimableTotal(b') > b.budget * pct / 100))
  }

  /** Owner 0 is never dead; which other (pid, reservedAt) pairs are is the environment's answer. */
  predicate OwnerDead(dead: set<(int, int)>, pid: int, reservedAt: int) {
    pid != 0 && (pid, reservedAt) in dead
  }

  function ReapRecord(dead: set<(int, int)>, r: Record): Record {
    if r.relid == 0 || (r.phase != Reserved && r.phase != Rebuilding) || !OwnerDead(dead, r.ownerPid, r.reservedAt) then r
    else if r.phase == Rebuilding then Restored(r)
    else FreeRecord
  }

  function ReapPending(dead: set<(int, int)>, p: Pending): Pending {
    if p.relid != 0 && OwnerDead(dead, p.ownerPid, p.reservedAt) then FreePending else p
  }

  function ReapRecordOf(dead: set<(int, int)>): Record -> Record { (r: Record) => ReapRecord(dead, r) }
  function ReapPendingOf(dead: set<(int, int)>): Pending -> Pending { (p: Pending) => ReapPending(dead, p) }

  function Reap(b: Block, dead: set<(int, int)>): Block {
    b.(table := Map(b.table, ReapRecordOf(dead)), inserts := Map(b.inserts, ReapPendingOf(dead)))
  }

  function DropIfStale(live: set<nat>, r: Record): Record {
    if r.relid != 0 && r.phase == Resident && r.relid !in live then FreeRecord else r
  }

  function DropIfStaleOf(live: set<nat>): Record -> Record { (r: Record) => DropIfStale(live, r) }

  function DropStale(b: Block, live: set<nat>): Block {
    b.(table := Map(b.table, DropIfStaleOf(live)))
  }

  /** Everything the database really holds: what it has committed plus its reclaimable debt. */
  function Usage(b: Block): int { Committed(b) + ReclaimableTotal(b) }

  function Admit(b: Block, budget: nat, durableFloor: nat, total: int, ceiling: nat): (Block, Outcome) {
    if budget == 0 then (b, Raised(ZeroBudget))
    else if budget < Max(Usage(b), durableFloor) then (b, Raised(BelowCommitted))
    else if total - b.budget + budget > ceiling then (b, Raised(OverResidencyCeiling))
    else (b.(budget := budget), Answer(true))
  }

  function RestoreBudget(b: Block, priorBudget: nat): Block {
    b.(budget := Max(priorBudget, Usage(b)))
  }

  /** A block that holds nothing. */
  function FreeBlock(dbOid: nat, indexes: nat, pending: nat, nextGeneration: nat): Block {
    Block(dbOid, 0, seq(indexes, _ => FreeRecord), seq(pending, _ => FreePending), nextGeneration)
  }

  /** A released block: every record and counter gone, the generation counter kept. */
  function Reset(b: Block, dbOid: nat): Block {
    FreeBlock(dbOid, |b.table|, |b.inserts|, b.nextGeneration)
  }

  /* ---- the cluster's steps ---- */

  datatype Op =
    | ReserveSlotOp(dbOid: nat)
    | ReleaseSlotOp(dbOid: nat)
    | AdmitOp(dbOid: nat, budget: nat, durableFloor: nat)
    | RestoreBudgetOp(dbOid: nat, priorBudget: nat)
    | ReserveBuildOp(dbOid: nat, relid: nat, peak: nat, estimate: nat, pid: int, now: int)
    | ConfirmBuildOp(dbOid: nat, relid: nat, peak: nat, measured: nat)
    | HandoffBuildOp(dbOid: nat, relid: nat)
    | AbortBuildOp(dbOid: nat, relid: nat)
    | ReconcileLoadOp(dbOid: nat, relid: nat, measured: nat, headroom: nat, now: int)
    | AccountUnloadOp(dbOid: nat, relid: nat)
    | ReserveInsertOp(dbOid: nat, relid: nat, delta: nat, pid: int, now: int)
    | ReanchorInsertOp(dbOid: nat, relid: nat, measured: nat)
    | ReconcileResidentOp(dbOid: nat, relid: nat, measured: nat, setHeadroom: bool, headroom: nat)
    | CloseInsertOp(dbOid: nat, relid: nat)
    | AbortInsertOp(dbOid: nat, relid: nat, pid: int)
    | CreditOp(dbOid: nat, relid: nat, generation: nat, growth: nat)
    | ReapOp(dbOid: nat, dead: set<(int, int)>)
    | DropStaleOp(dbOid: nat, live: set<nat>)
    | SeedDurableOp(dbOid: nat, relid: nat, durable: nat, now: int)

  /** Databases and indexes are named by valid oids. */
  predicate ValidOp(op: Op) {
    && op.dbOid != 0
    && match op
       case ReserveSlotOp(_) => true
       case ReleaseSlotOp(_) => true
       case AdmitOp(_, _, _) => true
       case RestoreBudgetOp(_, _) => true
       case ReapOp(_, _) => true
       case DropStaleOp(_, _) => true
       case _ => op.relid != 0
  }

  /** The steps that read and write one control block only. */
  function BlockStep(c: Cluster, b: Block, op: Op): (Block, Outcome) {
    match op
    case ReserveBuildOp(_, relid, peak, estimate, pid, now) =>
      ReserveBuild(b, relid, peak, estimate, pid, now, BuildTotal(c), c.buildCeiling)
    case ConfirmBuildOp(_, relid, _, measured) => ConfirmBuild(b, relid, measured)
    case HandoffBuildOp(_, relid) => HandoffBuild(b, relid)
    case AbortBuildOp(_, relid) => AbortBuild(b, relid)
    case ReconcileLoadOp(_, relid, measured, headroom, now) => ReconcileLoad(b, relid, measured, headroom, now)
    case AccountUnloadOp(_, relid) => AccountUnload(b, relid)
    case ReserveInsertOp(_, relid, delta, pid, now) => ReserveInsert(b, relid, delta, pid, now)
    case ReanchorInsertOp(_, relid, measured) => ReanchorInsert(b, relid, measured)
    case ReconcileResidentOp(_, relid, measured, set_, headroom) => ReconcileResident(b, relid, measured, set_, headroom)
    case CloseInsertOp(_, relid) => (ReleaseOldest(b, relid), Answer(true))
    case AbortInsertOp(_, relid, pid) => AbortInsert(b, relid, pid)
    case CreditOp(_, relid, generation, growth) => CreditAbortedInserts(b, relid, generation, growth, c.compactPct)
    case ReapOp(_, dead) => (Reap(b, dead), Answer(true))
    case DropStaleOp(_, live) => (DropStale(b, live), Answer(true))
    case SeedDurableOp(_, relid, durable, now) =>
      if Find(b.table, relid) < |b.table| then (b, Answer(true)) else ReconcileLoad(b, relid, durable, 0, now)
    case AdmitOp(_, budget, durableFloor) => Admit(b, budget, durableFloor, BudgetTotal(c), c.residencyCeiling)
    case RestoreBudgetOp(_, priorBudget) => (RestoreBudget(b, priorBudget), Answer(true))
    case ReleaseSlotOp(_) => (Reset(b, 0), Answer(true))
    case ReserveSlotOp(_) => (b, Answer(false))
  }

  /** Whether a missing control block is an error or a silent no-op. */
  predicate NeedsSlot(op: Op) { !op.RestoreBudgetOp? && !op.CreditOp? && !op.ReapOp? && !op.ReleaseSlotOp? }

  function Step(c: Cluster, op: Op): (r: (Cluster, Outcome))
    ensures |r.0.blocks| == |c.blocks|
  {
    var i := FindBlock(c.blocks, op.dbOid);
    if i < |c.blocks| then
      var (b, out) := BlockStep(c, c.blocks[i], op);
      (c.(blocks := c.blocks[i := b]), out)
    else if op.ReserveSlotOp? then
      var free := FindBlock(c.blocks, 0);
      if free == |c.blocks| then (c, Raised(NoSlot))
      else (c.(blocks := c.blocks[free := c.blocks[free].(dbOid := op.dbOid)]), Answer(true))
    else (c, if NeedsSlot(op) then Raised(NoSlot) else Answer(false))
  }

  /** What callers must see to, since the code does not check it: a confirm names the
      peak that was reserved; a load never takes over a fresh build's record while its
      peak is outstanding; a fresh build's record is never unloaded; and no insert is
      measured against a record whose graph is still being built. */
  predicate BlockGuard(b: Block, op: Op) {
    match op
    case ConfirmBuildOp(_, relid, peak, _) =>
      var i := Find(b.table, relid);
      i < |b.table| && (b.table[i].phase == Reserved || b.table[i].phase == Rebuilding) ==> peak == b.table[i].peak
    case ReconcileLoadOp(_, relid, measured, _, _) =>
      var i := Find(b.table, relid);
      i < |b.table| && b.budget != 0 && b.table[i].phase == Reserved && b.table[i].peak > 0 ==>
        Committed(b) - b.table[i].estimate + measured > b.budget
    case AccountUnloadOp(_, relid) =>
      var i := Find(b.table, relid);
      i < |b.table| && b.table[i].phase == Reserved ==> b.table[i].estimate == 0 && b.table[i].peak == 0
    case ReanchorInsertOp(_, relid, measured) =>
      var i := Find(b.table, relid);
      i < |b.table| && (b.table[i].phase == Reserved || b.table[i].phase == Rebuilding) ==>
        measured <= b.table[i].reclaimable
    case _ => true
  }

  predicate Guard(c: Cluster, op: Op) {
    var i := FindBlock(c.blocks, op.dbOid);
    i < |c.blocks| ==> BlockGuard(c.blocks[i], op)
  }

  function Run(c: Cluster, ops: seq<Op>): Cluster
    decreases |ops|
  {
    if ops == [] then c else Run(Step(c, ops[0]).0, ops[1..])
  }

  ghost predicate GuardedRun(c: Cluster, ops: seq<Op>)
    decreases |ops|
  {
    ops == [] || (ValidOp(ops[0]) && Guard(c, ops[0]) && GuardedRun(Step(c, ops[0]).0, ops[1..]))
  }
}
