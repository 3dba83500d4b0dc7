/** Aborted-insert credits and the 32-bit generation that guards them: exactly when a
    credit still applies after any run of calls. */
module MemoryCredits {
  import opened Common
  import opened Seqs
  import opened MemoryLedger
  import opened MemoryInvariants
  import opened MemoryRuns

  /* ---- the generation counter over a run ---- */

  /** The step measures a graph of block i afresh: a load, a confirm or a seed that succeeds. */
  predicate Measures(c: Cluster, op: Op, i: nat)
    requires i < |c.blocks|
  {
    && Hits(c, op, i) && Step(c, op).1 == Answer(true)
    && (op.ReconcileLoadOp? || op.ConfirmBuildOp? || (op.SeedDurableOp? && Lookup(c.blocks[i], op.relid).None?))
  }

  function Bumped(c: Cluster, op: Op, i: nat): nat
    requires i < |c.blocks|
  {
    if Measures(c, op, i) then 1 else 0
  }

  /** How often the run moves the generation counter of block i. */
  ghost function Bumps(c: Cluster, ops: seq<Op>, i: nat): nat
    requires i < |c.blocks|
    decreases |ops|
  {
    if ops == [] then 0
    else
      Bumped(c, ops[0], i) + Bumps(Step(c, ops[0]).0, ops[1..], i)
  }

  /** How often up to and including the last time it measures relid; 0 if it never does. */
  ghost function LastFresh(c: Cluster, ops: seq<Op>, i: nat, relid: nat): nat
    requires i < |c.blocks|
    decreases |ops|
  {
    if ops == [] then 0
    else
      var later := LastFresh(Step(c, ops[0]).0, ops[1..], i, relid);
      if later > 0 then Bumped(c, ops[0], i) + later
      else if Measures(c, ops[0], i) && ops[0].relid == relid then 1
      else 0
  }

  lemma {:induction false} FreshWithinBumps(c: Cluster, ops: seq<Op>, i: nat, relid: nat)
    requires i < |c.blocks|
    ensures LastFresh(c, ops, i, relid) <= Bumps(c, ops, i)
    decreases |ops|
  {
    if ops != [] {
      FreshWithinBumps(Step(c, ops[0]).0, ops[1..], i, relid);
    }
  }

  lemma BlockCounter(c: Cluster, b: Block, op: Op)
    ensures var (b', out) := BlockStep(c, b, op);
      b'.nextGeneration ==
        if out == Answer(true) &&
           (op.ReconcileLoadOp? || op.ConfirmBuildOp? || (op.SeedDurableOp? && Lookup(b, op.relid).None?))
        then Bump(b.nextGeneration) else b.nextGeneration
  {}

  lemma CounterStep(c: Cluster, op: Op, i: nat)
    requires i < |c.blocks|
    ensures |Step(c, op).0.blocks| == |c.blocks|
    ensures Step(c, op).0.blocks[i].nextGeneration ==
            if Measures(c, op, i) then Bump(c.blocks[i].nextGeneration) else c.blocks[i].nextGeneration
  {
    StepOnBlock(c, op, i);
    if Hits(c, op, i) { BlockCounter(c, c.blocks[i], op); }
  }

  /** The counter after k more bumps. */
  function Spin(n: nat, k: nat): nat
    decreases k
  {
    if k == 0 then n else Spin(Bump(n), k - 1)
  }

  /** Bumping adds, modulo the counter's width. */
  lemma {:induction false} SpinAdds(n: nat, k: nat)
    requires k > 0 || n < GENERATIONS
    ensures Spin(n, k) == (n + k) % GENERATIONS
    decreases k
  {
    if k > 0 {
      SpinAdds(Bump(n), k - 1);
      WrapSum(n, k - 1, n + k);
    }
  }

  lemma WrapSum(n: nat, k: nat, total: nat)
    requires total == n + 1 + k
    ensures Bump(n) < GENERATIONS && (Bump(n) + k) % GENERATIONS == total % GENERATIONS
  {}

  /** The counter moves by exactly the bumps of its own block. */
  lemma {:induction false} CounterRun(c: Cluster, ops: seq<Op>, i: nat)
    requires i < |c.blocks|
    ensures |Run(c, ops).blocks| == |c.blocks|
    ensures Run(c, ops).blocks[i].nextGeneration == Spin(c.blocks[i].nextGeneration, Bumps(c, ops, i))
    decreases |ops|
  {
    if ops != [] {
      var c' := Step(c, ops[0]).0;
      CounterStep(c, ops[0], i);
      CounterRun(c', ops[1..], i);
      BumpedFirst(c.blocks[i].nextGeneration, c'.blocks[i].nextGeneration, Bumped(c, ops[0], i),
                  Bumps(c', ops[1..], i), Bumps(c, ops, i));
    }
  }

  lemma {:induction false} BumpedFirst(n: nat, n': nat, one: nat, rest: nat, all: nat)
    requires one <= 1 && n' == (if one == 1 then Bump(n) else n) && all == one + rest
    ensures Spin(n', rest) == Spin(n, all)
  {}

  /* ---- the generation a record carries ---- */

  /** The step measures the index in block i afresh, or takes it off the ledger: an unload, a
      release, a stale record dropped, a build aborted, rejected or reaped. */
  predicate Replaces(c: Cluster, op: Op, i: nat, relid: nat)
    requires i < |c.blocks|
  {
    || (Measures(c, op, i) && op.relid == relid)
    || (Lookup(c.blocks[i], relid).Some? && Lookup(Step(c, op).0.blocks[i], relid).None?)
  }

  /** Somewhere in the run the index was loaded, confirmed or removed in block i. */
  ghost predicate Replaced(c: Cluster, ops: seq<Op>, i: nat, relid: nat)
    requires i < |c.blocks|
    decreases |ops|
  {
    ops != [] && (Replaces(c, ops[0], i, relid) || Replaced(Step(c, ops[0]).0, ops[1..], i, relid))
  }

  predicate Built(r: Option<Record>) { r.Some? && r.value.phase != Reserved }

  /** A load, confirm or seed of the index that succeeds. */
  predicate Fresh(op: Op, out: Outcome, r: Option<Record>) {
    || (op.ReconcileLoadOp? && out == Answer(true))
    || (op.ConfirmBuildOp? && r.Some? && out == Answer(true))
    || (op.SeedDurableOp? && r.None? && out == Answer(true))
  }

  /** A built record carries the generation it was last measured at, and no other step
      leaves a built record where there was none. */
  lemma AfterGeneration(op: Op, out: Outcome, r: Option<Record>, g: nat, pct: nat, refund: bool)
    requires Legal(op, out, r)
    ensures var q := After(op, out, r, g, pct, refund);
      Built(q) ==>
        if Fresh(op, out, r) then q.value.generation == g
        else Built(r) && q.value.generation == r.value.generation
  {}

  lemma GenerationStep(c: Cluster, op: Op, i: nat, relid: nat)
    requires WellFormedCluster(c) && ValidOp(op) && i < |c.blocks| && relid != 0
    ensures |Step(c, op).0.blocks| == |c.blocks|
    ensures var c' := Step(c, op).0; var r, q := Lookup(c.blocks[i], relid), Lookup(c'.blocks[i], relid);
      Built(q) ==>
        if Measures(c, op, i) && op.relid == relid then q.value.generation == Bump(c.blocks[i].nextGeneration)
        else Built(r) && q.value.generation == r.value.generation && !Replaces(c, op, i, relid)
  {
    CounterStep(c, op, i);
    RecordStep(c, op, i, relid);
    if Hits(c, op, i) && Concerns(op, relid) {
      OutcomeIsLegal(c, op, i, relid);
      var (c', out) := Step(c, op);
      AfterGeneration(op, out, Lookup(c.blocks[i], relid), c'.blocks[i].nextGeneration, c.compactPct,
                      Refunds(c.blocks[i], op));
    }
  }

  /** What is known of relid's generation at the end of a run that began in c. */
  ghost predicate Carries(c: Cluster, ops: seq<Op>, i: nat, relid: nat, q: Option<Record>)
    requires i < |c.blocks|
  {
    var k, r := LastFresh(c, ops, i, relid), Lookup(c.blocks[i], relid);
    Built(q) ==>
      if k > 0 then q.value.generation == Spin(c.blocks[i].nextGeneration, k)
      else Built(r) && q.value.generation == r.value.generation && !Replaced(c, ops, i, relid)
  }

  /** Over any run, wrapping or not: a built record's generation is the counter value of
      its last load, confirm or seed, or else the one it had, and then nothing replaced it. */
  lemma {:induction false} GenerationRun(c: Cluster, ops: seq<Op>, i: nat, relid: nat)
    requires WellFormedCluster(c) && GuardedRun(c, ops) && i < |c.blocks| && relid != 0
    ensures WellFormedCluster(Run(c, ops)) && |Run(c, ops).blocks| == |c.blocks|
    ensures Carries(c, ops, i, relid, Lookup(Run(c, ops).blocks[i], relid))
    decreases |ops|
  {
    if ops != [] {
      StepKeeps(c, ops[0]);
      CounterStep(c, ops[0], i);
      GenerationStep(c, ops[0], i, relid);
      GenerationRun(Step(c, ops[0]).0, ops[1..], i, relid);
      CarriesOver(c, ops, i, relid, Lookup(Run(c, ops).blocks[i], relid));
    }
  }

  lemma CarriesOver(c: Cluster, ops: seq<Op>, i: nat, relid: nat, q: Option<Record>)
    requires WellFormedCluster(c) && ops != [] && ValidOp(ops[0]) && i < |c.blocks| && relid != 0
    requires |Step(c, ops[0]).0.blocks| == |c.blocks| && Carries(Step(c, ops[0]).0, ops[1..], i, relid, q)
    ensures Carries(c, ops, i, relid, q)
  {
    CounterStep(c, ops[0], i);
    GenerationStep(c, ops[0], i, relid);
  }

  /* ---- when a credit applies ---- */

  /** How far behind the counter a generation lies, on the 32-bit circle. */
  function Age(counter: nat, g: nat): nat { (counter - g) % GENERATIONS }

  lemma AgeWraps(counter: nat, g: nat, k: nat)
    requires g < GENERATIONS
    ensures (counter + k) % GENERATIONS == g <==> (Age(counter, g) + k) % GENERATIONS == 0
  {}

  /** The counter stands at g again after k bumps exactly when g's age comes full circle. */
  lemma {:induction false} SpunTo(n: nat, g: nat, k: nat)
    requires g < GENERATIONS && k > 0
    ensures Spin(n, k) == g <==> (Age(n, g) + k) % GENERATIONS == 0
  {
    SpinAdds(n, k);
    AgeWraps(n, g, k);
  }

  /** A credit citing the generation of a record as it stood before a run applies after it
      exactly when credits are enabled, the index is resident, and it has either not been
      measured afresh or been so just as the counter came round to that generation. */
  lemma {:induction false} CreditAppliesExactly(c: Cluster, ops: seq<Op>, i: nat, relid: nat, g: nat)
    requires WellFormedCluster(c) && GuardedRun(c, ops) && i < |c.blocks| && relid != 0 && g < GENERATIONS
    requires Lookup(c.blocks[i], relid).Some? && Lookup(c.blocks[i], relid).value.generation == g
    ensures |Run(c, ops).blocks| == |c.blocks|
    ensures var b, k := Run(c, ops).blocks[i], LastFresh(c, ops, i, relid);
      CreditApplies(b, relid, g, c.compactPct) <==>
        && c.compactPct < 100 && Lookup(b, relid).Some? && Lookup(b, relid).value.phase == Resident
        && (k == 0 || (Age(c.blocks[i].nextGeneration, g) + k) % 0x1_0000_0000 == 0)
  {
    var n, k := c.blocks[i].nextGeneration, LastFresh(c, ops, i, relid);
    GenerationRun(c, ops, i, relid);
    CreditNeeds(Run(c, ops).blocks[i], relid, g, c.compactPct);
    if k > 0 { SpunTo(n, g, k); }
  }

  lemma ReanchorReturns(c: Cluster, reanchor: Op, i: nat, growth: nat, g: nat)
    requires WellFormedCluster(c) && i < |c.blocks| && reanchor.ReanchorInsertOp? && ValidOp(reanchor)
    requires Hits(c, reanchor, i) && Step(c, reanchor).1 == Reanchored(growth, g)
    ensures var c1 := Step(c, reanchor).0;
      && |c1.blocks| == |c.blocks| && c1.compactPct == c.compactPct
      && c1.blocks[i].nextGeneration == c.blocks[i].nextGeneration
      && Lookup(c1.blocks[i], reanchor.relid).Some? && Lookup(c1.blocks[i], reanchor.relid).value.generation == g
  {
    StepOnBlock(c, reanchor, i);
    CounterStep(c, reanchor, i);
    RecordStep(c, reanchor, i, reanchor.relid);
  }

  /** An aborted insert's credit, citing the generation its reanchor returned, does nothing
      at all if the index was loaded, confirmed or removed since, as long as that generation
      has not come round again: its age and the block's bumps together stay below 2^32. */
  lemma {:induction false} StaleCreditIgnored(c: Cluster, i: nat, reanchor: Op, growth: nat, g: nat, ops: seq<Op>, credit: Op)
    requires WellFormedCluster(c) && i < |c.blocks| && reanchor.ReanchorInsertOp? && ValidOp(reanchor)
    requires Hits(c, reanchor, i) && Guard(c, reanchor) && Step(c, reanchor).1 == Reanchored(growth, g)
    requires g < GENERATIONS && GuardedRun(Step(c, reanchor).0, ops)
    requires Replaced(Step(c, reanchor).0, ops, i, reanchor.relid)
    requires Age(c.blocks[i].nextGeneration, g) + Bumps(Step(c, reanchor).0, ops, i) < 0x1_0000_0000
    requires credit.CreditOp? && credit.relid == reanchor.relid && credit.generation == g
    requires Hits(Run(Step(c, reanchor).0, ops), credit, i)
    ensures var c2 := Run(Step(c, reanchor).0, ops); Step(c2, credit) == (c2, Answer(false))
  {
    StepKeeps(c, reanchor);
    ReanchorReturns(c, reanchor, i, growth, g);
    StaleAfterRun(Step(c, reanchor).0, ops, i, reanchor.relid, g);
    CreditStepIgnored(Run(Step(c, reanchor).0, ops), credit, i);
  }

  lemma NotRoundYet(age: nat, k: nat)
    requires age + k < GENERATIONS
    ensures k > 0 ==> (age + k) % GENERATIONS != 0
  {}

  lemma CreditNeeds(b: Block, relid: nat, g: nat, pct: nat)
    ensures CreditApplies(b, relid, g, pct) <==>
      pct < 100 && var q := Lookup(b, relid); q.Some? && q.value.phase == Resident && q.value.generation == g
  {}

  /** A replaced record that is built again carries another generation. */
  lemma {:induction false} NewerGeneration(c: Cluster, ops: seq<Op>, i: nat, relid: nat, g: nat, q: Record)
    requires i < |c.blocks| && g < GENERATIONS && q.phase != Reserved && Carries(c, ops, i, relid, Some(q))
    requires Replaced(c, ops, i, relid) && Age(c.blocks[i].nextGeneration, g) + Bumps(c, ops, i) < GENERATIONS
    ensures q.generation != g
  {
    var n, k := c.blocks[i].nextGeneration, LastFresh(c, ops, i, relid);
    FreshWithinBumps(c, ops, i, relid);
    if k > 0 {
      SpunTo(n, g, k);
      NotRoundYet(Age(n, g), k);
    }
  }

  lemma {:induction false} StaleAfterRun(c: Cluster, ops: seq<Op>, i: nat, relid: nat, g: nat)
    requires WellFormedCluster(c) && GuardedRun(c, ops) && i < |c.blocks| && relid != 0 && g < GENERATIONS
    requires Lookup(c.blocks[i], relid).Some? && Lookup(c.blocks[i], relid).value.generation == g
    requires Replaced(c, ops, i, relid) && Age(c.blocks[i].nextGeneration, g) + Bumps(c, ops, i) < GENERATIONS
    ensures |Run(c, ops).blocks| == |c.blocks|
    ensures !CreditApplies(Run(c, ops).blocks[i], relid, g, Run(c, ops).compactPct)
  {
    GenerationRun(c, ops, i, relid);
    var b := Run(c, ops).blocks[i];
    CreditNeeds(b, relid, g, Run(c, ops).compactPct);
    var q := Lookup(b, relid);
    if Built(q) { NewerGeneration(c, ops, i, relid, g, q.value); }
  }

  lemma CreditStepIgnored(c: Cluster, credit: Op, i: nat)
    requires credit.CreditOp? && i < |c.blocks| && Hits(c, credit, i)
    requires !CreditApplies(c.blocks[i], credit.relid, credit.generation, c.compactPct)
    ensures Step(c, credit) == (c, Answer(false))
  {
    assert c.blocks[i := c.blocks[i]] == c.blocks;
  }

  /** A credit that does apply moves bytes from the net size to the debt and nowhere else. */
  lemma {:induction false} CreditConserves(b: Block, relid: nat, generation: nat, growth: nat, pct: nat)
    requires WellFormed(b) && relid != 0 && CreditApplies(b, relid, generation, pct)
    ensures var b' := CreditAbortedInserts(b, relid, generation, growth, pct).0; var i := Find(b.table, relid);
      && Raw(b'.table[i]) == Raw(b.table[i])
      && Committed(b') + ReclaimableTotal(b') == Committed(b) + ReclaimableTotal(b)
      && Committed(b) - Committed(b') == Min(growth, b.table[i].measured)
  {
    var i := Find(b.table, relid);
    PutSums(b, i, CreditAbortedInserts(b, relid, generation, growth, pct).0.table[i]);
  }

  /* ---- where the 32-bit counter wraps ---- */

  function Iterate(f: Block -> Block, b: Block, n: nat): Block
    decreases n
  {
    if n == 0 then b else Iterate(f, f(b), n - 1)
  }

  ghost predicate Ticks(f: Block -> Block, inv: Block -> bool) {
    forall b {:trigger f(b)} :: inv(b) ==> inv(f(b)) && f(b).nextGeneration == Bump(b.nextGeneration)
  }

  lemma {:induction false} IterateTicks(f: Block -> Block, inv: Block -> bool, b: Block, n: nat)
    requires Ticks(f, inv) && inv(b)
    ensures inv(Iterate(f, b, n)) && Iterate(f, b, n).nextGeneration == Spin(b.nextGeneration, n)
    decreases n
  {
    if n > 0 { IterateTicks(f, inv, f(b), n - 1); }
  }

  /** Loading the index again at the same size. */
  function Reload(relid: nat, measured: nat): Block -> Block {
    (b: Block) => ReconcileLoad(b, relid, measured, 0, 0).0
  }

  /** Resident at that size within the budget, and measured last of all indexes. */
  ghost predicate Reloadable(b: Block, relid: nat, measured: nat) {
    var i := Find(b.table, relid);
    && WellFormed(b) && relid != 0 && b.budget > 0 && i < |b.table| && Committed(b) <= b.budget
    && b.table[i].phase == Resident && b.table[i].measured == measured && b.table[i].generation == b.nextGeneration
  }

  ghost function ReloadableAt(relid: nat, measured: nat): Block -> bool {
    (b: Block) => Reloadable(b, relid, measured)
  }

  lemma ReloadOnce(b: Block, relid: nat, measured: nat)
    requires Reloadable(b, relid, measured)
    ensures var b' := ReconcileLoad(b, relid, measured, 0, 0).0;
      Reloadable(b', relid, measured) && b'.nextGeneration == Bump(b.nextGeneration)
  {
    var b' := ReconcileLoad(b, relid, measured, 0, 0).0;
    var i := Find(b.table, relid);
    ReconcileLoadKeeps(b, relid, measured, 0, 0);
    PutSums(b, i, b'.table[i]);
    FindIs(b'.table, relid, i);
  }

  lemma ReloadTicks(relid: nat, measured: nat)
    ensures Ticks(Reload(relid, measured), ReloadableAt(relid, measured))
  {
    var f, inv := Reload(relid, measured), ReloadableAt(relid, measured);
    forall x | inv(x) ensures inv(f(x)) && f(x).nextGeneration == Bump(x.nextGeneration) {
      ReloadOnce(x, relid, measured);
    }
  }

  /** n steps that each bump the counter leave it n further, modulo its width. */
  lemma {:induction false} IterateCounts(f: Block -> Block, inv: Block -> bool, b: Block, n: nat)
    requires Ticks(f, inv) && inv(b) && b.nextGeneration < GENERATIONS
    ensures inv(Iterate(f, b, n)) && Iterate(f, b, n).nextGeneration == (b.nextGeneration + n) % GENERATIONS
  {
    IterateTicks(f, inv, b, n);
    SpinAdds(b.nextGeneration, n);
  }

  lemma {:induction false} FullTurn(f: Block -> Block, inv: Block -> bool, b: Block, n: nat)
    requires Ticks(f, inv) && inv(b) && b.nextGeneration < GENERATIONS && n == GENERATIONS
    ensures inv(Iterate(f, b, n)) && Iterate(f, b, n).nextGeneration == b.nextGeneration
  {
    IterateCounts(f, inv, b, n);
    Wrapped(b.nextGeneration, n);
  }

  lemma Wrapped(g: nat, n: nat)
    requires g < GENERATIONS && n == GENERATIONS
    ensures (g + n) % GENERATIONS == g
  {}

  lemma CurrentCreditApplies(b: Block, relid: nat, measured: nat, pct: nat)
    requires ReloadableAt(relid, measured)(b) && pct < 100
    ensures CreditApplies(b, relid, b.nextGeneration, pct)
  {}

  /** The bound on age and bumps cannot be dropped: after exactly 2^32 reloads the old
      generation is current again and its stale credit is applied to the new graph. */
  lemma {:induction false} WrappedCreditApplies(b: Block, relid: nat, measured: nat, pct: nat, n: nat)
    requires Reloadable(b, relid, measured) && b.nextGeneration < GENERATIONS && pct < 100 && n == 0x1_0000_0000
    ensures CreditApplies(Iterate(Reload(relid, measured), b, n), relid, b.nextGeneration, pct)
  {
    ReloadTicks(relid, measured);
    FullTurn(Reload(relid, measured), ReloadableAt(relid, measured), b, n);
    CurrentCreditApplies(Iterate(Reload(relid, measured), b, n), relid, measured, pct);
  }
}
