/** What the configuration bounds, in its own terms: the whole of the grants, each
    database's, and what a database without an index gets. */
module CpuCeilings {
  import opened Seqs
  import opened CpuShares
  import opened CpuFairness
  import opened CpuFloors
  import opened CpuBudget

  /** All grants together never exceed the parallel workers there are, nor the search
      threads configured where a number is. */
  lemma GrantsWithinCeilings(inp: Input)
    requires ValidInput(inp)
    ensures var total := Sum(inp.dbs, SearchGrantOf(inp)) + Sum(inp.builds, BuildShareOf(inp));
      && total <= inp.gucs.maxParallelWorkers
      && (inp.gucs.maxTotalSearchThreads > 0 ==> total <= inp.gucs.maxTotalSearchThreads)
  {
    BudgetConservation(inp);
  }

  /** No database gets more than its ceiling, than it asked for (or the default, where it
      asked for nothing particular), or than one thread where that comes to less; one that
      is not live or has no index gets nothing. */
  lemma DatabaseCeilings(inp: Input, d: DbRequest)
    requires ValidInput(inp) && d in inp.dbs
    ensures var g, n := inp.gucs, SearchGrant(inp, d);
      && 0 <= n && (!d.live || !d.hasIndexes ==> n == 0)
      && n <= (if g.maxSearchThreadsPerDb > 0 then g.maxSearchThreadsPerDb else g.maxParallelWorkers)
      && n <= (if d.searchNumThreads == -1 then Max(1, g.searchNumThreadsDefault) else Max(1, d.searchNumThreads))
  {
    GrantsWithinBounds(inp);
  }

  /** What d asks for, from the catalog and the configuration. */
  function Asked(g: Gucs, d: DbRequest): int {
    if !d.live || !d.hasIndexes then 0
    else
      Min(if d.searchNumThreads == -1 then Max(1, g.searchNumThreadsDefault) else Max(1, d.searchNumThreads),
          if g.maxSearchThreadsPerDb > 0 then g.maxSearchThreadsPerDb else g.maxParallelWorkers)
  }

  function AskedOf(g: Gucs): DbRequest -> int { (d: DbRequest) => Asked(g, d) }

  lemma AskedIsDesired(inp: Input)
    requires ValidInput(inp)
    ensures Sum(inp.dbs, AskedOf(inp.gucs)) == Sum(inp.dbs, DesiredOf(inp.gucs))
    ensures forall d :: d in inp.dbs ==> Asked(inp.gucs, d) == Desired(inp.gucs, d)
  {
    SumEqual(inp.dbs, AskedOf(inp.gucs), DesiredOf(inp.gucs));
  }

  /** Where the workers suffice for everybody, everybody gets exactly what they ask for. */
  lemma EnoughForAll(inp: Input)
    requires ValidInput(inp)
    requires var need := Sum(inp.dbs, AskedOf(inp.gucs)) + Sum(inp.builds, BuildAsk);
      && need <= inp.gucs.maxParallelWorkers
      && (inp.gucs.maxTotalSearchThreads > 0 ==> need <= inp.gucs.maxTotalSearchThreads)
    ensures forall d :: d in inp.dbs ==> SearchGrant(inp, d) == Asked(inp.gucs, d)
    ensures forall b :: b in inp.builds ==> BuildShare(inp, b) == Max(0, b.maintenanceNumThreads)
  {
    AskedIsDesired(inp);
    AllHandedOut(inp);
    GrantsWithinBounds(inp);
    SumAtMost(inp.dbs, SearchGrantOf(inp), DesiredOf(inp.gucs));
    SumAtMost(inp.builds, BuildShareOf(inp), BuildAsk);
    AllReached(inp.dbs, SearchGrantOf(inp), DesiredOf(inp.gucs));
    AllReached(inp.builds, BuildShareOf(inp), BuildAsk);
  }

  lemma AllHandedOut(inp: Input)
    requires ValidInput(inp)
    requires var need := Sum(inp.dbs, AskedOf(inp.gucs)) + Sum(inp.builds, BuildAsk);
      && need <= inp.gucs.maxParallelWorkers
      && (inp.gucs.maxTotalSearchThreads > 0 ==> need <= inp.gucs.maxTotalSearchThreads)
    ensures Sum(inp.dbs, SearchGrantOf(inp)) + Sum(inp.builds, BuildShareOf(inp))
         == Sum(inp.dbs, DesiredOf(inp.gucs)) + Sum(inp.builds, BuildAsk)
  {
    AskedIsDesired(inp);
    BudgetConservation(inp);
  }

  lemma {:induction false} AllReached<T>(s: seq<T>, f: T -> int, g: T -> int)
    requires forall x :: x in s ==> f(x) <= g(x)
    ensures Sum(s, f) == Sum(s, g) ==> forall x :: x in s ==> f(x) == g(x)
  {
    if s != [] {
      assert s[0] in s;
      forall x | x in s[1..] ensures f(x) <= g(x) { assert x in s; }
      SumAtMost(s[1..], f, g);
      AllReached(s[1..], f, g);
    }
  }

  function ReservedOf(g: Gucs): DbRequest -> int { (d: DbRequest) => Min(d.searchThreadsReserved, Asked(g, d)) }

  /** Where the reservations of all live databases fit, each of them gets at least its own. */
  lemma ReservationsKept(inp: Input, d: DbRequest)
    requires ValidInput(inp) && d in inp.dbs
    requires Sum(inp.dbs, ReservedOf(inp.gucs)) <= inp.gucs.maxParallelWorkers
    requires inp.gucs.maxTotalSearchThreads > 0 ==>
      Sum(inp.dbs, ReservedOf(inp.gucs)) <= inp.gucs.maxTotalSearchThreads
    ensures SearchGrant(inp, d) >= Min(d.searchThreadsReserved, Asked(inp.gucs, d))
  {
    AskedIsDesired(inp);
    GrantsWithinBounds(inp);
    RowsFit(inp);
    SumMap(inp.dbs, WorkingOf(inp.gucs), FloorOf, ReservedOf(inp.gucs));
    BelowNonNegative(inp, d);
  }

  /** Whether the reservations do not all fit, and what each database keeps of its own. */
  lemma FloorsReported(inp: Input)
    requires ValidInput(inp)
    ensures var g, total := inp.gucs, Sum(inp.dbs, ReservedOf(inp.gucs));
      Sum(Rows(inp), FloorOf) > SearchPool(g) <==>
        total > g.maxParallelWorkers || (g.maxTotalSearchThreads > 0 && total > g.maxTotalSearchThreads)
    ensures forall d :: d in inp.dbs ==>
      && 0 <= Floor(inp, d) <= Min(d.searchThreadsReserved, Asked(inp.gucs, d))
      && (Sum(Rows(inp), FloorOf) <= SearchPool(inp.gucs) ==> Floor(inp, d) == Min(d.searchThreadsReserved, Asked(inp.gucs, d)))
  {
    AskedIsDesired(inp);
    SumMap(inp.dbs, WorkingOf(inp.gucs), FloorOf, ReservedOf(inp.gucs));
    forall d | d in inp.dbs
      ensures 0 <= Floor(inp, d) <= Min(d.searchThreadsReserved, Asked(inp.gucs, d))
      ensures Sum(Rows(inp), FloorOf) <= SearchPool(inp.gucs) ==>
        Floor(inp, d) == Min(d.searchThreadsReserved, Asked(inp.gucs, d))
    {
      FloorBounds(inp, d);
      if Sum(Rows(inp), FloorOf) <= SearchPool(inp.gucs) { BelowNonNegative(inp, d); }
    }
  }

  lemma BelowNonNegative(inp: Input, d: DbRequest)
    requires ValidInput(inp) && d in inp.dbs && Sum(Rows(inp), FloorOf) <= SearchPool(inp.gucs)
    ensures Floor(inp, d) == Working(inp.gucs, d).floor
  {
    RowsFit(inp);
    DesiredFits(inp.gucs, d);
    SumNonNegative(Rows(inp), FloorBelow(d.dbOid));
  }
}
