/** The guarantees of the water-filling rule, in terms of what databases and builds are
    granted. */
module CpuPromises {
  import opened Seqs
  import opened CpuShares
  import opened CpuFairness
  import opened CpuStarvation
  import opened CpuFloors
  import opened CpuBudget

  /** What a database gets beyond its honored floor. */
  function Extra(inp: Input, d: DbRequest): int { SearchGrant(inp, d) - Floor(inp, d) }

  predicate Asks(inp: Input, d: DbRequest) { Desired(inp.gucs, d) > Floor(inp, d) }

  lemma ExtraIsGrant(inp: Input, d: DbRequest)
    requires ValidInput(inp) && d in inp.dbs
    ensures WellFormed(Claims(inp)) && 0 <= Floor(inp, d) <= Desired(inp.gucs, d) && 0 <= Remainder(inp)
    ensures if Asks(inp, d) then SearchClaim(inp, d) in Claims(inp)
                                 && Extra(inp, d) == Grant(Claims(inp), Remainder(inp), SearchClaim(inp, d))
            else Extra(inp, d) == 0
  {
    ClaimsWellFormed(inp);
    ClaimIsListed(inp);
    FloorBounds(inp, d);
    FloorsFillPool(inp);
  }

  /** Weighted max-min fairness between databases: beyond its floor, none is a thread or
      more ahead, floor for floor, of one that is short of what it desires. */
  lemma SearchFairness(inp: Input, i: DbRequest, j: DbRequest, gi: int, gj: int, wi: int, wj: int)
    requires ValidInput(inp) && i in inp.dbs && j in inp.dbs
    requires gi == Extra(inp, i) && gj == Extra(inp, j) && wi == Floor(inp, i) > 0 && wj == Floor(inp, j) > 0
    requires SearchGrant(inp, i) < Desired(inp.gucs, i)
    ensures (gj - 1) * wi < (gi + 1) * wj
  {
    ExtraIsGrant(inp, i);
    ExtraIsGrant(inp, j);
    GrantBounds(Claims(inp), Remainder(inp), SearchClaim(inp, i));
    if Asks(inp, j) {
      ClaimFairness(Claims(inp), Remainder(inp), SearchClaim(inp, i), SearchClaim(inp, j), gi, gj);
    } else {
      NoneAhead(gi, wi, gj, wj);
    }
  }

  lemma {:induction false} ClaimFairness(cs: seq<Claim>, r: int, i: Claim, j: Claim, gi: int, gj: int)
    requires WellFormed(cs) && i in cs && j in cs && i.weight > 0 && j.weight > 0
    requires gi == Grant(cs, r, i) < i.ask && gj == Grant(cs, r, j)
    ensures (gj - 1) * i.weight < (gi + 1) * j.weight
  {
    Fairness(cs, r, i, j);
  }

  lemma NoneAhead(gi: int, wi: int, gj: int, wj: int)
    requires gi >= 0 && gj == 0 && wi > 0 && wj > 0
    ensures (gj - 1) * wi < (gi + 1) * wj
  {
    assert (gi + 1) * wj > 0;
  }

  function AskingFloor(inp: Input): DbRequest -> int {
    (d: DbRequest) => if Asks(inp, d) then Floor(inp, d) else 0
  }

  function AskingWeight(c: Claim): int { if c.ask > 0 then c.weight else 0 }

  /** The weights that compete are the floors of the databases that still ask. */
  lemma CompetingWeight(inp: Input)
    ensures Sum(Claims(inp), Weight) == Sum(inp.dbs, AskingFloor(inp))
  {
    var sc, bc := Map(inp.dbs, SearchClaimOf(inp)), Map(inp.builds, BuildClaim);
    SumSplit(sc, Asking, Weight, AskingWeight);
    SumSplit(bc, Asking, Weight, AskingWeight);
    SumMap(inp.dbs, SearchClaimOf(inp), AskingWeight, AskingFloor(inp));
    forall c | c in bc ensures AskingWeight(c) == 0 {
      var i :| 0 <= i < |bc| && bc[i] == c;
    }
    SumZero(bc, AskingWeight);
    SumConcat(SearchClaims(inp), BuildClaims(inp), Weight);
  }

  /** A database with an honored floor gets all it desires, or at least the part of the
      remainder its floor is of the floors still asking. */
  lemma SearchGuarantee(inp: Input, d: DbRequest)
    requires ValidInput(inp) && d in inp.dbs && Floor(inp, d) > 0 && Asks(inp, d)
    ensures Sum(inp.dbs, AskingFloor(inp)) > 0
    ensures Extra(inp, d) >= Min(Desired(inp.gucs, d) - Floor(inp, d),
                                 Remainder(inp) * Floor(inp, d) / Sum(inp.dbs, AskingFloor(inp)))
  {
    ExtraIsGrant(inp, d);
    CompetingWeight(inp);
    GuaranteedShare(Claims(inp), Remainder(inp), SearchClaim(inp, d));
  }

  /** Among databases without a floor, nobody is two threads ahead of one that is short. */
  lemma SearchEqualFairness(inp: Input, i: DbRequest, j: DbRequest)
    requires ValidInput(inp) && i in inp.dbs && j in inp.dbs && Floor(inp, i) == 0 && Floor(inp, j) == 0
    requires SearchGrant(inp, i) < Desired(inp.gucs, i)
    ensures SearchGrant(inp, j) <= SearchGrant(inp, i) + 1
  {
    ExtraIsGrant(inp, i);
    ExtraIsGrant(inp, j);
    GrantBounds(Claims(inp), Remainder(inp), SearchClaim(inp, i));
    if Asks(inp, j) {
      FairnessUnweighted(Claims(inp), Remainder(inp), SearchClaim(inp, i), SearchClaim(inp, j));
    }
  }

  /** A build is granted a thread if and only if the remainder, less all that databases with
      floors still ask for, exceeds the number of floorless claims ahead of it. */
  lemma BuildServed(inp: Input, b: BuildRequest)
    requires ValidInput(inp) && b in inp.builds && b.maintenanceNumThreads > 0
    ensures BuildShare(inp, b) > 0 <==>
            Remainder(inp) - Sum(Claims(inp), WeightedAsk) > Ahead(Claims(inp), BuildClaim(b))
  {
    ClaimsWellFormed(inp);
    ClaimIsListed(inp);
    UnweightedServed(Claims(inp), Remainder(inp), BuildClaim(b));
  }

  /* ---- an input on which a floor holder gets nothing more ---- */

  /** The ranges of the GUCs and of the catalog's columns. */
  predicate InRange(inp: Input) {
    && 0 <= inp.gucs.searchNumThreadsDefault <= 1024 && 0 <= inp.gucs.maxSearchThreadsPerDb <= 1024
    && 0 <= inp.gucs.maxTotalSearchThreads <= 1024 && 0 <= inp.gucs.maxParallelWorkers <= 1024
    && forall d :: d in inp.dbs ==> d.searchNumThreads <= 1024 && 0 <= d.searchThreadsReserved <= 1024
  }

  /** Two databases with floors v and w and nothing else, with r threads beyond the floors. */
  function Lopsided(a: DbRequest, b: DbRequest, r: nat): Input
    requires a.searchThreadsReserved >= 0 && b.searchThreadsReserved >= 0
  {
    Input(Gucs(0, 0, 0, a.searchThreadsReserved + b.searchThreadsReserved + r), [a, b], [])
  }

  predicate Searches(d: DbRequest, more: nat) {
    d.live && d.hasIndexes && d.searchThreadsReserved > 0 && d.searchThreadsReserved + more <= d.searchNumThreads <= 1024
  }

  lemma LopsidedFloors(a: DbRequest, b: DbRequest, r: nat)
    requires a.dbOid != b.dbOid && r > 0 && Searches(a, 1) && Searches(b, r)
    requires a.searchThreadsReserved + b.searchThreadsReserved + r <= 1024
    ensures var inp := Lopsided(a, b, r);
      && ValidInput(inp) && InRange(inp) && Remainder(inp) == r
      && Floor(inp, a) == a.searchThreadsReserved && Floor(inp, b) == b.searchThreadsReserved
      && Desired(inp.gucs, a) > Floor(inp, a) && Desired(inp.gucs, b) >= Floor(inp, b) + r
  {
    var inp := Lopsided(a, b, r);
    var wa, wb := Working(inp.gucs, a), Working(inp.gucs, b);
    assert Rows(inp) == [wa, wb];
    SumPair(wa, wb, FloorOf);
    SumPair(wa, wb, FloorBelow(a.dbOid));
    SumPair(wa, wb, FloorBelow(b.dbOid));
    SumPair(a, b, FloorOfDb(inp));
  }

  lemma LopsidedClaims(a: DbRequest, b: DbRequest, r: nat)
    requires a.dbOid != b.dbOid && r > 0 && Searches(a, 1) && Searches(b, r)
    requires a.searchThreadsReserved + b.searchThreadsReserved + r <= 1024
    ensures var inp := Lopsided(a, b, r); Claims(inp) == [SearchClaim(inp, a), SearchClaim(inp, b)]
  {
    LopsidedFloors(a, b, r);
    var inp := Lopsided(a, b, r);
    var ca, cb := SearchClaim(inp, a), SearchClaim(inp, b);
    assert Map(inp.dbs, SearchClaimOf(inp)) == [ca, cb] == [ca] + [cb];
    FilterConcat([ca], [cb], Asking);
    assert [ca][1..] == [] && [cb][1..] == [];
    assert BuildClaims(inp) == [];
  }

  /** Inputs the catalog and the GUCs allow on which a database with a floor, which wants
      more, gets none of the r threads left: the other floor is 2r times as large. */
  lemma SearchCanStarve(a: DbRequest, b: DbRequest, r: nat, x: int)
    requires a.dbOid != b.dbOid && r > 0 && Searches(a, 1) && Searches(b, r)
    requires x == r * a.searchThreadsReserved && b.searchThreadsReserved >= 2 * x
    requires a.searchThreadsReserved + b.searchThreadsReserved + r <= 1024
    ensures var inp := Lopsided(a, b, r);
      && ValidInput(inp) && InRange(inp) && Remainder(inp) == r
      && SearchGrant(inp, a) == Floor(inp, a) < Desired(inp.gucs, a)
  {
    LopsidedFloors(a, b, r);
    LopsidedClaims(a, b, r);
    var inp := Lopsided(a, b, r);
    WeightedCanStarve(r, SearchClaim(inp, a), SearchClaim(inp, b), x);
  }
}
