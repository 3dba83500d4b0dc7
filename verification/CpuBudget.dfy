/** SvsComputeCpuGrants: every enabled database's search grant and every pending
    build's grant, from the catalog values and the GUC snapshot. */
module CpuBudget {
  import opened Seqs
  import opened CpuShares
  import opened CpuFairness
  import opened CpuApportion
  import opened CpuFloors

  datatype Gucs = Gucs(searchNumThreadsDefault: int, maxSearchThreadsPerDb: int,
                       maxTotalSearchThreads: int, maxParallelWorkers: int)

  datatype DbRequest = DbRequest(dbOid: nat, live: bool, hasIndexes: bool,
                                 searchNumThreads: int, searchThreadsReserved: int)

  datatype BuildRequest = BuildRequest(dbOid: nat, requestPid: int, maintenanceNumThreads: int)

  datatype Input = Input(gucs: Gucs, dbs: seq<DbRequest>, builds: seq<BuildRequest>)

  datatype DbGrant = DbGrant(dbOid: nat, desired: int, granted: int, reserved: int)
  datatype BuildGrant = BuildGrant(dbOid: nat, requestPid: int, granted: int)

  predicate NonNegative32(x: int) { 0 <= x < 0x8000_0000 }
  predicate Signed32(x: int) { -0x8000_0000 <= x < 0x8000_0000 }

  /** What the GUC ranges, the catalog checks and the launcher supply. */
  ghost predicate ValidInput(inp: Input) {
    && NonNegative32(inp.gucs.searchNumThreadsDefault) && NonNegative32(inp.gucs.maxSearchThreadsPerDb)
    && NonNegative32(inp.gucs.maxTotalSearchThreads) && NonNegative32(inp.gucs.maxParallelWorkers)
    && (forall d :: d in inp.dbs ==> Signed32(d.searchNumThreads) && NonNegative32(d.searchThreadsReserved))
    && (forall i, j :: 0 <= i < j < |inp.dbs| ==> inp.dbs[i].dbOid != inp.dbs[j].dbOid)
    && (forall b :: b in inp.builds ==> b.requestPid != 0 && Signed32(b.maintenanceNumThreads))
    && (forall i, j :: 0 <= i < j < |inp.builds| ==>
          inp.builds[i].dbOid != inp.builds[j].dbOid || inp.builds[i].requestPid != inp.builds[j].requestPid)
    && |inp.dbs| + |inp.builds| < 0x8000_0000
  }

  /* ---- what each request comes to ---- */

  function ResolveOrFallback(configured: int, fallback: int): int {
    if configured == 0 then fallback else configured
  }

  function SearchPool(g: Gucs): int {
    Min(g.maxParallelWorkers, ResolveOrFallback(g.maxTotalSearchThreads, g.maxParallelWorkers))
  }

  function PerDbCeiling(g: Gucs): int {
    ResolveOrFallback(g.maxSearchThreadsPerDb, g.maxParallelWorkers)
  }

  function Desired(g: Gucs, d: DbRequest): int {
    if !d.live || !d.hasIndexes then 0
    else
      var clusterDefault := ResolveOrFallback(g.searchNumThreadsDefault, 1);
      var requested := if d.searchNumThreads == -1 then clusterDefault else d.searchNumThreads;
      Min(Max(requested, 1), PerDbCeiling(g))
  }

  function Working(g: Gucs, d: DbRequest): DbWorking {
    DbWorking(d.dbOid, Desired(g, d), if d.live then Min(d.searchThreadsReserved, Desired(g, d)) else 0)
  }

  function WorkingOf(g: Gucs): DbRequest -> DbWorking { (d: DbRequest) => Working(g, d) }
  function Rows(inp: Input): seq<DbWorking> { Map(inp.dbs, WorkingOf(inp.gucs)) }

  /** The floor database d actually keeps. */
  function Floor(inp: Input, d: DbRequest): int {
    HonoredFloor(Rows(inp), SearchPool(inp.gucs), Working(inp.gucs, d))
  }

  function SearchClaim(inp: Input, d: DbRequest): Claim {
    Claim(d.dbOid, 0, Floor(inp, d), Desired(inp.gucs, d) - Floor(inp, d))
  }

  function BuildClaim(b: BuildRequest): Claim { Claim(b.dbOid, b.requestPid, 0, b.maintenanceNumThreads) }

  function SearchClaimOf(inp: Input): DbRequest -> Claim { (d: DbRequest) => SearchClaim(inp, d) }
  function FloorOfDb(inp: Input): DbRequest -> int { (d: DbRequest) => Floor(inp, d) }
  function DesiredOf(g: Gucs): DbRequest -> int { (d: DbRequest) => Desired(g, d) }
  function BuildAsk(b: BuildRequest): int { Max(0, b.maintenanceNumThreads) }

  predicate Asking(c: Claim) { c.ask > 0 }

  function SearchClaims(inp: Input): seq<Claim> { Filter(Map(inp.dbs, SearchClaimOf(inp)), Asking) }
  function BuildClaims(inp: Input): seq<Claim> { Filter(Map(inp.builds, BuildClaim), Asking) }
  function Claims(inp: Input): seq<Claim> { SearchClaims(inp) + BuildClaims(inp) }

  function Remainder(inp: Input): int { SearchPool(inp.gucs) - Sum(inp.dbs, FloorOfDb(inp)) }

  /** What claim c adds to its owner: nothing unless it asks for something. */
  function Elastic(inp: Input, c: Claim): int {
    if c.ask > 0 then Grant(Claims(inp), Remainder(inp), c) else 0
  }

  function SearchGrant(inp: Input, d: DbRequest): int { Floor(inp, d) + Elastic(inp, SearchClaim(inp, d)) }
  function BuildShare(inp: Input, b: BuildRequest): int { Elastic(inp, BuildClaim(b)) }
  function SearchGrantOf(inp: Input): DbRequest -> int { (d: DbRequest) => SearchGrant(inp, d) }
  function BuildShareOf(inp: Input): BuildRequest -> int { (b: BuildRequest) => BuildShare(inp, b) }

  /* ---- the claims are well formed ---- */

  lemma DesiredFits(g: Gucs, d: DbRequest)
    requires NonNegative32(g.searchNumThreadsDefault) && NonNegative32(g.maxSearchThreadsPerDb)
    requires NonNegative32(g.maxParallelWorkers) && Signed32(d.searchNumThreads)
    requires NonNegative32(d.searchThreadsReserved)
    ensures NonNegative32(Desired(g, d)) && 0 <= Working(g, d).floor <= Desired(g, d)
  {}

  lemma PoolFits(inp: Input)
    requires ValidInput(inp)
    ensures 0 <= SearchPool(inp.gucs) < 0x8000_0000
  {}

  lemma RowsFit(inp: Input)
    requires ValidInput(inp)
    ensures FloorsFit(Rows(inp)) && DistinctOids(Rows(inp))
  {
    forall w | w in Rows(inp) ensures 0 <= w.floor < 0x8000_0000 {
      var i :| 0 <= i < |inp.dbs| && Rows(inp)[i] == w;
      assert inp.dbs[i] in inp.dbs;
      DesiredFits(inp.gucs, inp.dbs[i]);
    }
  }

  /** Every database keeps between nothing and its whole configured floor. */
  lemma FloorBounds(inp: Input, d: DbRequest)
    requires ValidInput(inp) && d in inp.dbs
    ensures 0 <= Floor(inp, d) <= Working(inp.gucs, d).floor <= Desired(inp.gucs, d)
    ensures NonNegative32(Desired(inp.gucs, d))
  {
    DesiredFits(inp.gucs, d);
  }

  /** The honored floors add up to the configured ones or to the pool, whichever is less. */
  lemma FloorsFillPool(inp: Input)
    requires ValidInput(inp)
    ensures Sum(inp.dbs, FloorOfDb(inp)) == Min(Sum(Rows(inp), FloorOf), SearchPool(inp.gucs))
    ensures 0 <= Remainder(inp) < 0x8000_0000
  {
    PoolFits(inp);
    RowsFit(inp);
    var honored := HonoredFloorOf(Rows(inp), SearchPool(inp.gucs));
    SumMap(inp.dbs, WorkingOf(inp.gucs), honored, FloorOfDb(inp));
    HonoredTotal(Rows(inp), SearchPool(inp.gucs));
    SumNonNegative(Rows(inp), FloorOf);
  }

  ghost predicate KeysApart(cs: seq<Claim>) {
    forall i, j :: 0 <= i < j < |cs| ==> !SameKey(cs[i], cs[j])
  }

  lemma {:induction false} FilterKeepsKeysApart(cs: seq<Claim>)
    requires KeysApart(cs)
    ensures KeysApart(Filter(cs, Asking)) && forall c :: c in Filter(cs, Asking) <==> c in cs && c.ask > 0
  {
    if cs != [] {
      FilterKeepsKeysApart(cs[1..]);
      var tail := Filter(cs[1..], Asking);
      forall i | 0 <= i < |tail| ensures !SameKey(cs[0], tail[i]) {
        assert tail[i] in cs[1..];
      }
    }
  }

  lemma {:induction false} KeysApartCount(cs: seq<Claim>, c: Claim)
    requires KeysApart(cs) && c in cs
    ensures multiset(cs)[c] == 1
  {
    var i :| 0 <= i < |cs| && cs[i] == c;
    assert cs == cs[..i] + [c] + cs[i + 1..];
    assert c !in cs[..i] && c !in cs[i + 1..];
  }

  lemma KeysApartDistinct(cs: seq<Claim>)
    requires KeysApart(cs)
    ensures DistinctKeys(cs)
  {
    forall c | c in cs ensures multiset(cs)[c] == 1 { KeysApartCount(cs, c); }
  }

  lemma ClaimsApart(inp: Input)
    requires ValidInput(inp)
    ensures KeysApart(Claims(inp))
    ensures forall c :: c in SearchClaims(inp) <==> c in Map(inp.dbs, SearchClaimOf(inp)) && c.ask > 0
    ensures forall c :: c in BuildClaims(inp) <==> c in Map(inp.builds, BuildClaim) && c.ask > 0
  {
    FilterKeepsKeysApart(Map(inp.dbs, SearchClaimOf(inp)));
    FilterKeepsKeysApart(Map(inp.builds, BuildClaim));
    forall a, b | a in SearchClaims(inp) && b in BuildClaims(inp) ensures !SameKey(a, b) {
      var i :| 0 <= i < |inp.dbs| && Map(inp.dbs, SearchClaimOf(inp))[i] == a;
      var j :| 0 <= j < |inp.builds| && Map(inp.builds, BuildClaim)[j] == b;
      assert inp.builds[j] in inp.builds;
    }
  }

  lemma ClaimsFit(inp: Input)
    requires ValidInput(inp)
    ensures forall c :: c in Claims(inp) ==> Fits32(c)
  {
    ClaimsApart(inp);
    forall c | c in Claims(inp) ensures Fits32(c) {
      if c in SearchClaims(inp) {
        var i :| 0 <= i < |inp.dbs| && Map(inp.dbs, SearchClaimOf(inp))[i] == c;
        assert inp.dbs[i] in inp.dbs;
        FloorBounds(inp, inp.dbs[i]);
      } else {
        var j :| 0 <= j < |inp.builds| && Map(inp.builds, BuildClaim)[j] == c;
        assert inp.builds[j] in inp.builds;
      }
    }
  }

  lemma ClaimsWellFormed(inp: Input)
    requires ValidInput(inp)
    ensures WellFormed(Claims(inp))
  {
    ClaimsApart(inp);
    ClaimsFit(inp);
    KeysApartDistinct(Claims(inp));
  }

  lemma ClaimIsListed(inp: Input)
    requires ValidInput(inp)
    ensures forall d :: d in inp.dbs && SearchClaim(inp, d).ask > 0 ==> SearchClaim(inp, d) in Claims(inp)
    ensures forall b :: b in inp.builds && BuildClaim(b).ask > 0 ==> BuildClaim(b) in Claims(inp)
  {
    ClaimsApart(inp);
    forall d | d in inp.dbs ensures SearchClaim(inp, d) in Map(inp.dbs, SearchClaimOf(inp)) {
      var i :| 0 <= i < |inp.dbs| && inp.dbs[i] == d;
      assert Map(inp.dbs, SearchClaimOf(inp))[i] == SearchClaim(inp, d);
    }
    forall b | b in inp.builds ensures BuildClaim(b) in Map(inp.builds, BuildClaim) {
      var i :| 0 <= i < |inp.builds| && inp.builds[i] == b;
      assert Map(inp.builds, BuildClaim)[i] == BuildClaim(b);
    }
  }

  /* ---- guarantees of the whole budget ---- */

  /** A database's grant lies between its honored floor and what it desires, and a
      build's between nothing and its ask. */
  lemma GrantsWithinBounds(inp: Input)
    requires ValidInput(inp)
    ensures forall d :: d in inp.dbs ==> 0 <= Floor(inp, d) <= SearchGrant(inp, d) <= Desired(inp.gucs, d)
    ensures forall b :: b in inp.builds ==> 0 <= BuildShare(inp, b) <= BuildAsk(b)
  {
    ClaimsWellFormed(inp);
    ClaimIsListed(inp);
    forall d | d in inp.dbs ensures 0 <= Floor(inp, d) <= SearchGrant(inp, d) <= Desired(inp.gucs, d) {
      FloorBounds(inp, d);
      if SearchClaim(inp, d).ask > 0 { GrantBounds(Claims(inp), Remainder(inp), SearchClaim(inp, d)); }
    }
    forall b | b in inp.builds ensures 0 <= BuildShare(inp, b) <= BuildAsk(b) {
      if BuildClaim(b).ask > 0 { GrantBounds(Claims(inp), Remainder(inp), BuildClaim(b)); }
    }
  }

  function ElasticOf(inp: Input): Claim -> int { (c: Claim) => Elastic(inp, c) }
  function PositiveAsk(c: Claim): int { Max(0, c.ask) }

  lemma {:induction false} AskingOnly(inp: Input, cs: seq<Claim>)
    ensures Sum(Filter(cs, Asking), Ask) == Sum(cs, PositiveAsk)
    ensures Sum(Filter(cs, Asking), GrantOf(Claims(inp), Remainder(inp))) == Sum(cs, ElasticOf(inp))
  {
    SumSplit(cs, Asking, Ask, PositiveAsk);
    SumSplit(cs, Asking, GrantOf(Claims(inp), Remainder(inp)), ElasticOf(inp));
  }

  function SearchElasticOf(inp: Input): DbRequest -> int { (d: DbRequest) => Elastic(inp, SearchClaim(inp, d)) }
  function SearchAskOf(inp: Input): DbRequest -> int { (d: DbRequest) => PositiveAsk(SearchClaim(inp, d)) }

  lemma ClaimSums(inp: Input)
    ensures Sum(Claims(inp), Ask) == Sum(inp.dbs, SearchAskOf(inp)) + Sum(inp.builds, BuildAsk)
    ensures Sum(Claims(inp), GrantOf(Claims(inp), Remainder(inp)))
      == Sum(inp.dbs, SearchElasticOf(inp)) + Sum(inp.builds, BuildShareOf(inp))
  {
    var sc, bc := Map(inp.dbs, SearchClaimOf(inp)), Map(inp.builds, BuildClaim);
    AskingOnly(inp, sc);
    AskingOnly(inp, bc);
    SumMap(inp.dbs, SearchClaimOf(inp), PositiveAsk, SearchAskOf(inp));
    SumMap(inp.dbs, SearchClaimOf(inp), ElasticOf(inp), SearchElasticOf(inp));
    SumMap(inp.builds, BuildClaim, PositiveAsk, BuildAsk);
    SumMap(inp.builds, BuildClaim, ElasticOf(inp), BuildShareOf(inp));
    SumConcat(SearchClaims(inp), BuildClaims(inp), Ask);
    SumConcat(SearchClaims(inp), BuildClaims(inp), GrantOf(Claims(inp), Remainder(inp)));
  }

  lemma DesiredSplits(inp: Input)
    requires ValidInput(inp)
    ensures Sum(inp.dbs, DesiredOf(inp.gucs)) == Sum(inp.dbs, FloorOfDb(inp)) + Sum(inp.dbs, SearchAskOf(inp))
    ensures Sum(inp.dbs, SearchGrantOf(inp)) == Sum(inp.dbs, FloorOfDb(inp)) + Sum(inp.dbs, SearchElasticOf(inp))
  {
    SumAdd(inp.dbs, FloorOfDb(inp), SearchElasticOf(inp), SearchGrantOf(inp));
    forall d | d in inp.dbs ensures DesiredOf(inp.gucs)(d) == FloorOfDb(inp)(d) + SearchAskOf(inp)(d) {
      FloorBounds(inp, d);
    }
    SumAdd(inp.dbs, FloorOfDb(inp), SearchAskOf(inp), DesiredOf(inp.gucs));
  }

  lemma HandedOut(r: int, ask: int, given: int)
    requires 0 <= r && 0 <= ask && given == Max(0, Min(r, ask))
    ensures given == Min(r, ask)
  {}

  lemma ElasticTotal(inp: Input)
    requires ValidInput(inp)
    ensures Sum(inp.dbs, SearchElasticOf(inp)) + Sum(inp.builds, BuildShareOf(inp))
      == Min(Remainder(inp), Sum(inp.dbs, SearchAskOf(inp)) + Sum(inp.builds, BuildAsk))
  {
    ClaimsWellFormed(inp);
    FloorsFillPool(inp);
    var cs, r := Claims(inp), Remainder(inp);
    Conservation(cs, r);
    SumNonNegative(cs, Ask);
    HandedOut(r, Sum(cs, Ask), Sum(cs, GrantOf(cs, r)));
    ClaimSums(inp);
  }

  /** The pool is used exactly: all of it, or all that anyone wants. It is all parallel
      workers, or the search threads configured if those are fewer. */
  lemma BudgetConservation(inp: Input)
    requires ValidInput(inp)
    ensures var g := inp.gucs;
      Sum(inp.dbs, SearchGrantOf(inp)) + Sum(inp.builds, BuildShareOf(inp))
      == Min(if 0 < g.maxTotalSearchThreads < g.maxParallelWorkers then g.maxTotalSearchThreads else g.maxParallelWorkers,
             Sum(inp.dbs, DesiredOf(g)) + Sum(inp.builds, BuildAsk))
  {
    ElasticTotal(inp);
    DesiredSplits(inp);
  }

  /** A build gets threads only once every database with an honored floor has all it desires. */
  lemma BuildsYieldToFloors(inp: Input, b: BuildRequest, d: DbRequest)
    requires ValidInput(inp) && b in inp.builds && d in inp.dbs
    requires BuildShare(inp, b) > 0 && Floor(inp, d) > 0
    ensures SearchGrant(inp, d) == Desired(inp.gucs, d)
  {
    ClaimsWellFormed(inp);
    ClaimIsListed(inp);
    FloorBounds(inp, d);
    if SearchClaim(inp, d).ask > 0 {
      Priority(Claims(inp), Remainder(inp), BuildClaim(b), SearchClaim(inp, d));
    }
  }

  /** Listing the databases or the builds in another order changes nobody's grant. */
  lemma BudgetOrderIndependence(a: Input, b: Input)
    requires a.gucs == b.gucs && multiset(a.dbs) == multiset(b.dbs) && multiset(a.builds) == multiset(b.builds)
    ensures forall d :: Floor(a, d) == Floor(b, d) && SearchGrant(a, d) == SearchGrant(b, d)
    ensures forall r :: BuildShare(a, r) == BuildShare(b, r)
  {
    MapPermutation(a.dbs, b.dbs, WorkingOf(a.gucs));
    forall d ensures Floor(a, d) == Floor(b, d) {
      HonoredPermutation(Rows(a), Rows(b), SearchPool(a.gucs), Working(a.gucs, d));
    }
    ClaimsPermuted(a, b);
    forall c ensures Elastic(a, c) == Elastic(b, c) {
      OrderIndependence(Claims(a), Claims(b), Remainder(a), c);
    }
    forall d ensures SearchGrant(a, d) == SearchGrant(b, d) {
      assert SearchClaim(a, d) == SearchClaim(b, d);
    }
  }

  lemma ClaimsPermuted(a: Input, b: Input)
    requires a.gucs == b.gucs && multiset(a.dbs) == multiset(b.dbs) && multiset(a.builds) == multiset(b.builds)
    requires forall d :: Floor(a, d) == Floor(b, d)
    ensures multiset(Claims(a)) == multiset(Claims(b)) && Remainder(a) == Remainder(b)
  {
    SumEqual(a.dbs, FloorOfDb(a), FloorOfDb(b));
    SumPermutation(a.dbs, b.dbs, FloorOfDb(b));
    assert Map(a.dbs, SearchClaimOf(a)) == Map(a.dbs, SearchClaimOf(b));
    MapPermutation(a.dbs, b.dbs, SearchClaimOf(b));
    MapPermutation(a.builds, b.builds, BuildClaim);
    FilterPermutation(Map(a.dbs, SearchClaimOf(b)), Map(b.dbs, SearchClaimOf(b)), Asking);
    FilterPermutation(Map(a.builds, BuildClaim), Map(b.builds, BuildClaim), Asking);
  }
}
