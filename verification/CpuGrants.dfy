/** The imperative SvsComputeCpuGrants: build the working rows, clamp, collect the
    claims, apportion, and read the grants back. */
module CpuGrants {
  import opened Seqs
  import opened CpuShares
  import opened CpuApportion
  import opened CpuFloors
  import opened CpuBudget
  import opened CpuCeilings

  method BuildDbWorkingSet(inp: Input) returns (working: array<DbWorking>)
    ensures fresh(working) && working[..] == Rows(inp)
  {
    working := new DbWorking[|inp.dbs|](_ => DbWorking(0, 0, 0));
    for i := 0 to |inp.dbs|
      invariant forall j :: 0 <= j < i ==> working[j] == Rows(inp)[j]
    {
      working[i] := Working(inp.gucs, inp.dbs[i]);
    }
  }

  /** A working row once its floor has been clamped. */
  function ClampedRow(inp: Input): DbRequest -> DbWorking {
    (d: DbRequest) => Cut(Working(inp.gucs, d), Floor(inp, d))
  }

  /* ---- the claims, with their cells ---- */

  /** Claims of the first i databases; database k's cell is k. */
  ghost function SearchStakes(inp: Input, i: nat): seq<Stake>
    requires i <= |inp.dbs|
  {
    if i == 0 then [] else
    var c := SearchClaim(inp, inp.dbs[i - 1]);
    SearchStakes(inp, i - 1) + if c.ask > 0 then [Stake(c, i - 1)] else []
  }

  /** Claims of the first j builds; build k's cell follows the databases' cells. */
  ghost function BuildStakes(inp: Input, j: nat): seq<Stake>
    requires j <= |inp.builds|
  {
    if j == 0 then [] else
    var c := BuildClaim(inp.builds[j - 1]);
    BuildStakes(inp, j - 1) + if c.ask > 0 then [Stake(c, |inp.dbs| + j - 1)] else []
  }

  ghost function AllStakes(inp: Input): seq<Stake> {
    SearchStakes(inp, |inp.dbs|) + BuildStakes(inp, |inp.builds|)
  }

  ghost predicate CellsWithin(ss: seq<Stake>, lo: nat, hi: nat) {
    && (forall k :: 0 <= k < |ss| ==> lo <= ss[k].cell < hi)
    && (forall k, l :: 0 <= k < l < |ss| ==> ss[k].cell != ss[l].cell)
  }

  lemma BidsSnoc(ss: seq<Stake>, x: Stake)
    ensures Bids(ss + [x]) == Bids(ss) + [x.claim]
  {}

  lemma {:induction false} SearchStakesShape(inp: Input, i: nat)
    requires i <= |inp.dbs|
    ensures |SearchStakes(inp, i)| <= i && CellsWithin(SearchStakes(inp, i), 0, i)
  {
    if i > 0 { SearchStakesShape(inp, i - 1); }
  }

  lemma {:induction false} SearchStakesBids(inp: Input, i: nat)
    requires i <= |inp.dbs|
    ensures Bids(SearchStakes(inp, i)) == Filter(Map(inp.dbs, SearchClaimOf(inp))[..i], Asking)
  {
    if i > 0 {
      SearchStakesBids(inp, i - 1);
      FilterSnoc(Map(inp.dbs, SearchClaimOf(inp)), i - 1, Asking);
      BidsSnoc(SearchStakes(inp, i - 1), Stake(SearchClaim(inp, inp.dbs[i - 1]), i - 1));
    }
  }

  lemma {:induction false} BuildStakesShape(inp: Input, j: nat)
    requires j <= |inp.builds|
    ensures |BuildStakes(inp, j)| <= j && CellsWithin(BuildStakes(inp, j), |inp.dbs|, |inp.dbs| + j)
  {
    if j > 0 { BuildStakesShape(inp, j - 1); }
  }

  lemma {:induction false} BuildStakesBids(inp: Input, j: nat)
    requires j <= |inp.builds|
    ensures Bids(BuildStakes(inp, j)) == Filter(Map(inp.builds, BuildClaim)[..j], Asking)
  {
    if j > 0 {
      BuildStakesBids(inp, j - 1);
      FilterSnoc(Map(inp.builds, BuildClaim), j - 1, Asking);
      BidsSnoc(BuildStakes(inp, j - 1), Stake(BuildClaim(inp.builds[j - 1]), |inp.dbs| + j - 1));
    }
  }

  lemma {:induction false} SearchStakeAt(inp: Input, i: nat, k: nat)
    requires k < i <= |inp.dbs|
    ensures SearchClaim(inp, inp.dbs[k]).ask > 0 ==> Stake(SearchClaim(inp, inp.dbs[k]), k) in SearchStakes(inp, i)
    ensures SearchClaim(inp, inp.dbs[k]).ask <= 0 ==> !Owns(SearchStakes(inp, i), k)
  {
    if k < i - 1 {
      SearchStakeAt(inp, i - 1, k);
    } else {
      SearchStakesShape(inp, i - 1);
    }
  }

  lemma {:induction false} BuildStakeAt(inp: Input, j: nat, k: nat)
    requires k < j <= |inp.builds|
    ensures BuildClaim(inp.builds[k]).ask > 0 ==>
      Stake(BuildClaim(inp.builds[k]), |inp.dbs| + k) in BuildStakes(inp, j)
    ensures BuildClaim(inp.builds[k]).ask <= 0 ==> !Owns(BuildStakes(inp, j), |inp.dbs| + k)
  {
    if k < j - 1 {
      BuildStakeAt(inp, j - 1, k);
    } else {
      BuildStakesShape(inp, j - 1);
    }
  }

  lemma BidsConcat(a: seq<Stake>, b: seq<Stake>)
    ensures Bids(a + b) == Bids(a) + Bids(b)
  {}

  lemma AllStakesBids(inp: Input)
    ensures Bids(AllStakes(inp)) == Claims(inp)
  {
    SearchStakesBids(inp, |inp.dbs|);
    BuildStakesBids(inp, |inp.builds|);
    var sc, bc := Map(inp.dbs, SearchClaimOf(inp)), Map(inp.builds, BuildClaim);
    assert sc[..|inp.dbs|] == sc && bc[..|inp.builds|] == bc;
    BidsConcat(SearchStakes(inp, |inp.dbs|), BuildStakes(inp, |inp.builds|));
  }

  lemma AllStakesValid(inp: Input)
    requires ValidInput(inp)
    ensures ValidStakes(AllStakes(inp), |inp.dbs| + |inp.builds|)
    ensures |AllStakes(inp)| <= |inp.dbs| + |inp.builds|
  {
    AllStakesBids(inp);
    ClaimsWellFormed(inp);
    ClaimsFit(inp);
    SearchStakesShape(inp, |inp.dbs|);
    BuildStakesShape(inp, |inp.builds|);
    var ss := AllStakes(inp);
    forall i | 0 <= i < |ss| ensures Fits32(ss[i].claim) { assert Bids(ss)[i] in Claims(inp); }
  }

  /** The cells once every stake has been granted and no other cell was touched. */
  ghost predicate CellsGranted(inp: Input, g: seq<Cell>) {
    && |g| == |inp.dbs| + |inp.builds| && ValidStakes(AllStakes(inp), |g|)
    && Granted(AllStakes(inp), Remainder(inp), g)
    && forall k :: 0 <= k < |g| && !Owns(AllStakes(inp), k) ==> g[k].value == 0
  }

  /** Cell k belongs to claim c, or to nobody if c asks for nothing. */
  ghost predicate HasCell(ss: seq<Stake>, c: Claim, k: nat) {
    if c.ask > 0 then Stake(c, k) in ss else !Owns(ss, k)
  }

  lemma SearchStakeIn(inp: Input, k: nat)
    requires k < |inp.dbs|
    ensures HasCell(AllStakes(inp), SearchClaim(inp, inp.dbs[k]), k)
  {
    SearchStakeAt(inp, |inp.dbs|, k);
    BuildStakesShape(inp, |inp.builds|);
  }

  lemma BuildStakeIn(inp: Input, k: nat)
    requires k < |inp.builds|
    ensures HasCell(AllStakes(inp), BuildClaim(inp.builds[k]), |inp.dbs| + k)
  {
    BuildStakeAt(inp, |inp.builds|, k);
    SearchStakesShape(inp, |inp.dbs|);
  }

  lemma {:induction false} CellValue(ss: seq<Stake>, r: int, g: seq<Cell>, c: Claim, k: nat)
    requires k < |g| && ValidStakes(ss, |g|) && Granted(ss, r, g)
    requires forall j :: 0 <= j < |g| && !Owns(ss, j) ==> g[j].value == 0
    requires HasCell(ss, c, k)
    ensures g[k].value as int == if c.ask > 0 then Grant(Bids(ss), r, c) else 0
  {}

  /** Every claim's cell holds its elastic grant. */
  ghost predicate CellsHold(inp: Input, g: seq<Cell>) {
    && |g| == |inp.dbs| + |inp.builds|
    && forall c, k: nat :: k < |g| && HasCell(AllStakes(inp), c, k) ==> g[k].value as int == Elastic(inp, c)
  }

  lemma GrantedCellsHold(inp: Input, g: seq<Cell>)
    requires CellsGranted(inp, g)
    ensures CellsHold(inp, g)
  {
    AllStakesBids(inp);
    forall c, k: nat | k < |g| && HasCell(AllStakes(inp), c, k) ensures g[k].value as int == Elastic(inp, c) {
      CellValue(AllStakes(inp), Remainder(inp), g, c, k);
    }
  }

  /* ---- collecting the claims ---- */

  method AppendClaim(claims: array<ClaimSlot>, n: nat, stake: Stake, ghost ss: seq<Stake>) returns (n': nat)
    requires n < claims.Length && Stakes(claims[..n]) == ss
    modifies claims
    ensures n' == (if stake.claim.ask > 0 then n + 1 else n)
    ensures Stakes(claims[..n']) == ss + if stake.claim.ask > 0 then [stake] else []
  {
    n' := n;
    if stake.claim.ask > 0 {
      claims[n] := ClaimSlot(stake, 0, 0);
      assert claims[..n + 1] == old(claims[..n]) + [ClaimSlot(stake, 0, 0)];
      n' := n + 1;
    }
  }

  lemma OneMoreSearch(inp: Input, i: nat, w: DbWorking)
    requires i < |inp.dbs| && w == ClampedRow(inp)(inp.dbs[i])
    ensures var stake := Stake(Claim(w.dbOid, 0, w.floor, w.desired - w.floor), i);
      SearchStakes(inp, i + 1) == SearchStakes(inp, i) + if stake.claim.ask > 0 then [stake] else []
  {}

  lemma OneMoreBuild(inp: Input, j: nat, searching: seq<Stake>)
    requires j < |inp.builds|
    ensures var stake := Stake(BuildClaim(inp.builds[j]), |inp.dbs| + j);
      searching + BuildStakes(inp, j + 1) == searching + BuildStakes(inp, j) + if stake.claim.ask > 0 then [stake] else []
  {}

  method CollectSearchClaims(inp: Input, working: array<DbWorking>, claims: array<ClaimSlot>) returns (n: nat)
    requires working.Length == |inp.dbs| <= claims.Length
    requires forall k :: 0 <= k < |inp.dbs| ==>
      working[k] == ClampedRow(inp)(inp.dbs[k])
    modifies claims
    ensures n <= |inp.dbs| && Stakes(claims[..n]) == SearchStakes(inp, |inp.dbs|)
  {
    n := 0;
    for i := 0 to |inp.dbs|
      invariant n <= i && Stakes(claims[..n]) == SearchStakes(inp, i)
    {
      var w := working[i];
      var stake := Stake(Claim(w.dbOid, 0, w.floor, w.desired - w.floor), i);
      OneMoreSearch(inp, i, w);
      n := AppendClaim(claims, n, stake, SearchStakes(inp, i));
    }
  }

  /** Search claims first, then builds; a row that asks for nothing makes no claim. */
  method CollectClaims(inp: Input, working: array<DbWorking>, claims: array<ClaimSlot>) returns (n: nat)
    requires working.Length == |inp.dbs| && claims.Length == |inp.dbs| + |inp.builds|
    requires forall k :: 0 <= k < |inp.dbs| ==>
      working[k] == ClampedRow(inp)(inp.dbs[k])
    modifies claims
    ensures n <= claims.Length && Stakes(claims[..n]) == AllStakes(inp)
  {
    n := CollectSearchClaims(inp, working, claims);
    ghost var searching := SearchStakes(inp, |inp.dbs|);
    for j := 0 to |inp.builds|
      invariant n <= |inp.dbs| + j && Stakes(claims[..n]) == searching + BuildStakes(inp, j)
    {
      var b := inp.builds[j];
      var stake := Stake(BuildClaim(b), |inp.dbs| + j);
      OneMoreBuild(inp, j, searching);
      n := AppendClaim(claims, n, stake, searching + BuildStakes(inp, j));
    }
  }

  /* ---- the whole computation ---- */

  /** Working rows with their honored floors, the floors' total, and whether they were cut. */
  method PrepareFloors(inp: Input) returns (working: array<DbWorking>, remainder: int32, clamped: bool)
    requires ValidInput(inp)
    ensures fresh(working) && working.Length == |inp.dbs|
    ensures forall k :: 0 <= k < |inp.dbs| ==>
      working[k] == ClampedRow(inp)(inp.dbs[k])
    ensures remainder as int == Remainder(inp)
    ensures clamped <==> Sum(Rows(inp), FloorOf) > SearchPool(inp.gucs)
  {
    PoolFits(inp);
    RowsFit(inp);
    var pool := SearchPool(inp.gucs) as int32;
    working := BuildDbWorkingSet(inp);
    clamped := ClampFloorsToPool(working, pool);
    assert working[..] == Map(inp.dbs, ClampedRow(inp));
    FloorsAfterClamp(inp, working[..]);
    var grantedFloor := TotalFloor(working);
    FloorsFillPool(inp);
    remainder := (pool as int - grantedFloor as int) as int32;
  }

  lemma {:induction false} FloorsAfterClamp(inp: Input, ws: seq<DbWorking>)
    requires ValidInput(inp) && ws == Map(inp.dbs, ClampedRow(inp))
    ensures FloorsFit(ws) && Sum(ws, FloorOf) == Sum(inp.dbs, FloorOfDb(inp))
  {
    forall k | 0 <= k < |ws| ensures 0 <= ws[k].floor < 0x8000_0000 {
      FloorBounds(inp, inp.dbs[k]);
    }
    SumMap(inp.dbs, ClampedRow(inp), FloorOf, FloorOfDb(inp));
  }

  /** Apportion what the floors left; cell k is database k's elastic grant, and the
      builds' grants follow. */
  method GrantCells(inp: Input, working: array<DbWorking>, remainder: int32) returns (grants: array<Cell>)
    requires ValidInput(inp) && working.Length == |inp.dbs| && remainder as int == Remainder(inp)
    requires forall k :: 0 <= k < |inp.dbs| ==>
      working[k] == ClampedRow(inp)(inp.dbs[k])
    ensures CellsGranted(inp, grants[..])
  {
    var claims := new ClaimSlot[|inp.dbs| + |inp.builds|](_ => ClaimSlot(Stake(Claim(0, 0, 0, 0), 0), 0, 0));
    grants := new Cell[|inp.dbs| + |inp.builds|](_ => Untouched);
    var nclaims := CollectClaims(inp, working, claims);
    AllStakesValid(inp);
    ghost var passes := ApportionRemainder(claims, nclaims, grants, remainder, AllStakes(inp));
  }

  function DbGrantFor(inp: Input, d: DbRequest): DbGrant {
    DbGrant(d.dbOid, Desired(inp.gucs, d), SearchGrant(inp, d), Floor(inp, d))
  }

  function BuildGrantFor(inp: Input, b: BuildRequest): BuildGrant {
    BuildGrant(b.dbOid, b.requestPid, BuildShare(inp, b))
  }

  function RowGrant(w: DbWorking, cell: Cell): DbGrant {
    DbGrant(w.dbOid, w.desired, w.floor + cell.value as int, w.floor)
  }

  lemma RowsGranted(inp: Input, ws: seq<DbWorking>, g: seq<Cell>)
    requires CellsHold(inp, g) && ws == Map(inp.dbs, ClampedRow(inp))
    ensures forall k :: 0 <= k < |ws| ==> RowGrant(ws[k], g[k]) == DbGrantFor(inp, inp.dbs[k])
  {
    forall k | 0 <= k < |ws| ensures RowGrant(ws[k], g[k]) == DbGrantFor(inp, inp.dbs[k]) {
      SearchStakeIn(inp, k);
    }
  }

  method ReadRows(working: array<DbWorking>, grants: array<Cell>) returns (dbGrants: seq<DbGrant>)
    requires working.Length <= grants.Length
    ensures |dbGrants| == working.Length
    ensures forall k :: 0 <= k < working.Length ==> dbGrants[k] == RowGrant(working[k], grants[k])
  {
    dbGrants := [];
    for i := 0 to working.Length
      invariant |dbGrants| == i
      invariant forall k :: 0 <= k < i ==> dbGrants[k] == RowGrant(working[k], grants[k])
    {
      var w := working[i];
      dbGrants := dbGrants + [DbGrant(w.dbOid, w.desired, w.floor + grants[i].value as int, w.floor)];
    }
  }

  method ReadDbGrants(inp: Input, working: array<DbWorking>, grants: array<Cell>) returns (dbGrants: seq<DbGrant>)
    requires working.Length == |inp.dbs| && CellsHold(inp, grants[..])
    requires forall k :: 0 <= k < |inp.dbs| ==> working[k] == ClampedRow(inp)(inp.dbs[k])
    ensures |dbGrants| == |inp.dbs|
    ensures forall i :: 0 <= i < |inp.dbs| ==> dbGrants[i] == DbGrantFor(inp, inp.dbs[i])
  {
    dbGrants := ReadRows(working, grants);
    assert working[..] == Map(inp.dbs, ClampedRow(inp));
    RowsGranted(inp, working[..], grants[..]);
  }

  function CellGrant(b: BuildRequest, cell: Cell): BuildGrant {
    BuildGrant(b.dbOid, b.requestPid, cell.value as int)
  }

  lemma BuildsGranted(inp: Input, g: seq<Cell>)
    requires CellsHold(inp, g)
    ensures forall k :: 0 <= k < |inp.builds| ==>
      CellGrant(inp.builds[k], g[|inp.dbs| + k]) == BuildGrantFor(inp, inp.builds[k])
  {
    forall k | 0 <= k < |inp.builds|
      ensures CellGrant(inp.builds[k], g[|inp.dbs| + k]) == BuildGrantFor(inp, inp.builds[k])
    {
      BuildStakeIn(inp, k);
    }
  }

  method ReadBuildGrants(inp: Input, grants: array<Cell>) returns (buildGrants: seq<BuildGrant>)
    requires CellsHold(inp, grants[..])
    ensures |buildGrants| == |inp.builds|
    ensures forall i :: 0 <= i < |inp.builds| ==> buildGrants[i] == BuildGrantFor(inp, inp.builds[i])
  {
    BuildsGranted(inp, grants[..]);
    buildGrants := [];
    for i := 0 to |inp.builds|
      invariant |buildGrants| == i
      invariant forall k :: 0 <= k < i ==> buildGrants[k] == CellGrant(inp.builds[k], grants[..][|inp.dbs| + k])
    {
      var b := inp.builds[i];
      buildGrants := buildGrants + [BuildGrant(b.dbOid, b.requestPid, grants[|inp.dbs| + i].value as int)];
    }
  }

  function GrantedTo(g: DbGrant): int { g.granted }
  function GrantedToBuild(g: BuildGrant): int { g.granted }

  lemma {:induction false} GrantTotals(inp: Input, dbGrants: seq<DbGrant>, buildGrants: seq<BuildGrant>)
    requires |dbGrants| == |inp.dbs| && |buildGrants| == |inp.builds|
    requires forall i :: 0 <= i < |inp.dbs| ==> dbGrants[i] == DbGrantFor(inp, inp.dbs[i])
    requires forall i :: 0 <= i < |inp.builds| ==> buildGrants[i] == BuildGrantFor(inp, inp.builds[i])
    ensures Sum(dbGrants, GrantedTo) == Sum(inp.dbs, SearchGrantOf(inp))
    ensures Sum(buildGrants, GrantedToBuild) == Sum(inp.builds, BuildShareOf(inp))
  {
    var dbGrant, buildGrant := (d: DbRequest) => DbGrantFor(inp, d), (b: BuildRequest) => BuildGrantFor(inp, b);
    assert dbGrants == Map(inp.dbs, dbGrant) && buildGrants == Map(inp.builds, buildGrant);
    SumMap(inp.dbs, dbGrant, GrantedTo, SearchGrantOf(inp));
    SumMap(inp.builds, buildGrant, GrantedToBuild, BuildShareOf(inp));
  }

  lemma FieldsReported(inp: Input, dbGrants: seq<DbGrant>)
    requires ValidInput(inp) && |dbGrants| == |inp.dbs|
    requires forall i :: 0 <= i < |inp.dbs| ==> dbGrants[i] == DbGrantFor(inp, inp.dbs[i])
    ensures var total, g := Sum(inp.dbs, ReservedOf(inp.gucs)), inp.gucs;
      Sum(Rows(inp), FloorOf) > SearchPool(g) <==>
        total > g.maxParallelWorkers || (g.maxTotalSearchThreads > 0 && total > g.maxTotalSearchThreads)
    ensures forall i :: 0 <= i < |inp.dbs| ==> FieldsFit(inp, inp.dbs[i], dbGrants[i])
  {
    FloorsReported(inp);
    AskedIsDesired(inp);
    GrantsWithinBounds(inp);
    forall i | 0 <= i < |inp.dbs| ensures FieldsFit(inp, inp.dbs[i], dbGrants[i]) { assert inp.dbs[i] in inp.dbs; }
  }

  /** A database's reported grant: its own name, what it asks for, and its floor, cut only
      if the reservations do not all fit. */
  ghost predicate FieldsFit(inp: Input, d: DbRequest, g: DbGrant) {
    && g.dbOid == d.dbOid && g.desired == Asked(inp.gucs, d) && 0 <= g.reserved <= g.granted <= g.desired
    && (Sum(Rows(inp), FloorOf) <= SearchPool(inp.gucs) ==> g.reserved == Min(d.searchThreadsReserved, g.desired))
  }

  /** Every database's and every build's grant, in the order they were listed. */
  method ComputeCpuGrants(inp: Input) returns (dbGrants: seq<DbGrant>, buildGrants: seq<BuildGrant>, floorsExceedPool: bool)
    requires ValidInput(inp)
    ensures |dbGrants| == |inp.dbs| && |buildGrants| == |inp.builds|
    ensures forall i :: 0 <= i < |inp.dbs| ==> dbGrants[i] == DbGrantFor(inp, inp.dbs[i])
    ensures forall i :: 0 <= i < |inp.builds| ==> buildGrants[i] == BuildGrantFor(inp, inp.builds[i])
    ensures floorsExceedPool <==>
      var total, g := Sum(inp.dbs, ReservedOf(inp.gucs)), inp.gucs;
      total > g.maxParallelWorkers || (g.maxTotalSearchThreads > 0 && total > g.maxTotalSearchThreads)
    ensures forall i :: 0 <= i < |inp.dbs| ==>
      && dbGrants[i].dbOid == inp.dbs[i].dbOid && dbGrants[i].desired == Asked(inp.gucs, inp.dbs[i])
      && 0 <= dbGrants[i].reserved <= dbGrants[i].granted <= dbGrants[i].desired
      && (!floorsExceedPool ==> dbGrants[i].reserved == Min(inp.dbs[i].searchThreadsReserved, dbGrants[i].desired))
    ensures Sum(dbGrants, GrantedTo) + Sum(buildGrants, GrantedToBuild) <= inp.gucs.maxParallelWorkers
    ensures inp.gucs.maxTotalSearchThreads > 0 ==>
      Sum(dbGrants, GrantedTo) + Sum(buildGrants, GrantedToBuild) <= inp.gucs.maxTotalSearchThreads
  {
    var working, remainder;
    working, remainder, floorsExceedPool := PrepareFloors(inp);
    var grants := GrantCells(inp, working, remainder);
    GrantedCellsHold(inp, grants[..]);
    dbGrants := ReadDbGrants(inp, working, grants);
    buildGrants := ReadBuildGrants(inp, grants);
    GrantTotals(inp, dbGrants, buildGrants);
    GrantsWithinCeilings(inp);
    FieldsReported(inp, dbGrants);
  }
}
