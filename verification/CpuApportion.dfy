/** ApportionRemainder as the source runs it: one claims array compacted and
    sorted in place, grants added through each claim's grantOut cell, and the
    source's 32- and 64-bit locals. It is proved to give every claim exactly
    CpuShares.Grant. */
module CpuApportion {
  import opened Seqs
  import opened CpuShares

  newtype int32 = x: int | -0x8000_0000 <= x < 0x8000_0000
  newtype int64 = x: int | -0x8000_0000_0000_0000 <= x < 0x8000_0000_0000_0000

  /** A claim together with the grant cell its grantOut points at. */
  datatype Stake = Stake(claim: Claim, cell: nat)

  /** One element of the claims array; the last two fields are scratch. */
  datatype ClaimSlot = ClaimSlot(stake: Stake, floorShare: int32, fracNumerator: int64)

  /** A grant cell, and how often it has been added to. */
  datatype Cell = Cell(value: int32, ghost writes: nat)

  const Untouched := Cell(0, 0)

  function Stakes(s: seq<ClaimSlot>): (r: seq<Stake>)
    ensures |r| == |s| && forall i :: 0 <= i < |s| ==> r[i] == s[i].stake
  {
    Map(s, (x: ClaimSlot) => x.stake)
  }

  function Bids(s: seq<Stake>): (r: seq<Claim>)
    ensures |r| == |s| && forall i :: 0 <= i < |s| ==> r[i] == s[i].claim
  {
    Map(s, (x: Stake) => x.claim)
  }

  function StakeCompetes(p: Pass): Stake -> bool { (s: Stake) => !Settles(p, s.claim) }

  predicate Fits32(c: Claim) { 0 <= c.weight < 0x8000_0000 && 0 < c.ask < 0x8000_0000 }

  /** Distinct claims of 32-bit size, each with a grant cell of its own. */
  ghost predicate ValidStakes(ss: seq<Stake>, cells: nat) {
    && WellFormed(Bids(ss))
    && |ss| < 0x8000_0000
    && (forall i :: 0 <= i < |ss| ==> Fits32(ss[i].claim) && ss[i].cell < cells)
    && (forall i, j :: 0 <= i < j < |ss| ==> ss[i].cell != ss[j].cell)
  }

  ghost predicate Owns(ss: seq<Stake>, k: nat) {
    exists i :: 0 <= i < |ss| && ss[i].cell == k
  }

  /* ---- stakes and bids ---- */

  lemma {:induction false} BidsFilter(ss: seq<Stake>, p: Pass)
    ensures Bids(Filter(ss, StakeCompetes(p))) == Unsettled(p, Bids(ss))
  {
    if ss != [] {
      var head := if StakeCompetes(p)(ss[0]) then [ss[0]] else [];
      BidsFilter(ss[1..], p);
      assert Bids(ss)[0] == ss[0].claim && Bids(ss)[1..] == Bids(ss[1..]);
      assert Filter(ss, StakeCompetes(p)) == head + Filter(ss[1..], StakeCompetes(p));
      assert Bids(head + Filter(ss[1..], StakeCompetes(p)))
          == Bids(head) + Bids(Filter(ss[1..], StakeCompetes(p)));
    }
  }

  /** Filtering keeps the cells distinct and in range. */
  lemma {:induction false} FilterKeepsCells(ss: seq<Stake>, p: Pass, cells: nat)
    requires forall i :: 0 <= i < |ss| ==> Fits32(ss[i].claim) && ss[i].cell < cells
    requires forall i, j :: 0 <= i < j < |ss| ==> ss[i].cell != ss[j].cell
    ensures var fs := Filter(ss, StakeCompetes(p));
      && |fs| <= |ss|
      && (forall s :: s in fs ==> s in ss)
      && (forall i :: 0 <= i < |fs| ==> Fits32(fs[i].claim) && fs[i].cell < cells)
      && (forall i, j :: 0 <= i < j < |fs| ==> fs[i].cell != fs[j].cell)
  {
    if ss != [] {
      FilterKeepsCells(ss[1..], p, cells);
      var tail := Filter(ss[1..], StakeCompetes(p));
      forall i | 0 <= i < |tail| ensures tail[i].cell != ss[0].cell {
        assert tail[i] in ss[1..];
      }
    }
  }

  lemma {:induction false} FilterStaysValid(ss: seq<Stake>, r: int, cells: nat)
    requires ValidStakes(ss, cells)
    ensures ValidStakes(Filter(ss, StakeCompetes(PassOf(Bids(ss), r))), cells)
  {
    var p := PassOf(Bids(ss), r);
    FilterKeepsCells(ss, p, cells);
    BidsFilter(ss, p);
    SettleMembers(Bids(ss), r);
  }

  lemma {:induction false} PrefixSum<T>(s: seq<T>, i: nat, f: T -> int)
    requires i <= |s| && forall x :: x in s ==> f(x) >= 0
    ensures 0 <= Sum(s[..i], f) <= Sum(s, f)
  {
    assert s == s[..i] + s[i..];
    SumConcat(s[..i], s[i..], f);
    SumNonNegative(s[..i], f);
    SumNonNegative(s[i..], f);
  }

  lemma {:induction false} SumBelow<T>(s: seq<T>, f: T -> int, bound: nat)
    requires forall x :: x in s ==> 0 <= f(x) < bound
    ensures 0 <= Sum(s, f) <= |s| * bound
  {
    if s != [] {
      assert s[0] in s;
      SumBelow(s[1..], f, bound);
      assert |s| * bound == (|s| - 1) * bound + bound;
    }
  }

  /* ---- the inner loops ---- */

  lemma BidAt(claims: seq<ClaimSlot>, i: nat)
    requires i < |claims|
    ensures Bids(Stakes(claims))[i] == claims[i].stake.claim
    ensures Stakes(claims)[i] in Stakes(claims) && Bids(Stakes(claims))[i] in Bids(Stakes(claims))
  {}

  lemma TotalsFit(ss: seq<Stake>, cells: nat, i: nat)
    requires ValidStakes(ss, cells) && i <= |ss|
    ensures 0 <= Sum(Bids(ss)[..i], Ask) < 0x4000_0000_0000_0000
    ensures 0 <= Sum(Bids(ss)[..i], Weight) < 0x4000_0000_0000_0000
  {
    forall c | c in Bids(ss) ensures Fits32(c) {
      var k :| 0 <= k < |ss| && Bids(ss)[k] == c;
      assert c == ss[k].claim;
    }
    SumBelow(Bids(ss)[..i], Ask, 0x8000_0000);
    SumBelow(Bids(ss)[..i], Weight, 0x8000_0000);
    assert i * 0x8000_0000 <= 0x7fff_ffff * 0x8000_0000;
  }

  method Totals(claims: array<ClaimSlot>, active: nat, ghost cells: nat)
    returns (totalAsk: int64, totalWeight: int64)
    requires active <= claims.Length && ValidStakes(Stakes(claims[..active]), cells)
    ensures totalAsk as int == Sum(Bids(Stakes(claims[..active])), Ask)
    ensures totalWeight as int == Sum(Bids(Stakes(claims[..active])), Weight)
  {
    totalAsk, totalWeight := 0, 0;
    ghost var ss := Stakes(claims[..active]);
    ghost var cs := Bids(ss);
    for i := 0 to active
      invariant totalAsk as int == Sum(cs[..i], Ask)
      invariant totalWeight as int == Sum(cs[..i], Weight)
    {
      BidAt(claims[..active], i);
      TotalsFit(ss, cells, i);
      TotalsFit(ss, cells, i + 1);
      SumSnoc(cs, i, Ask);
      SumSnoc(cs, i, Weight);
      totalAsk := totalAsk + claims[i].stake.claim.ask as int64;
      totalWeight := totalWeight + claims[i].stake.claim.weight as int64;
    }
    assert cs[..active] == cs;
  }

  lemma ProductFits(r: int, w: int)
    requires 0 <= r < 0x8000_0000 && 0 <= w < 0x8000_0000
    ensures 0 <= r * w < 0x4000_0000_0000_0000
  {
    MulMonotone(r, w, 0x7fff_ffff);
    MulMonotone(0x7fff_ffff, r, 0x7fff_ffff);
  }

  lemma QuotientFits(r: int, w: int, d: int)
    requires 0 < d && 0 <= w <= d && 0 <= r
    ensures 0 <= r * w / d <= r
  {
    DivMod(r * w, d);
    MulMonotone(r, w, d);
    MulCancelAtMost(d, r * w / d, r);
  }

  /** The two computations the source casts back to 32 and 64 bits. */
  method ShareOf(c: Claim, remainder: int32, totalWeight: int64, denom: int64, ghost p: Pass)
    returns (floorShare: int32, fracNumerator: int64)
    requires Fits32(c) && remainder > 0 && denom > 0
    requires p == Pass(remainder as int, totalWeight as int, denom as int)
    requires ShareWeight(p, c) <= p.denom
    ensures floorShare as int == FloorShare(p, c) && fracNumerator as int == Frac(p, c)
    ensures 0 <= floorShare <= remainder
  {
    var weightForShare: int64 := if totalWeight > 0 then c.weight as int64 else 1;
    ProductFits(remainder as int, weightForShare as int);
    QuotientFits(remainder as int, weightForShare as int, denom as int);
    var product: int64 := remainder as int64 * weightForShare;
    floorShare := (product / denom) as int32;
    fracNumerator := product % denom;
  }

  /** What holds when a pass starts: some claims compete for less than they ask for. */
  ghost predicate PassReady(ss: seq<Stake>, cells: nat, remainder: int32, totalWeight: int64, denom: int64, p: Pass) {
    && ValidStakes(ss, cells)
    && Contended(Bids(ss), remainder as int)
    && p == PassOf(Bids(ss), remainder as int)
    && totalWeight as int == p.totalWeight && denom as int == p.denom && denom > 0
  }

  lemma PassReadyFacts(ss: seq<Stake>, cells: nat, remainder: int32, totalWeight: int64, denom: int64, p: Pass, i: nat)
    requires PassReady(ss, cells, remainder, totalWeight, denom, p) && i < |ss|
    ensures Fits32(ss[i].claim) && ss[i].cell < cells
    ensures ShareWeight(p, ss[i].claim) <= p.denom
    ensures 0 <= Sum(Bids(ss)[..i + 1], SettledAskOf(p)) <= remainder as int
    ensures 0 <= Sum(Bids(ss)[..i + 1], FloorShareOf(p)) <= remainder as int
  {
    var cs := Bids(ss);
    PassShape(cs, remainder as int);
    assert cs[i] == ss[i].claim;
    forall c | c in cs ensures ShareWeight(p, c) >= 0 && SettledAskOf(p)(c) >= 0 && FloorShareOf(p)(c) >= 0 {
      ShareFacts(p, c);
    }
    SumNonNegative(cs, ShareWeightOf(p));
    assert ShareWeightOf(p)(cs[i]) <= p.denom;
    SettleStep(cs, remainder as int);
    LeftoverBelowFractions(cs, remainder as int);
    PrefixSum(cs, i + 1, SettledAskOf(p));
    PrefixSum(cs, i + 1, FloorShareOf(p));
  }

  lemma FilterSnoc<T>(s: seq<T>, i: nat, q: T -> bool)
    requires i < |s|
    ensures Filter(s[..i + 1], q) == Filter(s[..i], q) + if q(s[i]) then [s[i]] else []
  {
    assert s[..i + 1] == s[..i] + [s[i]];
    FilterConcat(s[..i], [s[i]], q);
  }

  /** Every cell that belongs to no claim still holds what it held before. */
  ghost predicate OthersKept(ss: seq<Stake>, g: seq<Cell>, g0: seq<Cell>) {
    |g| == |g0| && forall k :: 0 <= k < |g| && !Owns(ss, k) ==> g[k] == g0[k]
  }

  ghost predicate SettledCell(p: Pass, c: Claim, cell: Cell) {
    if Settles(p, c) then cell.value as int == c.ask && cell.writes == 1 else cell == Untouched
  }

  /** The state of a settling pass after its first i claims. */
  ghost predicate Settling(ss: seq<Stake>, p: Pass, claims: seq<ClaimSlot>, g: seq<Cell>, i: nat, newActive: nat, settledAsk: int)
    requires ValidStakes(ss, |g|)
  {
    && newActive <= i <= |ss| <= |claims|
    && (forall j :: i <= j < |ss| ==> claims[j].stake == ss[j])
    && Stakes(claims[..newActive]) == Filter(ss[..i], StakeCompetes(p))
    && (forall j :: 0 <= j < newActive ==> claims[j].floorShare as int == FloorShare(p, claims[j].stake.claim))
    && settledAsk == Sum(Bids(ss)[..i], SettledAskOf(p))
    && (forall j :: 0 <= j < i ==> SettledCell(p, ss[j].claim, g[ss[j].cell]))
    && (forall j :: i <= j < |ss| ==> g[ss[j].cell] == Untouched)
  }

  lemma PaysSettled(ss: seq<Stake>, p: Pass, claims: seq<ClaimSlot>, g: seq<Cell>, i: nat, newActive: nat,
                    settledAsk: int, pay: int32)
    requires ValidStakes(ss, |g|) && i < |ss| && Settling(ss, p, claims, g, i, newActive, settledAsk)
    requires Settles(p, ss[i].claim) && pay as int == ss[i].claim.ask
    ensures Settling(ss, p, claims, g[ss[i].cell := Cell(pay, 1)], i + 1, newActive, settledAsk + pay as int)
  {
    SumSnoc(Bids(ss), i, SettledAskOf(p));
    FilterSnoc(ss, i, StakeCompetes(p));
  }

  lemma KeepsUnsettled(ss: seq<Stake>, p: Pass, claims: seq<ClaimSlot>, g: seq<Cell>, i: nat, newActive: nat,
                       settledAsk: int, slot: ClaimSlot)
    requires ValidStakes(ss, |g|) && i < |ss| && Settling(ss, p, claims, g, i, newActive, settledAsk)
    requires !Settles(p, ss[i].claim) && slot.stake == ss[i] && slot.floorShare as int == FloorShare(p, ss[i].claim)
    ensures Settling(ss, p, claims[newActive := slot], g, i + 1, newActive + 1, settledAsk)
  {
    SumSnoc(Bids(ss), i, SettledAskOf(p));
    FilterSnoc(ss, i, StakeCompetes(p));
    var claims' := claims[newActive := slot];
    assert claims'[..newActive + 1] == claims[..newActive] + [slot];
    assert Stakes(claims'[..newActive + 1]) == Stakes(claims[..newActive]) + [slot.stake];
  }

  /** *grantOut += amount. */
  function Add(cell: Cell, amount: int32): Cell
    requires cell.value == 0
  {
    Cell(cell.value + amount, cell.writes + 1)
  }

  /** The body of the settling loop: pay a settled claim, or keep the claim. */
  method SettleOne(claims: array<ClaimSlot>, i: nat, newActive: nat, grants: array<Cell>, settledAsk: int32,
                   remainder: int32, totalWeight: int64, denom: int64, ghost ss: seq<Stake>, ghost p: Pass)
    returns (newActive': nat, settledAsk': int32)
    requires PassReady(ss, grants.Length, remainder, totalWeight, denom, p)
    requires i < |ss| && Settling(ss, p, claims[..], grants[..], i, newActive, settledAsk as int)
    modifies claims, grants
    ensures Settling(ss, p, claims[..], grants[..], i + 1, newActive', settledAsk' as int)
    ensures OthersKept(ss, grants[..], old(grants[..]))
  {
    var slot := claims[i];
    PassReadyFacts(ss, grants.Length, remainder, totalWeight, denom, p, i);
    var floorShare, _ := ShareOf(slot.stake.claim, remainder, totalWeight, denom, p);
    if floorShare as int >= slot.stake.claim.ask {
      var pay := slot.stake.claim.ask as int32;
      PaysSettled(ss, p, claims[..], grants[..], i, newActive, settledAsk as int, pay);
      grants[slot.stake.cell] := Add(grants[slot.stake.cell], pay);
      newActive', settledAsk' := newActive, settledAsk + pay;
    } else {
      var kept := slot.(floorShare := floorShare);
      KeepsUnsettled(ss, p, claims[..], grants[..], i, newActive, settledAsk as int, kept);
      claims[newActive] := kept;
      newActive', settledAsk' := newActive + 1, settledAsk;
    }
  }

  /** One pass: settle each claim whose share covers its ask, and compact the
      others to the front of the array in their original order. */
  method SettlePass(claims: array<ClaimSlot>, active: nat, grants: array<Cell>,
                    remainder: int32, totalWeight: int64, denom: int64, ghost ss: seq<Stake>, ghost p: Pass)
    returns (newActive: nat, settledAsk: int32)
    requires active <= claims.Length && ss == Stakes(claims[..active])
    requires PassReady(ss, grants.Length, remainder, totalWeight, denom, p)
    requires forall j :: 0 <= j < |ss| ==> grants[ss[j].cell] == Untouched
    modifies claims, grants
    ensures newActive <= active
    ensures Stakes(claims[..newActive]) == Filter(ss, StakeCompetes(p))
    ensures forall j :: 0 <= j < newActive ==>
      claims[j].floorShare as int == FloorShare(p, claims[j].stake.claim)
    ensures settledAsk as int == SettledAsk(p, Bids(ss))
    ensures forall j :: 0 <= j < |ss| ==> SettledCell(p, ss[j].claim, grants[ss[j].cell])
    ensures OthersKept(ss, grants[..], old(grants[..]))
  {
    newActive, settledAsk := 0, 0;
    var i := 0;
    while i < active
      invariant i <= active
      invariant Settling(ss, p, claims[..], grants[..], i, newActive, settledAsk as int)
      invariant OthersKept(ss, grants[..], old(grants[..]))
    {
      newActive, settledAsk :=
        SettleOne(claims, i, newActive, grants, settledAsk, remainder, totalWeight, denom, ss, p);
      i := i + 1;
    }
    assert ss[..active] == ss && Bids(ss)[..active] == Bids(ss);
  }

  /* ---- the rounding pass ---- */

  ghost predicate HasShare(p: Pass, slot: ClaimSlot) {
    slot.floorShare as int == FloorShare(p, slot.stake.claim)
  }

  ghost predicate HasFrac(p: Pass, slot: ClaimSlot) {
    HasShare(p, slot) && slot.fracNumerator as int == Frac(p, slot.stake.claim)
  }

  /** Record the fraction each claim loses and total the floors. */
  method FractionPass(claims: array<ClaimSlot>, active: nat, remainder: int32, totalWeight: int64, denom: int64,
                      ghost ss: seq<Stake>, ghost cells: nat, ghost p: Pass)
    returns (distributed: int32)
    requires active <= claims.Length && ss == Stakes(claims[..active])
    requires PassReady(ss, cells, remainder, totalWeight, denom, p)
    requires forall j :: 0 <= j < active ==> HasShare(p, claims[j])
    modifies claims
    ensures Stakes(claims[..active]) == ss
    ensures forall j :: 0 <= j < active ==> HasFrac(p, claims[j])
    ensures distributed as int == Sum(Bids(ss), FloorShareOf(p))
  {
    distributed := 0;
    for i := 0 to active
      invariant forall j :: 0 <= j < active ==> claims[j].stake == ss[j] && HasShare(p, claims[j])
      invariant forall j :: 0 <= j < i ==> HasFrac(p, claims[j])
      invariant distributed as int == Sum(Bids(ss)[..i], FloorShareOf(p))
    {
      PassReadyFacts(ss, cells, remainder, totalWeight, denom, p, i);
      SumSnoc(Bids(ss), i, FloorShareOf(p));
      var _, frac := ShareOf(claims[i].stake.claim, remainder, totalWeight, denom, p);
      claims[i] := claims[i].(fracNumerator := frac);
      distributed := distributed + claims[i].floorShare;
    }
    assert Bids(ss)[..active] == Bids(ss);
  }

  /** CompareClaimsForLeftover: whether a sorts before b. */
  predicate SlotBefore(a: ClaimSlot, b: ClaimSlot) {
    if a.fracNumerator != b.fracNumerator then a.fracNumerator > b.fracNumerator
    else if a.stake.claim.weight != b.stake.claim.weight then a.stake.claim.weight > b.stake.claim.weight
    else if a.stake.claim.dbOid != b.stake.claim.dbOid then a.stake.claim.dbOid < b.stake.claim.dbOid
    else a.stake.claim.requestPid < b.stake.claim.requestPid
  }

  method CopyBack(claims: array<ClaimSlot>, sorted: seq<ClaimSlot>)
    requires |sorted| <= claims.Length
    modifies claims
    ensures claims[..|sorted|] == sorted
    ensures claims[|sorted|..] == old(claims[|sorted|..])
  {
    for i := 0 to |sorted|
      invariant forall j :: 0 <= j < i ==> claims[j] == sorted[j]
      invariant forall j :: |sorted| <= j < claims.Length ==> claims[j] == old(claims[j])
    {
      claims[i] := sorted[i];
    }
  }

  /** qsort of the first n claims. */
  method Qsort(claims: array<ClaimSlot>, n: nat)
    requires n <= claims.Length
    modifies claims
    ensures claims[..n] == SortBy(old(claims[..n]), SlotBefore)
    ensures claims[n..] == old(claims[n..])
  {
    SortIsPermutation(claims[..n], SlotBefore);
    CopyBack(claims, SortBy(claims[..n], SlotBefore));
  }

  lemma SlotBeforeTransitive()
    ensures Transitive(SlotBefore)
  {}

  lemma SlotsSortable(slots: seq<ClaimSlot>, p: Pass)
    requires forall j :: 0 <= j < |slots| ==> HasFrac(p, slots[j])
    requires DistinctKeys(Bids(Stakes(slots)))
    ensures Comparable(slots, SlotBefore)
  {
    var cs := Bids(Stakes(slots));
    forall i, j | 0 <= i < j < |slots| ensures SlotBefore(slots[i], slots[j]) || SlotBefore(slots[j], slots[i]) {
      CountedOnce(cs, i, j);
      assert !SameKey(cs[i], cs[j]);
    }
  }

  /** After the sort, position i holds the claim of rank i. */
  lemma {:induction false} SortedByRank(slots: seq<ClaimSlot>, t: seq<ClaimSlot>, p: Pass)
    requires forall j :: 0 <= j < |slots| ==> HasFrac(p, slots[j])
    requires DistinctKeys(Bids(Stakes(slots)))
    requires t == SortBy(slots, SlotBefore)
    ensures multiset(t) == multiset(slots) && |t| == |slots|
    ensures multiset(Stakes(t)) == multiset(Stakes(slots))
    ensures forall j :: 0 <= j < |t| ==> HasFrac(p, t[j])
    ensures forall j :: 0 <= j < |t| ==> Rank(p, Bids(Stakes(slots)), t[j].stake.claim) == j
  {
    SlotBeforeTransitive();
    SlotsSortable(slots, p);
    SortIsPermutation(slots, SlotBefore);
    SortSorts(slots, SlotBefore);
    forall j | 0 <= j < |t| ensures HasFrac(p, t[j]) {
      assert t[j] in multiset(slots);
    }
    MapPermutation(slots, t, (x: ClaimSlot) => x.stake);
    MapPermutation(Stakes(slots), Stakes(t), (x: Stake) => x.claim);
    var u := Bids(Stakes(t));
    forall i, j | 0 <= i < j < |u| ensures BeforeOn(p)(u[i], u[j]) {
      assert SlotBefore(t[i], t[j]);
    }
    forall j | 0 <= j < |t| ensures Rank(p, Bids(Stakes(slots)), t[j].stake.claim) == j {
      RankIsPosition(p, Bids(Stakes(slots)), u, j);
    }
  }

  ghost predicate PaidCell(cell: Cell, amount: int) {
    cell.value as int == amount && cell.writes == 1
  }

  /** The state of the paying loop after its first i claims. */
  ghost predicate Paying(ts: seq<Stake>, shares: seq<int>, g: seq<Cell>, i: nat)
    requires ValidStakes(ts, |g|) && |shares| == |ts|
  {
    && i <= |ts|
    && (forall j :: 0 <= j < i ==> PaidCell(g[ts[j].cell], shares[j]))
    && (forall j :: i <= j < |ts| ==> g[ts[j].cell] == Untouched)
  }

  method PayOne(slot: ClaimSlot, i: nat, leftover: int32, grants: array<Cell>, ghost ts: seq<Stake>, ghost shares: seq<int>)
    requires ValidStakes(ts, grants.Length) && i < |ts| == |shares| && slot.stake == ts[i]
    requires slot.floorShare as int + (if i < leftover as int then 1 else 0) == shares[i]
    requires 0 <= shares[i] <= ts[i].claim.ask
    requires Paying(ts, shares, grants[..], i)
    modifies grants
    ensures Paying(ts, shares, grants[..], i + 1)
    ensures OthersKept(ts, grants[..], old(grants[..]))
  {
    var share := slot.floorShare + if i < leftover as int then 1 else 0;
    grants[slot.stake.cell] := Add(grants[slot.stake.cell], share);
  }

  /** Add to each claim its floor, and one leftover thread to the first `leftover` claims. */
  method PayPass(claims: array<ClaimSlot>, active: nat, leftover: int32, grants: array<Cell>,
                 ghost ts: seq<Stake>, ghost shares: seq<int>)
    requires active <= claims.Length && ts == Stakes(claims[..active]) && ValidStakes(ts, grants.Length)
    requires |shares| == active
    requires forall j :: 0 <= j < active ==>
      claims[j].floorShare as int + (if j < leftover as int then 1 else 0) == shares[j]
    requires forall j :: 0 <= j < active ==> 0 <= shares[j] <= ts[j].claim.ask
    requires forall j :: 0 <= j < active ==> grants[ts[j].cell] == Untouched
    modifies grants
    ensures Paying(ts, shares, grants[..], active)
    ensures OthersKept(ts, grants[..], old(grants[..]))
  {
    for i := 0 to active
      invariant Paying(ts, shares, grants[..], i)
      invariant OthersKept(ts, grants[..], old(grants[..]))
    {
      PayOne(claims[i], i, leftover, grants, ts, shares);
    }
  }

  lemma SameMembers<T>(s: seq<T>, t: seq<T>)
    requires multiset(s) == multiset(t)
    ensures |s| == |t| && forall x :: x in s <==> x in t
  {
    assert |multiset(s)| == |multiset(t)|;
    forall x ensures x in s <==> x in t {
      assert x in s <==> x in multiset(s);
      assert x in t <==> x in multiset(t);
    }
  }

  lemma PermutedCells(ss: seq<Stake>, ts: seq<Stake>, cells: nat, i: nat, j: nat)
    requires ValidStakes(ss, cells) && multiset(ss) == multiset(ts) && i < j < |ts|
    ensures ts[i].cell != ts[j].cell
  {
    SameMembers(ss, ts);
    assert ts[i] in ss && ts[j] in ss;
    MapPermutation(ss, ts, (x: Stake) => x.claim);
    WellFormedPermutation(Bids(ss), Bids(ts));
    assert Bids(ts)[i] in Bids(ts);
    CountedOnce(Bids(ts), i, j);
  }

  lemma PermutedStakes(ss: seq<Stake>, ts: seq<Stake>, cells: nat)
    requires ValidStakes(ss, cells) && multiset(ss) == multiset(ts)
    ensures ValidStakes(ts, cells)
  {
    SameMembers(ss, ts);
    MapPermutation(ss, ts, (x: Stake) => x.claim);
    WellFormedPermutation(Bids(ss), Bids(ts));
    forall i | 0 <= i < |ts| ensures Fits32(ts[i].claim) && ts[i].cell < cells { assert ts[i] in ss; }
    forall i, j | 0 <= i < j < |ts| ensures ts[i].cell != ts[j].cell { PermutedCells(ss, ts, cells, i, j); }
  }

  lemma PermutedOwners(ss: seq<Stake>, ts: seq<Stake>, k: nat)
    requires multiset(ss) == multiset(ts) && Owns(ts, k)
    ensures Owns(ss, k)
  {
    SameMembers(ss, ts);
    var i :| 0 <= i < |ts| && ts[i].cell == k;
    assert ts[i] in ss;
  }

  /** What the final pass leaves in each claim's cell. */
  ghost predicate Rounded(ss: seq<Stake>, p: Pass, g: seq<Cell>)
    requires ValidStakes(ss, |g|)
  {
    forall s :: s in ss ==> PaidCell(g[s.cell],
      FloorShare(p, s.claim) + if Rank(p, Bids(ss), s.claim) < Leftover(p, Bids(ss)) then 1 else 0)
  }

  /** The shares of the claims in sorted order. */
  ghost function SharesOf(p: Pass, ts: seq<Stake>, leftover: int): seq<int> {
    seq(|ts|, i requires 0 <= i < |ts| => FloorShare(p, ts[i].claim) + if i < leftover then 1 else 0)
  }

  lemma PayingRounds(ss: seq<Stake>, ts: seq<Stake>, p: Pass, leftover: int, g: seq<Cell>)
    requires ValidStakes(ss, |g|) && ValidStakes(ts, |g|) && multiset(ss) == multiset(ts)
    requires leftover == Leftover(p, Bids(ss))
    requires forall j :: 0 <= j < |ts| ==> Rank(p, Bids(ss), ts[j].claim) == j
    requires Paying(ts, SharesOf(p, ts, leftover), g, |ts|)
    ensures Rounded(ss, p, g)
  {
    SameMembers(ss, ts);
  }

  /** Compute the leftover and sort the claims by who is due a leftover thread first. */
  method SortPass(claims: array<ClaimSlot>, active: nat, remainder: int32, totalWeight: int64, denom: int64,
                  ghost ss: seq<Stake>, ghost cells: nat, ghost p: Pass)
    returns (leftover: int32, ghost ts: seq<Stake>)
    requires active <= claims.Length && ss == Stakes(claims[..active])
    requires PassReady(ss, cells, remainder, totalWeight, denom, p)
    requires forall j :: 0 <= j < active ==> HasShare(p, claims[j])
    modifies claims
    ensures ts == Stakes(claims[..active]) && multiset(ts) == multiset(ss)
    ensures leftover as int == Leftover(p, Bids(ss))
    ensures forall j :: 0 <= j < active ==> HasShare(p, claims[j])
    ensures forall j :: 0 <= j < |ts| ==> Rank(p, Bids(ss), ts[j].claim) == j
  {
    var distributed := FractionPass(claims, active, remainder, totalWeight, denom, ss, cells, p);
    LeftoverBelowFractions(Bids(ss), remainder as int);
    leftover := remainder - distributed;
    ghost var slots := claims[..active];
    Qsort(claims, active);
    SortedByRank(slots, claims[..active], p);
    ts := Stakes(claims[..active]);
    forall j | 0 <= j < active ensures HasShare(p, claims[j]) {
      assert claims[j] == claims[..active][j];
    }
  }

  /** The last pass: no claim settles, so round by largest remainder. */
  method RoundPass(claims: array<ClaimSlot>, active: nat, grants: array<Cell>,
                   remainder: int32, totalWeight: int64, denom: int64, ghost ss: seq<Stake>, ghost p: Pass)
    requires active <= claims.Length && ss == Stakes(claims[..active])
    requires PassReady(ss, grants.Length, remainder, totalWeight, denom, p)
    requires forall j :: 0 <= j < active ==> HasShare(p, claims[j])
    requires forall j :: 0 <= j < |ss| ==> !Settles(p, ss[j].claim)
    requires forall j :: 0 <= j < |ss| ==> grants[ss[j].cell] == Untouched
    modifies claims, grants
    ensures Rounded(ss, p, grants[..])
    ensures OthersKept(ss, grants[..], old(grants[..]))
  {
    ghost var ts;
    var leftover;
    leftover, ts := SortPass(claims, active, remainder, totalWeight, denom, ss, grants.Length, p);
    RoundPassReady(ss, ts, grants.Length, remainder, totalWeight, denom, p);
    forall j | 0 <= j < active ensures grants[ts[j].cell] == Untouched { assert ts[j] in ss; }
    PayPass(claims, active, leftover, grants, ts, SharesOf(p, ts, leftover as int));
    PayingRounds(ss, ts, p, leftover as int, grants[..]);
    forall k | 0 <= k < grants.Length && !Owns(ss, k) ensures !Owns(ts, k) {
      if Owns(ts, k) { PermutedOwners(ss, ts, k); }
    }
  }

  lemma RoundPassReady(ss: seq<Stake>, ts: seq<Stake>, cells: nat, remainder: int32, totalWeight: int64, denom: int64, p: Pass)
    requires PassReady(ss, cells, remainder, totalWeight, denom, p) && multiset(ss) == multiset(ts)
    requires forall j :: 0 <= j < |ss| ==> !Settles(p, ss[j].claim)
    ensures ValidStakes(ts, cells) && forall s :: s in ts <==> s in ss
    ensures forall j :: 0 <= j < |ts| ==> 0 <= FloorShare(p, ts[j].claim) < ts[j].claim.ask
  {
    PermutedStakes(ss, ts, cells);
    SameMembers(ss, ts);
    PassShape(Bids(ss), remainder as int);
    forall j | 0 <= j < |ts| ensures 0 <= FloorShare(p, ts[j].claim) < ts[j].claim.ask {
      assert ts[j] in ss;
      ShareFacts(p, ts[j].claim);
    }
  }

  /* ---- the whole loop ---- */

  /** The stakes ss still compete for r; every other original stake already has
      its grant, and the grants still due are those of the original problem. */
  ghost predicate InProgress(ss0: seq<Stake>, r0: int, ss: seq<Stake>, r: int, g: seq<Cell>)
    requires ValidStakes(ss0, |g|)
  {
    && ValidStakes(ss, |g|)
    && (forall s :: s in ss ==> s in ss0)
    && (forall s :: s in ss ==> g[s.cell] == Untouched)
    && (forall s :: s in ss ==> Grant(Bids(ss), r, s.claim) == Grant(Bids(ss0), r0, s.claim))
    && (forall s :: s in ss0 && s !in ss ==> PaidCell(g[s.cell], Grant(Bids(ss0), r0, s.claim)))
  }

  /** Every stake's cell holds its grant and was written at most once. */
  ghost predicate Granted(ss0: seq<Stake>, r0: int, g: seq<Cell>)
    requires ValidStakes(ss0, |g|)
  {
    forall s :: s in ss0 ==>
      g[s.cell].value as int == Grant(Bids(ss0), r0, s.claim) && g[s.cell].writes <= 1
  }

  lemma OwnerIsUnique(ss: seq<Stake>, cells: nat, s: Stake, t: Stake)
    requires ValidStakes(ss, cells) && s in ss && t in ss && s.cell == t.cell
    ensures s == t
  {
    var a :| 0 <= a < |ss| && ss[a] == s;
    var b :| 0 <= b < |ss| && ss[b] == t;
  }

  lemma OutsideCell(ss0: seq<Stake>, ss: seq<Stake>, cells: nat, s: Stake)
    requires ValidStakes(ss0, cells) && (forall x :: x in ss ==> x in ss0) && s in ss0 && s !in ss
    ensures !Owns(ss, s.cell)
  {
    forall i | 0 <= i < |ss| ensures ss[i].cell != s.cell {
      assert ss[i] in ss;
      if ss[i].cell == s.cell { OwnerIsUnique(ss0, cells, ss[i], s); }
    }
  }

  lemma SettledKeepsDue(ss: seq<Stake>, r: int, p: Pass, s: Stake)
    requires Contended(Bids(ss), r) && p == PassOf(Bids(ss), r) && |Filter(ss, StakeCompetes(p))| < |ss|
    ensures Grant(Bids(ss), r, s.claim)
      == if Settles(p, s.claim) then s.claim.ask
         else Grant(Bids(Filter(ss, StakeCompetes(p))), r - SettledAsk(p, Bids(ss)), s.claim)
  {
    BidsFilter(ss, p);
  }

  /** What a settling pass leaves for one of the original stakes. */
  lemma {:induction false} SettleAdvancesOne(ss0: seq<Stake>, r0: int, ss: seq<Stake>, r: int, g: seq<Cell>,
                                            p: Pass, g': seq<Cell>, s: Stake)
    requires ValidStakes(ss0, |g|) && InProgress(ss0, r0, ss, r, g) && s in ss0
    requires Contended(Bids(ss), r) && p == PassOf(Bids(ss), r) && |Filter(ss, StakeCompetes(p))| < |ss|
    requires OthersKept(ss, g', g)
    requires forall j :: 0 <= j < |ss| ==> SettledCell(p, ss[j].claim, g'[ss[j].cell])
    ensures var due := Grant(Bids(ss0), r0, s.claim);
      if s in ss && !Settles(p, s.claim) then
        && g'[s.cell] == Untouched
        && Grant(Bids(Filter(ss, StakeCompetes(p))), r - SettledAsk(p, Bids(ss)), s.claim) == due
      else PaidCell(g'[s.cell], due)
  {
    if s in ss {
      var j :| 0 <= j < |ss| && ss[j] == s;
      assert SettledCell(p, ss[j].claim, g'[ss[j].cell]);
      SettledKeepsDue(ss, r, p, s);
    } else {
      OutsideCell(ss0, ss, |g|, s);
    }
  }

  lemma {:induction false} SettleAdvances(ss0: seq<Stake>, r0: int, ss: seq<Stake>, r: int, g: seq<Cell>, p: Pass, g': seq<Cell>)
    requires ValidStakes(ss0, |g|) && InProgress(ss0, r0, ss, r, g)
    requires Contended(Bids(ss), r) && p == PassOf(Bids(ss), r) && |Filter(ss, StakeCompetes(p))| < |ss|
    requires OthersKept(ss, g', g)
    requires forall j :: 0 <= j < |ss| ==> SettledCell(p, ss[j].claim, g'[ss[j].cell])
    ensures InProgress(ss0, r0, Filter(ss, StakeCompetes(p)), r - SettledAsk(p, Bids(ss)), g')
  {
    FilterStaysValid(ss, r, |g|);
    FilterMembers(ss, StakeCompetes(p));
    forall s | s in ss0
      ensures s in ss && !Settles(p, s.claim) ==> g'[s.cell] == Untouched
      ensures s in ss && !Settles(p, s.claim) ==>
        Grant(Bids(Filter(ss, StakeCompetes(p))), r - SettledAsk(p, Bids(ss)), s.claim) == Grant(Bids(ss0), r0, s.claim)
      ensures !(s in ss && !Settles(p, s.claim)) ==> PaidCell(g'[s.cell], Grant(Bids(ss0), r0, s.claim))
    {
      SettleAdvancesOne(ss0, r0, ss, r, g, p, g', s);
    }
  }

  lemma {:induction false} RoundIsDue(ss: seq<Stake>, r: int, p: Pass, s: Stake)
    requires Contended(Bids(ss), r) && p == PassOf(Bids(ss), r) && |Filter(ss, StakeCompetes(p))| == |ss|
    ensures Grant(Bids(ss), r, s.claim)
      == FloorShare(p, s.claim) + if Rank(p, Bids(ss), s.claim) < Leftover(p, Bids(ss)) then 1 else 0
  {
    BidsFilter(ss, p);
  }

  lemma {:induction false} RoundFinishes(ss0: seq<Stake>, r0: int, ss: seq<Stake>, r: int, g: seq<Cell>, p: Pass, g': seq<Cell>)
    requires ValidStakes(ss0, |g|) && InProgress(ss0, r0, ss, r, g)
    requires Contended(Bids(ss), r) && p == PassOf(Bids(ss), r) && |Filter(ss, StakeCompetes(p))| == |ss|
    requires OthersKept(ss, g', g) && Rounded(ss, p, g')
    ensures Granted(ss0, r0, g')
  {
    forall s | s in ss0 ensures PaidCell(g'[s.cell], Grant(Bids(ss0), r0, s.claim)) {
      if s in ss { RoundIsDue(ss, r, p, s); } else { OutsideCell(ss0, ss, |g|, s); }
    }
  }

  lemma AllPaid(ss0: seq<Stake>, r0: int, ss: seq<Stake>, r: int, g: seq<Cell>, g': seq<Cell>)
    requires ValidStakes(ss0, |g|) && InProgress(ss0, r0, ss, r, g)
    requires ss != [] && r > 0 && r >= Sum(Bids(ss), Ask)
    requires OthersKept(ss, g', g) && forall j :: 0 <= j < |ss| ==> PaidCell(g'[ss[j].cell], ss[j].claim.ask)
    ensures Granted(ss0, r0, g')
  {
    forall s | s in ss0 ensures PaidCell(g'[s.cell], Grant(Bids(ss0), r0, s.claim)) {
      if s !in ss { OutsideCell(ss0, ss, |g|, s); }
    }
  }

  lemma NothingLeft(ss0: seq<Stake>, r0: int, ss: seq<Stake>, r: int, g: seq<Cell>)
    requires ValidStakes(ss0, |g|) && InProgress(ss0, r0, ss, r, g)
    requires ss == [] || r <= 0
    ensures Granted(ss0, r0, g)
  {}

  lemma OthersKeptInStages(ss0: seq<Stake>, ss: seq<Stake>, g0: seq<Cell>, g: seq<Cell>, g': seq<Cell>)
    requires OthersKept(ss0, g, g0) && OthersKept(ss, g', g) && forall s :: s in ss ==> s in ss0
    ensures OthersKept(ss0, g', g0)
  {
    forall k | 0 <= k < |g0| && !Owns(ss0, k) ensures !Owns(ss, k) {
      forall i | 0 <= i < |ss| ensures ss[i].cell != k { assert ss[i] in ss0; }
    }
  }

  /** The whole remainder covers every ask: pay each claim in full. */
  method PayAsks(claims: array<ClaimSlot>, active: nat, grants: array<Cell>, ghost ss: seq<Stake>)
    requires active <= claims.Length && ss == Stakes(claims[..active]) && ValidStakes(ss, grants.Length)
    requires forall j :: 0 <= j < |ss| ==> grants[ss[j].cell] == Untouched
    modifies grants
    ensures forall j :: 0 <= j < |ss| ==> PaidCell(grants[ss[j].cell], ss[j].claim.ask)
    ensures OthersKept(ss, grants[..], old(grants[..]))
  {
    for i := 0 to active
      invariant forall j :: 0 <= j < i ==> PaidCell(grants[ss[j].cell], ss[j].claim.ask)
      invariant forall j :: i <= j < active ==> grants[ss[j].cell] == Untouched
      invariant OthersKept(ss, grants[..], old(grants[..]))
    {
      assert claims[i].stake == ss[i];
      grants[claims[i].stake.cell] := Add(grants[claims[i].stake.cell], claims[i].stake.claim.ask as int32);
    }
  }

  lemma PassIsReady(ss: seq<Stake>, cells: nat, remainder: int32, totalAsk: int64, totalWeight: int64, denom: int64)
    requires ValidStakes(ss, cells) && ss != [] && 0 < remainder as int < totalAsk as int
    requires totalAsk as int == Sum(Bids(ss), Ask) && totalWeight as int == Sum(Bids(ss), Weight)
    requires denom as int == if totalWeight > 0 then totalWeight as int else |ss|
    ensures PassReady(ss, cells, remainder, totalWeight, denom, PassOf(Bids(ss), remainder as int))
  {}

  lemma {:induction false} NothingSettled(ss: seq<Stake>, p: Pass)
    requires |Filter(ss, StakeCompetes(p))| == |ss|
    ensures Filter(ss, StakeCompetes(p)) == ss
    ensures forall j :: 0 <= j < |ss| ==> !Settles(p, ss[j].claim)
  {
    FilterAll(ss, StakeCompetes(p));
    FilterMembers(ss, StakeCompetes(p));
    forall j | 0 <= j < |ss| ensures !Settles(p, ss[j].claim) {
      assert ss[j] in Filter(ss, StakeCompetes(p));
    }
  }

  lemma {:induction false} FilterAll<T>(s: seq<T>, q: T -> bool)
    requires |Filter(s, q)| == |s|
    ensures Filter(s, q) == s
  {
    if s != [] {
      FilterMembers(s[1..], q);
      FilterAll(s[1..], q);
    }
  }

  /** One iteration once the remainder is known not to cover every ask. */
  method ContendedPass(claims: array<ClaimSlot>, active: nat, grants: array<Cell>, remainder: int32,
                       totalWeight: int64, denom: int64, ghost ss: seq<Stake>, ghost ss0: seq<Stake>, ghost r0: int)
    returns (active': nat, remainder': int32, finished: bool)
    requires active <= claims.Length && ss == Stakes(claims[..active]) && ValidStakes(ss0, grants.Length)
    requires InProgress(ss0, r0, ss, remainder as int, grants[..])
    requires PassReady(ss, grants.Length, remainder, totalWeight, denom, PassOf(Bids(ss), remainder as int))
    modifies claims, grants
    ensures finished ==> Granted(ss0, r0, grants[..])
    ensures !finished ==> active' < active
    ensures !finished ==> InProgress(ss0, r0, Stakes(claims[..active']), remainder' as int, grants[..])
    ensures OthersKept(ss, grants[..], old(grants[..]))
  {
    ghost var p, g := PassOf(Bids(ss), remainder as int), grants[..];
    var newActive, settledAsk := SettlePass(claims, active, grants, remainder, totalWeight, denom, ss, p);
    if newActive < active {
      SettleStep(Bids(ss), remainder as int);
      SettleAdvances(ss0, r0, ss, remainder as int, g, p, grants[..]);
      active', remainder', finished := newActive, remainder - settledAsk, false;
    } else {
      NothingSettled(ss, p);
      RoundPass(claims, active, grants, remainder, totalWeight, denom, ss, p);
      RoundFinishes(ss0, r0, ss, remainder as int, g, p, grants[..]);
      active', remainder', finished := active, remainder, true;
    }
  }

  /** The body of the loop in ApportionRemainder. */
  method ApportionPass(claims: array<ClaimSlot>, active: nat, grants: array<Cell>, remainder: int32,
                       ghost ss: seq<Stake>, ghost ss0: seq<Stake>, ghost r0: int)
    returns (active': nat, remainder': int32, finished: bool)
    requires 0 < active <= claims.Length && ss == Stakes(claims[..active]) && ValidStakes(ss0, grants.Length)
    requires remainder > 0 && InProgress(ss0, r0, ss, remainder as int, grants[..])
    modifies claims, grants
    ensures finished ==> Granted(ss0, r0, grants[..])
    ensures !finished ==> active' < active
    ensures !finished ==> InProgress(ss0, r0, Stakes(claims[..active']), remainder' as int, grants[..])
    ensures OthersKept(ss, grants[..], old(grants[..]))
  {
    var totalAsk, totalWeight := Totals(claims, active, grants.Length);
    if remainder as int64 >= totalAsk {
      ghost var g := grants[..];
      PayAsks(claims, active, grants, ss);
      AllPaid(ss0, r0, ss, remainder as int, g, grants[..]);
      active', remainder', finished := active, remainder, true;
    } else {
      var denom: int64 := if totalWeight > 0 then totalWeight else active as int64;
      PassIsReady(ss, grants.Length, remainder, totalAsk, totalWeight, denom);
      active', remainder', finished :=
        ContendedPass(claims, active, grants, remainder, totalWeight, denom, ss, ss0, r0);
    }
  }

  /** Split remainder across the claims, adding each claim's grant to its cell.
      Every cell is written at most once and there are at most nclaims passes. */
  method ApportionRemainder(claims: array<ClaimSlot>, nclaims: nat, grants: array<Cell>, remainder0: int32,
                            ghost ss0: seq<Stake>)
    returns (ghost passes: nat)
    requires nclaims <= claims.Length && ss0 == Stakes(claims[..nclaims]) && ValidStakes(ss0, grants.Length)
    requires forall s :: s in ss0 ==> grants[s.cell] == Untouched
    modifies claims, grants
    ensures Granted(ss0, remainder0 as int, grants[..])
    ensures OthersKept(ss0, grants[..], old(grants[..]))
    ensures passes <= nclaims
  {
    var active: nat, remainder := nclaims, remainder0;
    passes := 0;
    while active > 0 && remainder > 0
      invariant active <= claims.Length
      invariant InProgress(ss0, remainder0 as int, Stakes(claims[..active]), remainder as int, grants[..])
      invariant OthersKept(ss0, grants[..], old(grants[..]))
      invariant passes + active <= nclaims
      decreases active
    {
      passes := passes + 1;
      ghost var ss, g := Stakes(claims[..active]), grants[..];
      var finished;
      active, remainder, finished := ApportionPass(claims, active, grants, remainder, ss, ss0, remainder0 as int);
      OthersKeptInStages(ss0, ss, old(grants[..]), g, grants[..]);
      if finished { return; }
    }
    NothingLeft(ss0, remainder0 as int, Stakes(claims[..active]), remainder as int, grants[..]);
  }
}
