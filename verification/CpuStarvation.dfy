/** Who can be left without a thread: exactly which weight-0 claims, and when a weighted
    claim cannot be. */
module CpuStarvation {
  import opened Seqs
  import opened CpuShares
  import opened CpuFairness

  function WeightedAsk(c: Claim): int { if c.weight > 0 then c.ask else 0 }
  function UnweightedAsk(c: Claim): int { if c.weight > 0 then 0 else c.ask }

  predicate Lower(a: Claim, b: Claim) { a.dbOid < b.dbOid || (a.dbOid == b.dbOid && a.requestPid < b.requestPid) }

  /** Counts the weight-0 claims ahead of z by database and then by requesting process. */
  function AheadByKey(z: Claim): Claim -> int {
    (c: Claim) => if c.weight == 0 && Lower(c, z) then 1 else 0
  }

  function Ahead(cs: seq<Claim>, z: Claim): int { Sum(cs, AheadByKey(z)) }

  /* ---- the two sums over one pass ---- */

  function OpenWeightedAsk(p: Pass): Claim -> int {
    (c: Claim) => if CompetesOn(p)(c) then WeightedAsk(c) else 0
  }

  function OpenAhead(p: Pass, z: Claim): Claim -> int {
    (c: Claim) => if CompetesOn(p)(c) then AheadByKey(z)(c) else 0
  }

  /** While weights compete, settling takes weighted asks only and no weight-0 claim. */
  lemma {:induction false} SettlingSparesUnweighted(cs: seq<Claim>, r: int, z: Claim)
    requires Contended(cs, r) && Sum(cs, Weight) > 0
    ensures var p := PassOf(cs, r); var rest := Unsettled(p, cs);
      && Sum(rest, WeightedAsk) == Sum(cs, WeightedAsk) - SettledAsk(p, cs)
      && Ahead(rest, z) == Ahead(cs, z)
  {
    var p := PassOf(cs, r);
    PassShape(cs, r);
    forall c | c in cs && c.weight == 0 ensures !Settles(p, c) { UnweightedCannotSettle(p, c); }
    SumSplit(cs, CompetesOn(p), WeightedAsk, OpenWeightedAsk(p));
    SumAdd(cs, OpenWeightedAsk(p), SettledAskOf(p), WeightedAsk);
    SumSplit(cs, CompetesOn(p), AheadByKey(z), OpenAhead(p, z));
    SumEqual(cs, OpenAhead(p, z), AheadByKey(z));
  }

  /** If the remainder covers the weighted asks, some weighted claim settles. */
  lemma {:induction false} ScarceWhenNoneSettles(cs: seq<Claim>, r: int)
    requires Contended(cs, r) && Sum(cs, Weight) > 0
    requires forall c :: c in cs ==> !Settles(PassOf(cs, r), c)
    ensures r <= Sum(cs, WeightedAsk)
  {
    var p := PassOf(cs, r);
    PassShape(cs, r);
    forall c | c in cs ensures r * Weight(c) <= p.denom * WeightedAsk(c) {
      ShareFacts(p, c);
      if c.weight > 0 {
        MulMonotone(p.denom, FloorShare(p, c) + 1, c.ask);
        assert p.denom * (FloorShare(p, c) + 1) == p.denom * FloorShare(p, c) + p.denom;
      }
    }
    SumScaledAtMost(cs, Weight, WeightedAsk, r, p.denom);
    MulCancelAtMost(p.denom, r, Sum(cs, WeightedAsk));
  }

  lemma {:induction false} ScarceRound(cs: seq<Claim>, r: int, z: Claim)
    requires Contended(cs, r) && Sum(cs, Weight) > 0 && z in cs && z.weight == 0
    requires |Unsettled(PassOf(cs, r), cs)| == |cs|
    ensures Grant(cs, r, z) == 0 && r <= Sum(cs, WeightedAsk)
  {
    var p := PassOf(cs, r);
    PassShape(cs, r);
    SettleMembers(cs, r);
    ScarceWhenNoneSettles(cs, r);
    UnweightedCannotSettle(p, z);
    if Rank(p, cs, z) < Leftover(p, cs) { LeftoverGoesToFractions(cs, r, z); }
  }

  lemma AheadCount(cs: seq<Claim>, z: Claim)
    requires WellFormed(cs) && z in cs && z.weight == 0
    ensures 0 <= Ahead(cs, z) < |cs|
  {
    SumNonNegative(cs, AheadByKey(z));
    var others := (c: Claim) => 1 - AheadByKey(z)(c);
    var one := (c: Claim) => 1;
    SumNonNegative(cs, others);
    SumAdd(cs, AheadByKey(z), others, one);
    SumOfOnes(cs, one);
  }

  lemma {:induction false} AsksSplit(cs: seq<Claim>, z: Claim)
    requires WellFormed(cs) && z in cs && z.weight == 0
    ensures Ahead(cs, z) < Sum(cs, Ask) - Sum(cs, WeightedAsk) && Sum(cs, WeightedAsk) >= 0
  {
    SumNonNegative(cs, WeightedAsk);
    SumAdd(cs, WeightedAsk, UnweightedAsk, Ask);
    SumNonNegative(cs, SpareOf(z));
    SumAdd(cs, AheadByKey(z), SpareOf(z), UnweightedAsk);
    assert SpareOf(z)(z) == z.ask;
  }

  /** A weight-0 claim's ask, less the thread it has over z when it stands ahead of it. */
  function SpareOf(z: Claim): Claim -> int {
    (c: Claim) => if c.weight > 0 then 0 else if c.weight == 0 && Lower(c, z) then c.ask - 1 else c.ask
  }

  /* ---- equal shares ---- */

  lemma {:induction false} AllWeightless(cs: seq<Claim>)
    requires WellFormed(cs) && Sum(cs, Weight) <= 0
    ensures forall c :: c in cs ==> c.weight == 0
    ensures Sum(cs, WeightedAsk) == 0
  {
    SumNonNegative(cs, Weight);
    SumZero(cs, WeightedAsk);
  }

  /** With fewer threads than claims, the leftover order among equals is the key order. */
  lemma {:induction false} RankByKey(cs: seq<Claim>, r: int, z: Claim)
    requires WellFormed(cs) && z in cs && Sum(cs, Weight) == 0 && 0 < r < |cs|
    ensures var p := PassOf(cs, r);
      && Rank(p, cs, z) == Ahead(cs, z) && FloorShare(p, z) == 0 && Leftover(p, cs) == r
  {
    var p := PassOf(cs, r);
    AllWeightless(cs);
    forall c | c in cs ensures FloorShareOf(p)(c) == 0 && Frac(p, c) == r {
      SmallShare(r, |cs|);
      assert r * 1 == r;
    }
    SumZero(cs, FloorShareOf(p));
    SumEqual(cs, AheadOf(p, z), AheadByKey(z));
  }

  lemma SmallShare(r: int, n: int)
    requires 0 < r < n
    ensures r / n == 0 && r % n == r
  {}

  lemma AtLeastOne(r: int, n: int)
    requires 0 < n <= r
    ensures r / n >= 1
  {
    DivMod(r, n);
    MulCancelLess(n, 0, r / n);
  }

  /** A claim that settled asked for at least one thread, so there was one for everybody. */
  lemma {:induction false} SettlingMeansPlenty(cs: seq<Claim>, r: int, c: Claim)
    requires Contended(cs, r) && Sum(cs, Weight) == 0 && c in cs && Settles(PassOf(cs, r), c)
    ensures r >= |cs|
  {
    assert r * 1 == r;
    if r < |cs| { SmallShare(r, |cs|); }
  }

  lemma RestHasPlenty(r: int, n: int, r': int, m: int)
    requires 0 < n <= r && m >= 0 && r' * n >= r * m
    ensures r' >= m
  {
    MulMonotone(m, n, r);
    assert n * m == m * n && m * r == r * m && r' * n == n * r';
    MulCancelAtMost(n, m, r');
  }

  lemma {:induction false} EqualSharesRound(cs: seq<Claim>, r: int, z: Claim)
    requires Contended(cs, r) && z in cs && Sum(cs, Weight) == 0
    requires |Unsettled(PassOf(cs, r), cs)| == |cs|
    ensures Grant(cs, r, z) > 0 <==> r > Ahead(cs, z)
  {
    AllWeightless(cs);
    AheadCount(cs, z);
    PassShape(cs, r);
    if r < |cs| {
      RankByKey(cs, r, z);
    } else {
      AtLeastOne(r, |cs|);
      assert r * 1 == r;
    }
  }

  /** What is left after a pass that settles somebody still covers one thread each. */
  lemma {:induction false} EqualSharesSettle(cs: seq<Claim>, r: int, z: Claim)
    requires Contended(cs, r) && z in cs && Sum(cs, Weight) == 0
    requires |Unsettled(PassOf(cs, r), cs)| < |cs|
    ensures var p := PassOf(cs, r); var rest := Unsettled(p, cs);
      && r >= |cs| && r - SettledAsk(p, cs) >= |rest| && WellFormed(rest) && Sum(rest, Weight) == 0
      && (z in rest <==> !Settles(p, z))
  {
    var p := PassOf(cs, r);
    var rest := Unsettled(p, cs);
    SomeSettles(cs, p);
    var c :| c in cs && Settles(p, c);
    SettlingMeansPlenty(cs, r, c);
    SettleMembers(cs, r);
    SettleStep(cs, r);
    SumOfOnes(rest, ShareWeightOf(p));
    RestHasPlenty(r, |cs|, r - SettledAsk(p, cs), |rest|);
    WeightlessRest(cs, rest);
  }

  /** What the next pass is about: fewer claims, and still a thread for each. */
  lemma EqualSharesLeave(cs: seq<Claim>, r: int, z: Claim) returns (rest: seq<Claim>, r': int)
    requires Contended(cs, r) && z in cs && Sum(cs, Weight) == 0
    requires |Unsettled(PassOf(cs, r), cs)| < |cs|
    ensures |rest| < |cs| <= r && |rest| <= r' && WellFormed(rest) && Sum(rest, Weight) == 0
    ensures Grant(cs, r, z) == if z in rest then Grant(rest, r', z) else z.ask
  {
    var p := PassOf(cs, r);
    rest, r' := Unsettled(p, cs), r - SettledAsk(p, cs);
    EqualSharesSettle(cs, r, z);
    GrantAfterPass(cs, r, z, rest, r');
  }

  /** Among weight-0 claims alone, a claim gets a thread exactly when the remainder exceeds
      the number of claims before it. */
  lemma {:induction false} EqualSharesServe(cs: seq<Claim>, r: int, z: Claim)
    requires WellFormed(cs) && z in cs && Sum(cs, Weight) == 0
    ensures Grant(cs, r, z) > 0 <==> r > Ahead(cs, z)
    decreases |cs|, 0
  {
    AllWeightless(cs);
    AheadCount(cs, z);
    if 0 < r < Sum(cs, Ask) {
      SettleMembers(cs, r);
      if |Unsettled(PassOf(cs, r), cs)| == |cs| {
        EqualSharesRound(cs, r, z);
      } else {
        var rest, r' := EqualSharesLeave(cs, r, z);
        if z in rest { PlentyServes(rest, r', z); }
      }
    } else {
      AsksSplit(cs, z);
    }
  }

  lemma {:induction false} PlentyServes(cs: seq<Claim>, r: int, z: Claim)
    requires WellFormed(cs) && z in cs && z.weight == 0 && Sum(cs, Weight) == 0 && r >= |cs|
    ensures Grant(cs, r, z) > 0
    decreases |cs|, 1
  {
    AheadCount(cs, z);
    EqualSharesServe(cs, r, z);
  }

  lemma {:induction false} SomeSettles(cs: seq<Claim>, p: Pass)
    requires |Unsettled(p, cs)| < |cs|
    ensures exists c :: c in cs && Settles(p, c)
  {
    if !Settles(p, cs[0]) {
      SomeSettles(cs[1..], p);
      var c :| c in cs[1..] && Settles(p, c);
      assert c in cs;
    } else {
      assert cs[0] in cs;
    }
  }

  /* ---- the results ---- */

  /** A pass in which somebody settles leaves z the same question about fewer claims. */
  lemma SettlingLeaves(cs: seq<Claim>, r: int, z: Claim) returns (rest: seq<Claim>, r': int)
    requires Contended(cs, r) && Sum(cs, Weight) > 0 && z in cs && z.weight == 0
    requires |Unsettled(PassOf(cs, r), cs)| < |cs|
    ensures |rest| < |cs| && WellFormed(rest) && z in rest && Grant(cs, r, z) == Grant(rest, r', z)
    ensures r' - Sum(rest, WeightedAsk) == r - Sum(cs, WeightedAsk) && Ahead(rest, z) == Ahead(cs, z)
  {
    var p := PassOf(cs, r);
    rest, r' := Unsettled(p, cs), r - SettledAsk(p, cs);
    PassShape(cs, r);
    SettleMembers(cs, r);
    UnweightedCannotSettle(p, z);
    SettlingSparesUnweighted(cs, r, z);
    GrantAfterPass(cs, r, z, rest, r');
  }

  /** A weight-0 claim gets a thread if and only if what the weighted claims leave of the
      remainder, once all of them have their whole ask, exceeds the number of weight-0
      claims ahead of it by database and requesting process. */
  lemma {:induction false} UnweightedServed(cs: seq<Claim>, r: int, z: Claim)
    requires WellFormed(cs) && z in cs && z.weight == 0
    ensures Grant(cs, r, z) > 0 <==> r - Sum(cs, WeightedAsk) > Ahead(cs, z)
    decreases |cs|
  {
    AheadCount(cs, z);
    AsksSplit(cs, z);
    SumNonNegative(cs, Weight);
    if Sum(cs, Weight) == 0 {
      AllWeightless(cs);
      EqualSharesServe(cs, r, z);
    } else if 0 < r < Sum(cs, Ask) {
      SettleMembers(cs, r);
      if |Unsettled(PassOf(cs, r), cs)| == |cs| {
        ScarceRound(cs, r, z);
      } else {
        var rest, r' := SettlingLeaves(cs, r, z);
        UnweightedServed(rest, r', z);
      }
    }
  }

  /** A weighted claim gets a thread whenever its exact proportional share of the remainder
      is at least one. */
  lemma {:induction false} WeightedServed(cs: seq<Claim>, r: int, c: Claim)
    requires WellFormed(cs) && c in cs && c.weight > 0 && r >= 0
    requires r * c.weight >= Sum(cs, Weight)
    ensures Grant(cs, r, c) >= 1
  {
    GuaranteedShare(cs, r, c);
    AtLeastOne(r * c.weight, Sum(cs, Weight));
  }

  /* ---- who goes without ---- */

  lemma PairFacts(a: Claim, b: Claim)
    requires a.dbOid != b.dbOid && a.weight >= 0 && b.weight >= 0 && a.ask > 0 && b.ask > 0
    ensures WellFormed([a, b])
  {
    assert multiset([a, b]) == multiset{a, b};
  }

  /** However many threads there are, one weighted claim asking for all of them leaves a
      weight-0 claim with nothing. */
  lemma {:induction false} UnweightedCanStarve(r: int, a: Claim, z: Claim)
    requires r > 0 && a.dbOid != z.dbOid && a.weight > 0 && a.ask >= r && z.weight == 0 && z.ask > 0
    ensures WellFormed([a, z]) && Grant([a, z], r, z) == 0
  {
    PairFacts(a, z);
    SumPair(a, z, WeightedAsk);
    UnweightedServed([a, z], r, z);
    AheadCount([a, z], z);
    GrantBounds([a, z], r, z);
  }

  /** The shares of r threads between weights v and w, when w is at least 2r times v. */
  lemma LopsidedShares(r: int, v: int, w: int, x: int)
    requires r > 0 && v > 0 && x == r * v && w >= 2 * x
    ensures r * v / (v + w) == 0 && r * v % (v + w) == x
    ensures r * w / (v + w) == r - 1 && r * w % (v + w) == v + w - x > x
  {
    var d := v + w;
    SmallShare(x, d);
    assert r * w == (r - 1) * d + (d - x) by { Distribute(r, v, w); }
    QuotientIs(r * w, d, r - 1, d - x);
  }

  lemma QuotientIs(n: int, d: int, q: int, m: int)
    requires n >= 0 && d > 0 && 0 <= m < d && n == q * d + m
    ensures n / d == q && n % d == m
  {
    DivMod(n, d);
    if n / d < q { MulMonotone(d, n / d + 1, q); }
    if n / d > q { MulMonotone(d, q + 1, n / d); }
  }

  /** And a weighted claim can be left with nothing too, however many threads there are: one
      whose weight is 2r times smaller than that of a claim asking for all r of them. */
  lemma {:induction false} WeightedCanStarve(r: int, a: Claim, b: Claim, x: int)
    requires r > 0 && a.dbOid != b.dbOid && a.ask > 0 && b.ask >= r
    requires a.weight > 0 && x == r * a.weight && b.weight >= 2 * x
    ensures WellFormed([a, b]) && Grant([a, b], r, a) == 0
  {
    PairFacts(a, b);
    var cs := [a, b];
    SumPair(a, b, Weight);
    SumPair(a, b, Ask);
    var p := PassOf(cs, r);
    SumPair(a, b, FloorShareOf(p));
    SumPair(a, b, AheadOf(p, a));
    LopsidedShares(r, a.weight, b.weight, x);
    assert FloorShare(p, a) == 0 && Frac(p, a) == x && FloorShare(p, b) == r - 1 && Frac(p, b) > x;
    NothingFiltered(cs, p);
    assert Leftover(p, cs) == 1 && Rank(p, cs, a) == 1;
  }
}
