/** What the water-filling rule guarantees: conservation, fairness to within one
    thread, priority of weighted claims, a guaranteed share, order independence. */
module CpuFairness {
  import opened Seqs
  import opened CpuShares

  /* ---- bounds and conservation ---- */

  /** No claim gets a negative grant or more than it asked for. */
  lemma {:induction false} GrantBounds(cs: seq<Claim>, r: int, c: Claim)
    requires WellFormed(cs) && c in cs
    ensures 0 <= Grant(cs, r, c) <= c.ask
    decreases |cs|
  {
    if cs != [] && 0 < r < Sum(cs, Ask) {
      var p := PassOf(cs, r);
      SettleMembers(cs, r);
      if |Unsettled(p, cs)| < |cs| {
        if !Settles(p, c) {
          GrantBounds(Unsettled(p, cs), r - SettledAsk(p, cs), c);
        }
      } else {
        PassShape(cs, r);
        ShareFacts(p, c);
      }
    }
  }

  /** Everything available is handed out, up to what was asked for. */
  lemma {:induction false} Conservation(cs: seq<Claim>, r: int)
    requires WellFormed(cs)
    ensures Sum(cs, GrantOf(cs, r)) == Max(0, Min(r, Sum(cs, Ask)))
    decreases |cs|
  {
    SumNonNegative(cs, Ask);
    if cs == [] {
    } else if r <= 0 {
      SumZero(cs, GrantOf(cs, r));
    } else if r >= Sum(cs, Ask) {
      SumEqual(cs, GrantOf(cs, r), Ask);
    } else {
      SettleMembers(cs, r);
      if |Unsettled(PassOf(cs, r), cs)| < |cs| {
        var rest, r' := ConservationOfSettling(cs, r);
        Conservation(rest, r');
      } else {
        ConservationOfRounding(cs, r);
      }
    }
  }

  lemma {:induction false} ConservationOfRounding(cs: seq<Claim>, r: int)
    requires Contended(cs, r)
    requires |Unsettled(PassOf(cs, r), cs)| == |cs|
    ensures Sum(cs, GrantOf(cs, r)) == r
  {
    var p := PassOf(cs, r);
    LeftoverBelowFractions(cs, r);
    RanksBelow(p, cs, Leftover(p, cs));
    SumAdd(cs, FloorShareOf(p), RankBelow(p, cs, Leftover(p, cs)), GrantOf(cs, r));
  }

  /** What a pass settles and what it leaves to the next add up. */
  lemma ConservationOfSettling(cs: seq<Claim>, r: int) returns (rest: seq<Claim>, r': int)
    requires Contended(cs, r)
    requires |Unsettled(PassOf(cs, r), cs)| < |cs|
    ensures |rest| < |cs| && WellFormed(rest) && 0 <= r' <= Sum(rest, Ask)
    ensures Sum(cs, GrantOf(cs, r)) == r - r' + Sum(rest, GrantOf(rest, r'))
  {
    var p := PassOf(cs, r);
    rest, r' := Unsettled(p, cs), r - SettledAsk(p, cs);
    SettleMembers(cs, r);
    SettleStep(cs, r);
    var later := (c: Claim) => if Settles(p, c) then 0 else Grant(rest, r', c);
    SumSplit(cs, CompetesOn(p), GrantOf(rest, r'), later);
    forall c | c in cs ensures SettledAskOf(p)(c) + later(c) == GrantOf(cs, r)(c) {
      GrantAfterPass(cs, r, c, rest, r');
    }
    SumAdd(cs, SettledAskOf(p), later, GrantOf(cs, r));
  }

  /* ---- the water level ---- */

  /** Grant g against the level num/den: never a full thread above weight * level,
      and a claim short of its ask never a full thread below it. */
  predicate AtLevel(weight: int, ask: int, g: int, num: int, den: int) {
    && (g - 1) * den < num * weight
    && (g < ask ==> num * weight < (g + 1) * den)
  }

  lemma SatisfiedAtLevel(w: int, ask: int, num: int, den: int)
    requires den > 0 && ask * den <= num * w
    ensures AtLevel(w, ask, ask, num, den)
  {
    assert (ask - 1) * den == ask * den - den;
  }

  /** A claim settled at the level r/d is still under any higher level num/den. */
  lemma HigherLevel(ask: int, w: int, r: int, d: int, num: int, den: int)
    requires d > 0 && den > 0 && w >= 0 && ask * d <= r * w && num * d >= r * den
    ensures ask * den <= num * w
  {
    MulMonotone(den, ask * d, r * w);
    MulMonotone(w, r * den, num * d);
    assert d * (ask * den) == den * (ask * d);
    assert d * (num * w) == w * (num * d);
    assert den * (r * w) == w * (r * den);
    MulCancelAtMost(d, ask * den, num * w);
  }

  lemma SettledUnderHigherLevel(p: Pass, c: Claim, num: int, den: int)
    requires p.denom > 0 && p.remainder > 0 && c.weight >= 0 && Settles(p, c)
    requires den > 0 && num * p.denom >= p.remainder * den
    ensures AtLevel(ShareWeight(p, c), c.ask, c.ask, num, den)
  {
    ShareFacts(p, c);
    MulMonotone(p.denom, c.ask, FloorShare(p, c));
    HigherLevel(c.ask, ShareWeight(p, c), p.remainder, p.denom, num, den);
    SatisfiedAtLevel(ShareWeight(p, c), c.ask, num, den);
  }

  lemma StillPositive(r': int, d: int, r: int, w: int)
    requires r' * d >= r * w && r > 0 && w > 0 && d > 0
    ensures r' > 0
  {
    assert r * w > 0;
  }

  /** num/den >= r'/w' >= r/w. */
  lemma LevelChain(num: int, den: int, r: int, w: int, r': int, w': int)
    requires w' > 0 && w > 0 && den > 0 && num * w' >= r' * den && r' * w >= r * w'
    ensures num * w >= r * den
  {
    MulMonotone(w, r' * den, num * w');
    MulMonotone(den, r * w', r' * w);
    assert w' * (num * w) == w * (num * w');
    assert w' * (r * den) == den * (r * w');
    assert w * (r' * den) == den * (r' * w);
    MulCancelAtMost(w', r * den, num * w);
  }

  lemma RoundingAtLevel(w: int, ask: int, r: int, den: int, fs: int, frac: int, extra: int)
    requires den > 0 && r * w == den * fs + frac && 0 <= frac < den
    requires extra == 0 || (extra == 1 && frac > 0)
    ensures AtLevel(w, ask, fs + extra, r, den)
  {
    assert (fs - 1) * den == den * fs - den;
    assert (fs + 1) * den == den * fs + den;
    assert (fs + 2) * den == den * fs + den + den;
  }

  lemma {:induction false} RoundedAtLevel(cs: seq<Claim>, r: int, c: Claim)
    requires Contended(cs, r) && c in cs
    requires |Unsettled(PassOf(cs, r), cs)| == |cs|
    ensures var p := PassOf(cs, r);
      p.denom > 0 && AtLevel(ShareWeight(p, c), c.ask, Grant(cs, r, c), r, p.denom)
  {
    var p := PassOf(cs, r);
    PassShape(cs, r);
    ShareFacts(p, c);
    var extra := if Rank(p, cs, c) < Leftover(p, cs) then 1 else 0;
    if extra == 1 { LeftoverGoesToFractions(cs, r, c); }
    RoundingAtLevel(ShareWeight(p, c), c.ask, r, p.denom, FloorShare(p, c), Frac(p, c), extra);
  }

  lemma SettledFits(p: Pass, c: Claim, d: int, r: int)
    requires p == Pass(r, d, d) && d > 0 && r > 0 && c.weight >= 0 && Settles(p, c)
    ensures c.ask * d <= r * c.weight
  {
    ShareFacts(p, c);
    MulMonotone(d, c.ask, FloorShare(p, c));
  }

  /** A pass among weighted claims in which somebody settles: the others go on, at a level
      no lower, and those settled asked for no more than their share. */
  lemma WeightedStay(cs: seq<Claim>, r: int) returns (rest: seq<Claim>, r': int)
    requires Contended(cs, r) && Sum(cs, Weight) > 0 && |Unsettled(PassOf(cs, r), cs)| < |cs|
    ensures |rest| < |cs| && WellFormed(rest) && r' >= 0 && Sum(rest, Weight) >= 0
    ensures r' * Sum(cs, Weight) >= r * Sum(rest, Weight)
    ensures forall c :: c in cs && c.weight > 0 ==> StaysOrFits(cs, r, rest, r', c)
  {
    var p := PassOf(cs, r);
    rest, r' := Unsettled(p, cs), r - SettledAsk(p, cs);
    PassShape(cs, r);
    SettleMembers(cs, r);
    SettledRestLevel(cs, r);
    SumNonNegative(rest, Weight);
    forall c | c in cs && c.weight > 0 ensures StaysOrFits(cs, r, rest, r', c) {
      GrantAfterPass(cs, r, c, rest, r');
      if Settles(p, c) {
        SettledFits(p, c, Sum(cs, Weight), r);
      } else {
        assert c in rest && Weight(c) == c.weight;
      }
    }
  }

  ghost predicate StaysOrFits(cs: seq<Claim>, r: int, rest: seq<Claim>, r': int, c: Claim) {
    if c in rest then Grant(cs, r, c) == Grant(rest, r', c) && c.weight <= Sum(rest, Weight)
    else Grant(cs, r, c) == c.ask && c.ask * Sum(cs, Weight) <= r * c.weight
  }

  lemma FitsAtLevel(w: int, ask: int, r: int, d: int, num: int, den: int)
    requires d > 0 && den > 0 && w >= 0 && ask * d <= r * w && num * d >= r * den
    ensures AtLevel(w, ask, ask, num, den)
  {
    HigherLevel(ask, w, r, d, num, den);
    SatisfiedAtLevel(w, ask, num, den);
  }

  /** Some level num/den, no lower than remainder/total weight, accounts for
      every weighted claim's grant. */
  lemma {:induction false} PositiveLevel(cs: seq<Claim>, r: int) returns (num: int, den: int)
    requires WellFormed(cs)
    ensures num >= 0 && den > 0
    ensures forall c :: c in cs && c.weight > 0 ==> AtLevel(c.weight, c.ask, Grant(cs, r, c), num, den)
    ensures r >= 0 && Sum(cs, Weight) > 0 ==> num * Sum(cs, Weight) >= r * den
    decreases |cs|, 1
  {
    SumNonNegative(cs, Weight);
    SumNonNegative(cs, Ask);
    if cs == [] || r <= 0 || Sum(cs, Weight) == 0 {
      num, den := 0, 1;
    } else if r >= Sum(cs, Ask) {
      num, den := r, 1;
      forall c | c in cs && c.weight > 0 ensures AtLevel(c.weight, c.ask, Grant(cs, r, c), num, den) {
        MulMonotone(r, 1, c.weight);
        SatisfiedAtLevel(c.weight, c.ask, num, den);
      }
      MulMonotone(r, 1, Sum(cs, Weight));
    } else {
      SettleMembers(cs, r);
      if |Unsettled(PassOf(cs, r), cs)| == |cs| {
        num, den := r, Sum(cs, Weight);
        forall c | c in cs ensures AtLevel(c.weight, c.ask, Grant(cs, r, c), num, den) {
          RoundedAtLevel(cs, r, c);
        }
      } else {
        num, den := SettledLevel(cs, r);
      }
    }
  }

  lemma {:induction false} SettledLevel(cs: seq<Claim>, r: int) returns (num: int, den: int)
    requires Contended(cs, r) && Sum(cs, Weight) > 0 && |Unsettled(PassOf(cs, r), cs)| < |cs|
    ensures num >= 0 && den > 0 && num * Sum(cs, Weight) >= r * den
    ensures forall c :: c in cs && c.weight > 0 ==> AtLevel(c.weight, c.ask, Grant(cs, r, c), num, den)
    decreases |cs|, 0
  {
    var rest, r' := WeightedStay(cs, r);
    var w, w' := Sum(cs, Weight), Sum(rest, Weight);
    if w' == 0 {
      num, den := r, w;
    } else {
      num, den := PositiveLevel(rest, r');
      LevelChain(num, den, r, w, r', w');
    }
    forall c | c in cs && c.weight > 0 ensures AtLevel(c.weight, c.ask, Grant(cs, r, c), num, den) {
      assert StaysOrFits(cs, r, rest, r', c);
      if c !in rest { FitsAtLevel(c.weight, c.ask, r, w, num, den); }
    }
  }

  lemma {:induction false} SettledRestLevel(cs: seq<Claim>, r: int)
    requires Contended(cs, r) && Sum(cs, Weight) > 0
    ensures var p := PassOf(cs, r); var rest := Unsettled(p, cs); var r' := r - SettledAsk(p, cs);
      && r' >= 0 && Sum(rest, Weight) >= 0
      && r' * p.denom >= r * Sum(rest, Weight)
      && (Sum(rest, Weight) == 0 ==> forall c :: c in cs && c.weight > 0 ==> Settles(p, c))
  {
    var p := PassOf(cs, r);
    SettleStep(cs, r);
    SettleMembers(cs, r);
    SumEqual(Unsettled(p, cs), ShareWeightOf(p), Weight);
    SumNonNegative(Unsettled(p, cs), Weight);
  }

  lemma UnweightedCannotSettle(p: Pass, c: Claim)
    requires p.denom > 0 && p.totalWeight > 0 && c.weight == 0 && c.ask > 0
    ensures !Settles(p, c) && FloorShare(p, c) == 0 && Frac(p, c) == 0
  {
    assert p.remainder * 0 == 0;
  }

  /** The same when no claim has weight, each counted with weight 1. */
  lemma {:induction false} EqualLevel(cs: seq<Claim>, r: int) returns (num: int, den: int)
    requires WellFormed(cs) && cs != [] && Sum(cs, Weight) == 0 && r > 0
    ensures num >= 0 && den > 0 && num * |cs| >= r * den
    ensures forall c :: c in cs ==> AtLevel(1, c.ask, Grant(cs, r, c), num, den)
    decreases |cs|
  {
    SumNonNegative(cs, Ask);
    if r >= Sum(cs, Ask) {
      num, den := r, 1;
      MulMonotone(r, 1, |cs|);
    } else {
      var p := PassOf(cs, r);
      var rest := Unsettled(p, cs);
      PassShape(cs, r);
      SettleMembers(cs, r);
      if |rest| == |cs| {
        num, den := r, p.denom;
        forall c | c in cs ensures AtLevel(1, c.ask, Grant(cs, r, c), num, den) {
          RoundedAtLevel(cs, r, c);
        }
      } else {
        SettleStep(cs, r);
        SumOfOnes(rest, ShareWeightOf(p));
        WeightlessRest(cs, rest);
        var r' := r - SettledAsk(p, cs);
        assert rest != [];
        StillPositive(r', |cs|, r, |rest|);
        num, den := EqualLevel(rest, r');
        LevelChain(num, den, r, |cs|, r', |rest|);
        forall c | c in cs ensures AtLevel(1, c.ask, Grant(cs, r, c), num, den) {
          GrantAfterPass(cs, r, c, rest, r');
          if Settles(p, c) { SettledUnderHigherLevel(p, c, num, den); } else { assert c in rest; }
        }
      }
    }
  }

  /** Weight-0 claims share one level too, whatever weighted claims compete with them. */
  lemma {:induction false} UnweightedLevel(cs: seq<Claim>, r: int) returns (num: int, den: int)
    requires WellFormed(cs)
    ensures num >= 0 && den > 0
    ensures forall c :: c in cs && c.weight == 0 ==> AtLevel(1, c.ask, Grant(cs, r, c), num, den)
    decreases |cs|
  {
    SumNonNegative(cs, Weight);
    SumNonNegative(cs, Ask);
    if cs == [] || r <= 0 {
      num, den := 0, 1;
    } else if Sum(cs, Weight) == 0 {
      num, den := EqualLevel(cs, r);
    } else if r >= Sum(cs, Ask) {
      num, den := r, 1;
    } else {
      SettleMembers(cs, r);
      if |Unsettled(PassOf(cs, r), cs)| == |cs| {
        num, den := 0, 1;
        NothingForUnweighted(cs, r);
      } else {
        var rest, r' := UnweightedStay(cs, r);
        num, den := UnweightedLevel(rest, r');
      }
    }
  }

  lemma {:induction false} NothingForUnweighted(cs: seq<Claim>, r: int)
    requires Contended(cs, r) && Sum(cs, Weight) > 0 && |Unsettled(PassOf(cs, r), cs)| == |cs|
    ensures forall c :: c in cs && c.weight == 0 ==> Grant(cs, r, c) == 0
  {
    var p := PassOf(cs, r);
    PassShape(cs, r);
    forall c | c in cs && c.weight == 0 ensures Grant(cs, r, c) == 0 {
      UnweightedCannotSettle(p, c);
      if Rank(p, cs, c) < Leftover(p, cs) { LeftoverGoesToFractions(cs, r, c); }
    }
  }

  lemma UnweightedStay(cs: seq<Claim>, r: int) returns (rest: seq<Claim>, r': int)
    requires Contended(cs, r) && Sum(cs, Weight) > 0 && |Unsettled(PassOf(cs, r), cs)| < |cs|
    ensures |rest| < |cs| && WellFormed(rest)
    ensures forall c :: c in cs && c.weight == 0 ==> c in rest && Grant(cs, r, c) == Grant(rest, r', c)
  {
    var p := PassOf(cs, r);
    rest, r' := Unsettled(p, cs), r - SettledAsk(p, cs);
    PassShape(cs, r);
    SettleMembers(cs, r);
    forall c | c in cs && c.weight == 0 ensures c in rest && Grant(cs, r, c) == Grant(rest, r', c) {
      UnweightedCannotSettle(p, c);
      GrantAfterPass(cs, r, c, rest, r');
    }
  }

  lemma {:induction false} WeightlessRest(cs: seq<Claim>, rest: seq<Claim>)
    requires WellFormed(cs) && Sum(cs, Weight) <= 0 && forall c :: c in rest ==> c in cs
    ensures Sum(rest, Weight) == 0
  {
    SumNonNegative(cs, Weight);
    SumZero(rest, Weight);
  }

  /* ---- the published guarantees ---- */

  /** (gj - 1)/wj < num/den < (gi + 1)/wi. */
  lemma LevelOrders(gi: int, wi: int, gj: int, wj: int, num: int, den: int)
    requires den > 0 && wi > 0 && wj > 0
    requires (gj - 1) * den < num * wj && num * wi < (gi + 1) * den
    ensures (gj - 1) * wi < (gi + 1) * wj
  {
    assert wi * ((gj - 1) * den) < wi * (num * wj);
    assert wj * (num * wi) < wj * ((gi + 1) * den);
    assert wi * (num * wj) == wj * (num * wi);
    assert den * ((gj - 1) * wi) == wi * ((gj - 1) * den);
    assert den * ((gi + 1) * wj) == wj * ((gi + 1) * den);
    MulCancelLess(den, (gj - 1) * wi, (gi + 1) * wj);
  }

  /** Weighted max-min fairness to within one thread. */
  lemma {:induction false} Fairness(cs: seq<Claim>, r: int, i: Claim, j: Claim)
    requires WellFormed(cs) && i in cs && j in cs && i.weight > 0 && j.weight > 0
    requires Grant(cs, r, i) < i.ask
    ensures (Grant(cs, r, j) - 1) * i.weight < (Grant(cs, r, i) + 1) * j.weight
  {
    var num, den := PositiveLevel(cs, r);
    LevelOrders(Grant(cs, r, i), i.weight, Grant(cs, r, j), j.weight, num, den);
  }

  lemma OneApart(askI: int, gi: int, askJ: int, gj: int, num: int, den: int)
    requires den > 0 && gi < askI && AtLevel(1, askI, gi, num, den) && AtLevel(1, askJ, gj, num, den)
    ensures gj <= gi + 1
  {
    MulCancelLess(den, gj - 1, gi + 1);
  }

  /** Weight-0 claims are equal to within one thread of any that fell short. */
  lemma {:induction false} FairnessUnweighted(cs: seq<Claim>, r: int, i: Claim, j: Claim)
    requires WellFormed(cs) && i in cs && j in cs && i.weight == 0 && j.weight == 0
    requires Grant(cs, r, i) < i.ask
    ensures Grant(cs, r, j) <= Grant(cs, r, i) + 1
  {
    var num, den := UnweightedLevel(cs, r);
    OneApart(i.ask, Grant(cs, r, i), j.ask, Grant(cs, r, j), num, den);
  }

  lemma ShareBelowLevel(r: int, w: int, total: int, g: int, num: int, den: int)
    requires total > 0 && den > 0 && w >= 0 && r >= 0
    requires num * total >= r * den && num * w < (g + 1) * den
    ensures r * w / total <= g
  {
    var q := r * w / total;
    DivMod(r * w, total);
    HigherLevel(q, w, r, total, num, den);
    MulCancelLess(den, q, g + 1);
  }

  /** A weighted claim gets its ask or at least its proportional part of the remainder. */
  lemma {:induction false} GuaranteedShare(cs: seq<Claim>, r: int, c: Claim)
    requires WellFormed(cs) && c in cs && c.weight > 0 && r >= 0
    ensures Sum(cs, Weight) > 0
    ensures Grant(cs, r, c) >= Min(c.ask, r * c.weight / Sum(cs, Weight))
  {
    SumNonNegative(cs, Weight);
    GrantBounds(cs, r, c);
    var num, den := PositiveLevel(cs, r);
    if Grant(cs, r, c) < c.ask {
      ShareBelowLevel(r, c.weight, Sum(cs, Weight), Grant(cs, r, c), num, den);
    }
  }

  /** When no claim has weight, each gets its ask or at least an equal part. */
  lemma {:induction false} GuaranteedEqualShare(cs: seq<Claim>, r: int, c: Claim)
    requires WellFormed(cs) && c in cs && Sum(cs, Weight) == 0 && r >= 0
    ensures Grant(cs, r, c) >= Min(c.ask, r / |cs|)
  {
    GrantBounds(cs, r, c);
    var g := Grant(cs, r, c);
    if r == 0 {
      assert r / |cs| == 0;
    } else if g < c.ask {
      var num, den := EqualLevel(cs, r);
      assert AtLevel(1, c.ask, g, num, den);
      ShareBelowLevel(r, 1, |cs|, g, num, den);
      assert r * 1 == r;
    }
  }

  /** A weight-0 claim gets a thread only once every weighted claim has its whole ask. */
  lemma {:induction false} Priority(cs: seq<Claim>, r: int, z: Claim, c: Claim)
    requires WellFormed(cs) && z in cs && c in cs && z.weight == 0 && c.weight > 0
    requires Grant(cs, r, z) > 0
    ensures Grant(cs, r, c) == c.ask
    decreases |cs|
  {
    if r < Sum(cs, Ask) {
      var p := PassOf(cs, r);
      PassShape(cs, r);
      SettleMembers(cs, r);
      SumNonNegative(cs, Weight);
      UnweightedCannotSettle(p, z);
      if |Unsettled(p, cs)| == |cs| {
        LeftoverGoesToFractions(cs, r, z);
      } else {
        var rest, r' := Unsettled(p, cs), r - SettledAsk(p, cs);
        GrantAfterPass(cs, r, z, rest, r');
        GrantAfterPass(cs, r, c, rest, r');
        if c in rest { Priority(rest, r', z, c); }
      }
    }
  }

  lemma PassAgrees(cs: seq<Claim>, ds: seq<Claim>, r: int, c: Claim)
    requires multiset(cs) == multiset(ds)
    ensures |cs| == |ds| && PassOf(cs, r) == PassOf(ds, r)
    ensures var p := PassOf(cs, r);
      && multiset(Unsettled(p, cs)) == multiset(Unsettled(p, ds))
      && |Unsettled(p, cs)| == |Unsettled(p, ds)|
      && SettledAsk(p, cs) == SettledAsk(p, ds)
      && Leftover(p, cs) == Leftover(p, ds)
      && Rank(p, cs, c) == Rank(p, ds, c)
  {
    assert |multiset(cs)| == |multiset(ds)|;
    SumPermutation(cs, ds, Weight);
    var p := PassOf(cs, r);
    FilterPermutation(cs, ds, CompetesOn(p));
    assert |multiset(Unsettled(p, cs))| == |multiset(Unsettled(p, ds))|;
    SumPermutation(cs, ds, SettledAskOf(p));
    SumPermutation(cs, ds, FloorShareOf(p));
    SumPermutation(cs, ds, AheadOf(p, c));
  }

  /** Grants depend on which claims compete, not on the order they are listed in. */
  lemma {:induction false} OrderIndependence(cs: seq<Claim>, ds: seq<Claim>, r: int, c: Claim)
    requires multiset(cs) == multiset(ds)
    ensures Grant(cs, r, c) == Grant(ds, r, c)
    decreases |cs|
  {
    PassAgrees(cs, ds, r, c);
    SumPermutation(cs, ds, Ask);
    if cs != [] && 0 < r < Sum(cs, Ask) {
      var p := PassOf(cs, r);
      if |Unsettled(p, cs)| < |cs| {
        OrderIndependence(Unsettled(p, cs), Unsettled(p, ds), r - SettledAsk(p, cs), c);
      }
    }
  }
}
