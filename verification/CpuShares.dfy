/** What a claim on the elastic CPU remainder is due: the water-filling rule of
    ApportionRemainder stated on values, one pass at a time, with no array,
    no compaction and no sort. */
module CpuShares {
  import opened Seqs

  /** One claim: a database's unmet search demand (requestPid 0) or a pending build. */
  datatype Claim = Claim(dbOid: nat, requestPid: int, weight: int, ask: int)

  /** What one pass over the claims still competing is computed from. */
  datatype Pass = Pass(remainder: int, totalWeight: int, denom: int)

  function Ask(c: Claim): int { c.ask }
  function Weight(c: Claim): int { c.weight }

  predicate SameKey(a: Claim, b: Claim) {
    a.dbOid == b.dbOid && a.requestPid == b.requestPid
  }

  ghost predicate DistinctKeys(cs: seq<Claim>) {
    && (forall c, d :: c in cs && d in cs && SameKey(c, d) ==> c == d)
    && (forall c :: c in cs ==> multiset(cs)[c] == 1)
  }

  ghost predicate WellFormed(cs: seq<Claim>) {
    && (forall c :: c in cs ==> c.weight >= 0 && c.ask > 0)
    && DistinctKeys(cs)
  }

  lemma WellFormedPermutation(cs: seq<Claim>, ds: seq<Claim>)
    requires WellFormed(cs) && multiset(cs) == multiset(ds)
    ensures WellFormed(ds)
  {
    forall c | c in ds ensures c in cs { assert c in multiset(ds); }
  }

  function PassOf(cs: seq<Claim>, r: int): Pass {
    var tw := Sum(cs, Weight);
    Pass(r, tw, if tw > 0 then tw else |cs|)
  }

  /** Proportional shares while some competing claim has weight, equal shares after that. */
  function ShareWeight(p: Pass, c: Claim): int {
    if p.totalWeight > 0 then c.weight else 1
  }

  function FloorShare(p: Pass, c: Claim): int {
    if p.denom > 0 then p.remainder * ShareWeight(p, c) / p.denom else 0
  }

  function Frac(p: Pass, c: Claim): int {
    if p.denom > 0 then p.remainder * ShareWeight(p, c) % p.denom else 0
  }

  predicate Settles(p: Pass, c: Claim) { FloorShare(p, c) >= c.ask }

  /** The leftover tiebreak: larger fraction, then higher weight, then lower dbOid, then lower pid. */
  predicate Before(p: Pass, a: Claim, b: Claim) {
    if Frac(p, a) != Frac(p, b) then Frac(p, a) > Frac(p, b)
    else if a.weight != b.weight then a.weight > b.weight
    else if a.dbOid != b.dbOid then a.dbOid < b.dbOid
    else a.requestPid < b.requestPid
  }

  /* The same quantities as functions of the claim alone, to be summed. */
  function ShareWeightOf(p: Pass): Claim -> int { (c: Claim) => ShareWeight(p, c) }
  function FloorShareOf(p: Pass): Claim -> int { (c: Claim) => FloorShare(p, c) }
  function FracOf(p: Pass): Claim -> int { (c: Claim) => Frac(p, c) }
  function SettledAskOf(p: Pass): Claim -> int { (c: Claim) => if Settles(p, c) then c.ask else 0 }
  function CompetesOn(p: Pass): Claim -> bool { (c: Claim) => !Settles(p, c) }
  function AheadOf(p: Pass, c: Claim): Claim -> int { (d: Claim) => if Before(p, d, c) then 1 else 0 }

  function Unsettled(p: Pass, cs: seq<Claim>): seq<Claim> { Filter(cs, CompetesOn(p)) }
  function SettledAsk(p: Pass, cs: seq<Claim>): int { Sum(cs, SettledAskOf(p)) }
  function Leftover(p: Pass, cs: seq<Claim>): int { p.remainder - Sum(cs, FloorShareOf(p)) }
  function Rank(p: Pass, cs: seq<Claim>, c: Claim): int { Sum(cs, AheadOf(p, c)) }

  /** The threads claim c ends up with when cs compete for r. */
  function Grant(cs: seq<Claim>, r: int, c: Claim): int
    decreases |cs|
  {
    if cs == [] || r <= 0 then 0
    else if r >= Sum(cs, Ask) then c.ask
    else
      var p := PassOf(cs, r);
      var rest := Unsettled(p, cs);
      if |rest| < |cs| then
        if Settles(p, c) then c.ask else Grant(rest, r - SettledAsk(p, cs), c)
      else
        FloorShare(p, c) + if Rank(p, cs, c) < Leftover(p, cs) then 1 else 0
  }

  function GrantOf(cs: seq<Claim>, r: int): Claim -> int { (c: Claim) => Grant(cs, r, c) }

  /* ---- one pass ---- */

  ghost predicate Contended(cs: seq<Claim>, r: int) {
    WellFormed(cs) && cs != [] && 0 < r < Sum(cs, Ask)
  }

  lemma {:induction false} NothingFiltered(cs: seq<Claim>, p: Pass)
    requires forall c :: c in cs ==> !Settles(p, c)
    ensures Unsettled(p, cs) == cs
  {
    if cs != [] {
      assert cs[0] in cs;
      NothingFiltered(cs[1..], p);
    }
  }

  /** A pass in which somebody settles leaves the others to the next one. */
  lemma {:induction false} GrantAfterPass(cs: seq<Claim>, r: int, c: Claim, rest: seq<Claim>, r': int)
    requires cs != [] && 0 < r < Sum(cs, Ask) && rest == Unsettled(PassOf(cs, r), cs) && |rest| < |cs|
    requires r' == r - SettledAsk(PassOf(cs, r), cs)
    ensures Grant(cs, r, c) == if Settles(PassOf(cs, r), c) then c.ask else Grant(rest, r', c)
  {}

  lemma DivMod(a: int, d: int)
    requires a >= 0 && d > 0
    ensures a == (a / d) * d + a % d && 0 <= a % d < d && a / d >= 0
  {}

  lemma {:induction false} SumOfOnes(cs: seq<Claim>, f: Claim -> int)
    requires forall c :: c in cs ==> f(c) == 1
    ensures Sum(cs, f) == |cs|
  {
    if cs != [] {
      assert cs[0] in cs;
      SumOfOnes(cs[1..], f);
    }
  }

  lemma {:induction false} PassShape(cs: seq<Claim>, r: int)
    requires WellFormed(cs) && cs != [] && r > 0
    ensures var p := PassOf(cs, r);
      && p.denom > 0 && p.totalWeight >= 0
      && Sum(cs, ShareWeightOf(p)) == p.denom
  {
    var p := PassOf(cs, r);
    SumNonNegative(cs, Weight);
    if p.totalWeight > 0 {
      SumEqual(cs, ShareWeightOf(p), Weight);
    } else {
      SumOfOnes(cs, ShareWeightOf(p));
    }
  }

  lemma ShareFacts(p: Pass, c: Claim)
    requires p.denom > 0 && p.remainder > 0 && c.weight >= 0
    ensures ShareWeight(p, c) >= 0 && FloorShare(p, c) >= 0 && 0 <= Frac(p, c) < p.denom
    ensures p.remainder * ShareWeight(p, c) == p.denom * FloorShare(p, c) + Frac(p, c)
  {
    DivMod(p.remainder * ShareWeight(p, c), p.denom);
  }

  /** The fractions lost to rounding add up to the leftover, in units of 1/denom. */
  lemma {:induction false} FractionsMakeLeftover(cs: seq<Claim>, r: int)
    requires WellFormed(cs) && cs != [] && r > 0
    ensures var p := PassOf(cs, r); Sum(cs, FracOf(p)) == p.denom * Leftover(p, cs)
  {
    var p := PassOf(cs, r);
    PassShape(cs, r);
    forall c | c in cs
      ensures r * ShareWeightOf(p)(c) == p.denom * FloorShareOf(p)(c) + FracOf(p)(c)
    {
      ShareFacts(p, c);
    }
    SumBalance(cs, ShareWeightOf(p), FloorShareOf(p), FracOf(p), r, p.denom);
    LeftoverIdentity(r, p.denom, Sum(cs, FloorShareOf(p)), Sum(cs, FracOf(p)));
  }

  lemma LeftoverIdentity(r: int, d: int, ft: int, frac: int)
    requires r * d == d * ft + frac
    ensures frac == d * (r - ft)
  {}

  function HasFraction(p: Pass): Claim -> int { (c: Claim) => if Frac(p, c) > 0 then 1 else 0 }

  lemma MulCancelLess(d: int, a: int, b: int)
    requires d > 0 && d * a < d * b
    ensures a < b
  {}

  lemma MulCancelAtMost(d: int, a: int, b: int)
    requires d > 0 && d * a <= d * b
    ensures a <= b
  {}

  /** The leftover is 0, or smaller than the number of claims that lost a fraction. */
  lemma {:induction false} LeftoverBelowFractions(cs: seq<Claim>, r: int)
    requires WellFormed(cs) && cs != [] && r > 0
    ensures var p := PassOf(cs, r);
      && 0 <= Leftover(p, cs)
      && (Leftover(p, cs) == 0 || Leftover(p, cs) < Sum(cs, HasFraction(p)))
      && Sum(cs, HasFraction(p)) <= |cs|
  {
    var p := PassOf(cs, r);
    PassShape(cs, r);
    FractionsMakeLeftover(cs, r);
    forall c | c in cs ensures 0 <= FracOf(p)(c) <= (p.denom - 1) * HasFraction(p)(c) {
      ShareFacts(p, c);
    }
    SumNonNegative(cs, FracOf(p));
    SumNonNegative(cs, HasFraction(p));
    SumScaledAtMost(cs, FracOf(p), HasFraction(p), 1, p.denom - 1);
    var one := (c: Claim) => 1;
    SumAtMost(cs, HasFraction(p), one);
    SumOfOnes(cs, one);
    LeftoverBound(p.denom, Leftover(p, cs), Sum(cs, HasFraction(p)));
  }

  lemma LeftoverBound(d: int, l: int, n: int)
    requires d > 0 && n >= 0 && 0 <= d * l <= (d - 1) * n
    ensures 0 <= l && (l == 0 || l < n)
  {
    assert (d - 1) * n == d * n - n;
    MulCancelAtMost(d, 0, l);
    if n > 0 {
      MulCancelLess(d, l, n);
    } else {
      MulCancelAtMost(d, l, 0);
    }
  }

  lemma SettleMembers(cs: seq<Claim>, r: int)
    requires WellFormed(cs)
    ensures var p := PassOf(cs, r); var rest := Unsettled(p, cs);
      && WellFormed(rest)
      && (forall c :: c in rest <==> c in cs && !Settles(p, c))
      && |rest| <= |cs|
      && (|rest| == |cs| ==> forall c :: c in cs ==> !Settles(p, c))
  {
    var p := PassOf(cs, r);
    var rest := Unsettled(p, cs);
    FilterMembers(cs, CompetesOn(p));
    forall c | c in rest ensures multiset(rest)[c] == 1 {
      FilterCount(cs, CompetesOn(p), c);
      assert c in cs;
    }
  }

  function RestAskOf(p: Pass): Claim -> int { (c: Claim) => if Settles(p, c) then 0 else c.ask }
  function RestWeightOf(p: Pass): Claim -> int { (c: Claim) => if Settles(p, c) then 0 else ShareWeight(p, c) }
  function DoneWeightOf(p: Pass): Claim -> int { (c: Claim) => if Settles(p, c) then ShareWeight(p, c) else 0 }

  lemma {:induction false} SettleSplits(cs: seq<Claim>, p: Pass)
    ensures Sum(Unsettled(p, cs), Ask) == Sum(cs, Ask) - SettledAsk(p, cs)
    ensures Sum(Unsettled(p, cs), ShareWeightOf(p)) == Sum(cs, RestWeightOf(p))
    ensures Sum(cs, ShareWeightOf(p)) == Sum(cs, RestWeightOf(p)) + Sum(cs, DoneWeightOf(p))
  {
    SumSplit(cs, CompetesOn(p), Ask, RestAskOf(p));
    SumAdd(cs, RestAskOf(p), SettledAskOf(p), Ask);
    SumSplit(cs, CompetesOn(p), ShareWeightOf(p), RestWeightOf(p));
    SumAdd(cs, RestWeightOf(p), DoneWeightOf(p), ShareWeightOf(p));
  }

  lemma SettledWithinShare(p: Pass, c: Claim)
    requires p.denom > 0 && p.remainder > 0 && c.weight >= 0 && c.ask > 0
    ensures p.denom * SettledAskOf(p)(c) <= p.remainder * DoneWeightOf(p)(c)
    ensures SettledAskOf(p)(c) >= 0 && RestWeightOf(p)(c) >= 0
  {
    ShareFacts(p, c);
    if Settles(p, c) { MulMonotone(p.denom, c.ask, FloorShare(p, c)); }
  }

  /** A pass that settles claims takes no more than their proportional part of
      the remainder, so the level r/denom never falls for those still competing. */
  lemma {:induction false} SettleStep(cs: seq<Claim>, r: int)
    requires Contended(cs, r)
    ensures var p := PassOf(cs, r); var rest := Unsettled(p, cs); var r' := r - SettledAsk(p, cs);
      && Sum(rest, Ask) == Sum(cs, Ask) - SettledAsk(p, cs)
      && Sum(rest, ShareWeightOf(p)) >= 0
      && r' * p.denom >= r * Sum(rest, ShareWeightOf(p))
      && 0 <= r' <= r
      && r' < Sum(rest, Ask)
  {
    var p := PassOf(cs, r);
    PassShape(cs, r);
    SettleSplits(cs, p);
    forall c | c in cs
      ensures p.denom * SettledAskOf(p)(c) <= r * DoneWeightOf(p)(c)
      ensures SettledAskOf(p)(c) >= 0 && RestWeightOf(p)(c) >= 0
    {
      SettledWithinShare(p, c);
    }
    SumNonNegative(cs, SettledAskOf(p));
    SumNonNegative(cs, RestWeightOf(p));
    SumScaledAtMost(cs, SettledAskOf(p), DoneWeightOf(p), p.denom, r);
    LevelRises(r, p.denom, SettledAsk(p, cs), Sum(cs, RestWeightOf(p)), Sum(cs, DoneWeightOf(p)));
  }

  lemma MulMonotone(k: int, a: int, b: int)
    requires k >= 0 && a <= b
    ensures k * a <= k * b
  {}

  lemma LevelRises(r: int, denom: int, sa: int, rest: int, done: int)
    requires denom > 0 && r > 0 && rest >= 0 && denom == rest + done && denom * sa <= r * done
    ensures (r - sa) * denom >= r * rest && r - sa >= 0
  {
    Distribute(r, rest, done);
    assert (r - sa) * denom == r * denom - denom * sa;
    assert r * rest >= 0;
    MulCancelAtMost(denom, 0, r - sa);
  }

  /* ---- rank and sort ---- */

  lemma BeforeIsStrict(p: Pass, a: Claim, b: Claim)
    ensures !(Before(p, a, b) && Before(p, b, a))
    ensures !SameKey(a, b) ==> Before(p, a, b) || Before(p, b, a)
  {}

  function BeforeOn(p: Pass): (Claim, Claim) -> bool { (a: Claim, b: Claim) => Before(p, a, b) }

  ghost predicate Ordered(p: Pass, s: seq<Claim>) { Sorted(s, BeforeOn(p)) }

  lemma ClaimsSortable(p: Pass, cs: seq<Claim>)
    requires DistinctKeys(cs)
    ensures Transitive(BeforeOn(p)) && Comparable(cs, BeforeOn(p))
  {
    forall i, j | 0 <= i < j < |cs| ensures Before(p, cs[i], cs[j]) || Before(p, cs[j], cs[i]) {
      CountedOnce(cs, i, j);
      assert !SameKey(cs[i], cs[j]);
    }
  }

  lemma {:induction false} AllAhead(p: Pass, s: seq<Claim>, c: Claim, ahead: bool)
    requires forall d :: d in s ==> Before(p, d, c) == ahead
    ensures Sum(s, AheadOf(p, c)) == if ahead then |s| else 0
  {
    if s != [] {
      assert s[0] in s;
      AllAhead(p, s[1..], c, ahead);
    }
  }

  /** In sorted order a claim's rank is its position. */
  lemma RankIsPosition(p: Pass, cs: seq<Claim>, t: seq<Claim>, i: nat)
    requires multiset(cs) == multiset(t) && Ordered(p, t) && i < |t|
    ensures Rank(p, cs, t[i]) == i
  {
    var c := t[i];
    SumPermutation(cs, t, AheadOf(p, c));
    assert t == t[..i] + t[i..];
    SumConcat(t[..i], t[i..], AheadOf(p, c));
    forall d | d in t[..i] ensures Before(p, d, c) {
      var j :| 0 <= j < i && t[..i][j] == d;
      assert BeforeOn(p)(t[j], c);
    }
    AllAhead(p, t[..i], c, true);
    forall d | d in t[i..] ensures !Before(p, d, c) {
      var j :| 0 <= j < |t[i..]| && t[i..][j] == d;
      if j > 0 { assert BeforeOn(p)(c, t[i + j]); BeforeIsStrict(p, c, d); }
    }
    AllAhead(p, t[i..], c, false);
  }

  function RankBelow(p: Pass, cs: seq<Claim>, n: int): Claim -> int {
    (c: Claim) => if Rank(p, cs, c) < n then 1 else 0
  }

  lemma {:induction false} PrefixRanks(p: Pass, cs: seq<Claim>, t: seq<Claim>, n: int, k: nat)
    requires multiset(cs) == multiset(t) && Ordered(p, t) && k <= |t| && 0 <= n
    ensures Sum(t[..k], RankBelow(p, cs, n)) == Min(k, n)
  {
    if k > 0 {
      PrefixRanks(p, cs, t, n, k - 1);
      SumSnoc(t, k - 1, RankBelow(p, cs, n));
      RankIsPosition(p, cs, t, k - 1);
    }
  }

  /** Exactly n claims have a rank below n: the leftover is handed out exactly. */
  lemma {:induction false} RanksBelow(p: Pass, cs: seq<Claim>, n: int)
    requires DistinctKeys(cs) && 0 <= n <= |cs|
    ensures Sum(cs, RankBelow(p, cs, n)) == n
  {
    var t := SortBy(cs, BeforeOn(p));
    ClaimsSortable(p, cs);
    SortIsPermutation(cs, BeforeOn(p));
    SortSorts(cs, BeforeOn(p));
    SumPermutation(cs, t, RankBelow(p, cs, n));
    PrefixRanks(p, cs, t, n, |t|);
    assert t[..|t|] == t;
  }

  /** Only a claim that lost a fraction can receive a leftover thread. */
  lemma LeftoverGoesToFractions(cs: seq<Claim>, r: int, c: Claim)
    requires WellFormed(cs) && cs != [] && r > 0 && c in cs
    requires Rank(PassOf(cs, r), cs, c) < Leftover(PassOf(cs, r), cs)
    ensures Frac(PassOf(cs, r), c) > 0
  {
    var p := PassOf(cs, r);
    LeftoverBelowFractions(cs, r);
    PassShape(cs, r);
    ShareFacts(p, c);
    if Frac(p, c) == 0 {
      forall d | d in cs ensures HasFraction(p)(d) <= AheadOf(p, c)(d) { ShareFacts(p, d); }
      SumNonNegative(cs, AheadOf(p, c));
      SumAtMost(cs, HasFraction(p), AheadOf(p, c));
    }
  }
}
