/** What rounding gives each claim, in exact shares alone: everybody still competing in the
    last pass gets the whole part of a proportional share or one thread more, and the extra
    threads go to the largest fractions. */
module CpuRounding {
  import opened Seqs
  import opened CpuShares

  /** No claim's exact share of r, by weight or else equal, covers its ask. */
  ghost predicate NobodyFits(cs: seq<Claim>, r: int) {
    forall c :: c in cs ==>
      if Sum(cs, Weight) > 0 then r * c.weight / Sum(cs, Weight) < c.ask else |cs| > 0 && r / |cs| < c.ask
  }

  lemma NobodySettles(cs: seq<Claim>, r: int)
    requires Contended(cs, r)
    ensures NobodyFits(cs, r) <==> |Unsettled(PassOf(cs, r), cs)| == |cs|
    ensures NobodyFits(cs, r) <==> forall c :: c in cs ==> !Settles(PassOf(cs, r), c)
  {
    var p := PassOf(cs, r);
    PassShape(cs, r);
    SettleMembers(cs, r);
    if forall c :: c in cs ==> !Settles(p, c) { NothingFiltered(cs, p); }
  }

  /** A claim ahead of another has a lower rank. */
  lemma RankIsMonotone(p: Pass, cs: seq<Claim>, c: Claim, d: Claim)
    requires c in cs && Before(p, c, d)
    ensures Rank(p, cs, c) < Rank(p, cs, d)
  {
    forall x | x in cs ensures AheadOf(p, c)(x) <= AheadOf(p, d)(x) {}
    SumBelow(cs, AheadOf(p, c), AheadOf(p, d), c);
  }

  lemma {:induction false} SumBelow(cs: seq<Claim>, f: Claim -> int, g: Claim -> int, x: Claim)
    requires x in cs && f(x) < g(x) && forall c :: c in cs ==> f(c) <= g(c)
    ensures Sum(cs, f) < Sum(cs, g)
  {
    assert cs[0] in cs;
    if cs[0] == x {
      forall c | c in cs[1..] ensures f(c) <= g(c) { assert c in cs; }
      SumAtMost(cs[1..], f, g);
    } else {
      assert x in cs[1..];
      SumBelow(cs[1..], f, g, x);
    }
  }

  /** In a pass in which nobody's share covers the ask, every claim gets the whole part of
      its share or one thread more. */
  lemma {:induction false} RoundedUpOrDown(cs: seq<Claim>, r: int, c: Claim, w: int, den: int)
    requires Contended(cs, r) && NobodyFits(cs, r) && c in cs
    requires if Sum(cs, Weight) > 0 then w == c.weight && den == Sum(cs, Weight) else w == 1 && den == |cs|
    ensures den > 0 && (Grant(cs, r, c) == r * w / den || Grant(cs, r, c) == r * w / den + 1)
  {
    PassShape(cs, r);
    NobodySettles(cs, r);
  }

  /** And the threads left over go to the largest fractions: whoever is rounded up has a
      larger fraction than whoever is rounded down, or as large a one and the larger weight,
      or equal ones of both and the lower database, or the lower requesting process in it. */
  lemma {:induction false} LargestRemainder(cs: seq<Claim>, r: int, c: Claim, d: Claim, wc: int, wd: int, den: int)
    requires Contended(cs, r) && NobodyFits(cs, r) && c in cs && d in cs
    requires if Sum(cs, Weight) > 0 then wc == c.weight && wd == d.weight && den == Sum(cs, Weight)
             else wc == 1 && wd == 1 && den == |cs|
    requires den > 0 && Grant(cs, r, d) == r * wd / den + 1 && Grant(cs, r, c) == r * wc / den
    ensures || r * wc % den < r * wd % den
            || (r * wc % den == r * wd % den && c.weight < d.weight)
            || (r * wc % den == r * wd % den && c.weight == d.weight && d.dbOid < c.dbOid)
            || (r * wc % den == r * wd % den && c.weight == d.weight && d.dbOid == c.dbOid && d.requestPid < c.requestPid)
  {
    var p := PassOf(cs, r);
    PassShape(cs, r);
    NobodySettles(cs, r);
    assert Frac(p, c) == r * wc % den && Frac(p, d) == r * wd % den;
    assert Rank(p, cs, d) < Leftover(p, cs) <= Rank(p, cs, c);
    BeforeIsStrict(p, c, d);
    if Before(p, c, d) { RankIsMonotone(p, cs, c, d); }
    assert !SameKey(c, d);
  }

  lemma NextPass(cs: seq<Claim>, r: int) returns (rest: seq<Claim>, r': int)
    requires Contended(cs, r) && |Unsettled(PassOf(cs, r), cs)| < |cs|
    ensures |rest| < |cs| && WellFormed(rest) && 0 <= r' < Sum(rest, Ask) && forall c :: c in rest ==> c in cs
    ensures forall c :: c in cs ==> Grant(cs, r, c) == if c in rest then Grant(rest, r', c) else c.ask
  {
    var p := PassOf(cs, r);
    rest, r' := Unsettled(p, cs), r - SettledAsk(p, cs);
    SettleMembers(cs, r);
    SettleStep(cs, r);
    forall c | c in cs ensures Grant(cs, r, c) == if c in rest then Grant(rest, r', c) else c.ask {
      GrantAfterPass(cs, r, c, rest, r');
    }
  }

  /** Every contended sharing comes down to such a pass, unless those settled before took
      everything: the claims left out of it have their whole ask, and the others get there
      what they get in all. */
  lemma {:induction false} LastPass(cs: seq<Claim>, r: int) returns (rest: seq<Claim>, left: int)
    requires Contended(cs, r)
    ensures WellFormed(rest) && 0 <= left < Sum(rest, Ask) && forall c :: c in rest ==> c in cs
    ensures left > 0 ==> Contended(rest, left) && NobodyFits(rest, left)
    ensures forall c :: c in cs ==> Grant(cs, r, c) == if c in rest then Grant(rest, left, c) else c.ask
    decreases |cs|
  {
    SettleMembers(cs, r);
    NobodySettles(cs, r);
    if NobodyFits(cs, r) {
      rest, left := cs, r;
    } else {
      rest, left := NextPass(cs, r);
      if left > 0 {
        var next, r' := rest, left;
        rest, left := LastPass(next, r');
      }
    }
  }
}
