/** Sums, filters and maps over sequences, with the facts about permutation,
    concatenation and update that the models rely on. */
module Seqs {
  function Min(a: int, b: int): int { if a <= b then a else b }
  function Max(a: int, b: int): int { if a >= b then a else b }

  function Sum<T>(s: seq<T>, f: T -> int): int {
    if s == [] then 0 else f(s[0]) + Sum(s[1..], f)
  }

  function Filter<T>(s: seq<T>, p: T -> bool): seq<T> {
    if s == [] then []
    else (if p(s[0]) then [s[0]] else []) + Filter(s[1..], p)
  }

  function Map<T, U>(s: seq<T>, f: T -> U): (r: seq<U>)
    ensures |r| == |s|
    ensures forall i :: 0 <= i < |s| ==> r[i] == f(s[i])
  {
    seq(|s|, i requires 0 <= i < |s| => f(s[i]))
  }

  ghost predicate Distinct<T>(s: seq<T>) {
    forall i, j :: 0 <= i < j < |s| ==> s[i] != s[j]
  }

  /* ---- sums ---- */

  lemma {:induction false} SumConcat<T>(a: seq<T>, b: seq<T>, f: T -> int)
    ensures Sum(a + b, f) == Sum(a, f) + Sum(b, f)
  {
    if a == [] {
      assert a + b == b;
    } else {
      assert (a + b)[1..] == a[1..] + b;
      SumConcat(a[1..], b, f);
    }
  }

  lemma SumSnoc<T>(s: seq<T>, i: nat, f: T -> int)
    requires i < |s|
    ensures Sum(s[..i + 1], f) == Sum(s[..i], f) + f(s[i])
  {
    assert s[..i + 1] == s[..i] + [s[i]];
    SumConcat(s[..i], [s[i]], f);
  }

  lemma SumUpdate<T>(s: seq<T>, i: nat, x: T, f: T -> int)
    requires i < |s|
    ensures Sum(s[i := x], f) == Sum(s, f) - f(s[i]) + f(x)
  {
    assert s == s[..i] + [s[i]] + s[i + 1..];
    assert s[i := x] == s[..i] + [x] + s[i + 1..];
    SumConcat(s[..i] + [s[i]], s[i + 1..], f);
    SumConcat(s[..i] + [x], s[i + 1..], f);
    SumConcat(s[..i], [s[i]], f);
    SumConcat(s[..i], [x], f);
  }

  lemma {:induction false} SumEqual<T>(s: seq<T>, f: T -> int, g: T -> int)
    requires forall x :: x in s ==> f(x) == g(x)
    ensures Sum(s, f) == Sum(s, g)
  {
    if s != [] {
      assert s[0] in s;
      SumEqual(s[1..], f, g);
    }
  }

  lemma {:induction false} SumZero<T>(s: seq<T>, f: T -> int)
    requires forall x :: x in s ==> f(x) == 0
    ensures Sum(s, f) == 0
  {
    if s != [] {
      assert s[0] in s;
      SumZero(s[1..], f);
    }
  }

  lemma SumPair<T>(a: T, b: T, f: T -> int)
    ensures Sum([a, b], f) == f(a) + f(b)
  {
    assert [a, b][1..] == [b] && [b][1..] == [];
    assert Sum([b], f) == f(b);
  }

  lemma {:induction false} SumAtMost<T>(s: seq<T>, f: T -> int, g: T -> int)
    requires forall x :: x in s ==> f(x) <= g(x)
    ensures Sum(s, f) <= Sum(s, g)
  {
    if s != [] {
      assert s[0] in s;
      SumAtMost(s[1..], f, g);
    }
  }

  lemma {:induction false} SumNonNegative<T>(s: seq<T>, f: T -> int)
    requires forall x :: x in s ==> f(x) >= 0
    ensures Sum(s, f) >= 0
    ensures forall x :: x in s ==> f(x) <= Sum(s, f)
  {
    if s != [] {
      assert s[0] in s;
      SumNonNegative(s[1..], f);
      forall x | x in s ensures f(x) <= Sum(s, f) {
        if x != s[0] { assert x in s[1..]; }
      }
    }
  }

  /** Adding two summands pointwise adds the sums. */
  lemma {:induction false} SumAdd<T>(s: seq<T>, f: T -> int, g: T -> int, h: T -> int)
    requires forall x :: x in s ==> h(x) == f(x) + g(x)
    ensures Sum(s, h) == Sum(s, f) + Sum(s, g)
  {
    if s != [] {
      assert s[0] in s;
      SumAdd(s[1..], f, g, h);
    }
  }

  /** An identity a*f = b*g + h that holds of every element holds of the sums. */
  lemma {:induction false} SumBalance<T>(s: seq<T>, f: T -> int, g: T -> int, h: T -> int, a: int, b: int)
    requires forall x :: x in s ==> a * f(x) == b * g(x) + h(x)
    ensures a * Sum(s, f) == b * Sum(s, g) + Sum(s, h)
  {
    if s != [] {
      assert s[0] in s;
      SumBalance(s[1..], f, g, h, a, b);
      Distribute(a, f(s[0]), Sum(s[1..], f));
      Distribute(b, g(s[0]), Sum(s[1..], g));
    }
  }

  /** A bound a*f <= b*g that holds of every element holds of the sums. */
  lemma {:induction false} SumScaledAtMost<T>(s: seq<T>, f: T -> int, g: T -> int, a: int, b: int)
    requires forall x :: x in s ==> a * f(x) <= b * g(x)
    ensures a * Sum(s, f) <= b * Sum(s, g)
  {
    if s != [] {
      assert s[0] in s;
      SumScaledAtMost(s[1..], f, g, a, b);
      Distribute(a, f(s[0]), Sum(s[1..], f));
      Distribute(b, g(s[0]), Sum(s[1..], g));
    }
  }

  lemma Distribute(k: int, x: int, y: int)
    ensures k * (x + y) == k * x + k * y
  {}

  /* ---- permutations ---- */

  /** Where x stands in s, and s without that occurrence. */
  lemma Locate<T>(s: seq<T>, x: T) returns (i: nat)
    requires x in multiset(s)
    ensures i < |s| && s[i] == x
    ensures s == s[..i] + [x] + s[i + 1..]
    ensures multiset(s[..i] + s[i + 1..]) == multiset(s) - multiset{x}
  {
    i :| 0 <= i < |s| && s[i] == x;
    assert s == s[..i] + [x] + s[i + 1..];
  }

  lemma {:induction false} SumPermutation<T>(s: seq<T>, t: seq<T>, f: T -> int)
    requires multiset(s) == multiset(t)
    ensures Sum(s, f) == Sum(t, f)
  {
    if s == [] {
      assert |multiset(t)| == 0;
    } else {
      var x := s[0];
      assert s == [x] + s[1..];
      assert x in multiset(t);
      var i := Locate(t, x);
      SumPermutation(s[1..], t[..i] + t[i + 1..], f);
      SumConcat(t[..i], t[i + 1..], f);
      SumConcat(t[..i] + [x], t[i + 1..], f);
      SumConcat(t[..i], [x], f);
    }
  }

  lemma {:induction false} FilterConcat<T>(a: seq<T>, b: seq<T>, p: T -> bool)
    ensures Filter(a + b, p) == Filter(a, p) + Filter(b, p)
  {
    if a == [] {
      assert a + b == b;
    } else {
      assert (a + b)[0] == a[0] && (a + b)[1..] == a[1..] + b;
      FilterConcat(a[1..], b, p);
      var head := if p(a[0]) then [a[0]] else [];
      assert Filter(a, p) == head + Filter(a[1..], p);
      assert Filter(a + b, p) == head + Filter(a[1..] + b, p);
    }
  }

  lemma {:induction false} FilterCount<T>(s: seq<T>, p: T -> bool, x: T)
    ensures multiset(Filter(s, p))[x] == if p(x) then multiset(s)[x] else 0
  {
    if s != [] {
      FilterCount(s[1..], p, x);
      assert s == [s[0]] + s[1..];
    }
  }

  lemma {:induction false} FilterMembers<T>(s: seq<T>, p: T -> bool)
    ensures |Filter(s, p)| <= |s|
    ensures forall x :: x in Filter(s, p) <==> x in s && p(x)
    ensures |Filter(s, p)| == |s| ==> forall x :: x in s ==> p(x)
  {
    if s != [] {
      FilterMembers(s[1..], p);
      assert s == [s[0]] + s[1..];
    }
  }

  lemma {:induction false} FilterPermutation<T>(s: seq<T>, t: seq<T>, p: T -> bool)
    requires multiset(s) == multiset(t)
    ensures multiset(Filter(s, p)) == multiset(Filter(t, p))
  {
    if s == [] {
      assert |multiset(t)| == 0;
    } else {
      var x := s[0];
      assert s == [x] + s[1..];
      assert x in multiset(t);
      var i := Locate(t, x);
      FilterPermutation(s[1..], t[..i] + t[i + 1..], p);
      FilterConcat(t[..i], t[i + 1..], p);
      FilterConcat(t[..i] + [x], t[i + 1..], p);
      FilterConcat(t[..i], [x], p);
      FilterConcat([x], s[1..], p);
    }
  }

  /** A sum splits over a predicate and its negation. */
  lemma {:induction false} SumSplit<T>(s: seq<T>, p: T -> bool, f: T -> int, inP: T -> int)
    requires forall x :: x in s ==> inP(x) == if p(x) then f(x) else 0
    ensures Sum(s, inP) == Sum(Filter(s, p), f)
  {
    if s != [] {
      assert s[0] in s;
      SumSplit(s[1..], p, f, inP);
      SumConcat(if p(s[0]) then [s[0]] else [], Filter(s[1..], p), f);
    }
  }

  lemma MapSplit<T, U>(s: seq<T>, i: nat, f: T -> U)
    requires i < |s|
    ensures Map(s, f) == Map(s[..i], f) + [f(s[i])] + Map(s[i + 1..], f)
    ensures Map(s[..i] + s[i + 1..], f) == Map(s[..i], f) + Map(s[i + 1..], f)
  {
  }

  lemma MapRemove<T, U>(s: seq<T>, i: nat, f: T -> U)
    requires i < |s|
    ensures multiset(Map(s, f)) == multiset(Map(s[..i] + s[i + 1..], f)) + multiset{f(s[i])}
  {
    MapSplit(s, i, f);
  }

  lemma {:induction false} MapPermutation<T, U>(s: seq<T>, t: seq<T>, f: T -> U)
    requires multiset(s) == multiset(t)
    ensures multiset(Map(s, f)) == multiset(Map(t, f))
    decreases |s|
  {
    if s == [] {
      assert |multiset(t)| == 0;
    } else {
      assert s[0] in multiset(t);
      var i := Locate(t, s[0]);
      MapRemove(s, 0, f);
      MapRemove(t, i, f);
      assert s == [s[0]] + (s[..0] + s[1..]);
      MapPermutation(s[..0] + s[1..], t[..i] + t[i + 1..], f);
    }
  }

  lemma {:induction false} SumMap<T, U>(s: seq<T>, f: T -> U, g: U -> int, h: T -> int)
    requires forall x :: x in s ==> h(x) == g(f(x))
    ensures Sum(Map(s, f), g) == Sum(s, h)
  {
    if s != [] {
      assert s[0] in s;
      SumMap(s[1..], f, g, h);
      assert Map(s, f)[1..] == Map(s[1..], f);
    }
  }

  /* ---- sorting ---- */

  ghost predicate Transitive<T(!new)>(less: (T, T) -> bool) {
    forall a, b, c :: less(a, b) && less(b, c) ==> less(a, c)
  }

  /** Any two positions of s hold comparable elements. */
  ghost predicate Comparable<T>(s: seq<T>, less: (T, T) -> bool) {
    forall i, j :: 0 <= i < j < |s| ==> less(s[i], s[j]) || less(s[j], s[i])
  }

  ghost predicate Sorted<T>(s: seq<T>, less: (T, T) -> bool) {
    forall i, j :: 0 <= i < j < |s| ==> less(s[i], s[j])
  }

  function Insert<T>(x: T, s: seq<T>, less: (T, T) -> bool): seq<T> {
    if s == [] || less(x, s[0]) then [x] + s else [s[0]] + Insert(x, s[1..], less)
  }

  /** The result of qsort under a comparator that never reports a tie. */
  function SortBy<T>(s: seq<T>, less: (T, T) -> bool): seq<T> {
    if s == [] then [] else Insert(s[0], SortBy(s[1..], less), less)
  }

  lemma {:induction false} InsertAdds<T>(x: T, s: seq<T>, less: (T, T) -> bool)
    ensures multiset(Insert(x, s, less)) == multiset(s) + multiset{x}
  {
    if s != [] && !less(x, s[0]) {
      InsertAdds(x, s[1..], less);
      assert s == [s[0]] + s[1..];
    }
  }

  lemma SortedCons<T>(x: T, s: seq<T>, less: (T, T) -> bool)
    requires Sorted(s, less) && forall y :: y in s ==> less(x, y)
    ensures Sorted([x] + s, less)
  {}

  lemma {:induction false} InsertSorts<T(!new)>(x: T, s: seq<T>, less: (T, T) -> bool)
    requires Transitive(less) && Sorted(s, less)
    requires forall y :: y in s ==> less(x, y) || less(y, x)
    ensures Sorted(Insert(x, s, less), less)
  {
    if s == [] {
    } else if less(x, s[0]) {
      SortedCons(x, s, less);
    } else {
      assert s[0] in s;
      InsertSorts(x, s[1..], less);
      InsertAdds(x, s[1..], less);
      var u := Insert(x, s[1..], less);
      forall y | y in u ensures less(s[0], y) {
        assert y in multiset(u);
      }
      SortedCons(s[0], u, less);
    }
  }

  lemma {:induction false} SortIsPermutation<T>(s: seq<T>, less: (T, T) -> bool)
    ensures multiset(SortBy(s, less)) == multiset(s)
    ensures |SortBy(s, less)| == |s|
  {
    if s != [] {
      SortIsPermutation(s[1..], less);
      InsertAdds(s[0], SortBy(s[1..], less), less);
      assert s == [s[0]] + s[1..];
    }
    assert |multiset(SortBy(s, less))| == |multiset(s)|;
  }

  lemma {:induction false} SortSorts<T(!new)>(s: seq<T>, less: (T, T) -> bool)
    requires Transitive(less) && Comparable(s, less)
    ensures Sorted(SortBy(s, less), less)
  {
    if s != [] {
      var t := SortBy(s[1..], less);
      SortSorts(s[1..], less);
      SortIsPermutation(s[1..], less);
      forall y | y in t ensures less(s[0], y) || less(y, s[0]) {
        assert y in multiset(t);
      }
      InsertSorts(s[0], t, less);
    }
  }

  /** A sequence in which every element counts once has no repeated position. */
  lemma CountedOnce<T>(s: seq<T>, i: nat, j: nat)
    requires i < j < |s| && multiset(s)[s[i]] == 1
    ensures s[i] != s[j]
  {
    assert s == s[..j] + [s[j]] + s[j + 1..];
    assert s[i] in multiset(s[..j]);
  }
}
