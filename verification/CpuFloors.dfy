/** Reserved search-thread floors and how they are cut to fit the pool. */
module CpuFloors {
  import opened Seqs
  import opened CpuApportion

  /** One database's working row while grants are computed. */
  datatype DbWorking = DbWorking(dbOid: nat, desired: int, floor: int)

  function FloorOf(w: DbWorking): int { w.floor }
  function FloorBelow(dbOid: nat): DbWorking -> int {
    (w: DbWorking) => if w.dbOid < dbOid then w.floor else 0
  }

  ghost predicate DistinctOids(ws: seq<DbWorking>) {
    forall i, j :: 0 <= i < j < |ws| ==> ws[i].dbOid != ws[j].dbOid
  }

  ghost predicate FloorsFit(ws: seq<DbWorking>) {
    forall w :: w in ws ==> 0 <= w.floor < 0x8000_0000
  }

  /** The floor w keeps: the excess over the pool is taken from the lowest dbOids first. */
  function HonoredFloor(ws: seq<DbWorking>, pool: int, w: DbWorking): int {
    var excess := Sum(ws, FloorOf) - pool;
    w.floor - Max(0, Min(w.floor, excess - Sum(ws, FloorBelow(w.dbOid))))
  }

  function HonoredFloorOf(ws: seq<DbWorking>, pool: int): DbWorking -> int {
    (w: DbWorking) => HonoredFloor(ws, pool, w)
  }

  /** A floor is only ever cut once every lower dbOid's floor is gone. */
  lemma CutsFormPrefix(ws: seq<DbWorking>, pool: int, a: DbWorking, b: DbWorking)
    requires FloorsFit(ws) && a in ws && b in ws && a.dbOid < b.dbOid
    requires HonoredFloor(ws, pool, b) < b.floor
    ensures HonoredFloor(ws, pool, a) == 0
  {
    var between := (w: DbWorking) => FloorBelow(b.dbOid)(w) - FloorBelow(a.dbOid)(w);
    SumNonNegative(ws, between);
    assert between(a) == a.floor;
    SumAdd(ws, between, FloorBelow(a.dbOid), FloorBelow(b.dbOid));
  }

  predicate OidLess(a: DbWorking, b: DbWorking) { a.dbOid < b.dbOid }

  lemma {:induction false} BelowInPrefix(t: seq<DbWorking>, dbOid: nat, below: bool)
    requires forall w :: w in t ==> (w.dbOid < dbOid) == below
    ensures Sum(t, FloorBelow(dbOid)) == if below then Sum(t, FloorOf) else 0
  {
    if t != [] {
      assert t[0] in t;
      BelowInPrefix(t[1..], dbOid, below);
    }
  }

  /** In dbOid order, the floors below row k are those of the rows before it. */
  lemma {:induction false} BelowIsPrefix(ws: seq<DbWorking>, t: seq<DbWorking>, k: nat)
    requires multiset(ws) == multiset(t) && Sorted(t, OidLess) && k < |t|
    ensures Sum(ws, FloorBelow(t[k].dbOid)) == Sum(t[..k], FloorOf)
  {
    var f := FloorBelow(t[k].dbOid);
    SumPermutation(ws, t, f);
    assert t == t[..k] + t[k..];
    SumConcat(t[..k], t[k..], f);
    BelowInPrefix(t[..k], t[k].dbOid, true);
    forall w | w in t[k..] ensures !(w.dbOid < t[k].dbOid) {
      var j :| 0 <= j < |t[k..]| && t[k..][j] == w;
      if j > 0 { assert OidLess(t[k], t[k + j]); }
    }
    BelowInPrefix(t[k..], t[k].dbOid, false);
  }

  lemma {:induction false} HonoredPrefix(ws: seq<DbWorking>, pool: int, t: seq<DbWorking>, k: nat)
    requires FloorsFit(ws) && multiset(ws) == multiset(t) && Sorted(t, OidLess) && k <= |t|
    ensures Sum(t[..k], HonoredFloorOf(ws, pool))
      == Sum(t[..k], FloorOf) - Min(Sum(t[..k], FloorOf), Max(0, Sum(ws, FloorOf) - pool))
  {
    if k > 0 {
      HonoredPrefix(ws, pool, t, k - 1);
      SumSnoc(t, k - 1, FloorOf);
      SumSnoc(t, k - 1, HonoredFloorOf(ws, pool));
      BelowIsPrefix(ws, t, k - 1);
      assert t[k - 1] in multiset(ws);
      PrefixNonNegative(ws, t, k - 1);
    }
  }

  lemma PrefixNonNegative(ws: seq<DbWorking>, t: seq<DbWorking>, k: nat)
    requires FloorsFit(ws) && multiset(ws) == multiset(t) && k <= |t|
    ensures Sum(t[..k], FloorOf) >= 0
  {
    forall w | w in t[..k] ensures FloorOf(w) >= 0 { assert w in multiset(ws); }
    SumNonNegative(t[..k], FloorOf);
  }

  lemma OidsSortable(ws: seq<DbWorking>)
    requires DistinctOids(ws)
    ensures Transitive(OidLess) && Comparable(ws, OidLess)
  {}

  lemma OidOrder(ws: seq<DbWorking>) returns (t: seq<DbWorking>)
    requires DistinctOids(ws)
    ensures multiset(ws) == multiset(t) && Sorted(t, OidLess)
  {
    t := SortBy(ws, OidLess);
    OidsSortable(ws);
    SortIsPermutation(ws, OidLess);
    SortSorts(ws, OidLess);
  }

  /** The honored floors fill the pool exactly when the configured ones overrun it. */
  lemma {:induction false} HonoredTotal(ws: seq<DbWorking>, pool: int)
    requires FloorsFit(ws) && DistinctOids(ws) && pool >= 0
    ensures Sum(ws, HonoredFloorOf(ws, pool)) == Min(Sum(ws, FloorOf), pool)
  {
    var t := OidOrder(ws);
    SumNonNegative(ws, FloorOf);
    SumPermutation(ws, t, HonoredFloorOf(ws, pool));
    SumPermutation(ws, t, FloorOf);
    HonoredPrefix(ws, pool, t, |t|);
    assert t[..|t|] == t;
  }

  lemma HonoredPermutation(ws: seq<DbWorking>, vs: seq<DbWorking>, pool: int, w: DbWorking)
    requires multiset(ws) == multiset(vs)
    ensures HonoredFloor(ws, pool, w) == HonoredFloor(vs, pool, w)
  {
    SumPermutation(ws, vs, FloorOf);
    SumPermutation(ws, vs, FloorBelow(w.dbOid));
  }

  /* ---- in place ---- */

  function Indices(n: nat): seq<nat> { seq(n, i => i) }

  /** Row indices compared by the dbOid of the row they point at. */
  function RowLess(ws: seq<DbWorking>): (nat, nat) -> bool {
    (i: nat, j: nat) => i < |ws| && j < |ws| && ws[i].dbOid < ws[j].dbOid
  }

  function RowAt(ws: seq<DbWorking>): nat -> DbWorking {
    (i: nat) => if i < |ws| then ws[i] else DbWorking(0, 0, 0)
  }

  ghost predicate ValidOrder(ws0: seq<DbWorking>, order: seq<nat>) {
    && |order| == |ws0| && (forall i :: 0 <= i < |order| ==> order[i] < |ws0|)
    && (forall i, j :: 0 <= i < j < |order| ==> order[i] != order[j])
    && (forall k :: 0 <= k < |ws0| ==> k in order)
    && var t := Map(order, RowAt(ws0)); multiset(t) == multiset(ws0) && Sorted(t, OidLess)
  }

  lemma IndicesSort(ws: seq<DbWorking>, order: seq<nat>)
    requires DistinctOids(ws) && order == SortBy(Indices(|ws|), RowLess(ws))
    ensures |order| == |ws| && multiset(order) == multiset(Indices(|ws|)) && Sorted(order, RowLess(ws))
  {
    SortIsPermutation(Indices(|ws|), RowLess(ws));
    SortSorts(Indices(|ws|), RowLess(ws));
  }

  lemma OrderSorts(ws: seq<DbWorking>, order: seq<nat>)
    requires DistinctOids(ws) && order == SortBy(Indices(|ws|), RowLess(ws))
    ensures ValidOrder(ws, order)
  {
    var idx := Indices(|ws|);
    IndicesSort(ws, order);
    forall i | 0 <= i < |order| ensures order[i] < |ws| { assert order[i] in multiset(idx); }
    forall k | 0 <= k < |ws| ensures k in order { assert idx[k] == k; assert k in multiset(idx); }
    RowsSort(ws, order);
  }

  lemma RowsSort(ws: seq<DbWorking>, order: seq<nat>)
    requires multiset(order) == multiset(Indices(|ws|)) && Sorted(order, RowLess(ws))
    ensures forall i, j :: 0 <= i < j < |order| ==> order[i] != order[j]
    ensures var t := Map(order, RowAt(ws)); multiset(t) == multiset(ws) && Sorted(t, OidLess)
  {
    MapPermutation(Indices(|ws|), order, RowAt(ws));
    assert Map(Indices(|ws|), RowAt(ws)) == ws;
    var t := Map(order, RowAt(ws));
    forall i, j | 0 <= i < j < |t| ensures OidLess(t[i], t[j]) && order[i] != order[j] {
      assert RowLess(ws)(order[i], order[j]);
    }
  }

  function Cut(w: DbWorking, floor: int): DbWorking { w.(floor := floor) }

  /** The working rows after the cuts to the first i rows in dbOid order. */
  ghost predicate Clamping(ws0: seq<DbWorking>, pool: int, order: seq<nat>, ws: seq<DbWorking>, i: nat, excess: int)
    requires |order| == |ws0| && forall k :: 0 <= k < |order| ==> order[k] < |ws0|
  {
    && |ws| == |ws0| && i <= |order|
    && excess == Max(0, Sum(ws0, FloorOf) - pool - Sum(Map(order, RowAt(ws0))[..i], FloorOf))
    && (forall k :: 0 <= k < i ==> ws[order[k]] == Cut(ws0[order[k]], HonoredFloor(ws0, pool, ws0[order[k]])))
    && (forall k :: i <= k < |order| ==> ws[order[k]] == ws0[order[k]])
  }

  /** One cut of the clamping loop. */
  lemma ClampNext(ws0: seq<DbWorking>, pool: int, order: seq<nat>, ws: seq<DbWorking>, i: nat, excess: int)
    requires FloorsFit(ws0) && ValidOrder(ws0, order) && i < |order|
    requires Clamping(ws0, pool, order, ws, i, excess) && excess > 0
    ensures var w := ws[order[i]]; var cut := Min(w.floor, excess);
      && 0 <= cut <= w.floor
      && Clamping(ws0, pool, order, ws[order[i] := Cut(w, w.floor - cut)], i + 1, excess - cut)
  {
    var t := Map(order, RowAt(ws0));
    BelowIsPrefix(ws0, t, i);
    SumSnoc(t, i, FloorOf);
    assert ws0[order[i]] in ws0;
  }

  /** Once the excess is gone no later row is cut. */
  lemma ClampDone(ws0: seq<DbWorking>, pool: int, order: seq<nat>, ws: seq<DbWorking>, i: nat, k: nat)
    requires FloorsFit(ws0) && ValidOrder(ws0, order) && i <= |order| && k < |ws0|
    requires Clamping(ws0, pool, order, ws, i, 0)
    ensures ws[k] == Cut(ws0[k], HonoredFloor(ws0, pool, ws0[k]))
  {
    assert k in order;
    var j :| 0 <= j < |order| && order[j] == k;
    if i <= j {
      var t := Map(order, RowAt(ws0));
      BelowIsPrefix(ws0, t, j);
      LaterPrefix(ws0, t, i, j);
      assert ws0[k] in ws0;
    }
  }

  lemma LaterPrefix(ws0: seq<DbWorking>, t: seq<DbWorking>, i: nat, j: nat)
    requires FloorsFit(ws0) && multiset(t) == multiset(ws0) && i <= j <= |t|
    ensures Sum(t[..i], FloorOf) <= Sum(t[..j], FloorOf)
  {
    assert t[..j] == t[..i] + t[i..j];
    SumConcat(t[..i], t[i..j], FloorOf);
    forall w | w in t[i..j] ensures FloorOf(w) >= 0 { assert w in multiset(ws0); }
    SumNonNegative(t[i..j], FloorOf);
  }

  lemma FloorsAddUp(ws: seq<DbWorking>, i: nat)
    requires FloorsFit(ws) && |ws| < 0x8000_0000 && i <= |ws|
    ensures 0 <= Sum(ws[..i], FloorOf) < 0x4000_0000_0000_0000
  {
    SumBelow(ws[..i], FloorOf, 0x8000_0000);
    assert i * 0x8000_0000 <= 0x7fff_ffff * 0x8000_0000;
  }

  method TotalFloor(working: array<DbWorking>) returns (totalFloor: int64)
    requires FloorsFit(working[..]) && working.Length < 0x8000_0000
    ensures totalFloor as int == Sum(working[..], FloorOf)
  {
    totalFloor := 0;
    ghost var ws := working[..];
    for i := 0 to working.Length
      invariant totalFloor as int == Sum(ws[..i], FloorOf)
    {
      SumSnoc(ws, i, FloorOf);
      FloorsAddUp(ws, i);
      assert ws[i] in ws;
      totalFloor := totalFloor + working[i].floor as int64;
    }
    assert ws[..working.Length] == ws;
  }

  /** The cutting loop: each row in dbOid order gives up what is still in excess. */
  method CutFloors(working: array<DbWorking>, order: seq<nat>, excess0: int64, ghost ws0: seq<DbWorking>, ghost pool: int)
    requires ws0 == working[..] && FloorsFit(ws0) && ValidOrder(ws0, order)
    requires excess0 as int == Sum(ws0, FloorOf) - pool && excess0 > 0 && pool >= 0
    modifies working
    ensures forall k :: 0 <= k < working.Length ==> working[k] == Cut(ws0[k], HonoredFloor(ws0, pool, ws0[k]))
  {
    var i, excess := 0, excess0;
    while i < working.Length && excess > 0
      invariant i <= working.Length && excess >= 0
      invariant Clamping(ws0, pool, order, working[..], i, excess as int)
    {
      ClampNext(ws0, pool, order, working[..], i, excess as int);
      var row := working[order[i]];
      var cut: int64 := if row.floor <= excess as int then row.floor as int64 else excess;
      working[order[i]] := Cut(row, row.floor - cut as int);
      excess := excess - cut;
      i := i + 1;
    }
    CutsExhaust(ws0, pool, order, working[..], i, excess as int);
    forall k | 0 <= k < working.Length ensures working[k] == Cut(ws0[k], HonoredFloor(ws0, pool, ws0[k])) {
      ClampDone(ws0, pool, order, working[..], i, k);
    }
  }

  /** The rows hold at least the excess, so the loop ends with none left. */
  lemma CutsExhaust(ws0: seq<DbWorking>, pool: int, order: seq<nat>, ws: seq<DbWorking>, i: nat, excess: int)
    requires ValidOrder(ws0, order) && i <= |order| && Clamping(ws0, pool, order, ws, i, excess)
    requires i == |order| || excess <= 0
    requires pool >= 0
    ensures excess == 0
  {
    var t := Map(order, RowAt(ws0));
    if i == |order| {
      assert t[..i] == t;
      SumPermutation(ws0, t, FloorOf);
    }
  }

  /** Cut the floors down to the pool if they sum past it; says whether they did. */
  method ClampFloorsToPool(working: array<DbWorking>, pool: int32) returns (clamped: bool)
    requires FloorsFit(working[..]) && DistinctOids(working[..]) && working.Length < 0x8000_0000 && pool >= 0
    modifies working
    ensures clamped <==> Sum(old(working[..]), FloorOf) > pool as int
    ensures forall k :: 0 <= k < working.Length ==>
      working[k] == Cut(old(working[k]), HonoredFloor(old(working[..]), pool as int, old(working[k])))
  {
    ghost var ws := working[..];
    var totalFloor := TotalFloor(working);
    if totalFloor <= pool as int64 {
      forall k | 0 <= k < working.Length ensures working[k] == Cut(ws[k], HonoredFloor(ws, pool as int, ws[k])) {
        assert ws[k] in ws;
        WithinPool(ws, pool as int, ws[k]);
      }
      return false;
    }
    FloorsAddUp(ws, |ws|);
    assert ws[..|ws|] == ws;
    var order := SortBy(Indices(working.Length), RowLess(working[..]));
    OrderSorts(ws, order);
    CutFloors(working, order, totalFloor - pool as int64, ws, pool as int);
    clamped := true;
  }

  lemma {:induction false} WithinPool(ws: seq<DbWorking>, pool: int, w: DbWorking)
    requires FloorsFit(ws) && w in ws && Sum(ws, FloorOf) <= pool
    ensures HonoredFloor(ws, pool, w) == w.floor
  {
    SumNonNegative(ws, FloorBelow(w.dbOid));
  }
}
