/** Grouping undone inserts into per-index delete batches, crediting their growth back
    and collecting the indexes to consolidate and compact. */
module UndoBatch {
  import opened Common
  import opened Seqs

  const MAX_DELETE_IDS: nat := 1000

  datatype UndoEntry = UndoEntry(relid: nat, externalId: nat, growth: nat, generation: nat)

  datatype Deletion = Deletion(relid: nat, ids: seq<nat>)
  datatype Credit = Credit(relid: nat, generation: nat, bytes: nat)

  /** What the worker was asked to do, and the indexes marked for maintenance. */
  datatype Effects = Effects(
    deletes: seq<Deletion>, credits: seq<Credit>, consolidate: seq<nat>, compact: seq<nat>)

  /** The worker's answers: whether the n-th delete succeeds, and whether the n-th
      credit leaves the database over its reclaim cap. */
  datatype Replies = Replies(accepts: nat -> bool, overCap: nat -> bool)

  /* ---- what a batch is worth ---- */

  function MaxGeneration(b: seq<UndoEntry>): nat {
    if b == [] then 0 else Max(b[0].generation, MaxGeneration(b[1..]))
  }

  function AtGeneration(g: nat): UndoEntry -> int {
    (e: UndoEntry) => if e.generation == g then e.growth else 0
  }

  /** The growth measured against the newest graph the batch knows of. */
  function Growth(b: seq<UndoEntry>): int { Sum(b, AtGeneration(MaxGeneration(b))) }

  lemma {:induction false} MaxGenerationIs(b: seq<UndoEntry>)
    ensures forall e :: e in b ==> e.generation <= MaxGeneration(b)
    ensures b != [] ==> exists e :: e in b && e.generation == MaxGeneration(b)
  {
    if |b| == 1 {
      assert b[0] in b;
    } else if b != [] {
      MaxGenerationIs(b[1..]);
      var e :| e in b[1..] && e.generation == MaxGeneration(b[1..]);
      assert e in b && b[0] in b;
    }
  }

  lemma {:induction false} MaxGenerationUnique(b: seq<UndoEntry>, g: nat)
    requires (forall e :: e in b ==> e.generation <= g)
    requires if b == [] then g == 0 else exists e :: e in b && e.generation == g
    ensures MaxGeneration(b) == g
  {
    MaxGenerationIs(b);
  }

  lemma GrowthNonNegative(b: seq<UndoEntry>)
    ensures Growth(b) >= 0
  {
    SumNonNegative(b, AtGeneration(MaxGeneration(b)));
  }

  /** No growth is recorded at a generation no entry has. */
  lemma {:induction false} NoneAtGeneration(b: seq<UndoEntry>, g: nat)
    requires forall e :: e in b ==> e.generation != g
    ensures Sum(b, AtGeneration(g)) == 0
  {
    if b != [] {
      assert b[0] in b;
      NoneAtGeneration(b[1..], g);
    }
  }

  /** Feeding one more entry: a newer generation restarts the sum, the same one adds to
      it, an older one is dropped. */
  lemma {:induction false} GrowthSnoc(b: seq<UndoEntry>, e: UndoEntry)
    ensures MaxGeneration(b + [e]) == Max(MaxGeneration(b), e.generation)
    ensures Growth(b + [e]) ==
            if e.generation > MaxGeneration(b) then e.growth
            else if e.generation == MaxGeneration(b) then Growth(b) + e.growth
            else Growth(b)
  {
    var g := Max(MaxGeneration(b), e.generation);
    MaxGenerationIs(b);
    assert e in b + [e];
    if b != [] {
      var m :| m in b && m.generation == MaxGeneration(b);
      assert m in b + [e];
    }
    MaxGenerationUnique(b + [e], g);
    SumConcat(b, [e], AtGeneration(g));
    if e.generation > MaxGeneration(b) { NoneAtGeneration(b, g); }
  }

  /** The credit offered does not depend on the order the entries were fed in. */
  lemma {:induction false} GrowthOrderIndependent(a: seq<UndoEntry>, b: seq<UndoEntry>)
    requires multiset(a) == multiset(b)
    ensures MaxGeneration(a) == MaxGeneration(b) && Growth(a) == Growth(b)
  {
    forall e ensures e in a <==> e in b { assert e in multiset(a) <==> e in multiset(b); }
    MaxGenerationIs(a);
    if a == [] { assert |multiset(b)| == 0; }
    MaxGenerationUnique(b, MaxGeneration(a));
    SumPermutation(a, b, AtGeneration(MaxGeneration(a)));
  }

  /* ---- how entries are cut into batches ---- */

  predicate OneIndex(b: seq<UndoEntry>) { forall i :: 0 <= i < |b| ==> b[i].relid == b[0].relid }

  /** Every batch is non-empty, of one index and at most 1000 ids; a batch is closed only
      by a change of index or because it is full. */
  ghost predicate WellBatched(bs: seq<seq<UndoEntry>>) {
    && (forall k :: 0 <= k < |bs| ==> 0 < |bs[k]| <= MAX_DELETE_IDS && OneIndex(bs[k]))
    && (forall j, k :: 0 <= j < k < |bs| && k == j + 1 ==>
          (bs[j][0].relid != bs[k][0].relid || |bs[j]| == MAX_DELETE_IDS))
  }

  function Concat(bs: seq<seq<UndoEntry>>): seq<UndoEntry> {
    if bs == [] then [] else Concat(bs[..|bs| - 1]) + bs[|bs| - 1]
  }

  function IdOf(): UndoEntry -> nat { (e: UndoEntry) => e.externalId }

  function DeletionOf(b: seq<UndoEntry>): Deletion
    requires b != []
  {
    Deletion(b[0].relid, Map(b, IdOf()))
  }

  /* ---- what flushing them does ---- */

  function Track(relids: seq<nat>, relid: nat): seq<nat> {
    if relid == InvalidOid || relid in relids || |relids| >= MAX_INDEXES then relids else relids + [relid]
  }

  /** A credit is offered only for a delete that succeeded, and only if it is worth
      something; the index is consolidated either way. */
  function Flush(fx: Effects, b: seq<UndoEntry>, w: Replies): Effects
    requires b != []
  {
    var r := b[0].relid;
    var credited := w.accepts(|fx.deletes|) && Growth(b) > 0;
    Effects(
      fx.deletes + [DeletionOf(b)],
      if credited then fx.credits + [Credit(r, MaxGeneration(b), Growth(b))] else fx.credits,
      Track(fx.consolidate, r),
      if credited && w.overCap(|fx.credits|) then Track(fx.compact, r) else fx.compact)
  }

  function FlushAll(fx: Effects, bs: seq<seq<UndoEntry>>, w: Replies): (r: Effects)
    requires WellBatched(bs)
    ensures |r.deletes| == |fx.deletes| + |bs|
  {
    if bs == [] then fx else Flush(FlushAll(fx, bs[..|bs| - 1], w), bs[|bs| - 1], w)
  }

  lemma {:induction false} FlushSnoc(fx: Effects, bs: seq<seq<UndoEntry>>, b: seq<UndoEntry>, w: Replies)
    requires WellBatched(bs) && WellBatched(bs + [b])
    ensures b != [] && FlushAll(fx, bs + [b], w) == Flush(FlushAll(fx, bs, w), b, w)
  {
    assert (bs + [b])[..|bs|] == bs && (bs + [b])[|bs|] == b;
  }

  /** The deletes submitted are the batches, one each, in order. */
  lemma {:induction false} FlushAllDeletes(fx: Effects, bs: seq<seq<UndoEntry>>, w: Replies)
    requires WellBatched(bs)
    ensures var ds := FlushAll(fx, bs, w).deletes;
      && |ds| == |fx.deletes| + |bs| && ds[..|fx.deletes|] == fx.deletes
      && forall k :: 0 <= k < |bs| ==> ds[|fx.deletes| + k] == DeletionOf(bs[k])
  {
    if bs != [] { FlushAllDeletes(fx, bs[..|bs| - 1], w); }
  }

  function CreditedBytes(): Credit -> int { (c: Credit) => c.bytes }

  /** The bytes of the batches whose delete was confirmed, by position. */
  function Confirmed(bs: seq<seq<UndoEntry>>, w: Replies, from: nat): int {
    if bs == [] then 0
    else Confirmed(bs[..|bs| - 1], w, from) + (if w.accepts(from + |bs| - 1) then Growth(bs[|bs| - 1]) else 0)
  }

  lemma FlushCredits(fx: Effects, b: seq<UndoEntry>, w: Replies)
    requires b != []
    ensures Sum(Flush(fx, b, w).credits, CreditedBytes())
         == Sum(fx.credits, CreditedBytes()) + if w.accepts(|fx.deletes|) then Growth(b) else 0
  {
    GrowthNonNegative(b);
    SumConcat(fx.credits, [Credit(b[0].relid, MaxGeneration(b), Growth(b))], CreditedBytes());
  }

  /** Credits never exceed, nor fall short of, the growth of the confirmed batches. */
  lemma {:induction false} FlushAllCredits(fx: Effects, bs: seq<seq<UndoEntry>>, w: Replies)
    requires WellBatched(bs)
    ensures Sum(FlushAll(fx, bs, w).credits, CreditedBytes())
         == Sum(fx.credits, CreditedBytes()) + Confirmed(bs, w, |fx.deletes|)
  {
    if bs != [] {
      var n := |bs| - 1;
      FlushAllCredits(fx, bs[..n], w);
      FlushCredits(FlushAll(fx, bs[..n], w), bs[n], w);
    }
  }

  /* ---- credits across the cuts ---- */

  /** The growth an index has at one generation. */
  function GrowthFor(relid: nat, g: nat): UndoEntry -> int {
    (e: UndoEntry) => if e.relid == relid && e.generation == g then e.growth else 0
  }

  function CreditFor(relid: nat, g: nat): Credit -> int {
    (c: Credit) => if c.relid == relid && c.generation == g then c.bytes else 0
  }

  /** The entries of the batches whose delete was confirmed. */
  function ConfirmedEntries(bs: seq<seq<UndoEntry>>, w: Replies, from: nat): seq<UndoEntry> {
    if bs == [] then []
    else
      var n := |bs| - 1;
      ConfirmedEntries(bs[..n], w, from) + (if w.accepts(from + n) then bs[n] else [])
  }

  /** No entry of the index is newer than g. */
  predicate Newest(es: seq<UndoEntry>, relid: nat, g: nat) {
    forall i :: 0 <= i < |es| && es[i].relid == relid ==> es[i].generation <= g
  }

  /** A batch's credit at the index's newest generation is the batch's growth there: an
      older batch has none. */
  lemma {:induction false} BatchAtNewest(b: seq<UndoEntry>, relid: nat, g: nat)
    requires b != [] && OneIndex(b) && Newest(b, relid, g)
    ensures Sum(b, GrowthFor(relid, g)) == if b[0].relid == relid && MaxGeneration(b) == g then Growth(b) else 0
  {
    MaxGenerationIs(b);
    if b[0].relid != relid {
      SumZero(b, GrowthFor(relid, g));
    } else {
      SumEqual(b, GrowthFor(relid, g), AtGeneration(g));
      if MaxGeneration(b) != g { NoneAtGeneration(b, g); }
    }
  }

  lemma {:induction false} FlushCreditFor(fx: Effects, b: seq<UndoEntry>, w: Replies, relid: nat, g: nat)
    requires b != [] && OneIndex(b) && Newest(b, relid, g)
    ensures Sum(Flush(fx, b, w).credits, CreditFor(relid, g))
         == Sum(fx.credits, CreditFor(relid, g)) + if w.accepts(|fx.deletes|) then Sum(b, GrowthFor(relid, g)) else 0
  {
    BatchAtNewest(b, relid, g);
    GrowthNonNegative(b);
    SumConcat(fx.credits, [Credit(b[0].relid, MaxGeneration(b), Growth(b))], CreditFor(relid, g));
  }

  lemma {:induction false} ConfirmedSnoc(bs: seq<seq<UndoEntry>>, w: Replies, from: nat, f: UndoEntry -> int)
    requires bs != []
    ensures var n := |bs| - 1;
      Sum(ConfirmedEntries(bs, w, from), f)
      == Sum(ConfirmedEntries(bs[..n], w, from), f) + if w.accepts(from + n) then Sum(bs[n], f) else 0
  {
    var n := |bs| - 1;
    SumConcat(ConfirmedEntries(bs[..n], w, from), if w.accepts(from + n) then bs[n] else [], f);
  }

  /** However the entries are cut into batches, what is credited to an index at its newest
      generation is the growth of all its confirmed entries of that generation. */
  lemma {:induction false} CreditsAcrossCuts(fx: Effects, bs: seq<seq<UndoEntry>>, w: Replies, relid: nat, g: nat)
    requires WellBatched(bs) && Newest(Concat(bs), relid, g)
    ensures Sum(FlushAll(fx, bs, w).credits, CreditFor(relid, g))
         == Sum(fx.credits, CreditFor(relid, g)) + Sum(ConfirmedEntries(bs, w, |fx.deletes|), GrowthFor(relid, g))
  {
    if bs != [] {
      var n := |bs| - 1;
      NewestSplits(Concat(bs[..n]), bs[n], relid, g);
      CreditsAcrossCuts(fx, bs[..n], w, relid, g);
      FlushCreditFor(FlushAll(fx, bs[..n], w), bs[n], w, relid, g);
      ConfirmedSnoc(bs, w, |fx.deletes|, GrowthFor(relid, g));
    }
  }

  lemma NewestSplits(a: seq<UndoEntry>, b: seq<UndoEntry>, relid: nat, g: nat)
    requires Newest(a + b, relid, g)
    ensures Newest(a, relid, g) && Newest(b, relid, g)
  {
    forall i | 0 <= i < |a| && a[i].relid == relid ensures a[i].generation <= g { assert (a + b)[i] == a[i]; }
    forall i | 0 <= i < |b| && b[i].relid == relid ensures b[i].generation <= g { assert (a + b)[|a| + i] == b[i]; }
  }

  /** With every delete confirmed, that is the growth of all its entries of that generation. */
  lemma {:induction false} AllConfirmed(bs: seq<seq<UndoEntry>>, w: Replies, from: nat)
    requires forall k :: from <= k < from + |bs| ==> w.accepts(k)
    ensures ConfirmedEntries(bs, w, from) == Concat(bs)
  {
    if bs != [] { AllConfirmed(bs[..|bs| - 1], w, from); }
  }

  /* ---- the indexes marked for maintenance ---- */

  function TrackAll(relids: seq<nat>, rs: seq<nat>): seq<nat> {
    if rs == [] then relids else Track(TrackAll(relids, rs[..|rs| - 1]), rs[|rs| - 1])
  }

  function Members(rs: seq<nat>): set<nat> { set r | r in rs }

  /** The touched indexes. */
  function Touched(rs: seq<nat>): set<nat> { set r | r in rs && r != InvalidOid }

  lemma {:induction false} SetSize(s: seq<nat>)
    requires Distinct(s)
    ensures |Members(s)| == |s|
  {
    if s == [] {
      assert Members(s) == {};
    } else {
      SetSize(s[1..]);
      assert s[0] !in s[1..];
      assert Members(s) == {s[0]} + Members(s[1..]);
    }
  }

  /** The list holds each touched index once and never more than 64 of them. */
  lemma {:induction false} TrackedOnce(rs: seq<nat>)
    ensures var t := TrackAll([], rs);
      && Distinct(t) && |t| <= MAX_INDEXES && Members(t) <= Touched(rs)
      && (|t| < MAX_INDEXES ==> Members(t) == Touched(rs))
  {
    if rs != [] {
      var n := |rs| - 1;
      var t := TrackAll([], rs[..n]);
      TrackedOnce(rs[..n]);
      assert Touched(rs) == Touched(rs[..n]) + Touched([rs[n]]);
    }
  }

  /** Every touched index is in the list exactly when there are at most 64 of them. */
  lemma {:induction false} TrackedAll(rs: seq<nat>)
    ensures Members(TrackAll([], rs)) == Touched(rs) <==> |Touched(rs)| <= 64
  {
    var t := TrackAll([], rs);
    TrackedOnce(rs);
    SetSize(t);
    if |Touched(rs)| <= MAX_INDEXES && |t| == MAX_INDEXES {
      SameSize(Members(t), Touched(rs));
    }
  }

  lemma SameSize(a: set<nat>, b: set<nat>)
    requires a <= b && |b| <= |a|
    ensures a == b
  {
    assert b == a + (b - a);
  }

  /** An abort that touches more than 64 indexes leaves some of them without maintenance. */
  lemma {:induction false} TrackedMissesSome(rs: seq<nat>)
    requires Distinct(rs) && InvalidOid !in rs && |rs| > MAX_INDEXES
    ensures Members(TrackAll([], rs)) != Touched(rs)
  {
    SetSize(rs);
    assert Touched(rs) == Members(rs);
    TrackedAll(rs);
  }

  lemma TrackedMissesSixtyFifth(n: nat)
    requires n == MAX_INDEXES + 1
    ensures var rs := seq(n, i => i + 1); Members(TrackAll([], rs)) != Touched(rs)
  {
    TrackedMissesSome(seq(n, i => i + 1));
  }

  function RelidOf(bs: seq<seq<UndoEntry>>): seq<nat>
    requires WellBatched(bs)
  {
    seq(|bs|, k requires 0 <= k < |bs| => bs[k][0].relid)
  }

  lemma {:induction false} FlushAllConsolidates(fx: Effects, bs: seq<seq<UndoEntry>>, w: Replies)
    requires WellBatched(bs)
    ensures FlushAll(fx, bs, w).consolidate == TrackAll(fx.consolidate, RelidOf(bs))
  {
    if bs != [] {
      var n := |bs| - 1;
      FlushAllConsolidates(fx, bs[..n], w);
      var rs := RelidOf(bs);
      assert rs[..n] == RelidOf(bs[..n]) && rs[n] == bs[n][0].relid;
    }
  }

  /** The indexes of the credits from a position on that left the database over its cap. */
  function OverCap(credits: seq<Credit>, from: nat, w: Replies): seq<nat>
    requires from <= |credits|
    decreases |credits|
  {
    if |credits| == from then []
    else
      var n := |credits| - 1;
      OverCap(credits[..n], from, w) + if w.overCap(n) then [credits[n].relid] else []
  }

  /** The indexes to compact are those of the abort's own credits that left the database
      over its cap. */
  lemma {:induction false} FlushAllCompacts(fx: Effects, bs: seq<seq<UndoEntry>>, w: Replies)
    requires WellBatched(bs)
    ensures fx.credits <= FlushAll(fx, bs, w).credits
    ensures FlushAll(fx, bs, w).compact == TrackAll(fx.compact, OverCap(FlushAll(fx, bs, w).credits, |fx.credits|, w))
  {
    if bs != [] {
      var n := |bs| - 1;
      FlushAllCompacts(fx, bs[..n], w);
      FlushCompacts(fx, FlushAll(fx, bs[..n], w), bs[n], w);
    }
  }

  lemma {:induction false} FlushCompacts(from: Effects, fx: Effects, b: seq<UndoEntry>, w: Replies)
    requires b != [] && from.credits <= fx.credits
    requires fx.compact == TrackAll(from.compact, OverCap(fx.credits, |from.credits|, w))
    ensures var fx' := Flush(fx, b, w);
      from.credits <= fx'.credits && fx'.compact == TrackAll(from.compact, OverCap(fx'.credits, |from.credits|, w))
  {
    var fx' := Flush(fx, b, w);
    if fx'.credits != fx.credits {
      assert fx'.credits[..|fx.credits|] == fx.credits;
      var rs := OverCap(fx.credits, |from.credits|, w);
      if w.overCap(|fx.credits|) {
        assert (rs + [b[0].relid])[..|rs|] == rs;
      } else {
        assert rs + [] == rs;
      }
    }
  }

  /** No credit is for nothing, and each is for an index of the abort. */
  lemma {:induction false} CreditsArePositive(fx: Effects, bs: seq<seq<UndoEntry>>, w: Replies, j: nat)
    requires WellBatched(bs) && |fx.credits| <= j < |FlushAll(fx, bs, w).credits|
    ensures var c := FlushAll(fx, bs, w).credits[j];
      c.bytes > 0 && exists k :: 0 <= k < |bs| && bs[k][0].relid == c.relid
  {
    if bs != [] {
      var n := |bs| - 1;
      var before := FlushAll(fx, bs[..n], w);
      if j < |before.credits| {
        CreditsArePositive(fx, bs[..n], w, j);
        var k :| 0 <= k < n && bs[..n][k][0].relid == before.credits[j].relid;
        assert bs[k][0].relid == before.credits[j].relid;
      } else {
        assert bs[n][0].relid == FlushAll(fx, bs, w).credits[j].relid;
      }
    }
  }

  /* ---- the batch in the making ---- */

  /** The background worker as the undo path sees it. */
  class Worker {
    const replies: Replies
    var deletes: seq<Deletion>
    var credits: seq<Credit>
    var consolidated: seq<nat>
    var compacted: seq<nat>

    constructor (replies: Replies)
      ensures this.replies == replies
      ensures deletes == [] && credits == [] && consolidated == [] && compacted == []
    {
      this.replies := replies;
      deletes, credits, consolidated, compacted := [], [], [], [];
    }

    method Consolidate(relids: seq<nat>)
      modifies this`consolidated
      ensures consolidated == old(consolidated) + relids
    {
      for i := 0 to |relids|
        invariant consolidated == old(consolidated) + relids[..i]
      {
        consolidated := consolidated + [relids[i]];
      }
    }

    method Compact(relids: seq<nat>)
      modifies this`compacted
      ensures compacted == old(compacted) + relids
    {
      for i := 0 to |relids|
        invariant compacted == old(compacted) + relids[..i]
      {
        compacted := compacted + [relids[i]];
      }
    }

    method SubmitDelete(relid: nat, ids: seq<nat>) returns (ok: bool)
      modifies this`deletes
      ensures deletes == old(deletes) + [Deletion(relid, ids)] && ok == replies.accepts(|old(deletes)|)
    {
      ok := replies.accepts(|deletes|);
      deletes := deletes + [Deletion(relid, ids)];
    }

    method CreditAbortedInserts(relid: nat, generation: nat, bytes: nat) returns (overCap: bool)
      modifies this`credits
      ensures credits == old(credits) + [Credit(relid, generation, bytes)]
      ensures overCap == replies.overCap(|old(credits)|)
    {
      overCap := replies.overCap(|credits|);
      credits := credits + [Credit(relid, generation, bytes)];
    }
  }

  method TrackRelid(relids: seq<nat>, relid: nat) returns (r: seq<nat>)
    ensures r == Track(relids, relid)
  {
    if relid == InvalidOid { return relids; }
    for i := 0 to |relids|
      invariant relid !in relids[..i]
    {
      if relids[i] == relid { return relids; }
    }
    if |relids| < MAX_INDEXES { return relids + [relid]; }
    r := relids;
  }

  class ConsolidatingUndoBatch {
    const worker: Worker
    const batchIds: array<nat>
    var currentRelid: nat
    var batchCount: nat
    var batchGrowth: nat
    var batchGeneration: nat
    var consolidateRelids: seq<nat>
    var compactRelids: seq<nat>

    /** The batches already sent, the entries of the one in the making, and what had been
        asked of the worker before. */
    ghost var sent: seq<seq<UndoEntry>>
    ghost var pending: seq<UndoEntry>
    ghost const before: Effects

    ghost function Batches(): seq<seq<UndoEntry>>
      reads this
    {
      if pending == [] then sent else sent + [pending]
    }

    ghost function Done(): Effects
      reads this, worker
    {
      Effects(worker.deletes, worker.credits, consolidateRelids, compactRelids)
    }

    ghost predicate Accumulates()
      reads this, batchIds
    {
      && batchIds.Length == MAX_DELETE_IDS
      && batchCount == |pending| <= MAX_DELETE_IDS
      && (forall i :: 0 <= i < batchCount ==> pending[i].relid == currentRelid && batchIds[i] == pending[i].externalId)
      && batchGrowth == Growth(pending) && batchGeneration == MaxGeneration(pending)
    }

    ghost predicate Valid()
      reads this, batchIds, worker
    {
      && Accumulates()
      && (pending == [] ==> sent == [])
      && WellBatched(Batches()) && WellBatched(sent)
      && Done() == FlushAll(before, sent, worker.replies)
    }

    constructor (worker: Worker)
      ensures Valid() && this.worker == worker && Batches() == [] && fresh(batchIds)
      ensures before == Effects(worker.deletes, worker.credits, [], [])
    {
      this.worker := worker;
      batchIds := new nat[MAX_DELETE_IDS];
      currentRelid, batchCount, batchGrowth, batchGeneration := InvalidOid, 0, 0, 0;
      consolidateRelids, compactRelids := [], [];
      sent, pending := [], [];
      before := Effects(worker.deletes, worker.credits, [], []);
    }

    method FlushCurrent()
      requires Accumulates()
      modifies this`consolidateRelids, this`compactRelids, worker
      ensures worker.consolidated == old(worker.consolidated) && worker.compacted == old(worker.compacted)
      ensures Done() == if pending == [] then old(Done()) else Flush(old(Done()), pending, worker.replies)
    {
      if batchCount == 0 { return; }
      assert batchIds[..batchCount] == Map(pending, IdOf());
      var ok := worker.SubmitDelete(currentRelid, batchIds[..batchCount]);
      if ok && batchGrowth > 0 {
        var overCap := worker.CreditAbortedInserts(currentRelid, batchGeneration, batchGrowth);
        if overCap {
          compactRelids := TrackRelid(compactRelids, currentRelid);
        }
      }
      consolidateRelids := TrackRelid(consolidateRelids, currentRelid);
    }

    /** Send what is pending: the worker has then been asked for every batch so far. */
    method Settle()
      requires Valid()
      modifies this`consolidateRelids, this`compactRelids, worker
      ensures worker.consolidated == old(worker.consolidated) && worker.compacted == old(worker.compacted)
      ensures Accumulates() && WellBatched(Batches()) && Done() == FlushAll(before, Batches(), worker.replies)
    {
      if pending != [] { FlushSnoc(before, sent, pending, worker.replies); }
      FlushCurrent();
    }

    /** Start the batch the next entry opens. */
    method StartBatch(e: UndoEntry)
      requires Valid() && (e.relid != currentRelid || batchCount >= MAX_DELETE_IDS)
      modifies this, worker
      ensures worker.consolidated == old(worker.consolidated) && worker.compacted == old(worker.compacted)
      ensures Accumulates() && pending == [] && currentRelid == e.relid && sent == old(Batches())
      ensures Takes(sent, [], e) && Done() == FlushAll(before, sent, worker.replies)
    {
      Settle();
      OpenBatch(e.relid);
    }

    method OpenBatch(relid: nat)
      requires batchIds.Length == MAX_DELETE_IDS
      modifies this`currentRelid, this`batchCount, this`batchGrowth, this`batchGeneration, this`sent, this`pending
      ensures Accumulates() && pending == [] && currentRelid == relid && sent == old(Batches())
    {
      sent, pending := Batches(), [];
      currentRelid, batchCount, batchGrowth, batchGeneration := relid, 0, 0, 0;
    }

    method Accumulate(e: UndoEntry)
      requires Accumulates() && batchCount < MAX_DELETE_IDS && e.relid == currentRelid
      modifies this`batchCount, this`batchGrowth, this`batchGeneration, this`pending, batchIds
      ensures Accumulates() && pending == old(pending) + [e]
    {
      GrowthSnoc(pending, e);
      batchIds[batchCount] := e.externalId;
      batchCount := batchCount + 1;
      if e.generation > batchGeneration {
        batchGeneration := e.generation;
        batchGrowth := e.growth;
      } else if e.generation == batchGeneration {
        batchGrowth := batchGrowth + e.growth;
      }
      pending := pending + [e];
    }

    method Add(e: UndoEntry)
      requires Valid()
      modifies this, worker, batchIds
      ensures Valid() && Concat(Batches()) == Concat(old(Batches())) + [e]
      ensures worker.consolidated == old(worker.consolidated) && worker.compacted == old(worker.compacted)
    {
      if e.relid != currentRelid || batchCount >= MAX_DELETE_IDS {
        StartBatch(e);
      } else if pending != [] {
        WellBatchedSnoc(sent, pending);
      }
      Extend(e);
    }

    /** Put the entry into the open batch. */
    method Extend(e: UndoEntry)
      requires Accumulates() && e.relid == currentRelid && Takes(sent, pending, e)
      modifies this`batchCount, this`batchGrowth, this`batchGeneration, this`pending, batchIds
      ensures Accumulates() && pending != [] && WellBatched(Batches()) && WellBatched(sent)
      ensures Concat(Batches()) == Concat(old(Batches())) + [e] && Done() == old(Done())
    {
      ghost var grown := BatchGrows(sent, pending, e);
      Accumulate(e);
      assert Batches() == grown;
    }

    /** Flush what is pending, then consolidate and compact every affected index. */
    method Finish()
      requires Valid()
      modifies this, worker
      ensures Batches() == old(Batches()) && WellBatched(Batches())
      ensures var fx := FlushAll(before, Batches(), worker.replies);
        && worker.deletes == fx.deletes && worker.credits == fx.credits
        && worker.consolidated == old(worker.consolidated) + fx.consolidate
        && worker.compacted == old(worker.compacted) + fx.compact
    {
      Settle();
      worker.Consolidate(consolidateRelids);
      worker.Compact(compactRelids);
    }
  }

  /** What one abort asked of the worker, given the batches it cut: their deletes and
      credits, then one consolidation and at most one compaction per touched index. */
  twostate predicate Asked(w: Worker, bs: seq<seq<UndoEntry>>)
    reads w
  {
    WellBatched(bs) &&
    var fx := FlushAll(Effects(old(w.deletes), old(w.credits), [], []), bs, w.replies);
    && w.deletes == fx.deletes && w.credits == fx.credits
    && w.consolidated == old(w.consolidated) + fx.consolidate
    && w.compacted == old(w.compacted) + fx.compact
  }

  /** What makes one more batch well cut. */
  lemma WellBatchedSnoc(sent: seq<seq<UndoEntry>>, b: seq<UndoEntry>)
    ensures WellBatched(sent + [b]) <==>
      && WellBatched(sent) && 0 < |b| <= MAX_DELETE_IDS && OneIndex(b)
      && (sent != [] ==> (sent[|sent| - 1][0].relid != b[0].relid || |sent[|sent| - 1]| == MAX_DELETE_IDS))
  {
    var bs := sent + [b];
    assert bs[|sent|] == b && forall k :: 0 <= k < |sent| ==> bs[k] == sent[k];
    if WellBatched(bs) && sent != [] { assert bs[|sent| - 1][0].relid != b[0].relid || |bs[|sent| - 1]| == MAX_DELETE_IDS; }
  }

  lemma {:induction false} ConcatSnoc(sent: seq<seq<UndoEntry>>, b: seq<UndoEntry>)
    ensures Concat(sent + [b]) == Concat(sent) + b
  {
    assert (sent + [b])[..|sent|] == sent;
  }

  /** An entry may go into the open batch: that one has room and is of its index, and the
      last batch sent was full or of another index. */
  ghost predicate Takes(sent: seq<seq<UndoEntry>>, open: seq<UndoEntry>, e: UndoEntry) {
    && |open| < MAX_DELETE_IDS && (forall i :: 0 <= i < |open| ==> open[i].relid == e.relid)
    && WellBatched(sent)
    && (sent != [] ==> (sent[|sent| - 1][0].relid != e.relid || |sent[|sent| - 1]| == MAX_DELETE_IDS))
  }

  /** Extending the open batch appends to what was fed, and keeps the batches well cut. */
  lemma {:induction false} BatchGrows(sent: seq<seq<UndoEntry>>, open: seq<UndoEntry>, e: UndoEntry)
    returns (grown: seq<seq<UndoEntry>>)
    requires Takes(sent, open, e)
    ensures grown == sent + [open + [e]] && WellBatched(sent) && WellBatched(grown)
    ensures Concat(grown) == Concat(if open == [] then sent else sent + [open]) + [e]
  {
    grown := sent + [open + [e]];
    WellBatchedSnoc(sent, open + [e]);
    ConcatSnoc(sent, open + [e]);
    ConcatSnoc(sent, open);
  }
}
