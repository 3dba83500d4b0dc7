/** Live-index counter deltas: queued per subtransaction, folded into one net change per
    database when the transaction commits. */
module IndexCounts {
  import opened Common
  import opened Seqs
  import opened PendingArray
  import opened UndoRuns

  const WORD: nat := 0x1_0000_0000

  datatype Delta = Delta(dbOid: nat, delta: int)

  datatype Applied = Applied(dbOid: nat, net: int)

  function DeltaFor(db: nat): Delta -> int { (d: Delta) => if d.dbOid == db then d.delta else 0 }

  function LiveDeltaFor(db: nat): Tagged<Delta> -> int {
    (x: Tagged<Delta>) => if IsLive(x) && x.payload.dbOid == db then x.payload.delta else 0
  }

  /** The net change the live deltas ask for in one database. */
  function Net(s: seq<Tagged<Delta>>, db: nat): int { Sum(s, LiveDeltaFor(db)) }

  predicate Mentions(s: seq<Tagged<Delta>>, db: nat) {
    exists i :: 0 <= i < |s| && IsLive(s[i]) && s[i].payload.dbOid == db
  }

  /** A delta once those of some databases have been folded in. */
  function Marked(x: Tagged<Delta>, done: set<nat>): Tagged<Delta> {
    if IsLive(x) && x.payload.dbOid in done then Tagged(Delta(InvalidOid, x.payload.delta), x.subxid) else x
  }

  function Consumed(s: seq<Tagged<Delta>>, done: set<nat>): (r: seq<Tagged<Delta>>)
    ensures |r| == |s|
    ensures forall i :: 0 <= i < |s| ==> r[i] == Marked(s[i], done)
  {
    seq(|s|, i requires 0 <= i < |s| => Marked(s[i], done))
  }

  /** A 32-bit counter after a signed change. */
  function Bumped(count: nat, delta: int): nat { (count + delta) % WORD }

  class Slots {
    /** The live-index counter of each database that has a slot. */
    var counts: map<nat, nat>
    var kicks: nat
    /** The changes the last commit asked for, in order: one slot look-up each. */
    ghost var applied: seq<Applied>

    ghost predicate Valid()
      reads this
    {
      forall db :: db in counts ==> counts[db] < WORD
    }

    constructor (counts: map<nat, nat>)
      requires forall db :: db in counts ==> counts[db] < WORD
      ensures Valid() && this.counts == counts && kicks == 0 && applied == []
    {
      this.counts := counts;
      kicks := 0;
      applied := [];
    }

    /** Apply a net change to one database's counter, if it has a slot; the launcher is
        kicked when the counter crosses zero. */
    method ApplyDelta(dbOid: nat, delta: int)
      requires Valid()
      modifies this
      ensures Valid() && applied == old(applied) + [Applied(dbOid, delta)]
      ensures counts == if dbOid in old(counts) then old(counts)[dbOid := Bumped(old(counts)[dbOid], delta)]
                        else old(counts)
      ensures kicks == old(kicks) + if dbOid in old(counts) && (old(counts)[dbOid] == 0) != (counts[dbOid] == 0) then 1 else 0
    {
      applied := applied + [Applied(dbOid, delta)];
      if delta == 0 {
        assert dbOid in counts ==> Bumped(counts[dbOid], 0) == counts[dbOid];
        return;
      }
      if dbOid in counts {
        var before := counts[dbOid];
        var after;
        if delta > 0 {
          after := (before + delta % WORD) % WORD;
        } else {
          after := (before - (-delta) % WORD) % WORD;
        }
        WrapsAround(before, delta);
        counts := counts[dbOid := after];
        if (before == 0) != (after == 0) { kicks := kicks + 1; }
      }
    }
  }

  lemma WrapsAround(before: nat, delta: int)
    ensures (before + delta % WORD) % WORD == Bumped(before, delta)
    ensures (before - (-delta) % WORD) % WORD == Bumped(before, delta)
  {
    SameRemainder(before + delta % WORD, before + delta, -(delta / WORD));
    SameRemainder(before - (-delta) % WORD, before + delta, (-delta) / WORD);
  }

  lemma SameRemainder(x: int, y: int, k: int)
    requires x == y + k * WORD
    ensures x % WORD == y % WORD
  {}

  /* ---- one database's deltas ---- */

  lemma ConsumedOnce(s: seq<Tagged<Delta>>, done: set<nat>, db: nat)
    requires db !in done
    ensures Consumed(s, done + {db}) == Consumed(Consumed(s, done), {db})
  {}

  lemma {:induction false} NetOfConsumed(s: seq<Tagged<Delta>>, done: set<nat>, db: nat)
    requires db !in done && db != InvalidOid
    ensures Net(Consumed(s, done), db) == Net(s, db)
  {
    if s != [] {
      NetOfConsumed(s[1..], done, db);
      assert Consumed(s, done)[1..] == Consumed(s[1..], done);
    }
  }

  predicate Unmentioned(s: seq<Tagged<Delta>>, i: nat, db: nat) {
    i <= |s| && forall k :: 0 <= k < i ==> !(IsLive(s[k]) && s[k].payload.dbOid == db)
  }

  lemma {:induction false} NetOfUnmentioned(s: seq<Tagged<Delta>>, db: nat)
    requires Unmentioned(s, |s|, db)
    ensures Net(s, db) == 0
  {
    if s != [] { NetOfUnmentioned(s[1..], db); }
  }

  lemma NetStep(s: seq<Tagged<Delta>>, j: nat, db: nat)
    requires j < |s|
    ensures Net(s[..j + 1], db) == Net(s[..j], db) + LiveDeltaFor(db)(s[j])
  {
    SumSnoc(s, j, LiveDeltaFor(db));
  }

  /** Fold every live delta of the database at position i, from there on, into one net
      value, and mark them consumed. */
  method Fold(list: Buffer<Delta>, i: nat, dbOid: nat) returns (net: int)
    requires list.Valid() && i < list.count && dbOid != InvalidOid
    requires Unmentioned(list.Contents(), i, dbOid)
    modifies list.entries
    ensures net == Net(old(list.Contents()), dbOid)
    ensures list.Contents() == Consumed(old(list.Contents()), {dbOid})
  {
    net := 0;
    ghost var s := list.Contents();
    NetOfUnmentioned(s[..i], dbOid);
    for j := i to list.count
      invariant net == Net(s[..j], dbOid)
      invariant forall k :: 0 <= k < j ==> list.entries[k] == Marked(s[k], {dbOid})
      invariant forall k :: j <= k < list.count ==> list.entries[k] == s[k]
    {
      NetStep(s, j, dbOid);
      if list.entries[j].payload.dbOid == dbOid && list.entries[j].subxid != Discarded {
        net := net + list.entries[j].payload.delta;
        list.entries[j] := Tagged(Delta(InvalidOid, list.entries[j].payload.delta), list.entries[j].subxid);
      }
    }
    assert s[..list.count] == s;
  }

  /* ---- the commit-time fold ---- */

  function Databases(a: seq<Applied>): set<nat> { set x | x in a :: x.dbOid }

  /** The counters after some databases have had their net change. */
  ghost predicate Settled(counts: map<nat, nat>, now: map<nat, nat>, s: seq<Tagged<Delta>>, done: set<nat>) {
    && now.Keys == counts.Keys
    && forall db :: db in counts ==> now[db] == if db in done then Bumped(counts[db], Net(s, db)) else counts[db]
  }

  /** One entry per database, each with the whole net change of that database. */
  ghost predicate EachOnce(a: seq<Applied>, s: seq<Tagged<Delta>>, done: set<nat>) {
    && Databases(a) == done
    && (forall i :: 0 <= i < |a| ==> a[i].net == Net(s, a[i].dbOid))
    && (forall i, j :: 0 <= i < j < |a| ==> a[i].dbOid != a[j].dbOid)
  }

  predicate Crosses(counts: map<nat, nat>, x: Applied) {
    x.dbOid in counts && (counts[x.dbOid] == 0) != (Bumped(counts[x.dbOid], x.net) == 0)
  }

  /** How many of the changes take a counter from zero or to it. */
  function Crossings(counts: map<nat, nat>, a: seq<Applied>): nat {
    if a == [] then 0 else Crossings(counts, a[..|a| - 1]) + if Crosses(counts, a[|a| - 1]) then 1 else 0
  }

  lemma {:induction false} CrossingsSnoc(counts: map<nat, nat>, a: seq<Applied>, x: Applied)
    ensures Crossings(counts, a + [x]) == Crossings(counts, a) + if Crosses(counts, x) then 1 else 0
  {
    assert (a + [x])[..|a|] == a;
  }

  /** The databases whose count left zero or came to it. */
  ghost function Crossed(before: map<nat, nat>, after: map<nat, nat>): set<nat> {
    set db | db in before && db in after && (before[db] == 0) != (after[db] == 0)
  }

  ghost function CrossedBy(counts: map<nat, nat>, a: seq<Applied>): set<nat> {
    set x | x in a && Crosses(counts, x) :: x.dbOid
  }

  lemma CrossedByLast(counts: map<nat, nat>, a: seq<Applied>, x: Applied)
    requires forall y :: y in a ==> y.dbOid != x.dbOid
    ensures CrossedBy(counts, a + [x]) == CrossedBy(counts, a) + if Crosses(counts, x) then {x.dbOid} else {}
    ensures x.dbOid !in CrossedBy(counts, a)
  {
    assert forall y :: y in a + [x] <==> y in a || y == x;
  }

  lemma {:induction false} CrossingsCounted(counts: map<nat, nat>, a: seq<Applied>)
    requires forall i, j :: 0 <= i < j < |a| ==> a[i].dbOid != a[j].dbOid
    ensures Crossings(counts, a) == |CrossedBy(counts, a)|
  {
    if a != [] {
      var n := |a| - 1;
      CrossingsCounted(counts, a[..n]);
      assert a[..n] + [a[n]] == a;
      CrossedByLast(counts, a[..n], a[n]);
    }
  }

  /** The changes made kick once for each database whose count left zero or came to it. */
  lemma {:induction false} KicksAreCrossings(counts: map<nat, nat>, now: map<nat, nat>, a: seq<Applied>,
                                            s: seq<Tagged<Delta>>, done: set<nat>)
    requires EachOnce(a, s, done) && Settled(counts, now, s, done)
    ensures Crossings(counts, a) == |Crossed(counts, now)|
  {
    CrossingsCounted(counts, a);
    forall db | db in Crossed(counts, now) ensures db in CrossedBy(counts, a) {
      assert db in Databases(a);
      var x :| x in a && x.dbOid == db;
      assert Crosses(counts, x);
    }
    assert CrossedBy(counts, a) == Crossed(counts, now);
  }

  /** The databases folded by the time the scan reaches position i. */
  ghost predicate Reached(s: seq<Tagged<Delta>>, i: nat, done: set<nat>) {
    && InvalidOid !in done && i <= |s|
    && (forall k :: 0 <= k < i && IsLive(s[k]) && s[k].payload.dbOid != InvalidOid ==> s[k].payload.dbOid in done)
    && (forall db :: db in done ==> Mentions(s, db))
  }

  lemma NotYetReached(s: seq<Tagged<Delta>>, i: nat, done: set<nat>, db: nat)
    requires Reached(s, i, done) && db !in done && db != InvalidOid
    ensures Unmentioned(Consumed(s, done), i, db)
  {}

  lemma EachOnceGrows(a: seq<Applied>, s: seq<Tagged<Delta>>, done: set<nat>, db: nat)
    requires EachOnce(a, s, done) && db !in done
    ensures EachOnce(a + [Applied(db, Net(s, db))], s, done + {db})
  {
    var x := Applied(db, Net(s, db));
    assert forall i :: 0 <= i < |a| ==> a[i] in a && a[i].dbOid in Databases(a);
    assert Databases(a + [x]) == Databases(a) + {db} by {
      forall y | y in a + [x] ensures y.dbOid in Databases(a) + {db} {}
      forall d | d in Databases(a) + {db} ensures d in Databases(a + [x]) {
        if d == db {
          assert x in a + [x];
        } else {
          var y :| y in a && y.dbOid == d;
          assert y in a + [x];
        }
      }
    }
  }

  /** Apply the deltas of one database not yet folded. */
  method ApplyNext(list: Buffer<Delta>, slots: Slots, i: nat, ghost s: seq<Tagged<Delta>>,
                   ghost counts: map<nat, nat>, ghost done: set<nat>)
    requires list.Valid() && slots.Valid() && i < list.count && list.count == |s|
    requires Reached(s, i, done) && list.Contents() == Consumed(s, done)
    requires IsLive(list.entries[i]) && list.entries[i].payload.dbOid != InvalidOid
    requires Settled(counts, slots.counts, s, done) && EachOnce(slots.applied, s, done)
    modifies list.entries, slots
    ensures slots.Valid()
    ensures var db := old(list.entries[i].payload.dbOid);
      && Reached(s, i + 1, done + {db}) && list.Contents() == Consumed(s, done + {db})
      && Settled(counts, slots.counts, s, done + {db}) && EachOnce(slots.applied, s, done + {db})
    ensures slots.kicks - Crossings(counts, slots.applied) == old(slots.kicks - Crossings(counts, slots.applied))
  {
    var dbOid := list.entries[i].payload.dbOid;
    ghost var was := list.Contents();
    assert was[i] == s[i] && s[i].payload.dbOid == dbOid && dbOid !in done;
    assert Mentions(s, dbOid);
    EachOnceGrows(slots.applied, s, done, dbOid);
    CrossingsSnoc(counts, slots.applied, Applied(dbOid, Net(s, dbOid)));
    ConsumedOnce(s, done, dbOid);
    NotYetReached(s, i, done, dbOid);
    NetOfConsumed(s, done, dbOid);
    var net := Fold(list, i, dbOid);
    slots.ApplyDelta(dbOid, net);
  }

  /** Every live delta is folded exactly once into its database's net change, and every
      database's slot is looked up at most once. */
  method ApplyPending(list: Buffer<Delta>, slots: Slots)
    requires list.Valid() && slots.Valid()
    modifies list.entries, slots
    ensures slots.Valid()
    ensures var s := old(list.Contents());
      && slots.counts.Keys == old(slots.counts).Keys
      && (forall db :: db in slots.counts && db != InvalidOid ==>
            slots.counts[db] == Bumped(old(slots.counts)[db], Net(s, db)))
      && (forall db :: db in slots.counts && db == InvalidOid ==> slots.counts[db] == old(slots.counts)[db])
      && (forall i, j :: 0 <= i < j < |slots.applied| ==> slots.applied[i].dbOid != slots.applied[j].dbOid)
      && (forall i :: 0 <= i < |slots.applied| ==>
            slots.applied[i].net == Net(s, slots.applied[i].dbOid) && Mentions(s, slots.applied[i].dbOid))
      && slots.kicks == old(slots.kicks) + |Crossed(old(slots.counts), slots.counts)|
  {
    ghost var s, counts, done := list.Contents(), slots.counts, {};
    slots.applied := [];
    for i := 0 to list.count
      invariant slots.Valid() && Reached(s, i, done) && list.Contents() == Consumed(s, done)
      invariant Settled(counts, slots.counts, s, done) && EachOnce(slots.applied, s, done)
      invariant slots.kicks == old(slots.kicks) + Crossings(counts, slots.applied)
    {
      if list.entries[i].payload.dbOid != InvalidOid && list.entries[i].subxid != Discarded {
        ghost var db := list.entries[i].payload.dbOid;
        ApplyNext(list, slots, i, s, counts, done);
        done := done + {db};
      } else {
        assert Consumed(s, done)[i] == list.entries[i];
      }
    }
    AllSettled(counts, slots.counts, s, done);
    KicksAreCrossings(counts, slots.counts, slots.applied, s, done);
    forall i | 0 <= i < |slots.applied| ensures Mentions(s, slots.applied[i].dbOid) {
      assert slots.applied[i] in slots.applied;
      assert slots.applied[i].dbOid in Databases(slots.applied);
    }
  }

  lemma AllSettled(counts: map<nat, nat>, now: map<nat, nat>, s: seq<Tagged<Delta>>, done: set<nat>)
    requires Reached(s, |s|, done) && Settled(counts, now, s, done)
    requires forall db :: db in counts ==> counts[db] < WORD
    ensures forall db :: db in counts && db != InvalidOid ==> now[db] == Bumped(counts[db], Net(s, db))
  {
    forall db | db in counts && db != InvalidOid ensures now[db] == Bumped(counts[db], Net(s, db)) {
      if db !in done { NetOfUnmentioned(s, db); }
    }
  }

  /* ---- what a whole transaction leaves in the counter ---- */

  lemma {:induction false} NetIsSelected(s: seq<Tagged<Delta>>, id: nat, db: nat)
    requires id != Discarded
    ensures Net(s, db) == Sum(Selected(s, id), DeltaFor(db)) + Sum(Others(s, id), DeltaFor(db))
  {
    if s != [] {
      NetIsSelected(s[1..], id, db);
      SumConcat(if s[0].subxid == id then [s[0].payload] else [], Selected(s[1..], id), DeltaFor(db));
      SumConcat(if s[0].subxid != id && IsLive(s[0]) then [s[0].payload] else [], Others(s[1..], id), DeltaFor(db));
    }
  }

  lemma {:induction false} NothingStuck<T>(items: seq<Item<T>>)
    requires WorkerPresent(items)
    ensures Stuck(items) == []
    decreases items
  {
    if items != [] {
      NothingStuck(items[1..]);
      if items[0].Nested? { NothingStuck(items[0].body); }
    }
  }

  /** At commit the fold counts exactly the index changes that no enclosing savepoint
      rolled back, whatever the nesting. These callbacks always prune, so every rollback
      is one that was heard. */
  lemma {:induction false} CommitCountsSurvivors(items: seq<Item<Delta>>, db: nat)
    requires WorkerPresent(items)
    ensures Net(Exec(Flat([], Started.0, Started.1), items).0.log, db) == Sum(Survivors(items), DeltaFor(db))
  {
    var s: Flat<Delta> := Flat([], Started.0, Started.1);
    var ext := ExecAppends(s, items);
    assert Exec(s, items).0.log == ext;
    NothingStuck(items);
    NetIsSelected(ext, Top(s.stack), db);
    assert |multiset(Others(ext, Top(s.stack)))| == 0;
  }

  /* ---- the per-backend list ---- */

  /** The list starts with room for 16 and doubles; at this size it may not double again. */
  const MAX_PENDING_DELTAS: nat := 0x4000_0000

  predicate IsCapacity(n: nat) {
    || n == 0x10 || n == 0x20 || n == 0x40 || n == 0x80 || n == 0x100 || n == 0x200 || n == 0x400 || n == 0x800
    || n == 0x1000 || n == 0x2000 || n == 0x4000 || n == 0x8000 || n == 0x1_0000 || n == 0x2_0000 || n == 0x4_0000
    || n == 0x8_0000 || n == 0x10_0000 || n == 0x20_0000 || n == 0x40_0000 || n == 0x80_0000 || n == 0x100_0000
    || n == 0x200_0000 || n == 0x400_0000 || n == 0x800_0000 || n == 0x1000_0000 || n == 0x2000_0000
    || n == MAX_PENDING_DELTAS
  }

  lemma CapacityDoubles(n: nat)
    requires IsCapacity(n)
    ensures n <= MAX_PENDING_DELTAS && (n > INT_MAX / 2 <==> n == MAX_PENDING_DELTAS)
    ensures n < MAX_PENDING_DELTAS ==> IsCapacity(2 * n)
  {}

  class PendingDeltas {
    const slots: Slots
    var list: Buffer?<Delta>

    ghost function Repr(): set<object>
      reads this, list
    {
      if list == null then {this}
      else
        var held: Buffer<Delta> := list;
        {this, held, held.entries}
    }

    ghost predicate Valid()
      reads this, list, slots
    {
      slots.Valid() && (list != null ==> list.Valid() && IsCapacity(list.entries.Length))
    }

    ghost function Contents(): seq<Tagged<Delta>>
      requires Valid()
      reads this, list, slots, Repr()
    {
      if list == null then [] else list.Contents()
    }

    constructor (slots: Slots)
      requires slots.Valid()
      ensures Valid() && this.slots == slots && list == null
    {
      this.slots := slots;
      list := null;
    }

    /** Queue one change for commit time; false is the pending array's capacity error, which
        comes exactly when 2^30 changes are queued already. */
    method Queue(dbOid: nat, delta: int, subxid: nat) returns (ok: bool)
      requires Valid() && slots !in Repr()
      modifies Repr()
      ensures Valid() && fresh(Repr() - old(Repr()))
      ensures Contents() == old(Contents()) + if ok then [Tagged(Delta(dbOid, delta), subxid)] else []
      ensures ok <==> |old(Contents())| < MAX_PENDING_DELTAS
    {
      if list == null { list := new Buffer(16); }
      CapacityDoubles(list.entries.Length);
      ok := list.Append(Delta(dbOid, delta), subxid);
    }

    method SubXactCallback(event: SubXactEvent, mySubid: nat, parentSubid: nat)
      requires Valid() && slots !in Repr()
      modifies Repr()
      ensures Valid() && Repr() == old(Repr())
      ensures Contents() == if event.AbortSub? then Retag(old(Contents()), mySubid, Discarded)
                            else if event.CommitSub? then Retag(old(Contents()), mySubid, parentSubid)
                            else old(Contents())
    {
      if list == null { return; }
      if event.AbortSub? {
        list.Prune(mySubid);
      } else if event.CommitSub? {
        list.Reparent(mySubid, parentSubid);
      }
    }

    /** Only a commit moves the counters, and by exactly the live net changes. */
    method XactCallback(event: XactEvent) returns (refused: bool)
      requires Valid() && slots !in Repr()
      modifies Repr(), slots
      ensures Valid() && (refused <==> event.PrePrepare? && Live(old(Contents())) != [])
      ensures event.Commit? || event.ParallelCommit? ==>
                (slots.counts.Keys == old(slots.counts).Keys &&
                 forall db :: db in slots.counts && db != InvalidOid ==>
                   slots.counts[db] == Bumped(old(slots.counts)[db], Net(old(Contents()), db)))
      ensures !event.Commit? && !event.ParallelCommit? ==> slots.counts == old(slots.counts)
      ensures slots.kicks == old(slots.kicks) + |Crossed(old(slots.counts), slots.counts)|
      ensures if event.PrePrepare? || event.OtherEvent? then Contents() == old(Contents()) else list == null
    {
      refused := false;
      match event
      case Commit => Drain();
      case ParallelCommit => Drain();
      case Abort => list := null;
      case ParallelAbort => list := null;
      case PrePrepare =>
        if list != null {
          refused := list.HasLiveEntries();
        }
      case Prepare => list := null;
      case OtherEvent =>
    }

    method Drain()
      requires Valid() && slots !in Repr()
      modifies Repr(), slots
      ensures Valid() && list == null && slots.counts.Keys == old(slots.counts).Keys
      ensures slots.kicks == old(slots.kicks) + |Crossed(old(slots.counts), slots.counts)|
      ensures forall db :: db in slots.counts && db != InvalidOid ==>
                slots.counts[db] == Bumped(old(slots.counts)[db], Net(old(Contents()), db))
    {
      if list != null {
        ApplyPending(list, slots);
      } else {
        assert Crossed(slots.counts, slots.counts) == {};
      }
      list := null;
    }
  }
}
