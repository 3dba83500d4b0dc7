/** A backend going through a whole transaction that creates and drops indexes: every
    savepoint, change and end of it calls the pending list's own entry points, down to the
    live-index counters. */
module IndexCountRuns {
  import opened Common
  import opened Seqs
  import opened PendingArray
  import opened UndoRuns
  import opened ClippedRuns
  import opened IndexCounts

  /** The backend's list is the given one, under the innermost open subtransaction. */
  ghost predicate At(p: PendingDeltas, s: Flat<Delta>, subxid: nat, next: nat)
    reads p, p.list, p.slots, p.Repr()
  {
    && p.Valid() && p.slots !in p.Repr() && p.Contents() == s.log
    && s.stack != [] && subxid == Top(s.stack) && next == s.next
  }

  /** One change to a database's index count; refused when the list is full. */
  method Change(p: PendingDeltas, d: Delta, ghost s: Flat<Delta>, subxid: nat, ghost next: nat)
    requires At(p, s, subxid, next)
    modifies p.Repr()
    ensures At(p, AdmittedItem(s, Record(d), MAX_PENDING_DELTAS).0, subxid, next) && fresh(p.Repr() - old(p.Repr()))
  {
    ExecOne(s, Record(d));
    var ok := p.Queue(d.dbOid, d.delta, subxid);
  }

  /** One end of a subtransaction. */
  method EndSubxact(p: PendingDeltas, end: End, ghost s: Flat<Delta>, mySubid: nat, parentSubid: nat, ghost next: nat)
    requires At(p, s, mySubid, next) && end != Aborts(false)
    requires |s.stack| >= 2 && parentSubid == Top(s.stack[..|s.stack| - 1])
    modifies p.Repr()
    ensures At(p, EndSub(s, end).0, parentSubid, next) && p.Repr() == old(p.Repr())
  {
    p.SubXactCallback(if end.Commits? then CommitSub else AbortSub, mySubid, parentSubid);
  }

  /** Go through the items of one (sub)transaction; the next subtransaction id to use. */
  method RunItems(p: PendingDeltas, items: seq<Item<Delta>>, ghost s: Flat<Delta>, subxid: nat, next: nat)
    returns (next': nat)
    requires At(p, s, subxid, next) && WorkerPresent(items)
    modifies p.Repr()
    ensures At(p, Admitted(s, items, MAX_PENDING_DELTAS).0, subxid, next') && fresh(p.Repr() - old(p.Repr()))
    decreases items, 0
  {
    if items == [] { return next; }
    AdmittedStep(s, items, MAX_PENDING_DELTAS);
    next' := RunItem(p, items[0], s, subxid, next);
    next' := RunItems(p, items[1..], AdmittedItem(s, items[0], MAX_PENDING_DELTAS).0, subxid, next');
  }

  method RunItem(p: PendingDeltas, item: Item<Delta>, ghost s: Flat<Delta>, subxid: nat, next: nat)
    returns (next': nat)
    requires At(p, s, subxid, next) && (item.Nested? ==> item.end != Aborts(false) && WorkerPresent(item.body))
    modifies p.Repr()
    ensures At(p, AdmittedItem(s, item, MAX_PENDING_DELTAS).0, subxid, next') && fresh(p.Repr() - old(p.Repr()))
    decreases item
  {
    match item
    case Record(d) =>
      Change(p, d, s, subxid, next);
      next' := next;
    case Nested(body, end) =>
      next' := RunNested(p, body, end, s, subxid, next);
  }

  method RunNested(p: PendingDeltas, body: seq<Item<Delta>>, end: End, ghost s: Flat<Delta>, subxid: nat, next: nat)
    returns (next': nat)
    requires At(p, s, subxid, next) && end != Aborts(false) && WorkerPresent(body)
    modifies p.Repr()
    ensures At(p, AdmittedItem(s, Nested(body, end), MAX_PENDING_DELTAS).0, subxid, next')
    ensures fresh(p.Repr() - old(p.Repr()))
    decreases body, 1
  {
    AdmittedNested(s, body, end, MAX_PENDING_DELTAS);
    ghost var s1 := Admitted(FlatStep(s, Savepoint), body, MAX_PENDING_DELTAS).0;
    next' := RunItems(p, body, FlatStep(s, Savepoint), next, next + 1);
    assert s1.stack[..|s1.stack| - 1] == s.stack;
    EndSubxact(p, end, s1, next, subxid, next');
  }

  /** A whole transaction: a commit moves every counter by exactly the changes no enclosing
      savepoint rolled back, refused ones aside; an abort moves none; and the list is gone
      afterwards. These callbacks always prune, so every rollback is one that was heard. */
  method RunTransaction(p: PendingDeltas, items: seq<Item<Delta>>, commits: bool)
    requires p.Valid() && p.list == null && p.slots !in p.Repr() && WorkerPresent(items)
    modifies p, p.slots
    ensures p.Valid() && p.list == null && p.slots.counts.Keys == old(p.slots.counts).Keys
    ensures !commits ==> p.slots.counts == old(p.slots.counts)
    ensures p.slots.kicks == old(p.slots.kicks) + |Crossed(old(p.slots.counts), p.slots.counts)|
    ensures commits ==>
      forall db :: db in p.slots.counts && db != InvalidOid ==>
        p.slots.counts[db]
        == (old(p.slots.counts)[db] + Sum(Survivors(Clip(items, 0, MAX_PENDING_DELTAS).0), DeltaFor(db))) % 0x1_0000_0000
  {
    ghost var s: Flat<Delta> := Flat([], Started.0, Started.1);
    ghost var done := Clip(items, 0, MAX_PENDING_DELTAS).0;
    var next := RunItems(p, items, s, 1, 2);
    ClipKeepsPresence(items, 0, MAX_PENDING_DELTAS);
    forall db ensures Net(p.Contents(), db) == Sum(Survivors(done), DeltaFor(db)) {
      CommitCountsSurvivors(done, db);
    }
    var refused := p.XactCallback(if commits then Commit else Abort);
  }
}
