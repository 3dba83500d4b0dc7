/** A backend going through a whole transaction: every savepoint, insert and end of it
    calls the undo log's own entry points, down to the deletes the worker receives. */
module UndoTransactions {
  import opened Seqs
  import opened PendingArray
  import opened UndoBatch
  import opened UndoRuns
  import opened ClippedRuns
  import opened UndoLog

  /* ---- what the worker has been asked to delete ---- */

  function PairOf(): UndoEntry -> (nat, nat) { (e: UndoEntry) => (e.relid, e.externalId) }

  function IdsOf(d: Deletion): seq<(nat, nat)> { seq(|d.ids|, i requires 0 <= i < |d.ids| => (d.relid, d.ids[i])) }

  /** Every (index, id) submitted for deletion, in order. */
  function Submissions(ds: seq<Deletion>): seq<(nat, nat)> {
    if ds == [] then [] else Submissions(ds[..|ds| - 1]) + IdsOf(ds[|ds| - 1])
  }

  lemma BatchIds(b: seq<UndoEntry>)
    requires b != [] && OneIndex(b)
    ensures IdsOf(DeletionOf(b)) == Map(b, PairOf())
  {}

  lemma MapConcat<T, U>(a: seq<T>, b: seq<T>, f: T -> U)
    ensures Map(a + b, f) == Map(a, f) + Map(b, f)
  {}

  /** The batches of one abort carry exactly the entries fed to it. */
  lemma {:induction false} FlushSubmits(fx: Effects, bs: seq<seq<UndoEntry>>, w: Replies)
    requires WellBatched(bs)
    ensures Submissions(FlushAll(fx, bs, w).deletes) == Submissions(fx.deletes) + Map(Concat(bs), PairOf())
  {
    if bs != [] {
      var n := |bs| - 1;
      FlushSubmits(fx, bs[..n], w);
      OneMore(FlushAll(fx, bs[..n], w).deletes, Submissions(fx.deletes), Concat(bs[..n]), bs[n]);
    }
  }

  lemma {:induction false} OneMore(ds: seq<Deletion>, sent: seq<(nat, nat)>, fed: seq<UndoEntry>, b: seq<UndoEntry>)
    requires b != [] && OneIndex(b) && Submissions(ds) == sent + Map(fed, PairOf())
    ensures Submissions(ds + [DeletionOf(b)]) == sent + Map(fed + b, PairOf())
  {
    BatchIds(b);
    MapConcat(fed, b, PairOf());
    assert (ds + [DeletionOf(b)])[..|ds|] == ds;
    assert (sent + Map(fed, PairOf())) + Map(b, PairOf()) == sent + (Map(fed, PairOf()) + Map(b, PairOf()));
  }

  /* ---- a transaction ---- */

  /** The compiled-in ceiling of the undo limit. */
  const MAX_UNDO_ENTRIES: nat := 16777216

  /** The backend's log is the given one, under the innermost open subtransaction. */
  ghost predicate At(u: UndoState, s: Flat<UndoEntry>, subxid: nat, next: nat)
    reads u, u.log, u.Repr()
  {
    && u.Valid() && u.worker !in u.Repr() && u.Contents() == s.log
    && s.stack != [] && subxid == Top(s.stack) && next == s.next
  }

  ghost predicate Sent(u: UndoState, sent: seq<(nat, nat)>)
    reads u.worker
  {
    Submissions(u.worker.deletes) == sent
  }

  lemma SentTwice(sent: seq<(nat, nat)>, a: seq<UndoEntry>, b: seq<UndoEntry>)
    ensures (sent + Map(a, PairOf())) + Map(b, PairOf()) == sent + Map(a + b, PairOf())
  {
    MapConcat(a, b, PairOf());
  }

  /** One insert: reserve, apply, record; refused, with nothing changed, when the log is full. */
  method Insert(u: UndoState, e: UndoEntry, ghost s: Flat<UndoEntry>, subxid: nat, ghost next: nat, maxEntries: nat)
    returns (ok: bool)
    requires At(u, s, subxid, next) && maxEntries <= MAX_UNDO_ENTRIES
    modifies u.Repr()
    ensures ok <==> |s.log| < maxEntries
    ensures At(u, if ok then FlatStep(s, Append(e)) else s, subxid, next) && fresh(u.Repr() - old(u.Repr()))
  {
    ok := u.Reserve(maxEntries);
    if ok {
      u.Append(e, subxid);
    }
  }

  /** One end of a subtransaction. */
  method EndSubxact(u: UndoState, end: End, ghost s: Flat<UndoEntry>, mySubid: nat, parentSubid: nat,
                    ghost next: nat, ghost sent: seq<(nat, nat)>)
    returns (ghost out: seq<UndoEntry>)
    requires At(u, s, mySubid, next) && Sent(u, sent)
    requires |s.stack| >= 2 && parentSubid == Top(s.stack[..|s.stack| - 1])
    modifies u.Repr(), u.worker
    ensures At(u, EndSub(s, end).0, parentSubid, next) && u.Repr() == old(u.Repr())
    ensures out == EndSub(s, end).1 && Sent(u, sent + Map(out, PairOf()))
  {
    ghost var before := Effects(u.worker.deletes, u.worker.credits, [], []);
    var event := if end.Commits? then CommitSub else AbortSub;
    ghost var bs := u.SubXactCallback(event, mySubid, parentSubid, end == Aborts(true));
    out := Concat(bs);
    FlushSubmits(before, bs, u.worker.replies);
  }

  /** Go through the items of one (sub)transaction; the next subtransaction id to use. */
  method RunItems(u: UndoState, items: seq<Item<UndoEntry>>, maxEntries: nat, ghost s: Flat<UndoEntry>,
                  subxid: nat, next: nat, ghost sent: seq<(nat, nat)>)
    returns (next': nat, ghost out: seq<UndoEntry>)
    requires At(u, s, subxid, next) && Sent(u, sent) && maxEntries <= MAX_UNDO_ENTRIES
    modifies u.Repr(), u.worker
    ensures At(u, Admitted(s, items, maxEntries).0, subxid, next') && fresh(u.Repr() - old(u.Repr()))
    ensures out == Admitted(s, items, maxEntries).1 && Sent(u, sent + Map(out, PairOf()))
    decreases items, 0
  {
    if items == [] {
      assert sent + Map([], PairOf()) == sent;
      return next, [];
    }
    AdmittedStep(s, items, maxEntries);
    ghost var first, rest;
    next', first := RunItem(u, items[0], maxEntries, s, subxid, next, sent);
    next', rest := RunItems(u, items[1..], maxEntries, AdmittedItem(s, items[0], maxEntries).0, subxid, next',
                            sent + Map(first, PairOf()));
    SentTwice(sent, first, rest);
    out := first + rest;
  }

  method RunItem(u: UndoState, item: Item<UndoEntry>, maxEntries: nat, ghost s: Flat<UndoEntry>,
                 subxid: nat, next: nat, ghost sent: seq<(nat, nat)>)
    returns (next': nat, ghost out: seq<UndoEntry>)
    requires At(u, s, subxid, next) && Sent(u, sent) && maxEntries <= MAX_UNDO_ENTRIES
    modifies u.Repr(), u.worker
    ensures At(u, AdmittedItem(s, item, maxEntries).0, subxid, next') && fresh(u.Repr() - old(u.Repr()))
    ensures out == AdmittedItem(s, item, maxEntries).1 && Sent(u, sent + Map(out, PairOf()))
    decreases item
  {
    match item
    case Record(e) =>
      assert sent + Map([], PairOf()) == sent;
      ExecOne(s, item);
      var ok := Insert(u, e, s, subxid, next, maxEntries);
      next', out := next, [];
    case Nested(body, end) =>
      next', out := RunNested(u, body, end, maxEntries, s, subxid, next, sent);
  }

  method RunNested(u: UndoState, body: seq<Item<UndoEntry>>, end: End, maxEntries: nat, ghost s: Flat<UndoEntry>,
                   subxid: nat, next: nat, ghost sent: seq<(nat, nat)>)
    returns (next': nat, ghost out: seq<UndoEntry>)
    requires At(u, s, subxid, next) && Sent(u, sent) && maxEntries <= MAX_UNDO_ENTRIES
    modifies u.Repr(), u.worker
    ensures At(u, AdmittedItem(s, Nested(body, end), maxEntries).0, subxid, next') && fresh(u.Repr() - old(u.Repr()))
    ensures out == AdmittedItem(s, Nested(body, end), maxEntries).1 && Sent(u, sent + Map(out, PairOf()))
    decreases body, 1
  {
    AdmittedNested(s, body, end, maxEntries);
    ghost var inner, last;
    ghost var s1 := Admitted(FlatStep(s, Savepoint), body, maxEntries).0;
    next', inner := RunItems(u, body, maxEntries, FlatStep(s, Savepoint), next, next + 1, sent);
    assert s1.stack[..|s1.stack| - 1] == s.stack;
    last := EndSubxact(u, end, s1, next, subxid, next', sent + Map(inner, PairOf()));
    SentTwice(sent, inner, last);
    out := inner + last;
  }

  /** The end of the transaction. */
  method EndTransaction(u: UndoState, end: End) returns (ghost out: seq<UndoEntry>)
    requires u.Valid() && u.worker !in u.Repr()
    modifies u.Repr(), u.worker
    ensures u.Valid() && u.log == null
    ensures multiset(out) == multiset(EndTop(old(u.Contents()), end))
    ensures Submissions(u.worker.deletes) == old(Submissions(u.worker.deletes)) + Map(out, PairOf())
  {
    ghost var before := Effects(u.worker.deletes, u.worker.credits, [], []);
    var event := if end.Commits? then Commit else Abort;
    ghost var bs;
    var refused;
    refused, bs := u.XactCallback(event, end == Aborts(true));
    out := Concat(bs);
    FlushSubmits(before, bs, u.worker.replies);
  }

  lemma {:induction false} UndoneMapped(items: seq<Item<UndoEntry>>, end: End, out: seq<UndoEntry>, last: seq<UndoEntry>)
    requires var (s, prompt) := Exec(Flat([], Started.0, Started.1), items);
      out == prompt && multiset(last) == multiset(EndTop(s.log, end))
    ensures var atEnd := end == Aborts(true);
      multiset(Map(out + last, PairOf())) == multiset(Map(Undone(items, atEnd, atEnd), PairOf()))
  {
    UndoIsExact(items, end);
    MapPermutation(out + last, Undone(items, end == Aborts(true), end == Aborts(true)), PairOf());
  }

  /** A whole transaction: the worker is asked to delete, with multiplicity, exactly the
      ids the tree of savepoints says are undone, refused inserts aside, and the log is gone
      afterwards. */
  method RunTransaction(u: UndoState, items: seq<Item<UndoEntry>>, end: End, maxEntries: nat)
    requires u.Valid() && u.log == null && u.worker !in u.Repr() && maxEntries <= MAX_UNDO_ENTRIES
    modifies u, u.worker
    ensures u.Valid() && u.log == null
    ensures var last, done := end == Aborts(true), Clip(items, 0, maxEntries).0;
      multiset(Submissions(u.worker.deletes))
      == multiset(old(Submissions(u.worker.deletes))) + multiset(Map(Undone(done, last, last), PairOf()))
  {
    ghost var s: Flat<UndoEntry> := Flat([], Started.0, Started.1);
    ghost var out;
    var next;
    ghost var sent := Submissions(u.worker.deletes);
    next, out := RunItems(u, items, maxEntries, s, 1, 2, sent);
    ghost var last := EndTransaction(u, end);
    SentTwice(sent, out, last);
    UndoneMapped(Clip(items, 0, maxEntries).0, end, out, last);
  }
}
