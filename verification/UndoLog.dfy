/** The backend's undo log: reservation, append, and the transaction callbacks that feed
    its entries to the consolidating batch. */
module UndoLog {
  import opened Seqs
  import opened PendingArray
  import opened UndoBatch
  import opened UndoRuns

  const INITIAL_CAPACITY: nat := 16

  function ByRelid(): (Tagged<UndoEntry>, Tagged<UndoEntry>) -> bool {
    (a: Tagged<UndoEntry>, b: Tagged<UndoEntry>) => a.payload.relid <= b.payload.relid
  }

  predicate InRelidOrder(es: seq<UndoEntry>) {
    forall i, j :: 0 <= i < j < |es| ==> es[i].relid <= es[j].relid
  }

  lemma {:induction false} SortsByRelid(s: seq<Tagged<UndoEntry>>)
    ensures Sorted(SortBy(s, ByRelid()), ByRelid())
    ensures multiset(SortBy(s, ByRelid())) == multiset(s) && |SortBy(s, ByRelid())| == |s|
  {
    SortSorts(s, ByRelid());
    SortIsPermutation(s, ByRelid());
  }

  /** What is left of a sorted log after skipping discarded entries is sorted. */
  lemma {:induction false} LiveInOrder(s: seq<Tagged<UndoEntry>>)
    requires Sorted(s, ByRelid())
    ensures InRelidOrder(Map(Live(s), PayloadOf()))
  {
    if s != [] {
      LiveInOrder(s[1..]);
      var rest := Map(Live(s[1..]), PayloadOf());
      FilterMembers(s[1..], LiveTest());
      forall i | 0 <= i < |rest| ensures s[0].payload.relid <= rest[i].relid {
        var x := Live(s[1..])[i];
        assert x in Live(s[1..]);
        assert ByRelid()(s[0], x);
      }
      LiveConcat([s[0]], s[1..]);
      LiveOne(s[0]);
      assert s == [s[0]] + s[1..];
      assert Map([s[0]] + Live(s[1..]), PayloadOf()) == [s[0].payload] + rest;
    }
  }

  /** Sorting the log does not change what is live in it. */
  lemma LivePermutation(s: seq<Tagged<UndoEntry>>, t: seq<Tagged<UndoEntry>>)
    requires multiset(s) == multiset(t)
    ensures multiset(Map(Live(s), PayloadOf())) == multiset(Map(Live(t), PayloadOf()))
  {
    FilterPermutation(s, t, LiveTest());
    MapPermutation(Live(s), Live(t), PayloadOf());
  }

  lemma {:induction false} SelectedStep<T>(s: seq<Tagged<T>>, i: nat, id: nat)
    requires i < |s|
    ensures Selected(s[..i + 1], id) == Selected(s[..i], id) + if s[i].subxid == id then [s[i].payload] else []
  {
    assert s[..i + 1] == s[..i] + [s[i]];
    SelectedConcat(s[..i], [s[i]], id);
    assert Selected([s[i]][1..], id) == [];
  }

  lemma LiveStep<T>(s: seq<Tagged<T>>, i: nat)
    requires i < |s|
    ensures Map(Live(s[..i + 1]), PayloadOf()) ==
            Map(Live(s[..i]), PayloadOf()) + if IsLive(s[i]) then [s[i].payload] else []
  {
    assert s[..i + 1] == s[..i] + [s[i]];
    LiveConcat(s[..i], [s[i]]);
    LiveOne(s[i]);
  }

  /** Sort the log by index; entries of one index may come out in any order. */
  method SortLog(log: Buffer<UndoEntry>)
    requires log.Valid()
    modifies log.entries
    ensures multiset(log.Contents()) == multiset(old(log.Contents())) && Sorted(log.Contents(), ByRelid())
  {
    var sorted := SortBy(log.entries[..log.count], ByRelid());
    SortsByRelid(log.entries[..log.count]);
    for i := 0 to log.count
      invariant forall j :: 0 <= j < i ==> log.entries[j] == sorted[j]
    {
      log.entries[i] := sorted[i];
    }
    assert log.Contents() == sorted;
  }

  /** Feed the entries of one subtransaction, in insertion order. */
  method FeedSubxact(log: Buffer<UndoEntry>, mySubid: nat, batch: ConsolidatingUndoBatch)
    requires log.Valid() && batch.Valid() && batch.Batches() == []
    modifies batch, batch.worker, batch.batchIds
    ensures batch.Valid() && Concat(batch.Batches()) == Selected(log.Contents(), mySubid)
    ensures batch.worker.consolidated == old(batch.worker.consolidated)
    ensures batch.worker.compacted == old(batch.worker.compacted)
  {
    ghost var all := log.Contents();
    assert all[..0] == [];
    for i := 0 to log.count
      invariant log.Valid() && log.Contents() == all && batch.Valid()
      invariant Concat(batch.Batches()) == Selected(all[..i], mySubid)
      invariant batch.worker.consolidated == old(batch.worker.consolidated)
      invariant batch.worker.compacted == old(batch.worker.compacted)
    {
      SelectedStep(all, i, mySubid);
      if log.entries[i].subxid == mySubid {
        batch.Add(log.entries[i].payload);
      }
    }
    assert all[..log.count] == all;
  }

  /** Feed every entry not discarded. */
  method FeedLive(log: Buffer<UndoEntry>, batch: ConsolidatingUndoBatch)
    requires log.Valid() && batch.Valid() && batch.Batches() == []
    modifies batch, batch.worker, batch.batchIds
    ensures batch.Valid() && Concat(batch.Batches()) == Map(Live(log.Contents()), PayloadOf())
    ensures batch.worker.consolidated == old(batch.worker.consolidated)
    ensures batch.worker.compacted == old(batch.worker.compacted)
  {
    ghost var all := log.Contents();
    assert all[..0] == [];
    for i := 0 to log.count
      invariant log.Valid() && log.Contents() == all && batch.Valid()
      invariant Concat(batch.Batches()) == Map(Live(all[..i]), PayloadOf())
      invariant batch.worker.consolidated == old(batch.worker.consolidated)
      invariant batch.worker.compacted == old(batch.worker.compacted)
    {
      LiveStep(all, i);
      if log.entries[i].subxid != Discarded {
        batch.Add(log.entries[i].payload);
      }
    }
    assert all[..log.count] == all;
  }

  /** Undo one subtransaction: submit its entries, then discard them. */
  method UndoSubxact(log: Buffer<UndoEntry>, mySubid: nat, worker: Worker) returns (ghost bs: seq<seq<UndoEntry>>)
    requires log.Valid()
    modifies log.entries, worker
    ensures Asked(worker, bs) && Concat(bs) == Selected(old(log.Contents()), mySubid)
    ensures log.Contents() == Retag(old(log.Contents()), mySubid, Discarded)
  {
    var batch := new ConsolidatingUndoBatch(worker);
    FeedSubxact(log, mySubid, batch);
    batch.Finish();
    bs := batch.Batches();
    log.Prune(mySubid);
  }

  /** Undo the whole transaction: the live entries, grouped by index. */
  method UndoXact(log: Buffer<UndoEntry>, worker: Worker) returns (ghost bs: seq<seq<UndoEntry>>)
    requires log.Valid()
    modifies log.entries, worker
    ensures Asked(worker, bs) && InRelidOrder(Concat(bs))
    ensures multiset(Concat(bs)) == multiset(EndTop(old(log.Contents()), Aborts(true)))
  {
    ghost var was := log.Contents();
    SortLog(log);
    LivePermutation(log.Contents(), was);
    LiveInOrder(log.Contents());
    var batch := new ConsolidatingUndoBatch(worker);
    FeedLive(log, batch);
    batch.Finish();
    bs := batch.Batches();
  }

  /* ---- the per-backend log ---- */

  class UndoState {
    const worker: Worker
    var log: Buffer?<UndoEntry>

    ghost function Repr(): set<object>
      reads this, log
    {
      if log == null then {this}
      else
        var held: Buffer<UndoEntry> := log;
        {this, held, held.entries}
    }

    ghost predicate Valid()
      reads this, log
    {
      log != null ==> log.Valid()
    }

    ghost function Contents(): seq<Tagged<UndoEntry>>
      requires Valid()
      reads this, log, Repr()
    {
      if log == null then [] else log.Contents()
    }

    constructor (worker: Worker)
      ensures Valid() && this.worker == worker && log == null
    {
      this.worker := worker;
      log := null;
    }

    /** Room for one more entry, or a refusal that leaves everything as it was recorded. */
    method Reserve(maxEntries: nat) returns (ok: bool)
      requires Valid() && maxEntries <= INT_MAX
      modifies this, log
      ensures Valid() && Contents() == old(Contents()) && log != null
      ensures ok ==> log.count < log.entries.Length && log.count < maxEntries
      ensures !ok ==> (|Contents()| >= maxEntries || |Contents()| > INT_MAX / 2)
      ensures fresh(Repr() - old(Repr()))
    {
      if log == null { log := new Buffer(INITIAL_CAPACITY); }
      if log.count >= maxEntries { return false; }
      ok := log.EnsureSpace(maxEntries);
    }

    /** Record an applied insert; after a reservation this cannot fail. */
    method Append(e: UndoEntry, subxid: nat)
      requires Valid() && log != null && log.count < log.entries.Length
      modifies log, log.entries
      ensures Valid() && Contents() == old(Contents()) + [Tagged(e, subxid)]
      ensures log == old(log) && log.entries == old(log.entries)
    {
      var ok := log.Append(e, subxid);
      assert ok;
    }

    method SubXactCallback(event: SubXactEvent, mySubid: nat, parentSubid: nat, available: bool)
      returns (ghost bs: seq<seq<UndoEntry>>)
      requires Valid() && worker !in Repr()
      modifies Repr(), worker
      ensures Valid() && log == old(log) && Repr() == old(Repr()) && Asked(worker, bs)
      ensures event.CommitSub? ==> Contents() == Retag(old(Contents()), mySubid, parentSubid) && bs == []
      ensures event.AbortSub? && available ==>
                (Contents() == Retag(old(Contents()), mySubid, Discarded)
                 && Concat(bs) == Selected(old(Contents()), mySubid))
      ensures !event.CommitSub? && !(event.AbortSub? && available) ==> Contents() == old(Contents()) && bs == []
    {
      bs := [];
      if log == null { return; }
      if event.CommitSub? {
        log.Reparent(mySubid, parentSubid);
        return;
      }
      if !event.AbortSub? || log.count == 0 || !available { return; }
      bs := UndoSubxact(log, mySubid, worker);
    }

    /** Returns whether the event is refused: a prepare with undo still to answer for. */
    method XactCallback(event: XactEvent, available: bool) returns (refused: bool, ghost bs: seq<seq<UndoEntry>>)
      requires Valid() && worker !in Repr()
      modifies Repr(), worker
      ensures Valid() && Asked(worker, bs)
      ensures refused <==> event.PrePrepare? && Live(old(Contents())) != []
      ensures event.PrePrepare? || event.OtherEvent? ==> Contents() == old(Contents())
      ensures !event.PrePrepare? && !event.OtherEvent? ==> log == null
      ensures (event.Abort? || event.ParallelAbort?) && available ==>
                (multiset(Concat(bs)) == multiset(EndTop(old(Contents()), Aborts(true))) && InRelidOrder(Concat(bs)))
      ensures !((event.Abort? || event.ParallelAbort?) && available) ==> bs == []
    {
      refused, bs := false, [];
      match event
      case Commit => log := null;
      case ParallelCommit => log := null;
      case Abort => bs := AbortXact(available);
      case ParallelAbort => bs := AbortXact(available);
      case PrePrepare =>
        if log != null {
          refused := log.HasLiveEntries();
        }
      case Prepare => log := null;
      case OtherEvent =>
    }

    method AbortXact(available: bool) returns (ghost bs: seq<seq<UndoEntry>>)
      requires Valid() && worker !in Repr()
      modifies Repr(), worker
      ensures log == null && Asked(worker, bs)
      ensures available ==>
                (multiset(Concat(bs)) == multiset(EndTop(old(Contents()), Aborts(true))) && InRelidOrder(Concat(bs)))
      ensures !available ==> bs == []
    {
      bs := [];
      if log != null && log.count > 0 && available {
        bs := UndoXact(log, worker);
      }
      log := null;
    }
  }
}
