/** The subxid-tagged pending array: one flat, never compacted buffer whose tags are
    rewritten when a savepoint ends, and the stack of transaction frames it stands for. */
module PendingArray {
  import opened Seqs

  const INT_MAX: nat := 0x7fff_ffff

  /** InvalidSubTransactionId: the tag of a discarded element. */
  const Discarded: nat := 0

  /** What the transaction manager tells the callbacks that drain an array. */
  datatype XactEvent = Commit | ParallelCommit | Abort | ParallelAbort | PrePrepare | Prepare | OtherEvent
  datatype SubXactEvent = StartSub | CommitSub | AbortSub | PreCommitSub

  datatype Tagged<T> = Tagged(payload: T, subxid: nat)

  function Retag<T>(s: seq<Tagged<T>>, from: nat, to: nat): (r: seq<Tagged<T>>)
    ensures |r| == |s|
    ensures forall i :: 0 <= i < |s| ==> r[i] == if s[i].subxid == from then s[i].(subxid := to) else s[i]
  {
    seq(|s|, i requires 0 <= i < |s| => if s[i].subxid == from then s[i].(subxid := to) else s[i])
  }

  predicate IsLive<T>(x: Tagged<T>) { x.subxid != Discarded }

  function LiveTest<T>(): Tagged<T> -> bool { (x: Tagged<T>) => IsLive(x) }

  /** The elements not discarded, in insertion order. */
  function Live<T>(s: seq<Tagged<T>>): seq<Tagged<T>> { Filter(s, LiveTest()) }

  /* ---- the buffer ---- */

  class Buffer<T(0)> {
    var entries: array<Tagged<T>>
    var count: nat

    ghost predicate Valid()
      reads this
    {
      count <= entries.Length <= INT_MAX && entries.Length > 0
    }

    ghost function Contents(): seq<Tagged<T>>
      requires Valid()
      reads this, entries
    {
      entries[..count]
    }

    constructor (initialCapacity: nat)
      requires 0 < initialCapacity <= INT_MAX
      ensures Valid() && fresh(entries) && Contents() == [] && entries.Length == initialCapacity
    {
      entries := new Tagged<T>[initialCapacity];
      count := 0;
    }

    /** Room for one more below maxCount, doubling but never past it; false when the source
        raises its capacity-overflow error. Nothing already stored is lost or moved. */
    method EnsureSpace(maxCount: nat) returns (ok: bool)
      requires Valid() && count <= maxCount <= INT_MAX
      modifies this`entries
      ensures Valid() && (entries == old(entries) || fresh(entries)) && Contents() == old(Contents())
      ensures ok ==> count < entries.Length || count == maxCount
      ensures old(count < entries.Length) ==> ok && entries == old(entries)
      ensures !ok <==> old(count == entries.Length > INT_MAX / 2)
      ensures !ok ==> entries == old(entries)
      ensures ok ==> entries.Length == if old(count < entries.Length) then old(entries.Length)
                                       else Min(old(entries.Length) * 2, maxCount)
    {
      if count < entries.Length { return true; }
      if entries.Length > INT_MAX / 2 { return false; }
      var newCapacity := entries.Length * 2;
      if newCapacity > maxCount { newCapacity := maxCount; }
      var grown, kept := new Tagged<T>[newCapacity], entries;
      for i := 0 to count
        invariant entries == kept
        invariant forall j :: 0 <= j < i ==> grown[j] == kept[j]
      {
        grown[i] := kept[i];
      }
      assert grown[..count] == kept[..count];
      entries := grown;
      ok := true;
    }

    /** Append one element under the current subtransaction. */
    method Append(payload: T, subxid: nat) returns (ok: bool)
      requires Valid()
      modifies this, entries
      ensures Valid() && (entries == old(entries) || fresh(entries))
      ensures ok ==> Contents() == old(Contents()) + [Tagged(payload, subxid)]
      ensures !ok ==> Contents() == old(Contents())
      ensures !ok <==> old(count == entries.Length > INT_MAX / 2)
      ensures old(count < entries.Length) ==> ok && entries == old(entries)
      ensures entries.Length == if !ok || old(count < entries.Length) then old(entries.Length)
                                else Min(old(entries.Length) * 2, INT_MAX)
    {
      ok := EnsureSpace(INT_MAX);
      if !ok { return; }
      entries[count] := Tagged(payload, subxid);
      count := count + 1;
      assert entries[..count] == old(Contents()) + [Tagged(payload, subxid)];
    }

    method HasLiveEntries() returns (live: bool)
      requires Valid()
      ensures live <==> Live(Contents()) != []
    {
      for i := 0 to count
        invariant forall j :: 0 <= j < i ==> !IsLive(entries[j])
      {
        if entries[i].subxid != Discarded {
          LiveHas(Contents(), i);
          return true;
        }
      }
      NoneLive(Contents());
      live := false;
    }

    method ReplaceMatchingSubxid(mySubid: nat, replacement: nat)
      requires Valid()
      modifies entries
      ensures Contents() == Retag(old(Contents()), mySubid, replacement)
    {
      for i := 0 to count
        invariant forall j :: 0 <= j < i ==> entries[j] == Retag(old(Contents()), mySubid, replacement)[j]
        invariant forall j :: i <= j < count ==> entries[j] == old(entries[j])
      {
        if entries[i].subxid == mySubid {
          entries[i] := entries[i].(subxid := replacement);
        }
      }
    }

    /** ROLLBACK TO SAVEPOINT: discard what the subtransaction appended. */
    method Prune(mySubid: nat)
      requires Valid()
      modifies entries
      ensures Contents() == Retag(old(Contents()), mySubid, Discarded)
    {
      ReplaceMatchingSubxid(mySubid, Discarded);
    }

    /** RELEASE SAVEPOINT: what the subtransaction appended becomes its parent's. */
    method Reparent(mySubid: nat, parentSubid: nat)
      requires Valid()
      modifies entries
      ensures Contents() == Retag(old(Contents()), mySubid, parentSubid)
    {
      ReplaceMatchingSubxid(mySubid, parentSubid);
    }
  }

  /* ---- live elements ---- */

  lemma LiveConcat<T>(a: seq<Tagged<T>>, b: seq<Tagged<T>>)
    ensures Live(a + b) == Live(a) + Live(b)
  {
    FilterConcat(a, b, LiveTest());
  }

  lemma LiveOne<T>(x: Tagged<T>)
    ensures Live([x]) == if IsLive(x) then [x] else []
  {
    var p := LiveTest<T>();
    assert p(x) == IsLive(x);
    assert Filter([x][1..], p) == [];
  }

  lemma LiveHas<T>(s: seq<Tagged<T>>, i: nat)
    requires i < |s| && IsLive(s[i])
    ensures Live(s) != []
  {
    assert s == s[..i] + ([s[i]] + s[i + 1..]);
    LiveConcat(s[..i], [s[i]] + s[i + 1..]);
  }

  lemma {:induction false} NoneLive<T>(s: seq<Tagged<T>>)
    requires forall i :: 0 <= i < |s| ==> !IsLive(s[i])
    ensures Live(s) == []
  {
    if s != [] { NoneLive(s[1..]); }
  }

  lemma RetagConcat<T>(a: seq<Tagged<T>>, b: seq<Tagged<T>>, from: nat, to: nat)
    ensures Live(Retag(a + b, from, to)) == Live(Retag(a, from, to)) + Live(Retag(b, from, to))
  {
    assert Retag(a + b, from, to) == Retag(a, from, to) + Retag(b, from, to);
    LiveConcat(Retag(a, from, to), Retag(b, from, to));
  }

  /** Discarded elements stay discarded: only live ones matter to a retag. */
  lemma {:induction false} LiveRetag<T>(s: seq<Tagged<T>>, from: nat, to: nat)
    requires from != Discarded
    ensures Live(Retag(s, from, to)) == Live(Retag(Live(s), from, to))
  {
    if s != [] {
      LiveRetag(s[1..], from, to);
      var head, kept := [s[0]], if IsLive(s[0]) then [s[0]] else [];
      assert s == head + s[1..];
      RetagConcat(head, s[1..], from, to);
      LiveConcat(head, s[1..]);
      LiveOne(s[0]);
      assert Retag(head, from, to) == [Retag(head, from, to)[0]];
      LiveOne(Retag(head, from, to)[0]);
      RetagConcat(kept, Live(s[1..]), from, to);
    }
  }

  /* ---- the stack of frames it stands for ---- */

  datatype Event<T> = Append(payload: T) | Savepoint | Release | RollbackTo

  /** The flat array, the open subtransactions from the outermost in, and the next id. */
  datatype Flat<T> = Flat(log: seq<Tagged<T>>, stack: seq<nat>, next: nat)

  function Top(stack: seq<nat>): nat
    requires stack != []
  {
    stack[|stack| - 1]
  }

  predicate Enabled<T>(depth: nat, e: Event<T>) { (e.Release? || e.RollbackTo?) ==> depth >= 2 }

  function FlatStep<T>(s: Flat<T>, e: Event<T>): Flat<T>
    requires s.stack != [] && Enabled(|s.stack|, e)
  {
    match e
    case Append(p) => s.(log := s.log + [Tagged(p, Top(s.stack))])
    case Savepoint => s.(stack := s.stack + [s.next], next := s.next + 1)
    case Release =>
      var outer := s.stack[..|s.stack| - 1];
      s.(log := Retag(s.log, Top(s.stack), Top(outer)), stack := outer)
    case RollbackTo => s.(log := Retag(s.log, Top(s.stack), Discarded), stack := s.stack[..|s.stack| - 1])
  }

  /** What the same event does to a stack of frames: a release appends the top frame to
      its parent, a rollback drops it. */
  function FrameStep<T>(fs: seq<seq<T>>, e: Event<T>): seq<seq<T>>
    requires fs != [] && Enabled(|fs|, e)
  {
    var n := |fs| - 1;
    match e
    case Append(p) => fs[n := fs[n] + [p]]
    case Savepoint => fs + [[]]
    case Release => fs[..n][n - 1 := fs[n - 1] + fs[n]]
    case RollbackTo => fs[..n]
  }

  function Tag<T>(ps: seq<T>, id: nat): (r: seq<Tagged<T>>)
    ensures |r| == |ps| && forall i :: 0 <= i < |ps| ==> r[i] == Tagged(ps[i], id)
  {
    seq(|ps|, i requires 0 <= i < |ps| => Tagged(ps[i], id))
  }

  /** The frames laid end to end, outermost first, each element tagged with its frame. */
  function Flatten<T>(stack: seq<nat>, fs: seq<seq<T>>): seq<Tagged<T>>
    requires |stack| == |fs|
  {
    if fs == [] then []
    else Flatten(stack[..|stack| - 1], fs[..|fs| - 1]) + Tag(fs[|fs| - 1], Top(stack))
  }

  ghost predicate ValidFlat<T>(s: Flat<T>) {
    && s.stack != [] && s.next > 0
    && (forall i :: 0 <= i < |s.stack| ==> 0 < s.stack[i] < s.next)
    && (forall i, j :: 0 <= i < j < |s.stack| ==> s.stack[i] != s.stack[j])
    && (forall x :: x in s.log ==> x.subxid < s.next)
  }

  /** The live elements of the array are the frames, in order, under their own tags. */
  ghost predicate Refines<T>(s: Flat<T>, fs: seq<seq<T>>) {
    ValidFlat(s) && |fs| == |s.stack| && Live(s.log) == Flatten(s.stack, fs)
  }

  lemma {:induction false} FlattenTags<T>(stack: seq<nat>, fs: seq<seq<T>>)
    requires |stack| == |fs|
    ensures forall x :: x in Flatten(stack, fs) ==> x.subxid in stack
  {
    if fs != [] {
      FlattenTags(stack[..|stack| - 1], fs[..|fs| - 1]);
    }
  }

  lemma {:induction false} LiveIsLive<T>(s: seq<Tagged<T>>)
    requires forall x :: x in s ==> IsLive(x)
    ensures Live(s) == s
  {
    if s != [] {
      assert s[0] in s;
      LiveIsLive(s[1..]);
    }
  }

  lemma RetagAbsent<T>(s: seq<Tagged<T>>, from: nat, to: nat)
    requires forall x :: x in s ==> x.subxid != from
    ensures Retag(s, from, to) == s
  {}

  /** Ending the innermost subtransaction retags exactly its own frame. */
  lemma {:induction false} RetagTop<T>(stack: seq<nat>, fs: seq<seq<T>>, to: nat)
    requires |stack| == |fs| > 0 && forall i :: 0 <= i < |stack| - 1 ==> stack[i] != Top(stack)
    ensures var n := |fs| - 1;
      Retag(Flatten(stack, fs), Top(stack), to) == Flatten(stack[..n], fs[..n]) + Tag(fs[n], to)
  {
    var n := |fs| - 1;
    var outer := Flatten(stack[..n], fs[..n]);
    FlattenTags(stack[..n], fs[..n]);
    RetagAbsent(outer, Top(stack), to);
    assert Retag(outer + Tag(fs[n], Top(stack)), Top(stack), to)
        == Retag(outer, Top(stack), to) + Tag(fs[n], to);
  }

  lemma AppendRefines<T>(s: Flat<T>, fs: seq<seq<T>>, p: T)
    requires Refines(s, fs)
    ensures Refines(FlatStep(s, Append(p)), FrameStep(fs, Append(p)))
  {
    var n := |fs| - 1;
    var x := Tagged(p, Top(s.stack));
    LiveConcat(s.log, [x]);
    LiveOne(x);
    assert FrameStep(fs, Append(p))[..n] == fs[..n];
    assert Tag(fs[n] + [p], Top(s.stack)) == Tag(fs[n], Top(s.stack)) + [x];
  }

  lemma SavepointRefines<T>(s: Flat<T>, fs: seq<seq<T>>)
    requires Refines(s, fs)
    ensures Refines(FlatStep(s, Savepoint), FrameStep(fs, Event<T>.Savepoint))
  {
    var fs' := fs + [[]];
    var stack' := s.stack + [s.next];
    assert fs'[..|fs|] == fs && stack'[..|s.stack|] == s.stack;
    assert Tag<T>([], s.next) == [];
  }

  lemma EndRefines<T>(s: Flat<T>, fs: seq<seq<T>>, to: nat)
    requires Refines(s, fs) && |fs| >= 2
    ensures var n := |fs| - 1;
      Live(Retag(s.log, Top(s.stack), to)) == Live(Flatten(s.stack[..n], fs[..n]) + Tag(fs[n], to))
  {
    LiveRetag(s.log, Top(s.stack), to);
    RetagTop(s.stack, fs, to);
  }

  lemma {:induction false} FlattenIsLive<T>(stack: seq<nat>, fs: seq<seq<T>>)
    requires |stack| == |fs| && forall i :: 0 <= i < |stack| ==> stack[i] != Discarded
    ensures Live(Flatten(stack, fs)) == Flatten(stack, fs)
  {
    FlattenTags(stack, fs);
    LiveIsLive(Flatten(stack, fs));
  }

  lemma RollbackRefines<T>(s: Flat<T>, fs: seq<seq<T>>)
    requires Refines(s, fs) && |fs| >= 2
    ensures Refines(FlatStep(s, RollbackTo), FrameStep(fs, Event<T>.RollbackTo))
  {
    var n := |fs| - 1;
    EndRefines(s, fs, Discarded);
    LiveConcat(Flatten(s.stack[..n], fs[..n]), Tag(fs[n], Discarded));
    NoneLive(Tag(fs[n], Discarded));
    FlattenIsLive(s.stack[..n], fs[..n]);
  }

  lemma ReleaseRefines<T>(s: Flat<T>, fs: seq<seq<T>>)
    requires Refines(s, fs) && |fs| >= 2
    ensures Refines(FlatStep(s, Release), FrameStep(fs, Event<T>.Release))
  {
    var n := |fs| - 1;
    var outer, parent := s.stack[..n], Top(s.stack[..n]);
    EndRefines(s, fs, parent);
    var fs' := FrameStep(fs, Event<T>.Release);
    assert fs'[..n - 1] == fs[..n][..n - 1];
    assert Tag(fs[n - 1] + fs[n], parent) == Tag(fs[n - 1], parent) + Tag(fs[n], parent);
    assert Flatten(outer, fs') == Flatten(outer, fs[..n]) + Tag(fs[n], parent);
    FlattenIsLive(outer, fs');
  }

  /** Each event does to the flat array what it does to the stack of frames. */
  lemma StepRefines<T>(s: Flat<T>, fs: seq<seq<T>>, e: Event<T>)
    requires Refines(s, fs) && Enabled(|fs|, e)
    ensures Refines(FlatStep(s, e), FrameStep(fs, e))
  {
    match e
    case Append(p) => AppendRefines(s, fs, p);
    case Savepoint => SavepointRefines(s, fs);
    case Release => ReleaseRefines(s, fs);
    case RollbackTo => RollbackRefines(s, fs);
  }

  function RunFrames<T>(fs: seq<seq<T>>, es: seq<Event<T>>): seq<seq<T>>
    requires Nested(|fs|, es)
    decreases |es|
  {
    if es == [] then fs else RunFrames(FrameStep(fs, es[0]), es[1..])
  }

  function RunFlat<T>(s: Flat<T>, es: seq<Event<T>>): Flat<T>
    requires Nested(|s.stack|, es)
    decreases |es|
  {
    if es == [] then s else RunFlat(FlatStep(s, es[0]), es[1..])
  }

  /** Every savepoint ended was one that is open. */
  predicate Nested<T>(depth: nat, es: seq<Event<T>>)
    decreases |es|
  {
    depth > 0 &&
    (es == [] ||
     (Enabled(depth, es[0]) &&
      Nested(if es[0].Savepoint? then depth + 1 else if es[0].Append? then depth else depth - 1, es[1..])))
  }

  /** Under any nesting of appends, releases and rollbacks the flat array stands for the
      stack of frames. */
  lemma {:induction false} RunRefines<T>(s: Flat<T>, fs: seq<seq<T>>, es: seq<Event<T>>)
    requires Refines(s, fs) && Nested(|fs|, es)
    ensures Refines(RunFlat(s, es), RunFrames(fs, es))
    decreases |es|
  {
    if es != [] {
      StepRefines(s, fs, es[0]);
      RunRefines(FlatStep(s, es[0]), FrameStep(fs, es[0]), es[1..]);
    }
  }
}
