/** Which inserts a whole transaction submits for deletion, over every nesting of
    savepoints and every pattern of worker availability. */
module UndoRuns {
  import opened Seqs
  import opened PendingArray

  /* ---- one callback ---- */

  datatype End = Commits | Aborts(available: bool)

  /** The payloads carrying a tag, in insertion order. */
  function Selected<T>(s: seq<Tagged<T>>, id: nat): seq<T> {
    if s == [] then [] else (if s[0].subxid == id then [s[0].payload] else []) + Selected(s[1..], id)
  }

  /** The live payloads not carrying it. */
  function Others<T>(s: seq<Tagged<T>>, id: nat): seq<T> {
    if s == [] then []
    else (if s[0].subxid != id && IsLive(s[0]) then [s[0].payload] else []) + Others(s[1..], id)
  }

  function PayloadOf<T>(): Tagged<T> -> T { (x: Tagged<T>) => x.payload }

  /** What the end of the innermost subtransaction does to the log, and what it submits.
      When the worker is away an abort neither submits nor prunes. */
  function EndSub<T>(s: Flat<T>, end: End): (Flat<T>, seq<T>)
    requires |s.stack| >= 2
  {
    match end
    case Commits => (FlatStep(s, Release), [])
    case Aborts(true) => (FlatStep(s, RollbackTo), Selected(s.log, Top(s.stack)))
    case Aborts(false) => (s.(stack := s.stack[..|s.stack| - 1]), [])
  }

  /** What the end of the transaction submits. */
  function EndTop<T>(log: seq<Tagged<T>>, end: End): seq<T> {
    if end == Aborts(true) then Map(Live(log), PayloadOf()) else []
  }

  /* ---- a whole transaction ---- */

  datatype Item<T> = Record(payload: T) | Nested(body: seq<Item<T>>, end: End)

  function Exec<T>(s: Flat<T>, items: seq<Item<T>>): (r: (Flat<T>, seq<T>))
    requires s.stack != []
    ensures r.0.stack == s.stack
    decreases items
  {
    if items == [] then (s, [])
    else
      var (s1, out1) := ExecItem(s, items[0]);
      var (s2, out2) := Exec(s1, items[1..]);
      (s2, out1 + out2)
  }

  function ExecItem<T>(s: Flat<T>, item: Item<T>): (r: (Flat<T>, seq<T>))
    requires s.stack != []
    ensures r.0.stack == s.stack
    decreases item
  {
    match item
    case Record(p) => (FlatStep(s, Append(p)), [])
    case Nested(body, end) =>
      var (s1, out1) := Exec(FlatStep(s, Savepoint), body);
      var (s2, out2) := EndSub(s1, end);
      (s2, out1 + out2)
  }

  const Started: (seq<nat>, nat) := ([1], 2)

  /** Everything submitted for deletion by the transaction. */
  function Submitted<T>(items: seq<Item<T>>, end: End): seq<T> {
    var (s, out) := Exec(Flat([], Started.0, Started.1), items);
    out + EndTop(s.log, end)
  }

  /* ---- what it should be, from the tree alone ---- */

  /** An insert is undone by the innermost enclosing subtransaction that aborts, if the
      worker is there to hear of it; failing that, by an abort of the whole transaction. */
  function Undone<T>(items: seq<Item<T>>, fate: bool, last: bool): seq<T>
    decreases items
  {
    if items == [] then [] else UndoneIn(items[0], fate, last) + Undone(items[1..], fate, last)
  }

  function UndoneIn<T>(item: Item<T>, fate: bool, last: bool): seq<T>
    decreases item
  {
    match item
    case Record(p) => if fate then [p] else []
    case Nested(body, end) => Undone(body, if end.Aborts? then end.available || last else fate, last)
  }

  /** The inserts whose own or any enclosing (sub)transaction aborts. */
  function Doomed<T>(items: seq<Item<T>>, aborts: bool): seq<T>
    decreases items
  {
    if items == [] then [] else DoomedIn(items[0], aborts) + Doomed(items[1..], aborts)
  }

  function DoomedIn<T>(item: Item<T>, aborts: bool): seq<T>
    decreases item
  {
    match item
    case Record(p) => if aborts then [p] else []
    case Nested(body, end) => Doomed(body, aborts || end.Aborts?)
  }

  predicate WorkerPresent<T>(items: seq<Item<T>>)
    decreases items
  {
    items == [] ||
    (WorkerPresent(items[1..]) &&
     (items[0].Nested? ==> items[0].end != Aborts(false) && WorkerPresent(items[0].body)))
  }

  /* ---- the same, split by when it happens ---- */

  function Surviving<T>(item: Item<T>): seq<T>
    decreases item, 0
  {
    match item
    case Record(p) => [p]
    case Nested(body, end) => if end.Commits? then Survivors(body) else []
  }

  /** Inserts no subtransaction inside undid or abandoned. */
  function Survivors<T>(items: seq<Item<T>>): seq<T>
    decreases items, 1
  {
    if items == [] then [] else Surviving(items[0]) + Survivors(items[1..])
  }

  /** Inserts submitted as the subtransactions inside abort. */
  function Prompt<T>(items: seq<Item<T>>): seq<T>
    decreases items
  {
    if items == [] then []
    else PromptIn(items[0]) + Prompt(items[1..])
  }

  function PromptIn<T>(item: Item<T>): seq<T>
    decreases item
  {
    if item.Record? then []
    else Prompt(item.body) + (if item.end == Aborts(true) then Survivors(item.body) else [])
  }

  /** Inserts left behind by aborts the worker did not hear of. */
  function Stuck<T>(items: seq<Item<T>>): seq<T>
    decreases items
  {
    if items == [] then []
    else StuckIn(items[0]) + Stuck(items[1..])
  }

  function StuckIn<T>(item: Item<T>): seq<T>
    decreases item
  {
    if item.Record? then []
    else Stuck(item.body) + (if item.end == Aborts(false) then Survivors(item.body) else [])
  }

  lemma {:induction false} UndoneInSplits<T>(item: Item<T>, fate: bool, last: bool)
    ensures multiset(UndoneIn(item, fate, last))
         == multiset(PromptIn(item))
            + multiset(if fate then Surviving(item) else [])
            + multiset(if last then StuckIn(item) else [])
    decreases item, 0
  {
    if item.Nested? {
      if item.end.Commits? {
        CommitSplits(item.body, fate, last);
      } else {
        AbortSplits(item.body, item.end.available, last);
        assert Surviving(item) == [];
      }
    }
  }

  lemma {:induction false} CommitSplits<T>(body: seq<Item<T>>, fate: bool, last: bool)
    ensures var item := Nested(body, Commits);
      multiset(UndoneIn(item, fate, last))
      == multiset(PromptIn(item)) + multiset(if fate then Surviving(item) else [])
         + multiset(if last then StuckIn(item) else [])
    decreases body, 1
  {
    UndoneSplits(body, fate, last);
    assert PromptIn(Nested(body, Commits)) == Prompt(body) && StuckIn(Nested(body, Commits)) == Stuck(body);
  }

  lemma {:induction false} AbortSplits<T>(body: seq<Item<T>>, available: bool, last: bool)
    ensures var item := Nested(body, Aborts(available));
      multiset(Undone(body, available || last, last))
      == multiset(PromptIn(item)) + multiset(if last then StuckIn(item) else [])
    decreases body, 1
  {
    UndoneSplits(body, available || last, last);
    if available {
      assert StuckIn(Nested(body, Aborts(available))) == Stuck(body);
    } else {
      assert PromptIn(Nested(body, Aborts(available))) == Prompt(body);
    }
  }

  lemma {:induction false} UndoneSplits<T>(items: seq<Item<T>>, fate: bool, last: bool)
    ensures multiset(Undone(items, fate, last))
         == multiset(Prompt(items))
            + multiset(if fate then Survivors(items) else [])
            + multiset(if last then Stuck(items) else [])
    decreases items, 0
  {
    if items != [] {
      UndoneInSplits(items[0], fate, last);
      UndoneSplits(items[1..], fate, last);
    }
  }

  /** With the worker there, what is undone is what is doomed. */
  lemma {:induction false} PresentUndoesDoomed<T>(items: seq<Item<T>>, aborts: bool, last: bool)
    requires WorkerPresent(items)
    ensures Undone(items, aborts, last) == Doomed(items, aborts)
    decreases items
  {
    if items != [] {
      PresentUndoesDoomed(items[1..], aborts, last);
      if items[0].Nested? {
        PresentUndoesDoomed(items[0].body, aborts || items[0].end.Aborts?, last);
      }
    }
  }

  /** Whether or not it is there, nothing else ever is. */
  lemma {:induction false} UndoneIsDoomed<T>(items: seq<Item<T>>, fate: bool, aborts: bool, last: bool)
    requires fate ==> aborts
    ensures multiset(Undone(items, fate, last)) <= multiset(Doomed(items, aborts))
    decreases items
  {
    if items != [] {
      UndoneIsDoomed(items[1..], fate, aborts, last);
      if items[0].Nested? {
        var end := items[0].end;
        UndoneIsDoomed(items[0].body, if end.Aborts? then end.available || last else fate,
                       aborts || end.Aborts?, last);
      }
    }
  }

  /* ---- selections of the log ---- */

  lemma {:induction false} SelectedConcat<T>(a: seq<Tagged<T>>, b: seq<Tagged<T>>, id: nat)
    ensures Selected(a + b, id) == Selected(a, id) + Selected(b, id)
  {
    if a == [] {
      assert a + b == b;
    } else {
      assert (a + b)[0] == a[0] && (a + b)[1..] == a[1..] + b;
      SelectedConcat(a[1..], b, id);
      var head := if a[0].subxid == id then [a[0].payload] else [];
      assert Selected(a, id) == head + Selected(a[1..], id);
      assert Selected(a + b, id) == head + Selected(a[1..] + b, id);
    }
  }

  lemma {:induction false} OthersConcat<T>(a: seq<Tagged<T>>, b: seq<Tagged<T>>, id: nat)
    ensures Others(a + b, id) == Others(a, id) + Others(b, id)
  {
    if a == [] {
      assert a + b == b;
    } else {
      assert (a + b)[0] == a[0] && (a + b)[1..] == a[1..] + b;
      OthersConcat(a[1..], b, id);
      var head := if a[0].subxid != id && IsLive(a[0]) then [a[0].payload] else [];
      assert Others(a, id) == head + Others(a[1..], id);
      assert Others(a + b, id) == head + Others(a[1..] + b, id);
      assert head + (Others(a[1..], id) + Others(b, id)) == (head + Others(a[1..], id)) + Others(b, id);
    }
  }

  lemma {:induction false} NoneSelected<T>(s: seq<Tagged<T>>, id: nat)
    requires forall x :: x in s ==> x.subxid != id
    ensures Selected(s, id) == []
  {
    if s != [] {
      assert s[0] in s;
      NoneSelected(s[1..], id);
    }
  }

  /** Retagging hands the selection over, or drops it, and leaves the rest alone. */
  lemma {:induction false} RetagSelected<T>(s: seq<Tagged<T>>, from: nat, to: nat, top: nat)
    requires from != Discarded && from != top && top != Discarded && (to == top || to == Discarded)
    requires forall x :: x in s ==> x.subxid != top
    ensures Selected(Retag(s, from, to), top) == if to == top then Selected(s, from) else []
    ensures Others(Retag(s, from, to), top) == Others(s, from)
  {
    if s != [] {
      assert s[0] in s;
      RetagSelected(s[1..], from, to, top);
      assert Retag(s, from, to)[1..] == Retag(s[1..], from, to);
    }
  }

  /** Abandoned elements are still live, under a tag nobody will ask for again. */
  lemma {:induction false} Abandoned<T>(s: seq<Tagged<T>>, id: nat, top: nat)
    requires id != Discarded && id != top
    requires forall x :: x in s ==> x.subxid != top
    ensures multiset(Others(s, top)) == multiset(Others(s, id)) + multiset(Selected(s, id))
  {
    if s != [] {
      assert s[0] in s;
      Abandoned(s[1..], id, top);
    }
  }

  lemma {:induction false} LiveSplits<T>(s: seq<Tagged<T>>, id: nat)
    requires id != Discarded
    ensures multiset(Map(Live(s), PayloadOf())) == multiset(Selected(s, id)) + multiset(Others(s, id))
  {
    if s != [] {
      LiveSplits(s[1..], id);
      var rest := Live(s[1..]);
      assert Map([s[0]] + rest, PayloadOf()) == [s[0].payload] + Map(rest, PayloadOf());
      assert Live(s) == if IsLive(s[0]) then [s[0]] + rest else rest;
    }
  }

  /* ---- a run only appends ---- */

  /** The elements a run appends carry the tag it ran under, the discarded tag, or a tag
      of a subtransaction begun during it. */
  ghost predicate Fresh<T>(ext: seq<Tagged<T>>, top: nat, lo: nat, hi: nat) {
    forall x :: x in ext ==> x.subxid == top || x.subxid == Discarded || lo <= x.subxid < hi
  }

  ghost predicate IsOpen<T>(s: Flat<T>) {
    && s.stack != [] && 0 < Top(s.stack) < s.next
    && forall x :: x in s.log ==> x.subxid < s.next
  }

  ghost predicate Appends<T>(s: Flat<T>, s': Flat<T>, ext: seq<Tagged<T>>, keep: seq<T>, stuck: seq<T>) {
    && IsOpen(s) && s'.stack == s.stack && s.next <= s'.next && s'.log == s.log + ext
    && Fresh(ext, Top(s.stack), s.next, s'.next)
    && Selected(ext, Top(s.stack)) == keep
    && multiset(Others(ext, Top(s.stack))) == multiset(stuck)
  }

  lemma AppendsKeeps<T>(s: Flat<T>, s': Flat<T>, ext: seq<Tagged<T>>, keep: seq<T>, stuck: seq<T>)
    requires Appends(s, s', ext, keep, stuck)
    ensures IsOpen(s')
  {}

  lemma AppendsTwice<T>(s: Flat<T>, s1: Flat<T>, s2: Flat<T>, ext1: seq<Tagged<T>>, ext2: seq<Tagged<T>>,
                        keep1: seq<T>, keep2: seq<T>, stuck1: seq<T>, stuck2: seq<T>)
    requires Appends(s, s1, ext1, keep1, stuck1) && Appends(s1, s2, ext2, keep2, stuck2)
    ensures Appends(s, s2, ext1 + ext2, keep1 + keep2, stuck1 + stuck2)
  {
    var top := Top(s.stack);
    SelectedConcat(ext1, ext2, top);
    OthersTwice(ext1, ext2, top, stuck1, stuck2);
    FreshTwice(ext1, ext2, top, s.next, s1.next, s2.next);
    ConcatTwice(s.log, ext1, ext2);
  }

  lemma ConcatTwice<T>(a: seq<T>, b: seq<T>, c: seq<T>)
    ensures (a + b) + c == a + (b + c)
  {}

  lemma {:induction false} OthersTwice<T>(a: seq<Tagged<T>>, b: seq<Tagged<T>>, id: nat, x: seq<T>, y: seq<T>)
    requires multiset(Others(a, id)) == multiset(x) && multiset(Others(b, id)) == multiset(y)
    ensures multiset(Others(a + b, id)) == multiset(x + y)
  {
    OthersConcat(a, b, id);
  }

  lemma FreshTwice<T>(a: seq<Tagged<T>>, b: seq<Tagged<T>>, top: nat, lo: nat, mid: nat, hi: nat)
    requires Fresh(a, top, lo, mid) && Fresh(b, top, mid, hi) && lo <= mid <= hi
    ensures Fresh(a + b, top, lo, hi)
  {}

  lemma RecordAppends<T>(s: Flat<T>, p: T)
    requires IsOpen(s)
    ensures Appends(s, FlatStep(s, Append(p)), [Tagged(p, Top(s.stack))], [p], [])
  {
    var ext := [Tagged(p, Top(s.stack))];
    assert Selected(ext[1..], Top(s.stack)) == [] && Others(ext[1..], Top(s.stack)) == [];
  }

  /** A log selection of the subtransaction now ending finds what it kept, and no more. */
  lemma SelectedIsKept<T>(s: Flat<T>, s1: Flat<T>, ext: seq<Tagged<T>>, keep: seq<T>, stuck: seq<T>)
    requires IsOpen(s) && Appends(FlatStep(s, Savepoint), s1, ext, keep, stuck)
    ensures s1.stack[..|s.stack|] == s.stack && Top(s1.stack) == s.next && s1.log == s.log + ext
    ensures Selected(s1.log, s.next) == keep
    ensures forall x :: x in ext ==> x.subxid != Top(s.stack)
  {
    NoneSelected(s.log, s.next);
    SelectedConcat(s.log, ext, s.next);
  }

  /** What each end comes to for the subtransaction a savepoint in s opened. */
  lemma EndSubIs<T>(s: Flat<T>, s1: Flat<T>, end: End)
    requires s.stack != [] && s1.stack == s.stack + [s.next]
    ensures var (s2, out) := EndSub(s1, end);
      match end
      case Commits => s2 == s1.(log := Retag(s1.log, s.next, Top(s.stack)), stack := s.stack) && out == []
      case Aborts(true) =>
        s2 == s1.(log := Retag(s1.log, s.next, Discarded), stack := s.stack) && out == Selected(s1.log, s.next)
      case Aborts(false) => s2 == s1.(stack := s.stack) && out == []
  {
    assert s1.stack[..|s.stack|] == s.stack;
  }

  /** Ending a subtransaction touches only what it appended. */
  lemma EndAppends<T>(s: Flat<T>, s1: Flat<T>, ext: seq<Tagged<T>>, keep: seq<T>, stuck: seq<T>, end: End)
    returns (ext': seq<Tagged<T>>)
    requires IsOpen(s) && Appends(FlatStep(s, Savepoint), s1, ext, keep, stuck)
    ensures var (s2, out) := EndSub(s1, end);
      && out == (if end == Aborts(true) then keep else [])
      && Appends(s, s2, ext', if end.Commits? then keep else [], stuck + if end == Aborts(false) then keep else [])
  {
    EndSubIs(s, s1, end);
    assert stuck + [] == stuck;
    if end == Aborts(false) {
      ext' := ext;
      AbandonAppends(s, s1, ext, keep, stuck);
    } else if end.Commits? {
      ext' := RetagAppends(s, s1, ext, keep, stuck, Top(s.stack));
    } else {
      SelectedIsKept(s, s1, ext, keep, stuck);
      ext' := RetagAppends(s, s1, ext, keep, stuck, Discarded);
    }
  }

  lemma AbandonAppends<T>(s: Flat<T>, s1: Flat<T>, ext: seq<Tagged<T>>, keep: seq<T>, stuck: seq<T>)
    requires IsOpen(s) && Appends(FlatStep(s, Savepoint), s1, ext, keep, stuck)
    ensures Appends(s, s1.(stack := s.stack), ext, [], stuck + keep)
  {
    SelectedIsKept(s, s1, ext, keep, stuck);
    Abandoned(ext, s.next, Top(s.stack));
    NoneSelected(ext, Top(s.stack));
  }

  lemma RetagTail<T>(log: seq<Tagged<T>>, ext: seq<Tagged<T>>, id: nat, to: nat)
    requires forall x :: x in log ==> x.subxid < id
    ensures Retag(log + ext, id, to) == log + Retag(ext, id, to)
  {}

  lemma RetagFresh<T>(ext: seq<Tagged<T>>, id: nat, to: nat, hi: nat)
    requires Fresh(ext, id, id + 1, hi)
    ensures Fresh(Retag(ext, id, to), to, id, hi)
  {
    var r := Retag(ext, id, to);
    forall x | x in r ensures x.subxid == to || x.subxid == Discarded || id <= x.subxid < hi {
      var i :| 0 <= i < |r| && r[i] == x;
      assert ext[i] in ext;
    }
  }

  lemma RetagAppends<T>(s: Flat<T>, s1: Flat<T>, ext: seq<Tagged<T>>, keep: seq<T>, stuck: seq<T>, to: nat)
    returns (ext': seq<Tagged<T>>)
    requires IsOpen(s) && Appends(FlatStep(s, Savepoint), s1, ext, keep, stuck)
    requires to == Top(s.stack) || to == Discarded
    ensures Appends(s, s1.(log := Retag(s1.log, s.next, to), stack := s.stack), ext',
                    if to == Discarded then [] else keep, stuck)
  {
    SelectedIsKept(s, s1, ext, keep, stuck);
    ext' := Retag(ext, s.next, to);
    RetagSelected(ext, s.next, to, Top(s.stack));
    RetagTail(s.log, ext, s.next, to);
    RetagFresh(ext, s.next, to, s1.next);
  }

  lemma SavepointStarts<T>(s: Flat<T>)
    requires IsOpen(s)
    ensures IsOpen(FlatStep(s, Savepoint)) && Top(FlatStep(s, Savepoint).stack) == s.next
  {}

  lemma {:induction false} ItemAppends<T>(s: Flat<T>, item: Item<T>) returns (ext: seq<Tagged<T>>)
    requires IsOpen(s)
    ensures var (s', out) := ExecItem(s, item);
      && Appends(s, s', ext, Surviving(item), StuckIn(item))
      && multiset(out) == multiset(PromptIn(item))
    decreases item
  {
    match item
    case Record(p) =>
      RecordAppends(s, p);
      ext := [Tagged(p, Top(s.stack))];
    case Nested(body, end) =>
      SavepointStarts(s);
      var s1 := Exec(FlatStep(s, Savepoint), body).0;
      var inner := ExecAppends(FlatStep(s, Savepoint), body);
      ext := EndAppends(s, s1, inner, Survivors(body), Stuck(body), end);
  }

  lemma {:induction false} ExecAppends<T>(s: Flat<T>, items: seq<Item<T>>) returns (ext: seq<Tagged<T>>)
    requires IsOpen(s)
    ensures var (s', out) := Exec(s, items);
      && Appends(s, s', ext, Survivors(items), Stuck(items))
      && multiset(out) == multiset(Prompt(items))
    decreases items
  {
    if items == [] {
      ext := [];
    } else {
      var first := ItemAppends(s, items[0]);
      var s1 := ExecItem(s, items[0]).0;
      AppendsKeeps(s, s1, first, Surviving(items[0]), StuckIn(items[0]));
      var rest := ExecAppends(s1, items[1..]);
      var s2 := Exec(s1, items[1..]).0;
      AppendsTwice(s, s1, s2, first, rest, Surviving(items[0]), Survivors(items[1..]),
                   StuckIn(items[0]), Stuck(items[1..]));
      ext := first + rest;
    }
  }

  /* ---- the results ---- */

  /** Exactly once: what is submitted for deletion is, with multiplicity, what the tree
      says is undone. */
  lemma {:induction false} UndoIsExact<T>(items: seq<Item<T>>, end: End)
    ensures var last := end == Aborts(true);
      multiset(Submitted(items, end)) == multiset(Undone(items, last, last))
  {
    var s: Flat<T> := Flat([], Started.0, Started.1);
    var ext := ExecAppends(s, items);
    var (s', out) := Exec(s, items);
    assert s'.log == ext;
    LiveSplits(ext, Top(s.stack));
    UndoneSplits(items, end == Aborts(true), end == Aborts(true));
  }

  /** With the worker present at every abort, an insert is submitted once if its own or
      an enclosing (sub)transaction aborts, and not at all otherwise. */
  lemma {:induction false} UndoExactlyOnce<T>(items: seq<Item<T>>, end: End)
    requires WorkerPresent(items) && end != Aborts(false)
    ensures multiset(Submitted(items, end)) == multiset(Doomed(items, end.Aborts?))
  {
    UndoIsExact(items, end);
    PresentUndoesDoomed(items, end.Aborts?, end.Aborts?);
  }

  /** Whatever its availability, a surviving insert is never deleted and no insert twice. */
  lemma {:induction false} UndoAtMostOnce<T>(items: seq<Item<T>>, end: End)
    ensures multiset(Submitted(items, end)) <= multiset(Doomed(items, end.Aborts?))
  {
    UndoIsExact(items, end);
    UndoneIsDoomed(items, end == Aborts(true), end.Aborts?, end == Aborts(true));
  }

  lemma {:induction false} DoomedInSplits<T>(item: Item<T>, aborts: bool)
    ensures multiset(DoomedIn(item, aborts))
         == multiset(PromptIn(item)) + multiset(StuckIn(item)) + multiset(if aborts then Surviving(item) else [])
    decreases item
  {
    match item
    case Record(p) =>
    case Nested(body, Commits) => DoomedSplits(body, aborts);
    case Nested(body, Aborts(_)) => DoomedSplits(body, true);
  }

  lemma {:induction false} DoomedSplits<T>(items: seq<Item<T>>, aborts: bool)
    ensures multiset(Doomed(items, aborts))
         == multiset(Prompt(items)) + multiset(Stuck(items)) + multiset(if aborts then Survivors(items) else [])
    decreases items
  {
    if items != [] {
      DoomedInSplits(items[0], aborts);
      DoomedSplits(items[1..], aborts);
    }
  }

  /** Every doomed insert is submitted if and only if the transaction aborts with the worker
      there, or no insert was left for an abort the worker missed: none inside a
      subtransaction, and none in the transaction itself. */
  lemma {:induction false} UndoIsCompleteExactly<T>(items: seq<Item<T>>, end: End)
    ensures multiset(Submitted(items, end)) == multiset(Doomed(items, end.Aborts?)) <==>
            end == Aborts(true) || (Stuck(items) == [] && (end == Aborts(false) ==> Survivors(items) == []))
  {
    UndoIsExact(items, end);
    UndoneSplits(items, end == Aborts(true), end == Aborts(true));
    DoomedSplits(items, end.Aborts?);
    Missing(multiset(Prompt(items)), multiset(Stuck(items)), multiset(Survivors(items)));
    assert Stuck(items) == [] <==> |multiset(Stuck(items))| == 0;
    assert Survivors(items) == [] <==> |multiset(Survivors(items))| == 0;
  }

  lemma Missing<T>(p: multiset<T>, s: multiset<T>, v: multiset<T>)
    ensures p == p + s <==> |s| == 0
    ensures p == p + s + v <==> |s| == 0 && |v| == 0
    ensures p + v == p + s + v <==> |s| == 0
  {
    assert |p + s| == |p| + |s| && |p + s + v| == |p| + |s| + |v| && |p + v| == |p| + |v|;
    if |s| == 0 { assert s == multiset{}; }
    if |v| == 0 { assert v == multiset{}; }
  }

  /** An abort the worker missed is not made up for when the transaction commits. */
  lemma MissedAbortIsLost<T>(p: T)
    ensures var items := [Nested([Record(p)], Aborts(false))];
      multiset(Submitted(items, Commits)) == multiset{} && multiset(Doomed(items, false)) == multiset{p}
  {
    var items := [Nested([Record(p)], Aborts(false))];
    UndoIsExact(items, Commits);
    var body := [Record(p)];
    assert items[1..] == [] && body[1..] == [];
    assert Undone(body, false, false) == [];
    assert Doomed(body, true) == [p];
  }
}
