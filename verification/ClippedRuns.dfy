/** Transactions against a log of limited size: what is left of one once the entries that
    find the log full have been refused. */
module ClippedRuns {
  import opened PendingArray
  import opened UndoRuns

  /** The transaction as far as the limit lets it: an entry that finds the log full is refused
      and leaves nothing behind. Also how many entries the log then holds. */
  function Clip<T>(items: seq<Item<T>>, held: nat, max: nat): (seq<Item<T>>, nat)
    decreases items
  {
    if items == [] then ([], held)
    else
      var (first, n) := ClipItem(items[0], held, max);
      var (rest, m) := Clip(items[1..], n, max);
      (first + rest, m)
  }

  function ClipItem<T>(item: Item<T>, held: nat, max: nat): (seq<Item<T>>, nat)
    decreases item
  {
    match item
    case Record(p) => if held < max then ([item], held + 1) else ([], held)
    case Nested(body, end) => var (inner, n) := Clip(body, held, max); ([Nested(inner, end)], n)
  }

  lemma {:induction false} ExecConcat<T>(s: Flat<T>, a: seq<Item<T>>, b: seq<Item<T>>)
    requires s.stack != []
    ensures var (s1, out1) := Exec(s, a); var (s2, out2) := Exec(s1, b);
      Exec(s, a + b) == (s2, out1 + out2)
    decreases a
  {
    if a == [] {
      assert a + b == b;
      assert [] + Exec(s, b).1 == Exec(s, b).1;
    } else {
      assert (a + b)[0] == a[0] && (a + b)[1..] == a[1..] + b;
      var (s1, out1) := ExecItem(s, a[0]);
      ExecConcat(s1, a[1..], b);
      var (s2, out2) := Exec(s1, a[1..]);
      assert out1 + (out2 + Exec(s2, b).1) == (out1 + out2) + Exec(s2, b).1;
    }
  }

  lemma {:induction false} ExecOne<T>(s: Flat<T>, item: Item<T>)
    requires s.stack != []
    ensures Exec(s, [item]) == ExecItem(s, item)
  {
    assert [item][1..] == [];
    assert ExecItem(s, item).1 + [] == ExecItem(s, item).1;
  }

  /** Nothing is removed from the log while the transaction runs, and it never passes the
      limit: its length is what the clipped transaction says. */
  lemma {:induction false} ExecLength<T>(s: Flat<T>, items: seq<Item<T>>, max: nat)
    requires s.stack != []
    ensures |Exec(s, Clip(items, |s.log|, max).0).0.log| == Clip(items, |s.log|, max).1
    ensures |s.log| <= max ==> Clip(items, |s.log|, max).1 <= max
    decreases items
  {
    if items != [] {
      var first := ClipItem(items[0], |s.log|, max).0;
      ItemLength(s, items[0], max);
      var s1 := Exec(s, first).0;
      ExecLength(s1, items[1..], max);
      ExecConcat(s, first, Clip(items[1..], |s1.log|, max).0);
    }
  }

  lemma {:induction false} ItemLength<T>(s: Flat<T>, item: Item<T>, max: nat)
    requires s.stack != []
    ensures |Exec(s, ClipItem(item, |s.log|, max).0).0.log| == ClipItem(item, |s.log|, max).1
    ensures |s.log| <= max ==> ClipItem(item, |s.log|, max).1 <= max
    decreases item
  {
    match item
    case Record(p) => ExecOne(s, item);
    case Nested(body, end) =>
      ExecLength(FlatStep(s, Savepoint), body, max);
      ExecOne(s, Nested(Clip(body, |s.log|, max).0, end));
  }

  /** What a run under the limit comes to. */
  ghost function Admitted<T>(s: Flat<T>, items: seq<Item<T>>, max: nat): (r: (Flat<T>, seq<T>))
    requires s.stack != []
    ensures r.0.stack == s.stack
  {
    Exec(s, Clip(items, |s.log|, max).0)
  }

  ghost function AdmittedItem<T>(s: Flat<T>, item: Item<T>, max: nat): (r: (Flat<T>, seq<T>))
    requires s.stack != []
    ensures r.0.stack == s.stack
  {
    Exec(s, ClipItem(item, |s.log|, max).0)
  }

  lemma AdmittedStep<T>(s: Flat<T>, items: seq<Item<T>>, max: nat)
    requires s.stack != [] && items != []
    ensures var (s1, out1) := AdmittedItem(s, items[0], max); var (s2, out2) := Admitted(s1, items[1..], max);
      Admitted(s, items, max) == (s2, out1 + out2)
  {
    var first := ClipItem(items[0], |s.log|, max).0;
    ItemLength(s, items[0], max);
    ExecConcat(s, first, Clip(items[1..], |Exec(s, first).0.log|, max).0);
  }

  lemma AdmittedNested<T>(s: Flat<T>, body: seq<Item<T>>, end: End, max: nat)
    requires s.stack != []
    ensures var (s1, out1) := Admitted(FlatStep(s, Savepoint), body, max); var (s2, out2) := EndSub(s1, end);
      AdmittedItem(s, Nested(body, end), max) == (s2, out1 + out2)
  {
    ExecOne(s, Nested(Clip(body, |s.log|, max).0, end));
  }

  function Records<T>(items: seq<Item<T>>): nat
    decreases items
  {
    if items == [] then 0 else RecordsIn(items[0]) + Records(items[1..])
  }

  function RecordsIn<T>(item: Item<T>): nat
    decreases item
  {
    if item.Record? then 1 else Records(item.body)
  }

  /** Within the limit nothing is refused. */
  lemma {:induction false} NothingClipped<T>(items: seq<Item<T>>, held: nat, max: nat)
    requires held + Records(items) <= max
    ensures Clip(items, held, max) == (items, held + Records(items))
    decreases items, 0
  {
    if items != [] {
      NoItemClipped(items[0], held, max);
      NothingClipped(items[1..], held + RecordsIn(items[0]), max);
      assert [items[0]] + items[1..] == items;
    }
  }

  lemma {:induction false} NoItemClipped<T>(item: Item<T>, held: nat, max: nat)
    requires held + RecordsIn(item) <= max
    ensures ClipItem(item, held, max) == ([item], held + RecordsIn(item))
    decreases item
  {
    if item.Nested? { NothingClipped(item.body, held, max); }
  }

  /** Refusing entries leaves every savepoint as it was. */
  lemma {:induction false} ClipKeepsPresence<T>(items: seq<Item<T>>, held: nat, max: nat)
    requires WorkerPresent(items)
    ensures WorkerPresent(Clip(items, held, max).0)
    decreases items
  {
    if items != [] {
      var (first, n) := ClipItem(items[0], held, max);
      if items[0].Nested? { ClipKeepsPresence(items[0].body, held, max); }
      ClipKeepsPresence(items[1..], n, max);
      if first != [] {
        var rest := Clip(items[1..], n, max).0;
        assert (first + rest)[0] == first[0] && (first + rest)[1..] == rest;
      } else {
        assert first + Clip(items[1..], n, max).0 == Clip(items[1..], n, max).0;
      }
    }
  }
}
