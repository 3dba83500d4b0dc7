/** The parked-slot set: reaping, shrinking from the newest end, growing under the
    smallest free labels. */
module SlotSet {
  import opened Seqs

  datatype Slot = Slot(handle: nat, slotIndex: nat)

  /* ---- labels ---- */

  predicate Uses(slots: seq<Slot>, slotIndex: nat) { exists i :: 0 <= i < |slots| && slots[i].slotIndex == slotIndex }

  predicate DistinctLabels(slots: seq<Slot>) {
    forall i, j :: 0 <= i < j < |slots| ==> slots[i].slotIndex != slots[j].slotIndex
  }

  function Labels(slots: seq<Slot>): set<nat> { set s | s in slots :: s.slotIndex }

  function UpTo(n: nat): set<nat> { if n == 0 then {} else UpTo(n - 1) + {n} }

  lemma {:induction false} UpToIs(n: nat)
    ensures |UpTo(n)| == n && forall i :: i in UpTo(n) <==> 1 <= i <= n
  {
    if n > 0 { UpToIs(n - 1); }
  }

  lemma {:induction false} LabelsSize(slots: seq<Slot>)
    ensures |Labels(slots)| <= |slots|
  {
    if slots != [] {
      LabelsSize(slots[1..]);
      assert Labels(slots) == Labels(slots[1..]) + {slots[0].slotIndex} by {
        assert slots == [slots[0]] + slots[1..];
      }
    }
  }

  lemma SubsetSize(a: set<nat>, b: set<nat>)
    requires a <= b
    ensures |a| <= |b|
  {
    assert b == a + (b - a);
  }

  /** n slots leave a label free among 1..n+1. */
  lemma Pigeonhole(slots: seq<Slot>)
    ensures exists c :: 1 <= c <= |slots| + 1 && !Uses(slots, c)
  {
    UpToIs(|slots| + 1);
    LabelsSize(slots);
    if !(UpTo(|slots| + 1) <= Labels(slots)) {
      var c :| c in UpTo(|slots| + 1) && c !in Labels(slots);
      assert forall i :: 0 <= i < |slots| ==> slots[i] in slots;
      assert !Uses(slots, c);
    } else {
      SubsetSize(UpTo(|slots| + 1), Labels(slots));
      assert false;
    }
  }

  /** The smallest label from c on that no slot holds, looking no further than n+1. */
  function FreeFrom(slots: seq<Slot>, c: nat): (r: nat)
    requires c <= |slots| + 1
    ensures c <= r <= |slots| + 1 && forall b :: c <= b < r ==> Uses(slots, b)
    decreases |slots| + 1 - c
  {
    if c == |slots| + 1 || !Uses(slots, c) then c else FreeFrom(slots, c + 1)
  }

  function FreeLabel(slots: seq<Slot>): nat { FreeFrom(slots, 1) }

  lemma {:induction false} FreeFromIsFree(slots: seq<Slot>, c: nat)
    requires c <= |slots| + 1 && exists d :: c <= d <= |slots| + 1 && !Uses(slots, d)
    ensures !Uses(slots, FreeFrom(slots, c))
    decreases |slots| + 1 - c
  {
    if c <= |slots| && Uses(slots, c) {
      var d :| c <= d <= |slots| + 1 && !Uses(slots, d);
      assert c + 1 <= d;
      FreeFromIsFree(slots, c + 1);
    }
  }

  /** A new label is the smallest positive one no slot holds, and at most one more than
      their number. */
  lemma FreeLabelIsSmallest(slots: seq<Slot>)
    ensures var r := FreeLabel(slots);
      1 <= r <= |slots| + 1 && !Uses(slots, r) && forall b :: 1 <= b < r ==> Uses(slots, b)
  {
    Pigeonhole(slots);
    FreeFromIsFree(slots, 1);
  }

  /* ---- one resize, as values ---- */

  function Alive(dead: nat -> bool): Slot -> bool { (s: Slot) => !dead(s.handle) }

  /** Register slots until the target is reached or one does not start. Handles are
      numbered in order of registration attempts that start. */
  function Grow(slots: seq<Slot>, target: nat, next: nat, starts: nat -> bool): seq<Slot>
    decreases target - |slots|
  {
    if |slots| >= target || !starts(next) then slots
    else Grow(slots + [Slot(next, FreeLabel(slots))], target, next + 1, starts)
  }

  function Goal(target: int): nat { if target < 0 then 0 else target }

  function Resized(slots: seq<Slot>, target: int, dead: nat -> bool, next: nat, starts: nat -> bool): seq<Slot> {
    Fitted(Filter(slots, Alive(dead)), Goal(target), next, starts)
  }

  function Fitted(live: seq<Slot>, goal: nat, next: nat, starts: nat -> bool): seq<Slot> {
    if |live| > goal then live[..goal] else Grow(live, goal, next, starts)
  }

  lemma {:induction false} FilterKeepsLabels(slots: seq<Slot>, p: Slot -> bool)
    requires DistinctLabels(slots)
    ensures DistinctLabels(Filter(slots, p))
  {
    if slots != [] {
      FilterKeepsLabels(slots[1..], p);
      FilterMembers(slots[1..], p);
      var rest := Filter(slots[1..], p);
      forall i | 0 <= i < |rest| ensures rest[i].slotIndex != slots[0].slotIndex {
        assert rest[i] in rest;
      }
    }
  }

  /** Growing keeps what is there, ends at the target unless a slot fails to start, and
      gives every slot a label of its own, new ones within the target. */
  lemma {:induction false} GrowKeeps(slots: seq<Slot>, target: nat, next: nat, starts: nat -> bool)
    requires DistinctLabels(slots)
    ensures var r := Grow(slots, target, next, starts);
      && slots <= r && DistinctLabels(r) && |r| <= Max(target, |slots|)
      && (forall i :: |slots| <= i < |r| ==>
            1 <= r[i].slotIndex <= target && r[i].handle == next + i - |slots| && starts(r[i].handle))
      && (|r| < target ==> !starts(next + |r| - |slots|))
    decreases target - |slots|
  {
    if |slots| < target && starts(next) {
      FreeLabelIsSmallest(slots);
      GrowKeeps(slots + [Slot(next, FreeLabel(slots))], target, next + 1, starts);
    }
  }

  /** Fitting a set to a goal never ends above it, terminates nothing it could keep below
      it, and keeps labels distinct and survivors in order. */
  lemma FitKeeps(live: seq<Slot>, goal: nat, next: nat, starts: nat -> bool)
    requires DistinctLabels(live)
    ensures var r := Fitted(live, goal, next, starts);
      && DistinctLabels(r) && Min(|live|, goal) <= |r| <= goal
      && live[..Min(|live|, goal)] == r[..Min(|live|, goal)]
      && (|r| < goal ==> !starts(next + |r| - |live|))
      && (forall i :: |live| <= i < |r| ==> 1 <= r[i].slotIndex <= goal)
  {
    if |live| <= goal {
      GrowKeeps(live, goal, next, starts);
    }
  }

  /** And so does a resize, of the slots it finds alive. */
  lemma {:induction false} ResizeKeeps(slots: seq<Slot>, target: int, dead: nat -> bool, next: nat, starts: nat -> bool)
    requires DistinctLabels(slots)
    ensures var r := Resized(slots, target, dead, next, starts);
      DistinctLabels(r) && Min(|Filter(slots, Alive(dead))|, Max(0, target)) <= |r| <= Max(0, target)
  {
    FilterKeepsLabels(slots, Alive(dead));
    FitKeeps(Filter(slots, Alive(dead)), Goal(target), next, starts);
  }

  /** Every slot held after a resize is one held before whose worker has not died, or a new
      one that started; and unless more were alive than wanted, every slot whose worker has
      not died is still held. */
  lemma {:induction false} ResizeIsOfTheLiving(slots: seq<Slot>, target: int, dead: nat -> bool, next: nat, starts: nat -> bool)
    requires DistinctLabels(slots)
    ensures var r, live := Resized(slots, target, dead, next, starts), Filter(slots, Alive(dead));
      && (forall s :: s in r ==> (s in slots && !dead(s.handle)) || (s.handle >= next && starts(s.handle)))
      && (forall s :: s in slots && !dead(s.handle) && |r| > |live| ==> s in r)
      && (forall s :: s in slots && !dead(s.handle) && |live| <= Max(0, target) ==> s in r)
  {
    var r, live := Resized(slots, target, dead, next, starts), Filter(slots, Alive(dead));
    FilterMembers(slots, Alive(dead));
    FilterKeepsLabels(slots, Alive(dead));
    if |live| <= Goal(target) {
      GrowKeeps(live, Goal(target), next, starts);
      forall s | s in live ensures s in r {
        var i :| 0 <= i < |live| && live[i] == s;
        assert r[i] == s;
      }
      forall s | s in r ensures s in live || (s.handle >= next && starts(s.handle)) {
        var i :| 0 <= i < |r| && r[i] == s;
        if i < |live| { assert s == live[i]; }
      }
    }
  }

  /** A new slot takes the smallest label not in use when it is added. */
  lemma {:induction false} GrowLabels(slots: seq<Slot>, target: nat, next: nat, starts: nat -> bool, i: nat)
    requires DistinctLabels(slots) && |slots| <= i < |Grow(slots, target, next, starts)|
    ensures var r := Grow(slots, target, next, starts);
      r[i].slotIndex >= 1 && !Uses(r[..i], r[i].slotIndex) && forall b :: 1 <= b < r[i].slotIndex ==> Uses(r[..i], b)
    decreases target - |slots|
  {
    var more := slots + [Slot(next, FreeLabel(slots))];
    FreeLabelIsSmallest(slots);
    GrowKeeps(more, target, next + 1, starts);
    if i == |slots| {
      var r := Grow(slots, target, next, starts);
      assert r[..i] == slots && r[i] == more[i];
    } else {
      GrowLabels(more, target, next + 1, starts, i);
    }
  }

  datatype Resize = Resize(target: int, dead: nat -> bool, next: nat, starts: nat -> bool)

  function Run(slots: seq<Slot>, rs: seq<Resize>): seq<Slot>
    decreases |rs|
  {
    if rs == [] then slots
    else Run(Resized(slots, rs[0].target, rs[0].dead, rs[0].next, rs[0].starts), rs[1..])
  }

  /** Over any sequence of resizes and deaths the live labels are pairwise distinct and
      the set is no larger than the last target. */
  lemma {:induction false} RunKeeps(slots: seq<Slot>, rs: seq<Resize>)
    requires DistinctLabels(slots)
    ensures DistinctLabels(Run(slots, rs))
    ensures rs != [] ==> |Run(slots, rs)| <= Goal(rs[|rs| - 1].target)
    decreases |rs|
  {
    if rs != [] {
      var r := rs[0];
      ResizeKeeps(slots, r.target, r.dead, r.next, r.starts);
      RunKeeps(Resized(slots, r.target, r.dead, r.next, r.starts), rs[1..]);
    }
  }

  /** The handles terminated to shrink to a target: newest first. */
  function Ended(slots: seq<Slot>, target: nat): (r: seq<nat>)
    ensures |r| == Max(0, |slots| - target)
  {
    if |slots| <= target then [] else [slots[|slots| - 1].handle] + Ended(slots[..|slots| - 1], target)
  }

  /** Newest first, and only those beyond the target. */
  lemma {:induction false} EndedIs(slots: seq<Slot>, target: nat, k: nat)
    requires k < |Ended(slots, target)|
    ensures |slots| - 1 - k >= target && Ended(slots, target)[k] == slots[|slots| - 1 - k].handle
  {
    if k > 0 { EndedIs(slots[..|slots| - 1], target, k - 1); }
  }

  lemma {:induction false} EndedStep(log: seq<nat>, slots: seq<Slot>, target: nat)
    requires |slots| > target
    ensures log + Ended(slots, target) == (log + [slots[|slots| - 1].handle]) + Ended(slots[..|slots| - 1], target)
  {
    var last, rest := [slots[|slots| - 1].handle], Ended(slots[..|slots| - 1], target);
    assert log + (last + rest) == (log + last) + rest;
  }

  /* ---- the set ---- */

  class ParkedSlots {
    var entries: array?<Slot>
    var count: nat
    var inShortfall: bool
    /** Handles handed out, handles asked to stop in order, and shortfall messages. */
    var nextHandle: nat
    var terminated: seq<nat>
    var messages: nat

    ghost predicate Formed()
      reads this
    {
      if entries == null then count == 0 else count <= entries.Length
    }

    ghost function Slots(): seq<Slot>
      requires Formed()
      reads this, entries
    {
      if entries == null then [] else entries[..count]
    }

    ghost predicate Valid()
      reads this, entries
    {
      Formed() && DistinctLabels(Slots())
    }

    constructor ()
      ensures Valid() && Slots() == [] && !inShortfall && nextHandle == 0 && terminated == [] && messages == 0
    {
      entries, count, inShortfall := null, 0, false;
      nextHandle, terminated, messages := 0, [], 0;
    }

    method EnsureCapacity(needed: nat)
      requires Formed()
      modifies this`entries
      ensures Formed() && Slots() == old(Slots()) && (entries == old(entries) || fresh(entries))
      ensures needed > 0 ==> entries != null && needed <= entries.Length
    {
      var capacity := if entries == null then 0 else entries.Length;
      if needed <= capacity { return; }
      var newCapacity := Max(needed, Max(capacity * 2, 8));
      var grown, kept := new Slot[newCapacity], entries;
      if kept != null {
        for i := 0 to count
          invariant entries == kept && forall j :: 0 <= j < i ==> grown[j] == kept[j]
        {
          grown[i] := kept[i];
        }
        assert grown[..count] == kept[..count];
      }
      entries := grown;
    }

    /** Drop the entry at i, sliding the later ones down. */
    method RemoveAt(i: nat)
      requires Formed() && i < count
      modifies this`count, entries
      ensures Formed() && entries == old(entries) && count == old(count) - 1
      ensures Slots()[..i] == old(Slots())[..i] && Slots()[i..] == old(Slots())[i + 1..]
    {
      for j := i to count - 1
        invariant count == old(count)
        invariant forall k :: 0 <= k < i || j < k < count ==> entries[k] == old(entries[k])
        invariant forall k :: i <= k < j ==> entries[k] == old(entries[k + 1])
      {
        entries[j] := entries[j + 1];
      }
      count := count - 1;
      forall k | i <= k < count ensures Slots()[k] == old(Slots())[k + 1] {}
      assert Slots()[i..] == old(Slots())[i + 1..];
    }

    /** Forget the slots whose worker has stopped, keeping the order of the rest. */
    method ReapDeadSlots(dead: nat -> bool)
      requires Formed()
      modifies this`count, entries
      ensures Formed() && entries == old(entries) && Slots() == Filter(old(Slots()), Alive(dead))
    {
      var i: nat := 0;
      assert Slots()[..0] == [] && Slots()[0..] == Slots();
      while i < count
        invariant Formed() && entries == old(entries) && i <= count
        invariant Slots()[..i] + Filter(Slots()[i..], Alive(dead)) == Filter(old(Slots()), Alive(dead))
        decreases count - i
      {
        ghost var rest := Slots()[i..];
        ReapStep(Slots()[..i], rest, dead);
        assert rest[0] == entries[i] && rest[1..] == Slots()[i + 1..];
        if dead(entries[i].handle) {
          RemoveAt(i);
        } else {
          assert Slots()[..i + 1] == Slots()[..i] + [rest[0]];
          i := i + 1;
        }
      }
      assert Slots()[..i] == Slots() && Slots()[i..] == [];
    }

    method AllocateSlotIndex() returns (slotIndex: nat)
      requires Valid()
      ensures slotIndex == FreeLabel(Slots()) && 1 <= slotIndex <= count + 1 && !Uses(Slots(), slotIndex)
    {
      FreeLabelIsSmallest(Slots());
      slotIndex := 0;
      for candidate := 1 to count + 2
        invariant forall b :: 1 <= b < candidate ==> Uses(Slots(), b)
      {
        var inUse := false;
        for i := 0 to count
          invariant !inUse && forall j :: 0 <= j < i ==> entries[j].slotIndex != candidate
        {
          if entries[i].slotIndex == candidate {
            assert Slots()[i].slotIndex == candidate;
            inUse := true;
            break;
          }
        }
        if !inUse {
          assert !Uses(Slots(), candidate);
          return candidate;
        }
      }
      assert false;
    }

    /** Terminate from the newest end until the target is met. */
    method Shrink(target: nat)
      requires Formed() && count >= target
      modifies this`count, this`terminated
      ensures Formed() && Slots() == old(Slots())[..target]
      ensures terminated == old(terminated) + Ended(old(Slots()), target)
    {
      while count > target
        invariant Formed() && target <= count <= old(count) && Slots() == old(Slots())[..count]
        invariant terminated + Ended(Slots(), target) == old(terminated) + Ended(old(Slots()), target)
      {
        EndedStep(terminated, Slots(), target);
        assert Slots()[..count - 1] == entries[..count - 1];
        terminated := terminated + [entries[count - 1].handle];
        count := count - 1;
      }
    }

    method AddOne(slotIndex: nat)
      requires Formed() && entries != null && count < entries.Length
      modifies this`count, this`nextHandle, entries
      ensures Formed() && entries == old(entries) && nextHandle == old(nextHandle) + 1
      ensures Slots() == old(Slots()) + [Slot(old(nextHandle), slotIndex)]
    {
      entries[count] := Slot(nextHandle, slotIndex);
      nextHandle := nextHandle + 1;
      count := count + 1;
    }

    method GrowTo(target: nat, starts: nat -> bool)
      requires Valid()
      modifies this`entries, this`count, this`nextHandle, entries
      ensures Valid() && (entries == old(entries) || fresh(entries))
      ensures Slots() == Grow(old(Slots()), target, old(nextHandle), starts)
      ensures nextHandle - |Slots()| == old(nextHandle) - |old(Slots())|
    {
      while count < target
        invariant Valid() && (entries == old(entries) || fresh(entries))
        invariant Grow(Slots(), target, nextHandle, starts) == Grow(old(Slots()), target, old(nextHandle), starts)
        invariant nextHandle - |Slots()| == old(nextHandle) - |old(Slots())|
        decreases target - count
      {
        EnsureCapacity(count + 1);
        var slotIndex := AllocateSlotIndex();
        if !starts(nextHandle) { break; }
        AddOne(slotIndex);
      }
    }

    method LogShortfallTransition(target: nat)
      requires Valid()
      modifies this`inShortfall, this`messages
      ensures Valid() && Slots() == old(Slots())
      ensures inShortfall <==> count < target
      ensures messages == old(messages) + if inShortfall != old(inShortfall) then 1 else 0
    {
      var nowShort := count < target;
      if nowShort && !inShortfall {
        messages := messages + 1;
      } else if !nowShort && inShortfall {
        messages := messages + 1;
      }
      inShortfall := nowShort;
    }

    /** Shrink or grow the living slots to a goal. */
    method FitTo(goal: nat, starts: nat -> bool)
      requires Valid()
      modifies this`entries, this`count, this`nextHandle, this`terminated, entries
      ensures Valid() && (entries == old(entries) || fresh(entries))
      ensures Slots() == Fitted(old(Slots()), goal, old(nextHandle), starts)
      ensures terminated == old(terminated) + Ended(old(Slots()), goal)
      ensures nextHandle == old(nextHandle) + Max(0, |Slots()| - |old(Slots())|)
    {
      if count > goal {
        Shrink(goal);
      } else {
        GrowKeeps(Slots(), goal, nextHandle, starts);
      }
      GrowTo(goal, starts);
    }

    /** Resize to a target; a shortfall is reported only when it begins or ends. */
    method ResizeTo(target: int, dead: nat -> bool, starts: nat -> bool) returns (held: nat)
      requires Valid()
      modifies this, entries
      ensures Valid() && held == count && (entries == old(entries) || fresh(entries))
      ensures Slots() == Resized(old(Slots()), target, dead, old(nextHandle), starts)
      ensures terminated == old(terminated) + Ended(Filter(old(Slots()), Alive(dead)), Goal(target))
      ensures nextHandle == old(nextHandle) + Max(0, |Slots()| - |Filter(old(Slots()), Alive(dead))|)
      ensures inShortfall <==> count < Goal(target)
      ensures messages == old(messages) + if inShortfall != old(inShortfall) then 1 else 0
    {
      var goal := if target < 0 then 0 else target;
      FilterKeepsLabels(Slots(), Alive(dead));
      ReapDeadSlots(dead);
      FitTo(goal, starts);
      LogShortfallTransition(goal);
      held := count;
    }

    method ReleaseAll(dead: nat -> bool)
      requires Valid()
      modifies this, entries
      ensures Valid() && Slots() == [] && !inShortfall
      ensures terminated == old(terminated) + Ended(Filter(old(Slots()), Alive(dead)), 0)
    {
      var held := ResizeTo(0, dead, h => true);
    }

    method Count(dead: nat -> bool) returns (held: nat)
      requires Valid()
      modifies this`count, entries
      ensures Valid() && Slots() == Filter(old(Slots()), Alive(dead)) && held == |Slots()|
    {
      FilterKeepsLabels(Slots(), Alive(dead));
      ReapDeadSlots(dead);
      held := count;
    }
  }

  lemma {:induction false} ReapStep(front: seq<Slot>, rest: seq<Slot>, dead: nat -> bool)
    requires rest != []
    ensures front + Filter(rest, Alive(dead))
         == (if dead(rest[0].handle) then front else front + [rest[0]]) + Filter(rest[1..], Alive(dead))
  {
    var tail := Filter(rest[1..], Alive(dead));
    if dead(rest[0].handle) {
      assert Filter(rest, Alive(dead)) == [] + tail == tail;
    } else {
      assert Filter(rest, Alive(dead)) == [rest[0]] + tail;
      assert front + ([rest[0]] + tail) == (front + [rest[0]]) + tail;
    }
  }
}
