/** The forward and reverse TID maps of a cached index: built on load, changed by WAL
    replay and by forgetting an id. */
module TidMaps {
  /** The invalid item pointer that marks an empty slot of the forward map. */
  const InvalidTid: nat := 0
  const FIRST_CAPACITY: nat := 1024

  /** The forward map by external id, its reverse, the next id, and the counters. */
  datatype Maps = Maps(forward: seq<nat>, reverse: map<nat, nat>, next: nat, numVectors: nat, numDeleted: nat)

  datatype Change = Insert(tid: nat) | Delete(tid: nat)

  datatype Step = Replay(change: Change) | Forget(id: nat)

  /* ---- what the maps promise ---- */

  predicate Occupied(forward: seq<nat>, id: nat) { id < |forward| && forward[id] != InvalidTid }

  /** reverse[tid] = id exactly when forward[id] = tid and tid is valid. */
  ghost predicate Inverse(m: Maps) {
    forall tid: nat, id: nat :: (tid in m.reverse && m.reverse[tid] == id) <==> (Occupied(m.forward, id) && m.forward[id] == tid)
  }

  predicate Injective(forward: seq<nat>) {
    forall i, j :: 0 <= i < j < |forward| && forward[i] != InvalidTid ==> forward[i] != forward[j]
  }

  /** Every live id has been handed out. */
  ghost predicate Bounded(m: Maps) { forall id: nat :: Occupied(m.forward, id) ==> id < m.next }

  function LiveCount(forward: seq<nat>): nat {
    if forward == [] then 0
    else LiveCount(forward[..|forward| - 1]) + if forward[|forward| - 1] != InvalidTid then 1 else 0
  }

  ghost predicate Valid(m: Maps) {
    Inverse(m) && Bounded(m) && LiveCount(m.forward) <= m.numVectors
  }

  /* ---- load ---- */

  /** The reverse map as the load loop builds it: the smallest id wins. */
  function Reversed(forward: seq<nat>): map<nat, nat> {
    if forward == [] then map[]
    else
      var n := |forward| - 1;
      var m := Reversed(forward[..n]);
      if forward[n] == InvalidTid || forward[n] in m then m else m[forward[n] := n]
  }

  function Loaded(forward: seq<nat>, next: nat, numDeleted: nat): Maps {
    Maps(forward, Reversed(forward), next, LiveCount(forward), numDeleted)
  }

  lemma {:induction false} ReversedSound(forward: seq<nat>)
    ensures forall tid :: tid in Reversed(forward) ==>
        (Reversed(forward)[tid] < |forward| && forward[Reversed(forward)[tid]] == tid && tid != InvalidTid)
    ensures forall id: nat :: Occupied(forward, id) ==>
        (forward[id] in Reversed(forward) && Reversed(forward)[forward[id]] <= id)
  {
    if forward != [] {
      var n := |forward| - 1;
      ReversedSound(forward[..n]);
      forall id: nat | Occupied(forward, id)
        ensures forward[id] in Reversed(forward) && Reversed(forward)[forward[id]] <= id
      {
        if id < n { assert Occupied(forward[..n], id); }
      }
    }
  }

  /** A loaded map is its reverse's inverse exactly when no TID occurs twice in it. */
  lemma LoadIsInverse(forward: seq<nat>, next: nat, numDeleted: nat)
    ensures Inverse(Loaded(forward, next, numDeleted)) <==> Injective(forward)
  {
    ReversedSound(forward);
    var m := Loaded(forward, next, numDeleted);
    if Injective(forward) {
      forall tid: nat, id: nat | Occupied(forward, id) && forward[id] == tid
        ensures tid in m.reverse && m.reverse[tid] == id
      {
        assert Occupied(forward, m.reverse[tid]);
      }
    }
    if Inverse(m) {
      forall i, j | 0 <= i < j < |forward| && forward[i] != InvalidTid ensures forward[i] != forward[j] {
        assert Occupied(forward, i) && (forward[j] == forward[i] ==> Occupied(forward, j));
      }
    }
  }

  /** A map in which a TID stands twice loads into maps that are not inverse. No run from
      inverse maps saves such a map, since inverse maps are injective. */
  lemma RepeatedTidBreaksLoad(tid: nat, next: nat, numDeleted: nat)
    requires tid != InvalidTid
    ensures !Inverse(Loaded([tid, tid], next, numDeleted))
  {
    LoadIsInverse([tid, tid], next, numDeleted);
    var f := [tid, tid];
    assert f[0] == f[1];
  }

  lemma ReverseAt(m: Maps, id: nat)
    requires Inverse(m) && Occupied(m.forward, id)
    ensures m.forward[id] in m.reverse && m.reverse[m.forward[id]] == id
  {}

  lemma InverseInjective(m: Maps)
    requires Inverse(m)
    ensures Injective(m.forward)
  {
    forall i, j | 0 <= i < j < |m.forward| && m.forward[i] != InvalidTid ensures m.forward[i] != m.forward[j] {
      ReverseAt(m, i);
      if m.forward[j] == m.forward[i] { ReverseAt(m, j); }
    }
  }

  /** Saving and reloading brings everything back, but for the vector count, which is
      taken from the map again. */
  lemma ReloadRoundTrip(m: Maps)
    requires Inverse(m)
    ensures Loaded(m.forward, m.next, m.numDeleted) == m.(numVectors := LiveCount(m.forward))
  {
    InverseInjective(m);
    LoadIsInverse(m.forward, 0, 0);
    var r := Loaded(m.forward, m.next, m.numDeleted).reverse;
    forall tid: nat ensures tid in r <==> tid in m.reverse
      ensures tid in r ==> r[tid] == m.reverse[tid]
    {
      if tid in r { assert Occupied(m.forward, r[tid]) && m.forward[r[tid]] == tid; }
      if tid in m.reverse { assert Occupied(m.forward, m.reverse[tid]) && m.forward[m.reverse[tid]] == tid; }
    }
  }

  /* ---- replay and forget ---- */

  function Zeros(n: nat): (z: seq<nat>)
    ensures |z| == n && forall i :: 0 <= i < n ==> z[i] == InvalidTid
  {
    seq(n, i => InvalidTid)
  }

  function NewCapacity(capacity: nat, id: nat): nat {
    var doubled := if capacity > 0 then capacity * 2 else FIRST_CAPACITY;
    if doubled <= id then id + 1 else doubled
  }

  /** Room for an id, the new slots empty. */
  function Grown(forward: seq<nat>, id: nat): (r: seq<nat>)
    ensures id < |r| && forward <= r
    ensures forall i :: |forward| <= i < |r| ==> r[i] == InvalidTid
  {
    if id < |forward| then forward else forward + Zeros(NewCapacity(|forward|, id) - |forward|)
  }

  function Inserted(m: Maps, tid: nat): Maps {
    if tid in m.reverse then m
    else
      m.(forward := Grown(m.forward, m.next)[m.next := tid], reverse := m.reverse[tid := m.next],
         next := m.next + 1, numVectors := m.numVectors + 1)
  }

  function Deleted(m: Maps, tid: nat): Maps {
    if tid !in m.reverse then m
    else
      var id := m.reverse[tid];
      m.(forward := if id < |m.forward| then m.forward[id := InvalidTid] else m.forward,
         reverse := m.reverse - {tid}, numDeleted := m.numDeleted + 1,
         numVectors := if m.numVectors > 0 then m.numVectors - 1 else 0)
  }

  function Forgotten(m: Maps, id: nat): Maps {
    if !Occupied(m.forward, id) then m
    else m.(forward := m.forward[id := InvalidTid], reverse := m.reverse - {m.forward[id]})
  }

  function Take(m: Maps, s: Step): Maps {
    match s
    case Replay(Insert(tid)) => Inserted(m, tid)
    case Replay(Delete(tid)) => Deleted(m, tid)
    case Forget(id) => Forgotten(m, id)
  }

  function Run(m: Maps, ss: seq<Step>): Maps
    decreases |ss|
  {
    if ss == [] then m else Run(Take(m, ss[0]), ss[1..])
  }

  /** Only valid TIDs are ever inserted. */
  predicate Proper(s: Step) { s.Replay? && s.change.Insert? ==> s.change.tid != InvalidTid }

  /* ---- counting ---- */

  lemma {:induction false} LiveCountUpdate(f: seq<nat>, id: nat, x: nat)
    requires id < |f|
    ensures LiveCount(f[id := x]) == LiveCount(f) - (if f[id] != InvalidTid then 1 else 0) + (if x != InvalidTid then 1 else 0)
  {
    var n := |f| - 1;
    if id < n {
      LiveCountUpdate(f[..n], id, x);
      assert f[id := x][..n] == f[..n][id := x];
    } else {
      assert f[id := x][..n] == f[..n];
    }
  }

  lemma {:induction false} LiveCountPadded(f: seq<nat>, k: nat)
    ensures LiveCount(f + Zeros(k)) == LiveCount(f)
  {
    if k == 0 {
      assert f + Zeros(k) == f;
    } else {
      LiveCountPadded(f, k - 1);
      assert (f + Zeros(k))[..|f| + k - 1] == f + Zeros(k - 1);
    }
  }

  lemma {:induction false} LiveCountGrown(f: seq<nat>, id: nat)
    ensures LiveCount(Grown(f, id)) == LiveCount(f)
  {
    if id >= |f| { LiveCountPadded(f, NewCapacity(|f|, id) - |f|); }
  }

  lemma {:induction false} LiveCountPositive(f: seq<nat>, id: nat)
    requires Occupied(f, id)
    ensures LiveCount(f) > 0
  {
    if id < |f| - 1 { LiveCountPositive(f[..|f| - 1], id); }
  }

  /* ---- every step keeps the maps inverse ---- */

  lemma InsertedInverse(m: Maps, tid: nat)
    requires Valid(m) && tid != InvalidTid
    ensures Inverse(Inserted(m, tid)) && Bounded(Inserted(m, tid))
  {
    if tid !in m.reverse {
      var r := Inserted(m, tid);
      forall t: nat, id: nat
        ensures (t in r.reverse && r.reverse[t] == id) <==> (Occupied(r.forward, id) && r.forward[id] == t)
      {
        if id != m.next {
          assert Occupied(r.forward, id) <==> Occupied(m.forward, id);
          assert t == tid && Occupied(m.forward, id) && m.forward[id] == t ==> tid in m.reverse;
        } else {
          assert !Occupied(m.forward, id);
        }
      }
      forall id: nat | Occupied(r.forward, id) ensures id < r.next {
        if id != m.next { assert Occupied(m.forward, id); }
      }
    }
  }

  /** Clearing a live id on both sides. */
  lemma ClearedInverse(m: Maps, id: nat)
    requires Inverse(m) && Occupied(m.forward, id)
    ensures Inverse(m.(forward := m.forward[id := InvalidTid], reverse := m.reverse - {m.forward[id]}))
  {
    var tid, r := m.forward[id], m.(forward := m.forward[id := InvalidTid], reverse := m.reverse - {m.forward[id]});
    assert tid in m.reverse && m.reverse[tid] == id;
    forall t: nat, i: nat
      ensures (t in r.reverse && r.reverse[t] == i) <==> (Occupied(r.forward, i) && r.forward[i] == t)
    {
      if i != id { assert Occupied(r.forward, i) <==> Occupied(m.forward, i); }
    }
  }

  /** Every replayed change and every forget keeps the maps mutually inverse and below the
      next id; the vector count and the live count part only at a forget. */
  lemma TakeKeeps(m: Maps, s: Step)
    requires Valid(m) && Proper(s)
    ensures Valid(Take(m, s))
    ensures Take(m, s).numVectors - LiveCount(Take(m, s).forward)
         == m.numVectors - LiveCount(m.forward) + if s.Forget? && Occupied(m.forward, s.id) then 1 else 0
  {
    match s
    case Replay(Insert(tid)) =>
      InsertedInverse(m, tid);
      if tid !in m.reverse {
        LiveCountGrown(m.forward, m.next);
        assert Grown(m.forward, m.next)[m.next] == InvalidTid by { assert !Occupied(m.forward, m.next); }
        LiveCountUpdate(Grown(m.forward, m.next), m.next, tid);
      }
    case Replay(Delete(tid)) =>
      if tid in m.reverse {
        var id := m.reverse[tid];
        assert Occupied(m.forward, id) && m.forward[id] == tid;
        ClearedInverse(m, id);
        LiveCountUpdate(m.forward, id, InvalidTid);
        LiveCountPositive(m.forward, id);
        ClearedBounded(m, id);
      }
    case Forget(id) =>
      if Occupied(m.forward, id) {
        ClearedInverse(m, id);
        LiveCountUpdate(m.forward, id, InvalidTid);
        ClearedBounded(m, id);
      }
  }

  lemma ClearedBounded(m: Maps, id: nat)
    requires Bounded(m) && id < |m.forward|
    ensures Bounded(m.(forward := m.forward[id := InvalidTid]))
  {
    var r := m.(forward := m.forward[id := InvalidTid]);
    forall i: nat | Occupied(r.forward, i) ensures i < r.next {
      assert Occupied(m.forward, i);
    }
  }

  lemma {:induction false} RunKeeps(m: Maps, ss: seq<Step>)
    requires Valid(m) && forall s :: s in ss ==> Proper(s)
    ensures Valid(Run(m, ss)) && m.next <= Run(m, ss).next
    ensures (forall s :: s in ss ==> s.Replay?) && m.numVectors == LiveCount(m.forward) ==>
              Run(m, ss).numVectors == LiveCount(Run(m, ss).forward)
    decreases |ss|
  {
    if ss != [] {
      assert ss[0] in ss;
      TakeKeeps(m, ss[0]);
      RunKeeps(Take(m, ss[0]), ss[1..]);
    }
  }

  /** An id handed out keeps its TID or loses it; it never names another one. */
  lemma {:induction false} IdsNeverReused(m: Maps, ss: seq<Step>, id: nat)
    requires Valid(m) && id < m.next && forall s :: s in ss ==> Proper(s)
    ensures var f := Run(m, ss).forward;
      Occupied(f, id) ==> Occupied(m.forward, id) && f[id] == m.forward[id]
    decreases |ss|
  {
    if ss != [] {
      assert ss[0] in ss;
      TakeKeeps(m, ss[0]);
      IdsNeverReused(Take(m, ss[0]), ss[1..], id);
    }
  }

  /** Growing at least doubles the map, from 1024 slots, and no more unless the id needs it. */
  lemma GrowthDoubles(forward: seq<nat>, id: nat)
    ensures var n := |Grown(forward, id)|;
      if id < |forward| then Grown(forward, id) == forward
      else if forward == [] then n == (if id < 1024 then 1024 else id + 1)
      else n == if id < 2 * |forward| then 2 * |forward| else id + 1
  {}

  /** Forgetting an id touches no counter and hands out no id. */
  lemma ForgetKeepsCounts(m: Maps, id: nat)
    ensures var r := Take(m, Forget(id)); r.next == m.next && r.numDeleted == m.numDeleted && r.numVectors == m.numVectors
  {}

  /* ---- replay converges ---- */

  function Applied(live: set<nat>, c: Change): set<nat> {
    match c
    case Insert(tid) => live + {tid}
    case Delete(tid) => live - {tid}
  }

  function AppliedAll(live: set<nat>, log: seq<Change>): set<nat> {
    if log == [] then live else Applied(AppliedAll(live, log[..|log| - 1]), log[|log| - 1])
  }

  predicate Touches(log: seq<Change>, tid: nat) { exists i :: 0 <= i < |log| && log[i].tid == tid }

  /** Whether a TID is live afterwards depends on where the log starts only if the log
      never mentions it. */
  lemma {:induction false} LastChangeDecides(a: set<nat>, b: set<nat>, log: seq<Change>, tid: nat)
    requires Touches(log, tid) || (tid in a <==> tid in b)
    ensures tid in AppliedAll(a, log) <==> tid in AppliedAll(b, log)
  {
    if log != [] && log[|log| - 1].tid != tid {
      var n := |log| - 1;
      if Touches(log, tid) {
        var i :| 0 <= i < |log| && log[i].tid == tid;
        assert log[..n][i].tid == tid;
      }
      LastChangeDecides(a, b, log[..n], tid);
    }
  }

  lemma {:induction false} UntouchedStays(live: set<nat>, log: seq<Change>, tid: nat)
    requires !Touches(log, tid)
    ensures tid in AppliedAll(live, log) <==> tid in live
  {
    if log != [] {
      var n := |log| - 1;
      assert log[n].tid != tid;
      assert forall i :: 0 <= i < n ==> log[..n][i] == log[i];
      UntouchedStays(live, log[..n], tid);
    }
  }

  lemma {:induction false} AppliedConcat(live: set<nat>, a: seq<Change>, b: seq<Change>)
    ensures AppliedAll(live, a + b) == AppliedAll(AppliedAll(live, a), b)
  {
    if b == [] {
      assert a + b == a;
    } else {
      assert (a + b)[..|a + b| - 1] == a + b[..|b| - 1];
      AppliedConcat(live, a, b[..|b| - 1]);
    }
  }

  /** Replaying from an older point than the saved state ends where applying everything
      once does. */
  lemma {:induction false} OverlapIsHarmless(live: set<nat>, log: seq<Change>, c: nat, p: nat, e: nat)
    requires c <= p <= e <= |log|
    ensures AppliedAll(AppliedAll(live, log[..p]), log[c..e]) == AppliedAll(live, log[..e])
  {
    assert log[..e] == log[..c] + log[c..e] && log[..p] == log[..c] + log[c..p];
    AppliedConcat(live, log[..c], log[c..e]);
    AppliedConcat(live, log[..c], log[c..p]);
    var atC, atP := AppliedAll(live, log[..c]), AppliedAll(live, log[..p]);
    forall tid: nat ensures tid in AppliedAll(atP, log[c..e]) <==> tid in AppliedAll(atC, log[c..e]) {
      if !Touches(log[c..e], tid) {
        forall i | 0 <= i < p - c ensures log[c..p][i].tid != tid {
          assert log[c..e][i] == log[c..p][i];
        }
        UntouchedStays(atC, log[c..p], tid);
      }
      LastChangeDecides(atP, atC, log[c..e], tid);
    }
  }

  function Replays(log: seq<Change>): seq<Step> { seq(|log|, i requires 0 <= i < |log| => Replay(log[i])) }

  lemma TakeApplies(m: Maps, c: Change)
    ensures Take(m, Replay(c)).reverse.Keys == Applied(m.reverse.Keys, c)
  {}

  lemma {:induction false} RunApplies(m: Maps, log: seq<Change>)
    ensures Run(m, Replays(log)).reverse.Keys == AppliedAll(m.reverse.Keys, log)
    decreases |log|
  {
    if log != [] {
      TakeApplies(m, log[0]);
      assert Replays(log)[1..] == Replays(log[1..]);
      RunApplies(Take(m, Replay(log[0])), log[1..]);
      assert log == [log[0]] + log[1..];
      AppliedConcat(m.reverse.Keys, [log[0]], log[1..]);
      assert [log[0]][..0] == [];
      assert AppliedAll(m.reverse.Keys, [log[0]]) == Applied(m.reverse.Keys, log[0]);
    }
  }

  /** The TIDs a forward map holds. */
  function LiveTids(forward: seq<nat>): set<nat> { set tid | tid in forward && tid != InvalidTid }

  lemma LiveTidsAreKeys(m: Maps)
    requires Inverse(m)
    ensures LiveTids(m.forward) == m.reverse.Keys
  {
    forall tid: nat ensures tid in LiveTids(m.forward) <==> tid in m.reverse {
      if tid in LiveTids(m.forward) {
        var id :| 0 <= id < |m.forward| && m.forward[id] == tid;
        assert Occupied(m.forward, id);
        ReverseAt(m, id);
      }
      if tid in m.reverse { assert Occupied(m.forward, m.reverse[tid]) && m.forward[m.reverse[tid]] == tid; }
    }
  }

  lemma ReplaysProper(log: seq<Change>, c: nat, e: nat)
    requires c <= e <= |log| && forall x :: x in log && x.Insert? ==> x.tid != InvalidTid
    ensures forall s :: s in Replays(log[c..e]) ==> Proper(s)
  {
    forall s | s in Replays(log[c..e]) ensures Proper(s) {
      var i :| 0 <= i < e - c && s == Replay(log[c..e][i]);
      assert log[c..e][i] in log;
    }
  }

  /** Loading a saved map, with a next id no lower than the one it was saved at, is as good
      as having kept it. */
  lemma ReloadIsValid(m: Maps, next: nat)
    requires Valid(m) && next >= m.next
    ensures Valid(Loaded(m.forward, next, m.numDeleted))
  {
    ReloadRoundTrip(m);
    var r := Loaded(m.forward, next, m.numDeleted);
    forall id: nat | Occupied(r.forward, id) ensures id < r.next { assert Occupied(m.forward, id); }
  }

  /** How many changes of a log take effect: inserts of a TID that is not live, and deletes
      of one that is. */
  function Effective(live: set<nat>, log: seq<Change>, inserts: bool): nat {
    if log == [] then 0
    else
      var n := |log| - 1;
      var c := log[n];
      Effective(live, log[..n], inserts)
      + if c.Insert? == inserts && (c.tid in AppliedAll(live, log[..n])) == c.Delete? then 1 else 0
  }

  /** Replay hands out one id for each insert that takes effect, and counts each delete that
      does. */
  lemma {:induction false} ReplayCounts(m: Maps, log: seq<Change>)
    ensures var r := Run(m, Replays(log));
      && r.next == m.next + Effective(m.reverse.Keys, log, true)
      && r.numDeleted == m.numDeleted + Effective(m.reverse.Keys, log, false)
  {
    if log != [] {
      var n := |log| - 1;
      ReplayCounts(m, log[..n]);
      RunApplies(m, log[..n]);
      RunSnoc(m, log);
    }
  }

  lemma {:induction false} RunConcat(m: Maps, a: seq<Step>, b: seq<Step>)
    ensures Run(m, a + b) == Run(Run(m, a), b)
    decreases |a|
  {
    if a == [] {
      assert a + b == b;
    } else {
      assert (a + b)[0] == a[0] && (a + b)[1..] == a[1..] + b;
      RunConcat(Take(m, a[0]), a[1..], b);
    }
  }

  lemma {:induction false} RunSnoc(m: Maps, log: seq<Change>)
    requires log != []
    ensures var n := |log| - 1; Run(m, Replays(log)) == Take(Run(m, Replays(log[..n])), Replay(log[n]))
  {
    var n := |log| - 1;
    var last := [Replay(log[n])];
    assert Replays(log) == Replays(log[..n]) + last;
    RunConcat(m, Replays(log[..n]), last);
    assert last[1..] == [];
  }

  /** The map saved at p, loaded again with whatever next id the metapage has reached, and
      given the log again from an older confirmed point c, holds the same live TIDs at e as
      one that applied the log once; and if that next id is no lower than the saved one, as
      it never is, the maps are again valid and forward and reverse agree on them. */
  lemma {:induction false} ReplayConverges(m: Maps, log: seq<Change>, c: nat, p: nat, e: nat, next: nat)
    requires Valid(m) && c <= p <= e <= |log|
    requires forall x :: x in log && x.Insert? ==> x.tid != InvalidTid
    ensures var saved := Run(m, Replays(log[..p]));
      var again := Run(Loaded(saved.forward, next, saved.numDeleted), Replays(log[c..e]));
      var once := Run(m, Replays(log[..e]));
      && again.reverse.Keys == once.reverse.Keys
      && Valid(once) && LiveTids(once.forward) == once.reverse.Keys
      && (next >= saved.next ==> Valid(again) && LiveTids(again.forward) == LiveTids(once.forward))
  {
    var saved := Run(m, Replays(log[..p]));
    var reloaded := Loaded(saved.forward, next, saved.numDeleted);
    var once := Run(m, Replays(log[..e]));
    assert log[..p] == log[0..p] && log[..e] == log[0..e];
    ReplaysProper(log, 0, p);
    ReplaysProper(log, 0, e);
    ReplaysProper(log, c, e);
    RunKeeps(m, Replays(log[..p]));
    RunKeeps(m, Replays(log[..e]));
    ReloadRoundTrip(saved);
    RunApplies(m, log[..p]);
    RunApplies(reloaded, log[c..e]);
    RunApplies(m, log[..e]);
    OverlapIsHarmless(m.reverse.Keys, log, c, p, e);
    LiveTidsAreKeys(once);
    if next >= saved.next {
      ReloadIsValid(saved, next);
      RunKeeps(reloaded, Replays(log[c..e]));
      LiveTidsAreKeys(Run(reloaded, Replays(log[c..e])));
    }
  }
}
