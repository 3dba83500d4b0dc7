/** The worker's replication-slot catch-up: one index per call, round robin, with a cap
    on deferring to saves and a per-index backoff. */
module CatchUp {
  import opened Common
  import opened Seqs

  const INTERVAL_MS: int := 1000
  const MAX_SAVE_DEFERS: nat := 5
  const BACKOFF_FIRST_MS: int := 1000
  const BACKOFF_CEILING_MS: int := 60000

  /** What a catch-up slice on an index comes to. */
  datatype Slice = Refused | Advanced | Stalled

  datatype Cache = Cache(hasSlot: bool, nextAttempt: int, backoffMs: int)

  datatype Sched = Sched(last: nat, next: int, defers: nat)

  /** One call: the clock in microseconds, whether a save just ran, the cached indexes,
      and which of them a slice would be taken on. */
  datatype Call = Call(now: int, saved: bool, relids: seq<nat>, acquirable: nat -> bool)

  /* ---- round robin ---- */

  function IndexOf(relids: seq<nat>, r: nat): (i: Option<nat>)
    ensures i.Some? ==> i.value < |relids| && relids[i.value] == r
    ensures i.None? <==> r !in relids
  {
    if relids == [] then None
    else if relids[0] == r then Some(0)
    else var i := IndexOf(relids[1..], r); if i.Some? then Some(i.value + 1) else None
  }

  /** a + b modulo n, for offsets below n. */
  function Wrap(a: nat, b: nat, n: nat): (r: nat)
    requires a < n && b <= n
    ensures r < n
  {
    if a + b < n then a + b else a + b - n
  }

  lemma RemainderIs(x: int, n: int, r: int)
    requires 0 <= r < n && (x == r || x == r + n)
    ensures x % n == r
  {
    if x == r + n { assert x == 1 * n + r; }
  }

  lemma WrapIsRemainder(a: nat, b: nat, n: nat)
    requires a < n && b <= n
    ensures (a + b) % n == Wrap(a, b, n)
  {
    RemainderIs(a + b, n, Wrap(a, b, n));
  }

  /** The index after the one served last, or the first. */
  function StartOf(relids: seq<nat>, last: nat): (i: nat)
    requires relids != []
    ensures i < |relids|
  {
    var at := IndexOf(relids, last);
    if last == InvalidOid || at.None? then 0 else Wrap(at.value, 1, |relids|)
  }

  /** The fewest steps from start, at least t of them, to an acquirable index. */
  function FirstFrom(relids: seq<nat>, start: nat, t: nat, acquirable: nat -> bool): (r: Option<nat>)
    requires start < |relids| && t <= |relids|
    ensures r.Some? ==> t <= r.value < |relids| && acquirable(relids[Wrap(start, r.value, |relids|)])
    ensures forall u :: t <= u < (if r.Some? then r.value else |relids|) ==> !acquirable(relids[Wrap(start, u, |relids|)])
    decreases |relids| - t
  {
    if t == |relids| then None
    else if acquirable(relids[Wrap(start, t, |relids|)]) then Some(t)
    else FirstFrom(relids, start, t + 1, acquirable)
  }

  function Pick(relids: seq<nat>, last: nat, acquirable: nat -> bool): Option<nat>
    requires relids != []
  {
    var start := StartOf(relids, last);
    var t := FirstFrom(relids, start, 0, acquirable);
    if t.None? then None else Some(relids[Wrap(start, t.value, |relids|)])
  }

  predicate Due(s: Sched, c: Call) { s.next == 0 || s.next <= c.now }

  predicate Defers(s: Sched, c: Call) { Due(s, c) && c.saved && s.defers < MAX_SAVE_DEFERS }

  function Served(s: Sched, c: Call): Option<nat> {
    if !Due(s, c) || Defers(s, c) || c.relids == [] then None else Pick(c.relids, s.last, c.acquirable)
  }

  function Step(s: Sched, c: Call): Sched {
    var later := c.now + INTERVAL_MS * 1000;
    if !Due(s, c) then s
    else if Defers(s, c) then s.(defers := s.defers + 1, next := later)
    else if c.relids == [] then s.(defers := 0)
    else Sched(if Served(s, c).Some? then Served(s, c).value else s.last, later, 0)
  }

  function Run(s: Sched, cs: seq<Call>): Sched
    decreases |cs|
  {
    if cs == [] then s else Run(Step(s, cs[0]), cs[1..])
  }

  /* ---- no index starves ---- */

  /** Steps from where the next slice starts looking to an index. */
  function Distance(relids: seq<nat>, last: nat, x: nat): (d: nat)
    requires x in relids
    ensures d < |relids| && relids[Wrap(StartOf(relids, last), d, |relids|)] == x
  {
    var at, start := IndexOf(relids, x).value, StartOf(relids, last);
    if at >= start then at - start else at + |relids| - start
  }

  lemma {:induction false} IndexOfAt(relids: seq<nat>, i: nat)
    requires Distinct(relids) && i < |relids|
    ensures IndexOf(relids, relids[i]) == Some(i)
  {
    var j := IndexOf(relids, relids[i]).value;
    assert relids[j] == relids[i];
  }

  /** Serving another index brings x strictly closer. */
  lemma CloserToNext(relids: seq<nat>, last: nat, acquirable: nat -> bool, x: nat)
    requires Distinct(relids) && InvalidOid !in relids && x in relids && acquirable(x)
    ensures var y := Pick(relids, last, acquirable);
      y.Some? && y.value in relids && (y.value != x ==> Distance(relids, y.value, x) < Distance(relids, last, x))
  {
    var start, d, n := StartOf(relids, last), Distance(relids, last, x), |relids|;
    var t := FirstFrom(relids, start, 0, acquirable);
    assert t.Some? && t.value <= d;
    var iy := Wrap(start, t.value, n);
    IndexOfAt(relids, iy);
    IndexOfAt(relids, Wrap(start, d, n));
  }

  /** An upper bound on the due calls until x is served. */
  function Patience(s: Sched, relids: seq<nat>, x: nat): int
    requires x in relids
  {
    (MAX_SAVE_DEFERS + 1) * Distance(relids, s.last, x) + Max(0, MAX_SAVE_DEFERS - s.defers)
  }

  /** The cached list is stable and x can be taken whenever it is asked for. */
  predicate Wants(c: Call, relids: seq<nat>, x: nat) { c.relids == relids && c.acquirable(x) }

  predicate ServedBy(s: Sched, cs: seq<Call>, x: nat)
    decreases |cs|
  {
    cs != [] && (Served(s, cs[0]) == Some(x) || ServedBy(Step(s, cs[0]), cs[1..], x))
  }

  function DueCalls(s: Sched, cs: seq<Call>): nat
    decreases |cs|
  {
    if cs == [] then 0 else (if Due(s, cs[0]) then 1 else 0) + DueCalls(Step(s, cs[0]), cs[1..])
  }

  function ServingCalls(s: Sched, cs: seq<Call>): nat
    decreases |cs|
  {
    if cs == [] then 0
    else (if Served(s, cs[0]).Some? then 1 else 0) + ServingCalls(Step(s, cs[0]), cs[1..])
  }

  lemma StepIsPatient(s: Sched, c: Call, relids: seq<nat>, x: nat)
    requires Distinct(relids) && InvalidOid !in relids && x in relids && Wants(c, relids, x)
    ensures var s' := Step(s, c);
      && (Served(s, c).None? ==> Distance(relids, s'.last, x) == Distance(relids, s.last, x))
      && (Served(s, c) == Some(x)
          || (Served(s, c).Some? ==> Distance(relids, s'.last, x) < Distance(relids, s.last, x)))
      && (Served(s, c) == Some(x) || (Due(s, c) ==> Patience(s', relids, x) < Patience(s, relids, x)))
      && (!Due(s, c) ==> s' == s)
  {
    CloserToNext(relids, s.last, c.acquirable, x);
  }

  /** With n cached indexes, an index that stays eligible and acquirable is served within
      n calls that serve anything. */
  lemma {:induction false} ServedWithinTurns(s: Sched, cs: seq<Call>, relids: seq<nat>, x: nat)
    requires Distinct(relids) && InvalidOid !in relids && x in relids
    requires forall c :: c in cs ==> Wants(c, relids, x)
    requires ServingCalls(s, cs) > Distance(relids, s.last, x)
    ensures ServedBy(s, cs, x)
    decreases |cs|
  {
    assert cs[0] in cs;
    StepIsPatient(s, cs[0], relids, x);
    if Served(s, cs[0]) != Some(x) {
      ServedWithinTurns(Step(s, cs[0]), cs[1..], relids, x);
    }
  }

  /** And within six calls per index that come when one is due, however saves land. */
  lemma {:induction false} ServedWithinDueCalls(s: Sched, cs: seq<Call>, relids: seq<nat>, x: nat)
    requires Distinct(relids) && InvalidOid !in relids && x in relids
    requires forall c :: c in cs ==> Wants(c, relids, x)
    requires DueCalls(s, cs) > Patience(s, relids, x)
    ensures ServedBy(s, cs, x)
    decreases |cs|
  {
    assert cs[0] in cs;
    StepIsPatient(s, cs[0], relids, x);
    if Served(s, cs[0]) != Some(x) {
      ServedWithinDueCalls(Step(s, cs[0]), cs[1..], relids, x);
    }
  }

  lemma {:induction false} NoStarvation(s: Sched, cs: seq<Call>, relids: seq<nat>, x: nat)
    requires Distinct(relids) && InvalidOid !in relids && x in relids
    requires forall c :: c in cs ==> Wants(c, relids, x)
    ensures ServingCalls(s, cs) >= |relids| ==> ServedBy(s, cs, x)
    ensures DueCalls(s, cs) >= 6 * |relids| ==> ServedBy(s, cs, x)
  {
    var d := Distance(relids, s.last, x);
    if ServingCalls(s, cs) >= |relids| { ServedWithinTurns(s, cs, relids, x); }
    if DueCalls(s, cs) >= 6 * |relids| { ServedWithinDueCalls(s, cs, relids, x); }
  }

  /** How many calls of a run give way to a save. */
  function Deferrals(s: Sched, cs: seq<Call>): nat
    decreases |cs|
  {
    if cs == [] then 0 else (if Defers(s, cs[0]) then 1 else 0) + Deferrals(Step(s, cs[0]), cs[1..])
  }

  /** No more than five opportunities in a row go to saves: in any run, with any calls that
      come too early in between, of whose due calls each gives way to a save. */
  lemma {:induction false} DefersAreCapped(s: Sched, cs: seq<Call>)
    requires s.defers <= 5 && Deferrals(s, cs) == DueCalls(s, cs)
    ensures DueCalls(s, cs) + s.defers <= 5
    decreases |cs|
  {
    if cs != [] {
      DefersWithinDue(Step(s, cs[0]), cs[1..]);
      DefersAreCapped(Step(s, cs[0]), cs[1..]);
    }
  }

  lemma {:induction false} DefersWithinDue(s: Sched, cs: seq<Call>)
    ensures Deferrals(s, cs) <= DueCalls(s, cs)
    decreases |cs|
  {
    if cs != [] { DefersWithinDue(Step(s, cs[0]), cs[1..]); }
  }

  /** A due call serves something exactly when it does not give way to a save and some
      cached index can be taken; a save is given way to exactly when one just ran and fewer
      than five opportunities in a row have gone to saves. */
  lemma ServesWhenItCan(s: Sched, c: Call)
    ensures Served(s, c).Some? <==>
      && (s.next == 0 || s.next <= c.now) && !(c.saved && s.defers < 5)
      && exists r :: r in c.relids && c.acquirable(r)
    ensures Served(s, c).Some? ==> Served(s, c).value in c.relids && c.acquirable(Served(s, c).value)
  {
    if c.relids != [] {
      var start, n := StartOf(c.relids, s.last), |c.relids|;
      var t := FirstFrom(c.relids, start, 0, c.acquirable);
      if r :| r in c.relids && c.acquirable(r) {
        var at := IndexOf(c.relids, r).value;
        var u := if at >= start then at - start else at + n - start;
        assert c.relids[Wrap(start, u, n)] == r;
      }
    }
  }

  /** After a call that deferred or looked for something to serve, the next opportunity
      comes a full second later; a call that came too early, or found no index cached,
      leaves the time of the next one alone. */
  lemma OpportunitiesAreSpaced(s: Sched, c: Call, later: Call)
    requires c.now >= 0
    ensures var acts := (s.next == 0 || s.next <= c.now) && ((c.saved && s.defers < 5) || c.relids != []);
      if acts then Due(Step(s, c), later) <==> later.now >= c.now + 1_000_000
      else Due(Step(s, c), later) <==> Due(s, later)
  {}

  /** Saves that find room for it under the cap all defer. */
  lemma {:induction false} SavesDefer(s: Sched, cs: seq<Call>)
    requires s.defers + DueCalls(s, cs) <= 5 && forall k :: 0 <= k < |cs| ==> cs[k].saved
    ensures Deferrals(s, cs) == DueCalls(s, cs)
    decreases |cs|
  {
    if cs != [] { SavesDefer(Step(s, cs[0]), cs[1..]); }
  }

  /** Any opportunity not given to a save, even one with nothing to serve, lets five more
      saves defer: the cap is on deferrals in a row. */
  lemma {:induction false} CapIsInARow(s: Sched, c: Call, cs: seq<Call>)
    requires (s.next == 0 || s.next <= c.now) && (!c.saved || s.defers >= 5)
    requires DueCalls(Step(s, c), cs) <= 5 && forall k :: 0 <= k < |cs| ==> cs[k].saved
    ensures Deferrals(Step(s, c), cs) == DueCalls(Step(s, c), cs)
  {
    SavesDefer(Step(s, c), cs);
  }

  /* ---- backoff ---- */

  function NextBackoff(b: int): int {
    if b == 0 then BACKOFF_FIRST_MS else Min(b * 2, BACKOFF_CEILING_MS)
  }

  function Pow2(k: nat): nat { if k == 0 then 1 else 2 * Pow2(k - 1) }

  /** The backoff after so many stalled slices with no progress between them. */
  function BackoffAfter(stalls: nat): int {
    if stalls == 0 then 0 else Min(BACKOFF_FIRST_MS * Pow2(stalls - 1), BACKOFF_CEILING_MS)
  }

  lemma {:induction false} Pow2Positive(k: nat)
    ensures Pow2(k) >= 1
  {
    if k > 0 { Pow2Positive(k - 1); }
  }

  /** Doubling with a cap is exponential with a cap. */
  lemma BackoffDoubles(stalls: nat)
    ensures NextBackoff(BackoffAfter(stalls)) == BackoffAfter(stalls + 1)
    ensures BackoffAfter(stalls + 1) == Min(1_000 * Pow2(stalls), 60_000) >= 1_000
  {
    Pow2Positive(stalls);
    if stalls > 0 { Pow2Positive(stalls - 1); }
  }

  /* ---- the call ---- */

  function Eligible(caches: map<nat, Cache>, now: int, slice: nat -> Slice): nat -> bool {
    (r: nat) =>
      r in caches && caches[r].hasSlot && (caches[r].nextAttempt == 0 || caches[r].nextAttempt <= now)
      && slice(r) != Refused
  }

  function Charged(c: Cache, slice: Slice, now: int): Cache {
    if slice == Advanced then c.(backoffMs := 0, nextAttempt := 0)
    else c.(backoffMs := NextBackoff(c.backoffMs), nextAttempt := now + NextBackoff(c.backoffMs) * 1000)
  }

  /** One turn of the worker's loop: what it sees, and what a slice on each index would
      come to. */
  datatype Turn = Turn(now: int, saved: bool, relids: seq<nat>, slice: nat -> Slice)

  function CallOf(caches: map<nat, Cache>, t: Turn): Call {
    Call(t.now, t.saved, t.relids, Eligible(caches, t.now, t.slice))
  }

  function CachesAfter(s: Sched, caches: map<nat, Cache>, t: Turn): map<nat, Cache> {
    var served := Served(s, CallOf(caches, t));
    if served.None? || served.value !in caches then caches
    else caches[served.value := Charged(caches[served.value], t.slice(served.value), t.now)]
  }

  /** The calls a history of turns comes to, as each turn's backoffs make them. */
  function CallsOf(s: Sched, caches: map<nat, Cache>, h: seq<Turn>): seq<Call>
    decreases |h|
  {
    if h == [] then []
    else
      var c := CallOf(caches, h[0]);
      [c] + CallsOf(Step(s, c), CachesAfter(s, caches, h[0]), h[1..])
  }

  lemma {:induction false} TurnUnfolds(s: Sched, caches: map<nat, Cache>, h: seq<Turn>)
    requires h != []
    ensures var c, cs := CallOf(caches, h[0]), CallsOf(s, caches, h);
      var rest := CallsOf(Step(s, c), CachesAfter(s, caches, h[0]), h[1..]);
      && Run(s, cs) == Run(Step(s, c), rest)
      && forall x: nat :: ServedBy(s, cs, x) <==> Served(s, c) == Some(x) || ServedBy(Step(s, c), rest, x)
  {
    var c, cs := CallOf(caches, h[0]), CallsOf(s, caches, h);
    assert cs[0] == c && cs[1..] == CallsOf(Step(s, c), CachesAfter(s, caches, h[0]), h[1..]);
  }

  /** While an index's next attempt lies ahead, no turn serves it. */
  lemma {:induction false} BackoffHolds(s: Sched, caches: map<nat, Cache>, h: seq<Turn>, x: nat)
    requires x in caches && caches[x].nextAttempt != 0
    requires forall k :: 0 <= k < |h| ==> h[k].now < caches[x].nextAttempt
    ensures !ServedBy(s, CallsOf(s, caches, h), x)
    decreases |h|
  {
    if h != [] {
      var c := CallOf(caches, h[0]);
      var caches' := CachesAfter(s, caches, h[0]);
      ServesWhenItCan(s, c);
      TurnUnfolds(s, caches, h);
      assert Served(s, c) != Some(x) && caches'[x] == caches[x];
      BackoffHolds(Step(s, c), caches', h[1..], x);
    }
  }

  /** A slice that stalls for the k-th time since the index last progressed keeps it from
      being served for a second, doubled for each earlier stall, and a minute at most. */
  lemma {:induction false} StalledIndexWaits(s: Sched, caches: map<nat, Cache>, t: Turn, h: seq<Turn>, x: nat, k: nat)
    requires x in caches && caches[x].backoffMs == BackoffAfter(k) && t.now >= 0
    requires Served(s, CallOf(caches, t)) == Some(x) && t.slice(x) == Stalled
    requires forall j :: 0 <= j < |h| ==> h[j].now < t.now + Min(1_000 * Pow2(k), 60_000) * 1_000
    ensures !ServedBy(Step(s, CallOf(caches, t)), CallsOf(Step(s, CallOf(caches, t)), CachesAfter(s, caches, t), h), x)
    ensures x in CachesAfter(s, caches, t) && CachesAfter(s, caches, t)[x].backoffMs == BackoffAfter(k + 1)
  {
    BackoffDoubles(k);
    Pow2Positive(k);
    BackoffHolds(Step(s, CallOf(caches, t)), CachesAfter(s, caches, t), h, x);
  }

  /** A slice that makes progress leaves the index free to be served again at once. */
  lemma ProgressClearsBackoff(s: Sched, caches: map<nat, Cache>, t: Turn, x: nat)
    requires x in caches && Served(s, CallOf(caches, t)) == Some(x) && t.slice(x) == Advanced
    ensures var c := CachesAfter(s, caches, t)[x]; c == Cache(caches[x].hasSlot, 0, 0)
  {}

  /** A due call left free by saves serves exactly when some cached index has a slot, is past
      its backoff, and lets its slot be taken. */
  lemma TurnServes(s: Sched, caches: map<nat, Cache>, t: Turn)
    ensures Served(s, CallOf(caches, t)).Some? <==>
      && (s.next == 0 || s.next <= t.now) && !(t.saved && s.defers < 5)
      && exists r :: r in t.relids && r in caches && caches[r].hasSlot
           && (caches[r].nextAttempt == 0 || t.now >= caches[r].nextAttempt) && t.slice(r) != Refused
  {
    ServesWhenItCan(s, CallOf(caches, t));
    assert forall r: nat :: Eligible(caches, t.now, t.slice)(r) ==> r in caches;
  }

  /** Only an index with a slot, past its backoff, whose slot can be taken is served. */
  lemma ServedIsEligible(s: Sched, caches: map<nat, Cache>, t: Turn, x: nat)
    requires Served(s, CallOf(caches, t)) == Some(x)
    ensures x in caches && caches[x].hasSlot && (caches[x].nextAttempt == 0 || caches[x].nextAttempt <= t.now)
    ensures t.slice(x) != Refused
  {
    ServesWhenItCan(s, CallOf(caches, t));
  }

  class SlotScheduler {
    var roundRobinRelid: nat
    var nextCatchUpAttempt: int
    var consecutiveSaveDefers: nat
    var caches: map<nat, Cache>
    /** Stalled slices of each index since its last progress. */
    ghost var stalls: map<nat, nat>

    ghost function View(): Sched
      reads this
    {
      Sched(roundRobinRelid, nextCatchUpAttempt, consecutiveSaveDefers)
    }

    ghost predicate Valid()
      reads this
    {
      && consecutiveSaveDefers <= MAX_SAVE_DEFERS
      && stalls.Keys == caches.Keys
      && forall r :: r in caches ==> caches[r].backoffMs == BackoffAfter(stalls[r])
    }

    constructor (indexes: set<nat>, slots: set<nat>)
      ensures Valid() && View() == Sched(InvalidOid, 0, 0)
      ensures caches == map r | r in indexes :: Cache(r in slots, 0, 0)
    {
      roundRobinRelid, nextCatchUpAttempt, consecutiveSaveDefers := InvalidOid, 0, 0;
      caches := map r | r in indexes :: Cache(r in slots, 0, 0);
      stalls := map r | r in indexes :: 0;
    }

    method FindStart(relids: seq<nat>) returns (start: nat)
      requires relids != []
      ensures start == StartOf(relids, roundRobinRelid)
    {
      start := 0;
      if roundRobinRelid == InvalidOid { return; }
      for i := 0 to |relids|
        invariant roundRobinRelid !in relids[..i] && start == 0
      {
        if relids[i] == roundRobinRelid {
          start := (i + 1) % |relids|;
          WrapIsRemainder(i, 1, |relids|);
          FoundFirst(relids, roundRobinRelid, i);
          return;
        }
      }
      assert relids[..|relids|] == relids;
    }

    /** Record what the slice on one index came to. */
    method Charge(relid: nat, slice: Slice, now: int)
      requires Valid() && relid in caches && slice != Refused
      modifies this`roundRobinRelid, this`caches, this`stalls
      ensures Valid() && roundRobinRelid == relid
      ensures caches == old(caches)[relid := Charged(old(caches)[relid], slice, now)]
      ensures stalls == old(stalls)[relid := if slice == Advanced then 0 else old(stalls)[relid] + 1]
    {
      roundRobinRelid := relid;
      var c := caches[relid];
      if slice == Advanced {
        caches := caches[relid := c.(backoffMs := 0, nextAttempt := 0)];
        stalls := stalls[relid := 0];
      } else {
        BackoffDoubles(stalls[relid]);
        var backoff := if c.backoffMs == 0 then 1000 else Min(c.backoffMs * 2, 60000);
        caches := caches[relid := c.(backoffMs := backoff, nextAttempt := now + backoff * 1000)];
        stalls := stalls[relid := stalls[relid] + 1];
      }
    }

    /** Give one index a slice: the first acquirable one, in cyclic order. */
    method ServeOne(relids: seq<nat>, now: int, slice: nat -> Slice) returns (served: Option<nat>)
      requires Valid() && relids != []
      modifies this`roundRobinRelid, this`caches, this`stalls
      ensures Valid() && served == Pick(relids, old(roundRobinRelid), Eligible(old(caches), now, slice))
      ensures roundRobinRelid == if served.Some? then served.value else old(roundRobinRelid)
      ensures served.Some? ==> served.value in old(caches)
      ensures caches == if served.None? then old(caches)
                        else old(caches)[served.value := Charged(old(caches)[served.value], slice(served.value), now)]
    {
      var n := |relids|;
      var start := FindStart(relids);
      ghost var acquirable := Eligible(caches, now, slice);
      served := None;
      for tries := 0 to n
        invariant roundRobinRelid == old(roundRobinRelid) && caches == old(caches) && stalls == old(stalls)
        invariant served == None
        invariant FirstFrom(relids, start, 0, acquirable) == FirstFrom(relids, start, tries, acquirable)
      {
        var relid := relids[(start + tries) % n];
        WrapIsRemainder(start, tries, n);
        if relid !in caches || !caches[relid].hasSlot { continue; }
        if caches[relid].nextAttempt != 0 && caches[relid].nextAttempt > now { continue; }
        if slice(relid) == Refused { continue; }
        Charge(relid, slice(relid), now);
        served := Some(relid);
        return;
      }
    }

    /** One call, as the scheduler steps. */
    method CatchUpSlots(saved: bool, now: int, relids: seq<nat>, slice: nat -> Slice) returns (served: Option<nat>)
      requires Valid()
      modifies this
      ensures Valid()
      ensures var c := Call(now, saved, relids, Eligible(old(caches), now, slice));
        View() == Step(old(View()), c) && served == Served(old(View()), c)
      ensures served.Some? ==> served.value in old(caches)
      ensures caches == if served.None? then old(caches)
                        else old(caches)[served.value := Charged(old(caches)[served.value], slice(served.value), now)]
    {
      served := None;
      if nextCatchUpAttempt != 0 && nextCatchUpAttempt > now { return; }
      if saved && consecutiveSaveDefers < MAX_SAVE_DEFERS {
        consecutiveSaveDefers := consecutiveSaveDefers + 1;
        nextCatchUpAttempt := now + INTERVAL_MS * 1000;
        return;
      }
      consecutiveSaveDefers := 0;
      if |relids| == 0 { return; }
      served := ServeOne(relids, now, slice);
      nextCatchUpAttempt := now + INTERVAL_MS * 1000;
    }

    /** A whole history of turns is a run of the scheduler, and serves the indexes the run
        serves. */
    method RunTurns(h: seq<Turn>) returns (served: seq<Option<nat>>)
      requires Valid()
      modifies this
      ensures Valid() && |served| == |h|
      ensures View() == Run(old(View()), CallsOf(old(View()), old(caches), h))
      ensures forall x: nat :: Some(x) in served <==> ServedBy(old(View()), CallsOf(old(View()), old(caches), h), x)
    {
      served := [];
      assert h[0..] == h;
      for k := 0 to |h|
        invariant Valid() && |served| == k
        invariant Run(View(), CallsOf(View(), caches, h[k..])) == Run(old(View()), CallsOf(old(View()), old(caches), h))
        invariant forall x: nat ::
          (Some(x) in served || ServedBy(View(), CallsOf(View(), caches, h[k..]), x))
          <==> ServedBy(old(View()), CallsOf(old(View()), old(caches), h), x)
      {
        ghost var rest := h[k..];
        assert rest[0] == h[k] && rest[1..] == h[k + 1..];
        TurnUnfolds(View(), caches, rest);
        var one := CatchUpSlots(h[k].saved, h[k].now, h[k].relids, h[k].slice);
        served := served + [one];
      }
    }
  }

  lemma {:induction false} FoundFirst(relids: seq<nat>, r: nat, i: nat)
    requires i < |relids| && relids[i] == r && r !in relids[..i]
    ensures IndexOf(relids, r) == Some(i)
  {
    if i > 0 {
      assert relids[0] in relids[..i];
      assert relids[1..][..i - 1] == relids[..i][1..];
      FoundFirst(relids[1..], r, i - 1);
    }
  }
}
