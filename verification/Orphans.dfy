/** Releasing control blocks whose database has no row: the grace period, over whole
    histories of reconcile cycles. */
module Orphans {
  import opened Common
  import opened Seqs
  import opened Launcher

  const GRACE_MS: int := 5000
  const NAPTIME_MS: int := 180000
  const MIN_NAPTIME_MS: int := 1000

  /** What one cycle sees: the table, the clock in microseconds, the reserved databases,
      and whether a worker is live in a database's block. */
  datatype Observation = Observation(rows: seq<Row>, now: int, reserved: seq<nat>, isLive: nat -> bool)

  datatype Candidate = Candidate(dbOid: nat, firstSeen: int)

  predicate Orphaned(o: Observation, db: nat) { db in o.reserved && FindRow(o.rows, db).None? }

  function Since(prev: Option<int>, o: Observation): int { if prev.Some? then prev.value else o.now }

  predicate Releases(prev: Option<int>, o: Observation, db: nat) {
    Orphaned(o, db) && Exceeds(Since(prev, o), o.now, GRACE_MS) && !o.isLive(db)
  }

  /** Since when a database has been a candidate, after one more cycle. */
  function After(prev: Option<int>, o: Observation, db: nat): Option<int> {
    if !Orphaned(o, db) || Releases(prev, o, db) then None else Some(Since(prev, o))
  }

  /* ---- over a history ---- */

  function Seen(h: seq<Observation>, db: nat): Option<int> {
    if h == [] then None else After(Seen(h[..|h| - 1], db), h[|h| - 1], db)
  }

  /** The pass of cycle k releases the database's block. */
  predicate ReleasedAt(h: seq<Observation>, k: nat, db: nat)
    requires k < |h|
  {
    Releases(Seen(h[..k], db), h[k], db)
  }

  /** Reserved without a row in every cycle from j to k, and not released before k. */
  ghost predicate Streak(h: seq<Observation>, j: nat, k: nat, db: nat)
    requires j <= k < |h|
  {
    && (forall i :: j <= i <= k ==> db in h[i].reserved && forall row :: row in h[i].rows ==> row.dbOid != db)
    && (forall i :: j <= i < k ==> !ReleasedAt(h, i, db))
  }

  /** A candidate dates from the start of its streak. */
  lemma {:induction false} SeenIsStreak(h: seq<Observation>, k: nat, db: nat) returns (j: nat)
    requires k < |h| && Orphaned(h[k], db)
    ensures j <= k && Streak(h, j, k, db) && Since(Seen(h[..k], db), h[k]) == h[j].now
    decreases k
  {
    j := k;
    if Seen(h[..k], db).Some? {
      assert h[..k][..k - 1] == h[..k - 1];
      assert Orphaned(h[k - 1], db) && !ReleasedAt(h, k - 1, db);
      j := SeenIsStreak(h, k - 1, db);
    }
  }

  /** Along a streak the candidate is never younger than the streak. */
  lemma {:induction false} StreakIsSeen(h: seq<Observation>, j: nat, k: nat, db: nat)
    requires j <= k < |h| && Streak(h, j, k, db)
    requires forall a, b :: 0 <= a <= b < |h| ==> h[a].now <= h[b].now
    ensures Since(Seen(h[..k], db), h[k]) <= h[j].now
    decreases k
  {
    if k > 0 { assert h[..k][..k - 1] == h[..k - 1]; }
    if j < k {
      StreakIsSeen(h, j, k - 1, db);
      assert !ReleasedAt(h, k - 1, db);
    } else if Seen(h[..k], db).Some? {
      var i := SeenIsStreak(h, k, db);
    }
  }

  /** Safety: a block is released only after at least five seconds of cycles that all saw it
      reserved and without a row, and only if no worker is live in it. */
  lemma ReleaseIsSafe(h: seq<Observation>, k: nat, db: nat) returns (j: nat)
    requires k < |h| && ReleasedAt(h, k, db)
    ensures j <= k && h[k].now - h[j].now >= 5_000_000 && !h[k].isLive(db)
    ensures forall i :: j <= i <= k ==> db in h[i].reserved && forall row :: row in h[i].rows ==> row.dbOid != db
  {
    j := SeenIsStreak(h, k, db);
    forall i | j <= i <= k ensures db in h[i].reserved && forall row :: row in h[i].rows ==> row.dbOid != db {
      assert Orphaned(h[i], db);
    }
  }

  ghost predicate Overdue(h: seq<Observation>, k: nat, db: nat)
    requires k < |h|
  {
    exists j :: 0 <= j <= k && Streak(h, j, k, db) && h[k].now - h[j].now >= 5_000_000
  }

  /** And always then: with a clock that does not step back, release is exact. */
  lemma ReleaseIsExact(h: seq<Observation>, k: nat, db: nat)
    requires k < |h| && forall a, b :: 0 <= a <= b < |h| ==> h[a].now <= h[b].now
    ensures ReleasedAt(h, k, db) <==> !h[k].isLive(db) && Overdue(h, k, db)
  {
    if ReleasedAt(h, k, db) {
      var j := SeenIsStreak(h, k, db);
      assert Streak(h, j, k, db);
    }
    if Overdue(h, k, db) {
      var j :| 0 <= j <= k && Streak(h, j, k, db) && h[k].now - h[j].now >= 5_000_000;
      StreakIsSeen(h, j, k, db);
    }
  }

  /* ---- the candidate list ---- */

  function Lookup(cs: seq<Candidate>, db: nat): Option<int> {
    if cs == [] then None else if cs[0].dbOid == db then Some(cs[0].firstSeen) else Lookup(cs[1..], db)
  }

  predicate OnePerDatabase(cs: seq<Candidate>) { forall i, j :: 0 <= i < j < |cs| ==> cs[i].dbOid != cs[j].dbOid }

  lemma {:induction false} LookupAt(cs: seq<Candidate>, i: nat)
    requires OnePerDatabase(cs) && i < |cs|
    ensures Lookup(cs, cs[i].dbOid) == Some(cs[i].firstSeen)
  {
    if i > 0 { LookupAt(cs[1..], i - 1); }
  }

  lemma {:induction false} LookupAbsent(cs: seq<Candidate>, db: nat)
    ensures Lookup(cs, db).None? <==> forall i :: 0 <= i < |cs| ==> cs[i].dbOid != db
  {
    if cs != [] {
      LookupAbsent(cs[1..], db);
      if cs[0].dbOid != db && Lookup(cs[1..], db).Some? {
        var i :| 0 <= i < |cs[1..]| && cs[1..][i].dbOid == db;
        assert cs[i + 1].dbOid == db;
      }
    }
  }

  lemma {:induction false} LookupConcat(a: seq<Candidate>, b: seq<Candidate>, db: nat)
    ensures Lookup(a + b, db) == if Lookup(a, db).Some? then Lookup(a, db) else Lookup(b, db)
  {
    if a == [] {
      assert a + b == b;
    } else {
      assert (a + b)[0] == a[0] && (a + b)[1..] == a[1..] + b;
      LookupConcat(a[1..], b, db);
    }
  }

  /** Removing a candidate forgets its database and no other. */
  lemma {:induction false} LookupRemove(cs: seq<Candidate>, i: nat, db: nat)
    requires OnePerDatabase(cs) && i < |cs|
    ensures OnePerDatabase(cs[..i] + cs[i + 1..])
    ensures Lookup(cs[..i] + cs[i + 1..], db) == if db == cs[i].dbOid then None else Lookup(cs, db)
  {
    OneWithout(cs, i);
    if db == cs[i].dbOid {
      LookupAbsent(cs[..i] + cs[i + 1..], db);
    } else {
      LookupSkips(cs[..i], cs[i], cs[i + 1..], db);
      assert cs[..i] + ([cs[i]] + cs[i + 1..]) == cs;
    }
  }

  lemma OneWithout(cs: seq<Candidate>, i: nat)
    requires OnePerDatabase(cs) && i < |cs|
    ensures var rest := cs[..i] + cs[i + 1..];
      OnePerDatabase(rest) && forall j :: 0 <= j < |rest| ==> rest[j].dbOid != cs[i].dbOid
  {}

  lemma {:induction false} LookupSkips(a: seq<Candidate>, c: Candidate, b: seq<Candidate>, db: nat)
    requires db != c.dbOid
    ensures Lookup(a + ([c] + b), db) == Lookup(a + b, db)
  {
    LookupConcat(a, [c] + b, db);
    LookupConcat(a, b, db);
    assert ([c] + b)[1..] == b;
  }

  lemma {:induction false} LookupAdd(cs: seq<Candidate>, c: Candidate, db: nat)
    requires OnePerDatabase(cs) && Lookup(cs, c.dbOid).None?
    ensures OnePerDatabase(cs + [c])
    ensures Lookup(cs + [c], db) == if db == c.dbOid then Some(c.firstSeen) else Lookup(cs, db)
  {
    LookupAbsent(cs, c.dbOid);
    LookupConcat(cs, [c], db);
    assert [c][1..] == [];
  }

  /** What a database's naptime contribution is: none once released or not a candidate. */
  function Contribution(prev: Option<int>, o: Observation, db: nat): int {
    if !Orphaned(o, db) || Releases(prev, o, db) then NAPTIME_MS
    else if Exceeds(Since(prev, o), o.now, GRACE_MS) then MIN_NAPTIME_MS
    else GRACE_MS - ElapsedMs(Since(prev, o), o.now)
  }

  /** When a nap of one candidate's contribution ends: within a millisecond before its five
      seconds are over, or a second on for one that is overdue but still has a worker; never
      later than three minutes. */
  lemma NapIsTimely(prev: Option<int>, o: Observation, db: nat)
    ensures var t, nap := After(prev, o, db), Contribution(prev, o, db);
      if t.None? then nap == 180_000
      else if o.now - t.value >= 5_000_000 then nap == 1_000 && o.isLive(db)
      else if o.now < t.value then nap == 5_000
      else t.value + 5_000_000 - 1_000 < o.now + nap * 1_000 <= t.value + 5_000_000
  {}

  function Kept(prev: Option<int>, o: Observation, db: nat): Option<int> { if Orphaned(o, db) then prev else None }

  /* ---- a history ---- */

  function Flat(ss: seq<seq<nat>>): seq<nat> { if ss == [] then [] else Flat(ss[..|ss| - 1]) + ss[|ss| - 1] }

  lemma {:induction false} FlatSnoc(ss: seq<seq<nat>>, s: seq<nat>)
    ensures Flat(ss + [s]) == Flat(ss) + s
  {
    assert (ss + [s])[..|ss|] == ss;
  }

  ghost predicate Followed(cs: seq<Candidate>, h: seq<Observation>) { forall db :: Lookup(cs, db) == Seen(h, db) }

  ghost predicate Matches(released: seq<nat>, h: seq<Observation>, k: nat)
    requires k < |h|
  {
    forall db :: db in released <==> ReleasedAt(h, k, db)
  }

  lemma FollowedOn(cs: seq<Candidate>, cs': seq<Candidate>, h: seq<Observation>, k: nat, released: seq<nat>)
    requires k < |h| && Followed(cs, h[..k])
    requires forall db :: Lookup(cs', db) == After(Lookup(cs, db), h[k], db)
    requires forall db :: db in released <==> Releases(Lookup(cs, db), h[k], db)
    ensures Followed(cs', h[..k + 1]) && Matches(released, h, k)
  {
    assert h[..k + 1][..k] == h[..k] && h[..k + 1][k] == h[k];
    forall db ensures Lookup(cs', db) == Seen(h[..k + 1], db) {
      assert Lookup(cs, db) == Seen(h[..k], db);
    }
  }

  /* ---- the pass ---- */

  ghost predicate Judged(kept: seq<Candidate>, cs: seq<Candidate>, o: Observation, i: nat) {
    i <= |o.reserved| &&
    forall db :: Lookup(cs, db) ==
                 if db in o.reserved[..i] then After(Lookup(kept, db), o, db) else Lookup(kept, db)
  }

  ghost predicate ReleasedSoFar(kept: seq<Candidate>, released: seq<nat>, o: Observation, i: nat) {
    i <= |o.reserved| &&
    forall db :: db in released <==> (db in o.reserved[..i] && Releases(Lookup(kept, db), o, db))
  }

  ghost predicate NapSoFar(kept: seq<Candidate>, nap: int, o: Observation, i: nat) {
    && i <= |o.reserved| && 0 <= nap <= NAPTIME_MS
    && (forall db :: db in o.reserved[..i] ==> nap <= Contribution(Lookup(kept, db), o, db))
    && (nap == NAPTIME_MS || exists db :: db in o.reserved[..i] && nap == Contribution(Lookup(kept, db), o, db))
  }

  lemma Taken(o: Observation, i: nat)
    requires i < |o.reserved| && Distinct(o.reserved)
    ensures o.reserved[..i + 1] == o.reserved[..i] + [o.reserved[i]] && o.reserved[i] !in o.reserved[..i]
  {}

  lemma {:induction false} JudgedStep(kept: seq<Candidate>, cs: seq<Candidate>, cs': seq<Candidate>, o: Observation, i: nat)
    requires i < |o.reserved| && Distinct(o.reserved) && Judged(kept, cs, o, i)
    requires forall db :: db != o.reserved[i] ==> Lookup(cs', db) == Lookup(cs, db)
    requires Lookup(cs', o.reserved[i]) == After(Lookup(cs, o.reserved[i]), o, o.reserved[i])
    ensures Judged(kept, cs', o, i + 1)
  {
    Taken(o, i);
  }

  lemma {:induction false} ReleasedStep(kept: seq<Candidate>, rs: seq<nat>, rs': seq<nat>, o: Observation, i: nat)
    requires i < |o.reserved| && Distinct(o.reserved) && ReleasedSoFar(kept, rs, o, i)
    requires rs' == if Releases(Lookup(kept, o.reserved[i]), o, o.reserved[i]) then rs + [o.reserved[i]] else rs
    ensures ReleasedSoFar(kept, rs', o, i + 1)
  {
    Taken(o, i);
  }

  lemma {:induction false} NapStep(kept: seq<Candidate>, nap: int, next: int, o: Observation, i: nat)
    requires i < |o.reserved| && Distinct(o.reserved) && NapSoFar(kept, nap, o, i)
    requires next == Contribution(Lookup(kept, o.reserved[i]), o, o.reserved[i])
    ensures NapSoFar(kept, Min(nap, next), o, i + 1)
  {
    Taken(o, i);
    assert o.reserved[i] in o.reserved[..i + 1];
    if nap != NAPTIME_MS {
      var db :| db in o.reserved[..i] && nap == Contribution(Lookup(kept, db), o, db);
      assert db in o.reserved[..i + 1];
    }
  }

  lemma AllJudged(was: seq<Candidate>, kept: seq<Candidate>, cs: seq<Candidate>, released: seq<nat>, nap: int, o: Observation)
    requires forall db :: Lookup(kept, db) == Kept(Lookup(was, db), o, db)
    requires Judged(kept, cs, o, |o.reserved|) && ReleasedSoFar(kept, released, o, |o.reserved|)
    requires NapSoFar(kept, nap, o, |o.reserved|)
    ensures forall db :: Lookup(cs, db) == After(Lookup(was, db), o, db)
    ensures forall db :: db in released <==> Releases(Lookup(was, db), o, db)
    ensures forall db :: nap <= Contribution(Lookup(was, db), o, db)
    ensures nap == NAPTIME_MS || exists db :: db in o.reserved && nap == Contribution(Lookup(was, db), o, db)
  {
    assert o.reserved[..|o.reserved|] == o.reserved;
    forall db ensures Lookup(cs, db) == After(Lookup(was, db), o, db) {
      assert Lookup(kept, db) == Kept(Lookup(was, db), o, db);
    }
    forall db ensures nap <= Contribution(Lookup(was, db), o, db) {
      assert Lookup(kept, db) == Kept(Lookup(was, db), o, db);
    }
    if nap != NAPTIME_MS {
      var db :| db in o.reserved && nap == Contribution(Lookup(kept, db), o, db);
      assert nap == Contribution(Lookup(was, db), o, db);
    }
  }

  class Tracker {
    var candidates: seq<Candidate>
    var released: seq<nat>

    constructor ()
      ensures candidates == [] && released == []
    {
      candidates, released := [], [];
    }

    /** Forget candidates that regained a row or are no longer reserved. */
    method Prune(o: Observation)
      requires OnePerDatabase(candidates)
      modifies this`candidates
      ensures OnePerDatabase(candidates)
      ensures forall db :: Lookup(candidates, db) == Kept(Lookup(old(candidates), db), o, db)
    {
      var i: nat := 0;
      while i < |candidates|
        invariant i <= |candidates| && OnePerDatabase(candidates)
        invariant forall j :: 0 <= j < i ==> Orphaned(o, candidates[j].dbOid)
        invariant forall db :: Orphaned(o, db) ==> Lookup(candidates, db) == Lookup(old(candidates), db)
        decreases |candidates| - i
      {
        if FindRow(o.rows, candidates[i].dbOid).Some? || candidates[i].dbOid !in o.reserved {
          forall db ensures OnePerDatabase(candidates[..i] + candidates[i + 1..])
            && Lookup(candidates[..i] + candidates[i + 1..], db)
               == if db == candidates[i].dbOid then None else Lookup(candidates, db)
          {
            LookupRemove(candidates, i, db);
          }
          candidates := candidates[..i] + candidates[i + 1..];
        } else {
          i := i + 1;
        }
      }
      forall db | !Orphaned(o, db) ensures Lookup(candidates, db).None? {
        LookupAbsent(candidates, db);
      }
    }

    /** The position of a database's candidate, appended if it has none. */
    method FindOrAdd(dbOid: nat, now: int) returns (at: nat)
      requires OnePerDatabase(candidates)
      modifies this`candidates
      ensures OnePerDatabase(candidates) && at < |candidates| && candidates[at].dbOid == dbOid
      ensures candidates[at].firstSeen ==
              if Lookup(old(candidates), dbOid).Some? then Lookup(old(candidates), dbOid).value else now
      ensures forall db :: db != dbOid ==> Lookup(candidates, db) == Lookup(old(candidates), db)
    {
      for i := 0 to |candidates|
        invariant forall j :: 0 <= j < i ==> candidates[j].dbOid != dbOid
      {
        if candidates[i].dbOid == dbOid {
          LookupAt(candidates, i);
          return i;
        }
      }
      LookupAbsent(candidates, dbOid);
      at := |candidates|;
      forall db ensures OnePerDatabase(candidates + [Candidate(dbOid, now)])
        && Lookup(candidates + [Candidate(dbOid, now)], db)
           == if db == dbOid then Some(now) else Lookup(candidates, db)
      {
        LookupAdd(candidates, Candidate(dbOid, now), db);
      }
      candidates := candidates + [Candidate(dbOid, now)];
    }

    /** Judge one reserved database without a row; its naptime contribution. */
    method Judge(dbOid: nat, o: Observation) returns (nap: int)
      requires OnePerDatabase(candidates) && Orphaned(o, dbOid)
      modifies this
      ensures OnePerDatabase(candidates) && nap == Contribution(Lookup(old(candidates), dbOid), o, dbOid)
      ensures Lookup(candidates, dbOid) == After(Lookup(old(candidates), dbOid), o, dbOid)
      ensures forall db :: db != dbOid ==> Lookup(candidates, db) == Lookup(old(candidates), db)
      ensures released == if Releases(Lookup(old(candidates), dbOid), o, dbOid) then old(released) + [dbOid] else old(released)
    {
      var at := FindOrAdd(dbOid, o.now);
      var firstSeen := candidates[at].firstSeen;
      LookupAt(candidates, at);
      if Exceeds(firstSeen, o.now, GRACE_MS) {
        if !o.isLive(dbOid) {
          released := released + [dbOid];
          forall db ensures OnePerDatabase(candidates[..at] + candidates[at + 1..])
            && Lookup(candidates[..at] + candidates[at + 1..], db)
               == if db == dbOid then None else Lookup(candidates, db)
          {
            LookupRemove(candidates, at, db);
          }
          candidates := candidates[..at] + candidates[at + 1..];
          return NAPTIME_MS;
        }
        return MIN_NAPTIME_MS;
      }
      nap := GRACE_MS - ElapsedMs(firstSeen, o.now);
    }

    /** A whole history of cycles: the candidates are those the history says, and what each
        cycle releases is what it releases in the history. */
    method RunCycles(h: seq<Observation>) returns (ghost byCycle: seq<seq<nat>>)
      requires candidates == [] && forall k :: 0 <= k < |h| ==> Distinct(h[k].reserved)
      modifies this
      ensures OnePerDatabase(candidates) && forall db :: Lookup(candidates, db) == Seen(h, db)
      ensures |byCycle| == |h| && forall k, db :: 0 <= k < |h| ==> (db in byCycle[k] <==> ReleasedAt(h, k, db))
      ensures released == old(released) + Flat(byCycle)
    {
      byCycle := [];
      for k := 0 to |h|
        invariant OnePerDatabase(candidates) && Followed(candidates, h[..k]) && |byCycle| == k
        invariant forall j :: 0 <= j < k ==> Matches(byCycle[j], h, j)
        invariant released == old(released) + Flat(byCycle)
      {
        ghost var was, before := candidates, released;
        var naptime := ReleaseOrphaned(h[k]);
        ghost var now := released[|before|..];
        assert released == before + now;
        FollowedOn(was, candidates, h, k, now);
        FlatSnoc(byCycle, now);
        assert old(released) + (Flat(byCycle) + now) == (old(released) + Flat(byCycle)) + now;
        byCycle := byCycle + [now];
      }
      assert h[..|h|] == h;
    }

    /** Visit one reserved database. */
    method Consider(dbOid: nat, o: Observation) returns (nap: int)
      requires OnePerDatabase(candidates) && dbOid in o.reserved
      requires !Orphaned(o, dbOid) ==> Lookup(candidates, dbOid).None?
      modifies this
      ensures OnePerDatabase(candidates) && nap == Contribution(Lookup(old(candidates), dbOid), o, dbOid)
      ensures Lookup(candidates, dbOid) == After(Lookup(old(candidates), dbOid), o, dbOid)
      ensures forall db :: db != dbOid ==> Lookup(candidates, db) == Lookup(old(candidates), db)
      ensures released == if Releases(Lookup(old(candidates), dbOid), o, dbOid) then old(released) + [dbOid] else old(released)
    {
      if FindRow(o.rows, dbOid).Some? { return NAPTIME_MS; }
      nap := Judge(dbOid, o);
    }

    /** One cycle: every candidate steps as the history says, the released blocks are
        exactly the overdue ones, and the nap ends when the next candidate falls due. */
    method ReleaseOrphaned(o: Observation) returns (naptime: int)
      requires OnePerDatabase(candidates) && Distinct(o.reserved)
      modifies this
      ensures OnePerDatabase(candidates)
      ensures forall db :: Lookup(candidates, db) == After(Lookup(old(candidates), db), o, db)
      ensures old(released) <= released
      ensures forall db :: db in released[|old(released)|..] <==> Releases(Lookup(old(candidates), db), o, db)
      ensures 0 <= naptime <= NAPTIME_MS
      ensures forall db :: naptime <= Contribution(Lookup(old(candidates), db), o, db)
      ensures naptime == NAPTIME_MS ||
              exists db :: db in o.reserved && naptime == Contribution(Lookup(old(candidates), db), o, db)
    {
      Prune(o);
      ghost var kept, before := candidates, released;
      naptime := JudgeAll(o);
      AllJudged(old(candidates), kept, candidates, released[|before|..], naptime, o);
    }

    method JudgeAll(o: Observation) returns (naptime: int)
      requires OnePerDatabase(candidates) && Distinct(o.reserved)
      requires forall db :: !Orphaned(o, db) ==> Lookup(candidates, db).None?
      modifies this
      ensures OnePerDatabase(candidates) && Judged(old(candidates), candidates, o, |o.reserved|)
      ensures old(released) <= released
      ensures ReleasedSoFar(old(candidates), released[|old(released)|..], o, |o.reserved|)
      ensures NapSoFar(old(candidates), naptime, o, |o.reserved|)
    {
      naptime := NAPTIME_MS;
      ghost var kept, before := candidates, released;
      for i := 0 to |o.reserved|
        invariant Progress(kept, before, naptime, o, i)
      {
        naptime := Visit(i, naptime, o, kept, before);
      }
    }

    ghost predicate Progress(kept: seq<Candidate>, before: seq<nat>, nap: int, o: Observation, i: nat)
      reads this
    {
      && OnePerDatabase(candidates) && Judged(kept, candidates, o, i)
      && before <= released && ReleasedSoFar(kept, released[|before|..], o, i)
      && NapSoFar(kept, nap, o, i)
    }

    method Visit(i: nat, nap: int, o: Observation, ghost kept: seq<Candidate>, ghost before: seq<nat>) returns (nap': int)
      requires i < |o.reserved| && Distinct(o.reserved) && Progress(kept, before, nap, o, i)
      requires forall db :: !Orphaned(o, db) ==> Lookup(kept, db).None?
      modifies this
      ensures Progress(kept, before, nap', o, i + 1)
    {
      Taken(o, i);
      ghost var cs, rs := candidates, released;
      nap' := Consider(o.reserved[i], o);
      JudgedStep(kept, cs, candidates, o, i);
      ReleasedStep(kept, rs[|before|..], released[|before|..], o, i);
      NapStep(kept, nap, nap', o, i);
      nap' := Min(nap, nap');
    }
  }
}
