/** svs_memory.c as it runs: control blocks with running byte counters, cluster
    roll-ups, and subtractions that clamp at zero with a warning. Every locked
    section is proved to take the same step as the counter-free ledger, and to leave
    every counter equal to the sum it stands for exactly when its guard holds. */
module MemoryAuthority {
  import opened Common
  import opened Seqs
  import opened MemoryLedger
  import opened MemoryInvariants

  datatype Limits = Limits(buildCeiling: nat, residencyCeiling: nat, compactPct: nat)

  /** The header's roll-ups. */
  class Header {
    var totalBuildCommitted: nat
    var totalResidencyCommitted: nat
    /** How often a subtraction had to clamp, each of which the source reports as a warning. */
    var underflows: nat
    const limits: Limits

    constructor (limits: Limits)
      ensures totalBuildCommitted == 0 && totalResidencyCommitted == 0 && underflows == 0 && this.limits == limits
    {
      totalBuildCommitted, totalResidencyCommitted, underflows := 0, 0, 0;
      this.limits := limits;
    }

    /** SubtractFloored. */
    method Subtract(committed: nat, amount: nat) returns (left: nat)
      modifies this`underflows
      ensures left == (if amount > committed then 0 else committed - amount)
      ensures underflows == (if amount > committed then old(underflows) + 1 else old(underflows))
    {
      if amount > committed {
        underflows := underflows + 1;
        left := 0;
      } else {
        left := committed - amount;
      }
    }
  }

  method FindReservation(reservations: seq<Record>, relid: nat) returns (i: nat)
    ensures i == Find(reservations, relid)
  {
    i := 0;
    while i < |reservations| && reservations[i].relid != relid
      invariant i <= |reservations| && i <= Find(reservations, relid)
    {
      i := i + 1;
    }
  }

  /** One database's control block. A freed slot is cleared whole: the source clears only
      its relid, and zeroes the rest when the slot is next claimed. */
  class Entry {
    var dbOid: nat
    var residencyBudget: nat
    var residencyBytesCommitted: nat
    var buildBytesCommitted: nat
    var nextResidentGeneration: nat
    var reservations: seq<Record>
    var insertReservations: seq<Pending>

    constructor (indexes: nat, pending: nat)
      ensures View() == FreeBlock(0, indexes, pending, 0) && Exact()
    {
      dbOid, residencyBudget, residencyBytesCommitted, buildBytesCommitted, nextResidentGeneration := 0, 0, 0, 0, 0;
      reservations := seq(indexes, _ => FreeRecord);
      insertReservations := seq(pending, _ => FreePending);
      new;
      FreeBlockSums(0, indexes, pending, 0);
    }

    ghost function View(): Block
      reads this
    {
      Block(dbOid, residencyBudget, reservations, insertReservations, nextResidentGeneration)
    }

    /** Both counters equal the sums they stand for. */
    ghost predicate Exact()
      reads this
    {
      && residencyBytesCommitted == Committed(View())
      && buildBytesCommitted == Peaks(View())
    }

    ghost predicate Valid()
      reads this
    {
      Exact() && WellFormed(View())
    }

    /** The block's counters are exact and the roll-ups moved with it, with nothing clamped. */
    twostate predicate Balanced(h: Header)
      reads this, h
    {
      && Exact()
      && h.totalBuildCommitted == old(h.totalBuildCommitted) - old(Peaks(View())) + Peaks(View())
      && h.totalResidencyCommitted == old(h.totalResidencyCommitted) - old(residencyBudget) + residencyBudget
      && h.underflows == old(h.underflows)
    }

    /** Take a free slot for the index, zeroed; |reservations| if there is none. */
    method AllocateReservation(relid: nat) returns (i: nat)
      requires Exact()
      modifies this`reservations
      ensures i == Find(old(reservations), 0) && Exact() && Peaks(View()) == old(Peaks(View()))
      ensures reservations == if i < |old(reservations)| then old(reservations)[i := FreeRecord.(relid := relid)]
                              else old(reservations)
    {
      i := FindReservation(reservations, 0);
      if i < |reservations| {
        PutSums(View(), i, FreeRecord.(relid := relid));
        reservations := reservations[i := FreeRecord.(relid := relid)];
      }
    }

    /** Charge an accepted build to its slot and to the counters. */
    method CommitBuild(h: Header, i: nat, buildPeak: nat, residencyEstimate: nat, rebuild: bool, pid: int, now: int)
      requires Exact() && i < |reservations| && reservations[i].relid != 0 && reservations[i].peak == 0
      requires if rebuild then reservations[i].phase == Resident else Contribution(reservations[i]) == 0
      modifies this`reservations, this`buildBytesCommitted, this`residencyBytesCommitted, h`totalBuildCommitted
      ensures Exact() && Peaks(View()) == old(Peaks(View())) + buildPeak
      ensures h.totalBuildCommitted == old(h.totalBuildCommitted) + buildPeak
      ensures reservations == old(reservations)[i := old(reservations)[i].(ownerPid := pid, reservedAt := now,
                estimate := residencyEstimate, measured := 0, peak := buildPeak, prior := old(reservations)[i].measured,
                phase := if rebuild then Rebuilding else Reserved)]
    {
      h.totalBuildCommitted := h.totalBuildCommitted + buildPeak;
      buildBytesCommitted := buildBytesCommitted + buildPeak;
      if !rebuild { residencyBytesCommitted := residencyBytesCommitted + residencyEstimate; }
      var r := reservations[i].(ownerPid := pid, reservedAt := now, estimate := residencyEstimate, measured := 0,
                                peak := buildPeak, prior := reservations[i].measured,
                                phase := if rebuild then Rebuilding else Reserved);
      PutSums(old(View()), i, r);
      reservations := reservations[i := r];
    }

    /** The second half of ReserveBuild: the budget has room, and i0 is where the
        index was found, if it was. */
    method PlaceBuild(h: Header, i0: nat, relid: nat, buildPeak: nat, residencyEstimate: nat, pid: int, now: int)
      returns (out: Outcome)
      requires Valid() && relid != 0 && i0 == Find(reservations, relid)
      requires i0 < |reservations| ==> reservations[i0].phase == Resident
      modifies this, h
      ensures (View(), out) == MemoryLedger.PlaceBuild(old(View()), relid, buildPeak, residencyEstimate, pid, now,
                                                       old(h.totalBuildCommitted), h.limits.buildCeiling)
      ensures Balanced(h)
    {
      var i, rebuild := i0, i0 < |reservations|;
      if !rebuild {
        i := AllocateReservation(relid);
        if i == |reservations| { return Raised(TableFull); }
      }
      if h.totalBuildCommitted + buildPeak > h.limits.buildCeiling {
        if !rebuild { reservations := reservations[i := FreeRecord]; }
        assert reservations == old(reservations);
        return Raised(OverBuildCeiling);
      }
      CommitBuild(h, i, buildPeak, residencyEstimate, rebuild, pid, now);
      assert reservations == old(reservations)[i := reservations[i]];
      out := Answer(true);
    }

    method ReserveBuild(h: Header, relid: nat, buildPeak: nat, residencyEstimate: nat, pid: int, now: int) returns (out: Outcome)
      requires Valid() && relid != 0
      modifies this, h
      ensures (View(), out) == MemoryLedger.ReserveBuild(old(View()), relid, buildPeak, residencyEstimate, pid, now,
                                                         old(h.totalBuildCommitted), h.limits.buildCeiling)
      ensures Balanced(h)
    {
      if residencyBudget == 0 { return Raised(NotAdmitted); }
      SumsNonNegative(View());
      var i := FindReservation(reservations, relid);
      if i < |reservations| && reservations[i].phase != Resident { return Raised(AlreadyReserved); }
      var baseline := residencyBytesCommitted;
      if i < |reservations| { baseline := h.Subtract(baseline, reservations[i].measured); }
      if baseline + residencyEstimate > residencyBudget { return Raised(OverBudget); }
      out := PlaceBuild(h, i, relid, buildPeak, residencyEstimate, pid, now);
    }

    /** SubtractFloored on both build counters. */
    method ReleasePeak(h: Header, peak: nat)
      modifies this`buildBytesCommitted, h
      ensures peak <= old(buildBytesCommitted) && peak <= old(h.totalBuildCommitted) ==>
        && buildBytesCommitted == old(buildBytesCommitted) - peak
        && h.totalBuildCommitted == old(h.totalBuildCommitted) - peak
        && h.underflows == old(h.underflows)
      ensures peak > old(buildBytesCommitted) || peak > old(h.totalBuildCommitted) ==> h.underflows > old(h.underflows)
      ensures h.underflows >= old(h.underflows)
      ensures h.totalResidencyCommitted == old(h.totalResidencyCommitted)
    {
      buildBytesCommitted := h.Subtract(buildBytesCommitted, peak);
      h.totalBuildCommitted := h.Subtract(h.totalBuildCommitted, peak);
    }

    /** The residency half of a confirm: keep the measured size if it fits, or give up
        the estimate, or return a rebuild to its prior size. */
    method ConfirmResidency(h: Header, i: nat, measured: nat) returns (fits: bool)
      requires residencyBytesCommitted == Committed(View()) && i < |reservations| && reservations[i].relid != 0
      requires reservations[i].phase == Reserved || reservations[i].phase == Rebuilding
      requires i == Find(reservations, reservations[i].relid)
      modifies this`reservations, this`residencyBytesCommitted, this`nextResidentGeneration, h`underflows
      ensures (View(), Answer(fits)) == MemoryLedger.ConfirmBuild(old(View()), old(reservations[i].relid), measured)
      ensures residencyBytesCommitted == Committed(View()) && h.underflows == old(h.underflows)
      ensures Peaks(View()) == old(Peaks(View())) - old(reservations[i].peak)
    {
      SumsNonNegative(View());
      var r := reservations[i].(peak := 0);
      var rebuild := r.phase == Rebuilding;
      var withoutPrior := h.Subtract(residencyBytesCommitted, if rebuild then r.prior else r.estimate);
      fits := withoutPrior + measured <= residencyBudget;
      if fits {
        residencyBytesCommitted := withoutPrior + measured;
        nextResidentGeneration := Bump(nextResidentGeneration);
        r := r.(phase := Confirmed, measured := measured, prior := 0, reclaimable := 0, generation := nextResidentGeneration);
      } else if rebuild {
        r := Restored(r);
      } else {
        residencyBytesCommitted := withoutPrior;
        r := FreeRecord;
      }
      PutSums(old(View()), i, r);
      reservations := reservations[i := r];
    }

    /** The counters come out exact if and only if the caller names the peak that was reserved. */
    method ConfirmBuild(h: Header, relid: nat, buildPeak: nat, measured: nat) returns (out: Outcome)
      requires Valid() && relid != 0 && Peaks(View()) <= h.totalBuildCommitted
      modifies this, h
      ensures (View(), out) == MemoryLedger.ConfirmBuild(old(View()), relid, measured)
      ensures BlockGuard(old(View()), ConfirmBuildOp(dbOid, relid, buildPeak, measured)) <==> Balanced(h)
    {
      var i := FindReservation(reservations, relid);
      if i == |reservations| { return Raised(NoReservation); }
      if reservations[i].phase != Reserved && reservations[i].phase != Rebuilding { return Raised(NotPending); }
      SumsNonNegative(View());
      ReleasePeak(h, buildPeak);
      var fits := ConfirmResidency(h, i, measured);
      out := Answer(fits);
    }

    method HandoffBuild(h: Header, relid: nat) returns (out: Outcome)
      requires Valid() && relid != 0
      modifies this
      ensures (View(), out) == MemoryLedger.HandoffBuild(old(View()), relid)
      ensures Balanced(h)
    {
      var i := FindReservation(reservations, relid);
      if i == |reservations| { return Raised(NoReservation); }
      if reservations[i].phase != Confirmed { return Raised(NotConfirmed); }
      var r := reservations[i].(phase := Handoff);
      PutSums(View(), i, r);
      reservations := reservations[i := r];
      out := Answer(true);
    }

    method AbortBuild(h: Header, relid: nat) returns (out: Outcome)
      requires Valid() && relid != 0 && Peaks(View()) <= h.totalBuildCommitted
      modifies this, h
      ensures (View(), out) == MemoryLedger.AbortBuild(old(View()), relid)
      ensures Balanced(h)
    {
      out := Answer(true);
      var i := FindReservation(reservations, relid);
      if i == |reservations| || reservations[i].phase == Resident { return; }
      SumsNonNegative(View());
      var r := reservations[i];
      if r.peak > 0 { ReleasePeak(h, r.peak); }
      if r.phase == Rebuilding {
        r := Restored(r);
      } else {
        var held := if r.phase == Reserved then r.estimate else r.measured;
        residencyBytesCommitted := h.Subtract(residencyBytesCommitted, held);
        r := FreeRecord;
      }
      PutSums(old(View()), i, r);
      reservations := reservations[i := r];
    }

    /** The part of a load that finds relid's record already there. */
    method ReconcileExisting(h: Header, i: nat, measured: nat, headroom: nat) returns (fits: bool)
      requires Valid() && Peaks(View()) <= h.totalBuildCommitted && i < |reservations| && reservations[i].relid != 0
      modifies this, h
      ensures fits == (old(Committed(View())) - old(Contribution(reservations[i])) + measured <= residencyBudget)
      ensures !fits ==> View() == old(View()) && Balanced(h)
      ensures fits ==> View() == Put(old(View()), i,
          old(reservations[i]).(phase := Resident, ownerPid := 0, measured := measured, headroom := headroom,
                                prior := 0, peak := 0, reclaimable := 0, generation := Bump(old(nextResidentGeneration))))
          .(nextGeneration := Bump(old(nextResidentGeneration)))
      ensures fits ==> (Balanced(h) <==> !old(reservations[i].phase == Reserved && reservations[i].peak > 0))
    {
      SumsNonNegative(View());
      var r := reservations[i];
      var priorContribution := if r.phase == Reserved then r.estimate else if r.phase == Rebuilding then r.prior else r.measured;
      var withoutPrior := h.Subtract(residencyBytesCommitted, priorContribution);
      fits := withoutPrior + measured <= residencyBudget;
      if fits {
        if r.phase == Rebuilding && r.peak > 0 { ReleasePeak(h, r.peak); }
        residencyBytesCommitted := withoutPrior + measured;
        nextResidentGeneration := Bump(nextResidentGeneration);
        r := r.(phase := Resident, ownerPid := 0, measured := measured, headroom := headroom,
                prior := 0, peak := 0, reclaimable := 0, generation := nextResidentGeneration);
        PutSums(old(View()), i, r);
        reservations := reservations[i := r];
      }
    }

    /** Exact unless it takes over a fresh build whose peak is still outstanding. */
    method ReconcileLoad(h: Header, relid: nat, measured: nat, headroom: nat, now: int) returns (out: Outcome)
      requires Valid() && relid != 0 && Peaks(View()) <= h.totalBuildCommitted
      modifies this, h
      ensures (View(), out) == MemoryLedger.ReconcileLoad(old(View()), relid, measured, headroom, now)
      ensures BlockGuard(old(View()), ReconcileLoadOp(dbOid, relid, measured, headroom, now)) <==> Balanced(h)
    {
      if residencyBudget == 0 { return Raised(NotAdmitted); }
      var i := FindReservation(reservations, relid);
      if i < |reservations| {
        var fits := ReconcileExisting(h, i, measured, headroom);
        return Answer(fits);
      }
      if residencyBytesCommitted + measured > residencyBudget { return Answer(false); }
      i := FindReservation(reservations, 0);
      if i == |reservations| { return Raised(TableFull); }
      nextResidentGeneration := Bump(nextResidentGeneration);
      var r := Record(relid, Resident, 0, now, measured, measured, 0, 0, headroom, 0, nextResidentGeneration);
      PutSums(old(View()), i, r);
      reservations := reservations[i := r];
      residencyBytesCommitted := residencyBytesCommitted + measured;
      out := Answer(true);
    }

    /** Exact unless it drops a fresh build's record that still holds bytes. */
    method AccountUnload(h: Header, relid: nat) returns (out: Outcome)
      requires Valid() && relid != 0 && Peaks(View()) <= h.totalBuildCommitted
      modifies this, h
      ensures (View(), out) == MemoryLedger.AccountUnload(old(View()), relid)
      ensures BlockGuard(old(View()), AccountUnloadOp(dbOid, relid)) <==> Balanced(h)
    {
      var i := FindReservation(reservations, relid);
      if i == |reservations| { return Answer(false); }
      SumsNonNegative(View());
      var r := reservations[i];
      var held := r.measured;
      if r.phase == Rebuilding {
        held := r.prior;
        if r.peak > 0 { ReleasePeak(h, r.peak); }
      }
      residencyBytesCommitted := h.Subtract(residencyBytesCommitted, held);
      PutSums(old(View()), i, FreeRecord);
      reservations := reservations[i := FreeRecord];
      out := Answer(true);
    }

    method ReserveInsert(h: Header, relid: nat, delta: nat, pid: int, now: int) returns (out: Outcome)
      requires Valid() && relid != 0
      modifies this
      ensures (View(), out) == MemoryLedger.ReserveInsert(old(View()), relid, delta, pid, now)
      ensures Balanced(h)
    {
      if residencyBudget == 0 { return Raised(NotAdmitted); }
      var i := FindReservation(reservations, relid);
      var uses := i < |reservations| && reservations[i].headroom > 0;
      var charge := if uses then 0 else delta;
      if residencyBytesCommitted + charge > residencyBudget { return Answer(false); }
      var k := FindFreeInsertReservation(insertReservations);
      if k == |insertReservations| { return Raised(InsertSlotsFull); }
      var p := Pending(relid, pid, now, charge, uses);
      PutInsertSums(View(), k, p);
      insertReservations := insertReservations[k := p];
      residencyBytesCommitted := residencyBytesCommitted + charge;
      if uses {
        var r := reservations[i].(headroom := reservations[i].headroom - 1);
        PutSums(View(), i, r);
        reservations := reservations[i := r];
      }
      out := Answer(true);
    }

    /** Free one pending insert and give its bytes back. */
    method ReleaseInsert(h: Header, k: nat)
      requires k < |insertReservations| && insertReservations[k].relid != 0
      requires Sum(insertReservations, DeltaOf) <= residencyBytesCommitted
      modifies this`residencyBytesCommitted, this`insertReservations, h`underflows
      ensures View() == PutInsert(old(View()), k, FreePending)
      ensures residencyBytesCommitted - Committed(View()) == old(residencyBytesCommitted) - old(Committed(View()))
      ensures Peaks(View()) == old(Peaks(View())) && h.underflows == old(h.underflows)
    {
      SumsNonNegative(View());
      residencyBytesCommitted := h.Subtract(residencyBytesCommitted, insertReservations[k].delta);
      PutInsertSums(old(View()), k, FreePending);
      insertReservations := insertReservations[k := FreePending];
    }

    method ReleaseOldestInsert(h: Header, relid: nat)
      requires relid != 0 && Sum(insertReservations, DeltaOf) <= residencyBytesCommitted
      modifies this, h
      ensures View() == ReleaseOldest(old(View()), relid)
      ensures residencyBytesCommitted - Committed(View()) == old(residencyBytesCommitted) - old(Committed(View()))
      ensures buildBytesCommitted == old(buildBytesCommitted) && Peaks(View()) == old(Peaks(View()))
      ensures h.totalBuildCommitted == old(h.totalBuildCommitted) && h.underflows == old(h.underflows)
      ensures h.totalResidencyCommitted == old(h.totalResidencyCommitted)
    {
      var k := FindOldestInsertReservation(insertReservations, relid);
      if k < |insertReservations| { ReleaseInsert(h, k); }
    }

    /** Replace the record's size by a fresh raw measurement, net of its debt. */
    method Remeasure(h: Header, i: nat, measured: nat) returns (growth: nat, newNet: nat)
      requires Valid() && i < |reservations| && reservations[i].relid != 0
      modifies this`reservations, this`residencyBytesCommitted, h`underflows
      ensures newNet == Remeasured(old(reservations[i]), measured).measured
      ensures View() == Put(old(View()), i, Remeasured(old(reservations[i]), measured))
      ensures growth == Growth(old(reservations[i]), measured)
      ensures residencyBytesCommitted == old(residencyBytesCommitted) - old(reservations[i].measured)
      ensures residencyBytesCommitted >= Sum(insertReservations, DeltaOf)
      ensures residencyBytesCommitted + newNet
        == Committed(View()) + (if old(reservations[i].phase in {Reserved, Rebuilding}) then newNet else 0)
      ensures Peaks(View()) == old(Peaks(View())) && h.underflows == old(h.underflows)
    {
      SumsNonNegative(View());
      var r := reservations[i];
      var oldRaw := r.measured + r.reclaimable;
      growth := if measured > oldRaw then measured - oldRaw else 0;
      var debt := if measured < r.reclaimable then measured else r.reclaimable;
      newNet := measured - debt;
      residencyBytesCommitted := h.Subtract(residencyBytesCommitted, r.measured);
      r := r.(measured := newNet, reclaimable := debt);
      PutSums(View(), i, r);
      reservations := reservations[i := r];
    }

    /** Folds the oldest pending insert and the index's old size into one measurement.
        Exact unless the record's graph is still being built. */
    method ReanchorInsert(h: Header, relid: nat, measured: nat) returns (out: Outcome)
      requires Valid() && relid != 0
      modifies this, h
      ensures (View(), out) == MemoryLedger.ReanchorInsert(old(View()), relid, measured)
      ensures BlockGuard(old(View()), ReanchorInsertOp(dbOid, relid, measured)) <==> Balanced(h)
    {
      var i := FindReservation(reservations, relid);
      if i == |reservations| { return Raised(NoReservation); }
      var generation := reservations[i].generation;
      var growth, newNet := Remeasure(h, i, measured);
      ReleaseOldestInsert(h, relid);
      residencyBytesCommitted := residencyBytesCommitted + newNet;
      out := Reanchored(growth, generation);
    }

    method ReconcileResident(h: Header, relid: nat, measured: nat, setHeadroom: bool, headroom: nat) returns (out: Outcome)
      requires Valid() && relid != 0
      modifies this, h
      ensures (View(), out) == MemoryLedger.ReconcileResident(old(View()), relid, measured, setHeadroom, headroom)
      ensures Balanced(h)
    {
      var i := FindReservation(reservations, relid);
      if i == |reservations| { return Raised(NoReservation); }
      if reservations[i].phase != Resident { return Raised(NotResident); }
      SumsNonNegative(View());
      var r := reservations[i];
      residencyBytesCommitted := h.Subtract(residencyBytesCommitted, r.measured);
      residencyBytesCommitted := residencyBytesCommitted + measured;
      r := r.(measured := measured, reclaimable := 0);
      if setHeadroom { r := r.(headroom := headroom); }
      PutSums(old(View()), i, r);
      reservations := reservations[i := r];
      out := Answer(true);
    }

    method CloseInsertReservation(h: Header, relid: nat)
      requires Valid() && relid != 0
      modifies this, h
      ensures View() == ReleaseOldest(old(View()), relid)
      ensures Balanced(h)
    {
      SumsNonNegative(View());
      ReleaseOldestInsert(h, relid);
    }

    /** Give an aborted insert's unit of headroom back, if the index still has a record. */
    method ReturnHeadroom(relid: nat)
      modifies this`reservations
      ensures var i := Find(old(reservations), relid);
        View() == if i == |old(reservations)| then old(View())
                  else Put(old(View()), i, old(reservations)[i].(headroom := old(reservations)[i].headroom + 1))
      ensures Committed(View()) == old(Committed(View())) && Peaks(View()) == old(Peaks(View()))
    {
      var i := FindReservation(reservations, relid);
      if i < |reservations| {
        var r := reservations[i].(headroom := reservations[i].headroom + 1);
        PutSums(View(), i, r);
        reservations := reservations[i := r];
      }
    }

    method AbortInsert(h: Header, relid: nat, pid: int) returns (out: Outcome)
      requires Valid() && relid != 0
      modifies this, h
      ensures (View(), out) == MemoryLedger.AbortInsert(old(View()), relid, pid)
      ensures Balanced(h)
    {
      var k := FindInsertReservationByOwner(insertReservations, relid, pid);
      if k == |insertReservations| { return Answer(false); }
      SumsNonNegative(View());
      var uses := insertReservations[k].usedHeadroom;
      ReleaseInsert(h, k);
      if uses { ReturnHeadroom(relid); }
      out := Answer(true);
    }

    method SumReclaimableBytes() returns (total: nat)
      ensures total == ReclaimableTotal(View())
    {
      total := 0;
      for i := 0 to |reservations|
        invariant total == Sum(reservations[..i], ReclaimableOf)
      {
        SumSnoc(reservations, i, ReclaimableOf);
        if reservations[i].relid != 0 { total := total + reservations[i].reclaimable; }
      }
      assert reservations[..|reservations|] == reservations;
    }

    /** Move an aborted insert's growth from the committed size to the reclaimable debt. */
    method ApplyCredit(h: Header, i: nat, growth: nat)
      requires Valid() && i < |reservations| && reservations[i].relid != 0 && reservations[i].phase == Resident
      modifies this, h
      ensures var r := old(reservations[i]); var credit := if growth < r.measured then growth else r.measured;
        View() == Put(old(View()), i, r.(measured := r.measured - credit, reclaimable := r.reclaimable + credit))
      ensures Balanced(h)
    {
      SumsNonNegative(View());
      var r := reservations[i];
      var credit := if growth < r.measured then growth else r.measured;
      residencyBytesCommitted := h.Subtract(residencyBytesCommitted, credit);
      var measured := h.Subtract(r.measured, credit);
      r := r.(measured := measured, reclaimable := r.reclaimable + credit);
      PutSums(old(View()), i, r);
      reservations := reservations[i := r];
    }

    method CreditAbortedInserts(h: Header, relid: nat, generation: nat, growth: nat) returns (out: Outcome)
      requires Valid() && relid != 0
      modifies this, h
      ensures (View(), out) == MemoryLedger.CreditAbortedInserts(old(View()), relid, generation, growth, h.limits.compactPct)
      ensures Balanced(h)
    {
      var i := FindReservation(reservations, relid);
      if i == |reservations| || reservations[i].phase != Resident || reservations[i].generation != generation
        || h.limits.compactPct >= 100 {
        return Answer(false);
      }
      ApplyCredit(h, i, growth);
      var reclaimable := SumReclaimableBytes();
      out := Answer(reclaimable > residencyBudget * h.limits.compactPct / 100);
    }

    /** One slot of the reaper's scan over the records. */
    method ReapReservation(h: Header, i: nat, dead: set<(int, int)>)
      requires Exact() && Peaks(View()) <= h.totalBuildCommitted && i < |reservations|
      modifies this, h
      ensures View() == Put(old(View()), i, ReapRecord(dead, old(reservations[i])))
      ensures Balanced(h)
    {
      var r := reservations[i];
      if r.relid == 0 || (r.phase != Reserved && r.phase != Rebuilding) || !OwnerDead(dead, r.ownerPid, r.reservedAt) {
        assert reservations[i := r] == reservations;
        return;
      }
      SumsNonNegative(View());
      if r.peak > 0 { ReleasePeak(h, r.peak); }
      if r.phase == Rebuilding {
        r := Restored(r);
      } else {
        residencyBytesCommitted := h.Subtract(residencyBytesCommitted, r.estimate);
        r := FreeRecord;
      }
      PutSums(old(View()), i, r);
      reservations := reservations[i := r];
    }

    /** One slot of the reaper's scan over the pending inserts. */
    method ReapInsert(h: Header, i: nat, dead: set<(int, int)>)
      requires Exact() && i < |insertReservations|
      modifies this, h
      ensures View() == PutInsert(old(View()), i, ReapPending(dead, old(insertReservations[i])))
      ensures Balanced(h)
    {
      var p := insertReservations[i];
      if p.relid == 0 || !OwnerDead(dead, p.ownerPid, p.reservedAt) {
        assert insertReservations[i := p] == insertReservations;
        return;
      }
      SumsNonNegative(View());
      residencyBytesCommitted := h.Subtract(residencyBytesCommitted, p.delta);
      PutInsertSums(old(View()), i, FreePending);
      insertReservations := insertReservations[i := FreePending];
    }

    method ReapReservations(h: Header, dead: set<(int, int)>)
      requires Exact() && Peaks(View()) <= h.totalBuildCommitted
      modifies this, h
      ensures View() == old(View()).(table := Map(old(reservations), ReapRecordOf(dead)))
      ensures Balanced(h) && Peaks(View()) <= h.totalBuildCommitted
    {
      for i := 0 to |reservations|
        invariant |reservations| == old(|reservations|)
        invariant View() == old(View()).(table := reservations)
        invariant forall j :: 0 <= j < i ==> reservations[j] == ReapRecord(dead, old(reservations)[j])
        invariant forall j :: i <= j < |reservations| ==> reservations[j] == old(reservations)[j]
        invariant Balanced(h) && Peaks(View()) <= h.totalBuildCommitted
      {
        ReapReservation(h, i, dead);
      }
    }

    /** ReapEntryReservations. */
    method Reap(h: Header, dead: set<(int, int)>)
      requires Valid() && Peaks(View()) <= h.totalBuildCommitted
      modifies this, h
      ensures View() == MemoryLedger.Reap(old(View()), dead)
      ensures Balanced(h)
    {
      ReapReservations(h, dead);
      ghost var table := reservations;
      for i := 0 to |insertReservations|
        invariant |insertReservations| == old(|insertReservations|)
        invariant View() == old(View()).(table := table, inserts := insertReservations)
        invariant forall j :: 0 <= j < i ==> insertReservations[j] == ReapPending(dead, old(insertReservations)[j])
        invariant forall j :: i <= j < |insertReservations| ==> insertReservations[j] == old(insertReservations)[j]
        invariant Balanced(h)
      {
        ReapInsert(h, i, dead);
      }
    }

    method DropIfStale(h: Header, i: nat, live: set<nat>)
      requires Exact() && i < |reservations| && (reservations[i].phase == Resident ==> reservations[i].peak == 0)
      modifies this, h
      ensures View() == Put(old(View()), i, MemoryLedger.DropIfStale(live, old(reservations[i])))
      ensures Balanced(h)
    {
      var r := reservations[i];
      if r.relid == 0 || r.phase != Resident || r.relid in live {
        assert reservations[i := r] == reservations;
        return;
      }
      SumsNonNegative(View());
      residencyBytesCommitted := h.Subtract(residencyBytesCommitted, r.measured);
      PutSums(old(View()), i, FreeRecord);
      reservations := reservations[i := FreeRecord];
    }

    /** SvsMemoryReconcileResidentReservations: forget resident indexes dropped meanwhile. */
    method DropStale(h: Header, live: set<nat>)
      requires Valid()
      modifies this, h
      ensures View() == MemoryLedger.DropStale(old(View()), live)
      ensures Balanced(h)
    {
      for i := 0 to |reservations|
        invariant |reservations| == old(|reservations|)
        invariant View() == old(View()).(table := reservations)
        invariant forall j :: 0 <= j < i ==> reservations[j] == MemoryLedger.DropIfStale(live, old(reservations)[j])
        invariant forall j :: i <= j < |reservations| ==> reservations[j] == old(reservations)[j]
        invariant Balanced(h)
      {
        DropIfStale(h, i, live);
      }
    }

    method Admit(h: Header, budget: nat, durableFloor: nat) returns (out: Outcome)
      requires Valid() && residencyBudget <= h.totalResidencyCommitted
      modifies this, h
      ensures (View(), out) == MemoryLedger.Admit(old(View()), budget, durableFloor,
                                                  old(h.totalResidencyCommitted), h.limits.residencyCeiling)
      ensures Balanced(h)
    {
      if budget == 0 { return Raised(ZeroBudget); }
      var reclaimable := SumReclaimableBytes();
      var committedFloor := Max(residencyBytesCommitted + reclaimable, durableFloor);
      if budget < committedFloor { return Raised(BelowCommitted); }
      var projected := h.Subtract(h.totalResidencyCommitted, residencyBudget);
      projected := projected + budget;
      if projected > h.limits.residencyCeiling { return Raised(OverResidencyCeiling); }
      h.totalResidencyCommitted := projected;
      residencyBudget := budget;
      out := Answer(true);
    }

    method RestoreBudget(h: Header, priorBudget: nat)
      requires Valid() && residencyBudget <= h.totalResidencyCommitted
      modifies this, h
      ensures View() == MemoryLedger.RestoreBudget(old(View()), priorBudget)
      ensures Balanced(h)
    {
      SumsNonNegative(View());
      var reclaimable := SumReclaimableBytes();
      var restored := Max(priorBudget, residencyBytesCommitted + reclaimable);
      var projected := h.Subtract(h.totalResidencyCommitted, residencyBudget);
      h.totalResidencyCommitted := projected + restored;
      residencyBudget := restored;
    }

    /** ResetDatabaseAccounting, as part of releasing the slot. */
    method Release(h: Header)
      requires Valid() && residencyBudget <= h.totalResidencyCommitted && Peaks(View()) <= h.totalBuildCommitted
      modifies this, h
      ensures View() == Reset(old(View()), 0)
      ensures Balanced(h)
    {
      ResetKeeps(View(), 0);
      h.totalBuildCommitted := h.Subtract(h.totalBuildCommitted, buildBytesCommitted);
      h.totalResidencyCommitted := h.Subtract(h.totalResidencyCommitted, residencyBudget);
      dbOid, residencyBudget, residencyBytesCommitted, buildBytesCommitted := 0, 0, 0, 0;
      reservations := seq(|reservations|, _ => FreeRecord);
      insertReservations := seq(|insertReservations|, _ => FreePending);
    }

    /** A durable size is adopted only for an index with no record of its own. */
    method SeedDurableResidency(h: Header, relid: nat, durable: nat, now: int) returns (out: Outcome)
      requires Valid() && relid != 0 && Peaks(View()) <= h.totalBuildCommitted
      modifies this, h
      ensures (View(), out) == (if Find(old(reservations), relid) < |old(reservations)| then (old(View()), Answer(true))
                                else MemoryLedger.ReconcileLoad(old(View()), relid, durable, 0, now))
      ensures Balanced(h)
    {
      var i := FindReservation(reservations, relid);
      if i < |reservations| { return Answer(true); }
      out := ReconcileLoad(h, relid, durable, 0, now);
    }
  }

  method FindFreeInsertReservation(inserts: seq<Pending>) returns (i: nat)
    ensures i == FindFreeInsert(inserts)
  {
    i := 0;
    while i < |inserts| && inserts[i].relid != 0
      invariant i <= |inserts| && i <= FindFreeInsert(inserts)
    {
      i := i + 1;
    }
  }

  method FindInsertReservationByOwner(inserts: seq<Pending>, relid: nat, pid: int) returns (i: nat)
    ensures i == FindInsertByOwner(inserts, relid, pid)
  {
    i := 0;
    while i < |inserts| && !(inserts[i].relid == relid && inserts[i].ownerPid == pid)
      invariant i <= |inserts| && i <= FindInsertByOwner(inserts, relid, pid)
    {
      i := i + 1;
    }
  }

  /** The oldest pending insert of relid: the scan keeps the first of the earliest seen so far. */
  method FindOldestInsertReservation(inserts: seq<Pending>, relid: nat) returns (oldest: nat)
    ensures oldest == Oldest(inserts, relid, |inserts|)
  {
    oldest := |inserts|;
    for i := 0 to |inserts|
      invariant oldest == Oldest(inserts, relid, i)
    {
      if inserts[i].relid == relid && (oldest == |inserts| || inserts[i].reservedAt < inserts[oldest].reservedAt) {
        oldest := i;
      }
    }
  }

  ghost function FreeCluster(capacity: nat, limits: Limits, empty: Block): Cluster {
    Cluster(seq(capacity, _ => empty), limits.buildCeiling, limits.residencyCeiling, limits.compactPct)
  }

  lemma FreeClusterValid(capacity: nat, limits: Limits, empty: Block)
    requires WellFormed(empty) && empty.dbOid == 0 && Peaks(empty) == 0 && empty.budget == 0
    ensures var c := FreeCluster(capacity, limits, empty); WellFormedCluster(c) && BuildTotal(c) == 0 && BudgetTotal(c) == 0
  {
    FreeSum(capacity, empty, Peaks);
    FreeSum(capacity, empty, BudgetOf);
  }

  /** How one block's step moves the roll-ups. */
  lemma StepTotals(c: Cluster, op: Op)
    requires FindBlock(c.blocks, op.dbOid) < |c.blocks|
    ensures var i := FindBlock(c.blocks, op.dbOid); var b := BlockStep(c, c.blocks[i], op).0; var c' := Step(c, op).0;
      && c' == c.(blocks := c.blocks[i := b])
      && BuildTotal(c') == BuildTotal(c) - Peaks(c.blocks[i]) + Peaks(b)
      && BudgetTotal(c') == BudgetTotal(c) - c.blocks[i].budget + b.budget
  {
    var i := FindBlock(c.blocks, op.dbOid);
    var b := BlockStep(c, c.blocks[i], op).0;
    SumUpdate(c.blocks, i, b, Peaks);
    SumUpdate(c.blocks, i, b, BudgetOf);
  }

  /** Taking over a free block changes its name and neither roll-up. */
  lemma {:induction false} ClaimTotals(c: Cluster, dbOid: nat)
    requires WellFormedCluster(c) && dbOid != 0 && FindBlock(c.blocks, dbOid) == |c.blocks|
    requires FindBlock(c.blocks, 0) < |c.blocks|
    ensures var i := FindBlock(c.blocks, 0); var (c', out) := Step(c, ReserveSlotOp(dbOid));
      && c' == c.(blocks := c.blocks[i := c.blocks[i].(dbOid := dbOid)]) && out == Answer(true)
      && WellFormedCluster(c') && BuildTotal(c') == BuildTotal(c) && BudgetTotal(c') == BudgetTotal(c)
  {
    var i := FindBlock(c.blocks, 0);
    StepKeeps(c, ReserveSlotOp(dbOid));
    SumUpdate(c.blocks, i, c.blocks[i].(dbOid := dbOid), Peaks);
    SumUpdate(c.blocks, i, c.blocks[i].(dbOid := dbOid), BudgetOf);
  }

  lemma BlockWithinTotals(c: Cluster, i: nat)
    requires i < |c.blocks|
    ensures Peaks(c.blocks[i]) <= BuildTotal(c) && c.blocks[i].budget <= BudgetTotal(c)
  {
    forall b | b in c.blocks ensures Peaks(b) >= 0 { SumsNonNegative(b); }
    SumNonNegative(c.blocks, Peaks);
    SumNonNegative(c.blocks, BudgetOf);
    assert c.blocks[i] in c.blocks;
    assert BudgetOf(c.blocks[i]) <= Sum(c.blocks, BudgetOf);
  }

  /* ---- the kinds of call ---- */

  predicate OnBuild(op: Op) { op.ReserveBuildOp? || op.ConfirmBuildOp? || op.HandoffBuildOp? || op.AbortBuildOp? }

  predicate OnResidency(op: Op) {
    op.ReconcileLoadOp? || op.AccountUnloadOp? || op.ReconcileResidentOp? || op.DropStaleOp? || op.SeedDurableOp?
  }

  predicate OnInsert(op: Op) {
    op.ReserveInsertOp? || op.ReanchorInsertOp? || op.CloseInsertOp? || op.AbortInsertOp? || op.CreditOp?
  }

  predicate OnBlock(op: Op) { op.ReapOp? || op.AdmitOp? || op.RestoreBudgetOp? || op.ReleaseSlotOp? || op.ReserveSlotOp? }

  /** The whole of shared memory: one header, and a fixed array of control blocks. */
  class Authority {
    const header: Header
    const entries: seq<Entry>
    /** The ledger these counters and tables stand for. */
    ghost var model: Cluster

    /** The control blocks hold the ledger's records. */
    ghost predicate Mirrors()
      reads this, header, entries
    {
      && (forall i, j :: 0 <= i < j < |entries| ==> entries[i] != entries[j])
      && |model.blocks| == |entries|
      && (forall i :: 0 <= i < |entries| ==> entries[i].View() == model.blocks[i])
      && header.limits == Limits(model.buildCeiling, model.residencyCeiling, model.compactPct)
    }

    /** The roll-ups are the ledger's totals. */
    ghost predicate RolledUp()
      reads this, header
    {
      header.totalBuildCommitted == BuildTotal(model) && header.totalResidencyCommitted == BudgetTotal(model)
    }

    ghost predicate Valid()
      reads this, header, entries
    {
      && Mirrors() && RolledUp() && WellFormedCluster(model)
      && forall i :: 0 <= i < |entries| ==> entries[i].Exact()
    }

    /** Shared memory as first laid out: every control block free. */
    constructor (capacity: nat, limits: Limits, indexes: nat, pending: nat)
      requires indexes == MAX_INDEXES && pending == MAX_PENDING_INSERTS
      ensures Valid() && header.underflows == 0
      ensures model == FreeCluster(capacity, limits, FreeBlock(0, indexes, pending, 0))
    {
      var h := new Header(limits);
      var es: seq<Entry> := [];
      ghost var empty := FreeBlock(0, indexes, pending, 0);
      for i := 0 to capacity
        invariant |es| == i && fresh(h) && h.totalBuildCommitted == 0 && h.totalResidencyCommitted == 0
        invariant h.underflows == 0 && h.limits == limits
        invariant forall j :: 0 <= j < i ==> fresh(es[j]) && es[j].View() == empty && es[j].Exact()
        invariant forall j, k :: 0 <= j < k < i ==> es[j] != es[k]
      {
        var e := new Entry(indexes, pending);
        es := es + [e];
      }
      header, entries := h, es;
      model := FreeCluster(capacity, limits, empty);
      new;
      FreeBlockSums(0, indexes, pending, 0);
      FreeClusterValid(capacity, limits, empty);
    }

    method LookupSlot(dbOid: nat) returns (i: nat)
      requires Valid()
      ensures i == FindBlock(model.blocks, dbOid)
    {
      i := 0;
      while i < |entries| && entries[i].dbOid != dbOid
        invariant i <= |entries| && i <= FindBlock(model.blocks, dbOid)
      {
        assert entries[i].View() == model.blocks[i];
        i := i + 1;
      }
      if i < |entries| { assert entries[i].View() == model.blocks[i]; }
    }

    /** The locked section of each call that has a control block to work on. */
    method Dispatch(e: Entry, op: Op, ghost c: Cluster) returns (out: Outcome)
      requires e.Valid() && ValidOp(op)
      requires header.limits == Limits(c.buildCeiling, c.residencyCeiling, c.compactPct)
      requires header.totalBuildCommitted == BuildTotal(c) && header.totalResidencyCommitted == BudgetTotal(c)
      requires Peaks(e.View()) <= header.totalBuildCommitted && e.residencyBudget <= header.totalResidencyCommitted
      modifies e, header
      ensures (e.View(), out) == BlockStep(c, old(e.View()), op)
      ensures BlockGuard(old(e.View()), op) <==> e.Balanced(header)
    {
      if OnBuild(op) {
        out := DispatchBuild(e, op, c);
      } else if OnResidency(op) {
        out := DispatchResidency(e, op, c);
      } else if OnInsert(op) {
        out := DispatchInsert(e, op, c);
      } else {
        out := DispatchBlock(e, op, c);
      }
    }

    method DispatchBuild(e: Entry, op: Op, ghost c: Cluster) returns (out: Outcome)
      requires e.Valid() && ValidOp(op) && OnBuild(op)
      requires header.limits == Limits(c.buildCeiling, c.residencyCeiling, c.compactPct)
      requires header.totalBuildCommitted == BuildTotal(c) && header.totalResidencyCommitted == BudgetTotal(c)
      requires Peaks(e.View()) <= header.totalBuildCommitted && e.residencyBudget <= header.totalResidencyCommitted
      modifies e, header
      ensures (e.View(), out) == BlockStep(c, old(e.View()), op)
      ensures BlockGuard(old(e.View()), op) <==> e.Balanced(header)
    {
      match op
      case ReserveBuildOp(_, relid, peak, estimate, pid, now) => out := e.ReserveBuild(header, relid, peak, estimate, pid, now);
      case ConfirmBuildOp(_, relid, peak, measured) => out := e.ConfirmBuild(header, relid, peak, measured);
      case HandoffBuildOp(_, relid) => out := e.HandoffBuild(header, relid);
      case AbortBuildOp(_, relid) => out := e.AbortBuild(header, relid);
    }

    method DispatchResidency(e: Entry, op: Op, ghost c: Cluster) returns (out: Outcome)
      requires e.Valid() && ValidOp(op) && OnResidency(op)
      requires header.limits == Limits(c.buildCeiling, c.residencyCeiling, c.compactPct)
      requires header.totalBuildCommitted == BuildTotal(c) && header.totalResidencyCommitted == BudgetTotal(c)
      requires Peaks(e.View()) <= header.totalBuildCommitted && e.residencyBudget <= header.totalResidencyCommitted
      modifies e, header
      ensures (e.View(), out) == BlockStep(c, old(e.View()), op)
      ensures BlockGuard(old(e.View()), op) <==> e.Balanced(header)
    {
      match op
      case ReconcileLoadOp(_, relid, measured, headroom, now) => out := e.ReconcileLoad(header, relid, measured, headroom, now);
      case AccountUnloadOp(_, relid) => out := e.AccountUnload(header, relid);
      case ReconcileResidentOp(_, relid, measured, set_, headroom) =>
        out := e.ReconcileResident(header, relid, measured, set_, headroom);
      case DropStaleOp(_, live) => e.DropStale(header, live); out := Answer(true);
      case SeedDurableOp(_, relid, durable, now) => out := e.SeedDurableResidency(header, relid, durable, now);
    }

    method DispatchInsert(e: Entry, op: Op, ghost c: Cluster) returns (out: Outcome)
      requires e.Valid() && ValidOp(op) && OnInsert(op)
      requires header.limits == Limits(c.buildCeiling, c.residencyCeiling, c.compactPct)
      requires header.totalBuildCommitted == BuildTotal(c) && header.totalResidencyCommitted == BudgetTotal(c)
      requires Peaks(e.View()) <= header.totalBuildCommitted && e.residencyBudget <= header.totalResidencyCommitted
      modifies e, header
      ensures (e.View(), out) == BlockStep(c, old(e.View()), op)
      ensures BlockGuard(old(e.View()), op) <==> e.Balanced(header)
    {
      match op
      case ReserveInsertOp(_, relid, delta, pid, now) => out := e.ReserveInsert(header, relid, delta, pid, now);
      case ReanchorInsertOp(_, relid, measured) => out := e.ReanchorInsert(header, relid, measured);
      case CloseInsertOp(_, relid) => e.CloseInsertReservation(header, relid); out := Answer(true);
      case AbortInsertOp(_, relid, pid) => out := e.AbortInsert(header, relid, pid);
      case CreditOp(_, relid, generation, growth) => out := e.CreditAbortedInserts(header, relid, generation, growth);
    }

    method DispatchBlock(e: Entry, op: Op, ghost c: Cluster) returns (out: Outcome)
      requires e.Valid() && ValidOp(op) && OnBlock(op)
      requires header.limits == Limits(c.buildCeiling, c.residencyCeiling, c.compactPct)
      requires header.totalBuildCommitted == BuildTotal(c) && header.totalResidencyCommitted == BudgetTotal(c)
      requires Peaks(e.View()) <= header.totalBuildCommitted && e.residencyBudget <= header.totalResidencyCommitted
      modifies e, header
      ensures (e.View(), out) == BlockStep(c, old(e.View()), op)
      ensures BlockGuard(old(e.View()), op) <==> e.Balanced(header)
    {
      match op
      case ReapOp(_, dead) => e.Reap(header, dead); out := Answer(true);
      case AdmitOp(_, budget, durableFloor) => out := e.Admit(header, budget, durableFloor);
      case RestoreBudgetOp(_, priorBudget) => e.RestoreBudget(header, priorBudget); out := Answer(true);
      case ReleaseSlotOp(_) => e.Release(header); out := Answer(true);
      case ReserveSlotOp(_) => out := Answer(false);
    }

    /** The counters of control block i, which held b, and the roll-ups moved together. */
    twostate predicate Moved(i: nat, b: Block)
      requires i < |entries|
      reads entries, header
    {
      && entries[i].Exact()
      && header.totalBuildCommitted == old(header.totalBuildCommitted) - Peaks(b) + Peaks(entries[i].View())
      && header.totalResidencyCommitted == old(header.totalResidencyCommitted) - b.budget + entries[i].residencyBudget
      && header.underflows == old(header.underflows)
    }

    method ActOn(i: nat, op: Op) returns (out: Outcome)
      requires Valid() && ValidOp(op) && i < |entries|
      modifies entries[i], header
      ensures (entries[i].View(), out) == BlockStep(model, old(model.blocks[i]), op)
      ensures BlockGuard(model.blocks[i], op) <==> Moved(i, model.blocks[i])
    {
      BlockWithinTotals(model, i);
      out := Dispatch(entries[i], op, model);
    }

    /** The same with the ledger brought along. */
    method ActInLedger(i: nat, op: Op) returns (out: Outcome, ghost b: Block)
      requires Valid() && ValidOp(op) && i < |entries|
      modifies this`model, entries[i], header
      ensures model == old(model).(blocks := old(model).blocks[i := b]) && Mirrors()
      ensures (b, out) == BlockStep(old(model), old(model.blocks[i]), op)
      ensures BlockGuard(old(model).blocks[i], op) <==> Moved(i, old(model).blocks[i])
      ensures forall j :: 0 <= j < |entries| && j != i ==> entries[j].Exact()
    {
      out := ActOn(i, op);
      b := entries[i].View();
      model := model.(blocks := model.blocks[i := b]);
    }

    /** A call on a database that has a control block. */
    method PerformOn(i: nat, op: Op) returns (out: Outcome)
      requires Valid() && ValidOp(op) && i == FindBlock(model.blocks, op.dbOid) && i < |entries|
      modifies this, header, entries
      ensures (model, out) == Step(old(model), op)
      ensures Guard(old(model), op) <==> Valid() && header.underflows == old(header.underflows)
    {
      ghost var c := model;
      ghost var b;
      out, b := ActInLedger(i, op);
      StepTotals(c, op);
      if Guard(c, op) { StepKeeps(c, op); }
    }

    /** Write a name on control block i. */
    method NameBlock(i: nat, dbOid: nat)
      requires Valid() && i < |entries|
      modifies this`model, entries[i]
      ensures model == old(model).(blocks := old(model).blocks[i := old(model).blocks[i].(dbOid := dbOid)])
      ensures Mirrors() && forall j :: 0 <= j < |entries| ==> entries[j].Exact()
    {
      assert entries[i].View() == model.blocks[i];
      entries[i].dbOid := dbOid;
      model := model.(blocks := model.blocks[i := model.blocks[i].(dbOid := dbOid)]);
    }

    /** ReserveSlot for a database without one: take over a free control block. */
    method ClaimSlot(dbOid: nat) returns (out: Outcome)
      requires Valid() && dbOid != 0 && FindBlock(model.blocks, dbOid) == |entries|
      modifies this, entries
      ensures (model, out) == Step(old(model), ReserveSlotOp(dbOid))
      ensures Valid()
    {
      var free := LookupSlot(0);
      if free == |entries| { return Raised(NoSlot); }
      ClaimTotals(model, dbOid);
      NameBlock(free, dbOid);
      out := Answer(true);
    }

    /** One call of the API. It always takes the ledger's step, and it leaves every
        counter exact, with nothing clamped, exactly when its guard holds. */
    method Perform(op: Op) returns (out: Outcome)
      requires Valid() && ValidOp(op)
      modifies this, header, entries
      ensures (model, out) == Step(old(model), op)
      ensures Guard(old(model), op) <==> Valid() && header.underflows == old(header.underflows)
    {
      var i := LookupSlot(op.dbOid);
      if i < |entries| {
        out := PerformOn(i, op);
      } else if op.ReserveSlotOp? {
        out := ClaimSlot(op.dbOid);
      } else {
        out := if NeedsSlot(op) then Raised(NoSlot) else Answer(false);
      }
    }

    /** Over every run of guarded calls the running counters equal the sums they stand
        for at every point, and no subtraction ever clamps. */
    method Execute(ops: seq<Op>)
      requires Valid() && GuardedRun(model, ops)
      modifies this, header, entries
      ensures Valid() && header.underflows == old(header.underflows)
      ensures model == Run(old(model), ops)
    {
      var k := 0;
      while k < |ops|
        invariant k <= |ops| && Valid() && header.underflows == old(header.underflows)
        invariant GuardedRun(model, ops[k..]) && Run(model, ops[k..]) == Run(old(model), ops)
      {
        assert ops[k..][0] == ops[k] && ops[k..][1..] == ops[k + 1..];
        var _ := Perform(ops[k]);
        k := k + 1;
      }
    }
  }
}
