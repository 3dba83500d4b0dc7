/** The cached index as replay updates it: the forward map an array grown on demand, the
    reverse map a hash. */
module TidCache {
  import opened TidMaps

  /** What fetching the heap tuple and detoasting its vector came to. */
  datatype Fetch = Missing | Null | Vector

  class IndexCache {
    /** Absent until something has been mapped; the reverse hash exists along with it. */
    var tidMapping: array?<nat>
    var tidToExternalId: map<nat, nat>
    var svsPresent: bool
    var nextExternalId: nat
    var numVectors: nat
    var numDeleted: nat

    /** The two maps are created together. */
    ghost predicate Formed()
      reads this
    {
      (tidMapping == null ==> tidToExternalId == map[]) && (tidMapping != null ==> tidMapping.Length > 0)
    }

    ghost function Forward(): seq<nat>
      reads this, tidMapping
    {
      if tidMapping == null then [] else tidMapping[..]
    }

    ghost function View(): Maps
      reads this, tidMapping
    {
      Maps(Forward(), tidToExternalId, nextExternalId, numVectors, numDeleted)
    }

    /** Load a checkpointed map: its reverse and live count are recomputed, its next id is
        the metapage's. */
    constructor (tidMapping: array?<nat>, svsPresent: bool, nextExternalId: nat, numDeleted: nat, numVectors: nat)
      requires tidMapping != null ==> tidMapping.Length > 0
      ensures Formed() && this.svsPresent == svsPresent
      ensures tidMapping != null ==> fresh(this.tidMapping) && View() == Loaded(tidMapping[..], nextExternalId, numDeleted)
      ensures tidMapping == null ==> View() == Maps([], map[], nextExternalId, numVectors, numDeleted)
    {
      this.tidMapping, this.svsPresent := null, svsPresent;
      this.nextExternalId, this.numVectors, this.numDeleted := nextExternalId, numVectors, numDeleted;
      tidToExternalId := map[];
      new;
      if tidMapping != null {
        this.tidMapping := CopyOf(tidMapping, tidMapping.Length);
        tidToExternalId, this.numVectors := BuildReverse(this.tidMapping);
        assert this.tidMapping[..] == tidMapping[..];
      }
    }

    /** The source grows the map it has, so an insert that gets that far needs one. */
    method ApplyInsert(tid: nat, fetch: Fetch, added: bool)
      requires Formed() && (svsPresent && fetch.Vector? && added ==> tidMapping != null)
      modifies this, tidMapping
      ensures Formed() && svsPresent == old(svsPresent)
      ensures tidMapping == old(tidMapping) || fresh(tidMapping)
      ensures View() == if svsPresent && fetch.Vector? && added then Inserted(old(View()), tid) else old(View())
    {
      if tid in tidToExternalId { return; }
      if !svsPresent { return; }
      if !fetch.Vector? { return; }
      if !added { return; }
      var externalId := nextExternalId;
      EnsureRoom(externalId);
      Place(tid, externalId);
    }

    /** Grow the forward map to hold an id, leaving new slots empty. */
    method EnsureRoom(id: nat)
      requires Formed() && tidMapping != null
      modifies this`tidMapping
      ensures Formed() && tidMapping != null && (tidMapping == old(tidMapping) || fresh(tidMapping))
      ensures Forward() == Grown(old(Forward()), id)
    {
      if id >= tidMapping.Length {
        var capacity := tidMapping.Length;
        var newCap := if capacity > 0 then capacity * 2 else FIRST_CAPACITY;
        if newCap <= id { newCap := id + 1; }
        var grown := CopyOf(tidMapping, newCap);
        assert grown[..] == tidMapping[..] + Zeros(newCap - capacity);
        tidMapping := grown;
      }
    }

    method Place(tid: nat, externalId: nat)
      requires Formed() && tidMapping != null && externalId < tidMapping.Length
      requires tid !in tidToExternalId && externalId == nextExternalId
      modifies this`tidToExternalId, this`nextExternalId, this`numVectors, tidMapping
      ensures Formed() && Forward() == old(Forward())[externalId := tid]
      ensures tidToExternalId == old(tidToExternalId)[tid := externalId]
      ensures nextExternalId == old(nextExternalId) + 1 && numVectors == old(numVectors) + 1
    {
      tidMapping[externalId] := tid;
      tidToExternalId := tidToExternalId[tid := externalId];
      nextExternalId := externalId + 1;
      numVectors := numVectors + 1;
    }

    method ApplyDelete(tid: nat, deleted: bool)
      requires Formed()
      modifies this, tidMapping
      ensures Formed() && svsPresent == old(svsPresent) && tidMapping == old(tidMapping)
      ensures View() == if svsPresent && deleted then Deleted(old(View()), tid) else old(View())
    {
      if tidMapping == null { return; }
      if tid !in tidToExternalId { return; }
      var externalId := tidToExternalId[tid];
      if !svsPresent { return; }
      if !deleted { return; }
      if externalId < tidMapping.Length {
        tidMapping[externalId] := InvalidTid;
      }
      tidToExternalId := tidToExternalId - {tid};
      numDeleted := numDeleted + 1;
      numVectors := if numVectors > 0 then numVectors - 1 else 0;
    }

    method ForgetExternalId(externalId: nat)
      requires Formed()
      modifies this`tidToExternalId, tidMapping
      ensures Formed() && View() == Forgotten(old(View()), externalId)
    {
      if tidMapping == null || externalId >= tidMapping.Length { return; }
      var tid := tidMapping[externalId];
      if tid == InvalidTid { return; }
      tidToExternalId := tidToExternalId - {tid};
      tidMapping[externalId] := InvalidTid;
    }
  }

  /** A copy of an array in a larger one, the rest empty. */
  method CopyOf(a: array<nat>, size: nat) returns (b: array<nat>)
    requires a.Length <= size
    ensures fresh(b) && b.Length == size
    ensures forall i :: 0 <= i < size ==> b[i] == if i < a.Length then a[i] else InvalidTid
  {
    b := new nat[size];
    for i := 0 to size
      invariant forall j :: 0 <= j < i ==> b[j] == if j < a.Length then a[j] else InvalidTid
    {
      b[i] := if i < a.Length then a[i] else InvalidTid;
    }
  }

  /** The reverse hash of a forward map, and how many of its slots are live. */
  method BuildReverse(tidMapping: array<nat>) returns (reverse: map<nat, nat>, liveCount: nat)
    ensures reverse == Reversed(tidMapping[..]) && liveCount == LiveCount(tidMapping[..])
  {
    reverse, liveCount := map[], 0;
    for i := 0 to tidMapping.Length
      invariant reverse == Reversed(tidMapping[..i]) && liveCount == LiveCount(tidMapping[..i])
    {
      assert tidMapping[..i + 1][..i] == tidMapping[..i];
      var tid := tidMapping[i];
      if tid == InvalidTid { continue; }
      if tid !in reverse { reverse := reverse[tid := i]; }
      liveCount := liveCount + 1;
    }
    assert tidMapping[..tidMapping.Length] == tidMapping[..];
  }
}
