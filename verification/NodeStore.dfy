/**
 * The lifecycle operations as the node performs them: pins and records are changed
 * one call at a time, and compensated when a write fails. Each method runs under the
 * lock of the CID it names; its contract equates the slot it leaves with the
 * specification in `Lifecycle`.
 */
module NodeStore {
  import opened Common
  import opened Records
  import opened Lifecycle
  import opened NodeState

  class NodeStore {
    var store: map<Cid, Stored>
    var pins: set<Cid>
    var owners: Owners
    var nextRevision: nat

    ghost function State(): Node
      reads this
    {
      Node(store, pins, owners, nextRevision)
    }

    ghost predicate Valid()
      reads this
    {
      WellStored(State())
    }

    constructor ()
      ensures Valid() && State() == Node(map[], {}, Owners({}, {}), 0)
    {
      store, pins, owners, nextRevision := map[], {}, Owners({}, {}), 0;
    }

    // ------------------------------------------------------------ primitives

    function Get(cid: Cid): (r: Option<FileRecord>)
      reads this
      ensures r == SlotAt(State(), cid).rec
    {
      if cid in store then Some(store[cid].file) else None
    }

    /** Stamp and persist a record; an invalid one is refused before the datastore sees it. */
    method Save(cid: Cid, record: FileRecord, fault: Fault) returns (ok: bool)
      requires Valid()
      modifies this`store, this`nextRevision
      ensures ok == (IsFileRecord(record) && fault == Works)
      ensures Valid()
      ensures if IsFileRecord(record) && fault != FailsBeforeWrite
              then Moves(old(State()), State(), cid, Slot(Some(record), cid in pins))
                   && nextRevision == old(nextRevision) + 1
                   && Entry(State(), cid) == Some(Stored(record, old(nextRevision)))
              else State() == old(State())
    {
      ok := false;
      if IsFileRecord(record) && fault != FailsBeforeWrite {
        store := store[cid := Stored(record, nextRevision)];
        nextRevision := nextRevision + 1;
        ok := fault == Works;
        MovesKeepsWellStored(old(State()), State(), cid, Slot(Some(record), cid in pins));
      }
    }

    method Remove(cid: Cid, fault: Fault) returns (ok: bool)
      requires Valid()
      modifies this`store
      ensures ok == (fault == Works)
      ensures Valid()
      ensures if fault != FailsBeforeWrite
              then Moves(old(State()), State(), cid, Slot(None, cid in pins))
              else State() == old(State())
    {
      if fault != FailsBeforeWrite {
        store := store - {cid};
        MovesKeepsWellStored(old(State()), State(), cid, Slot(None, cid in pins));
      }
      ok := fault == Works;
    }

    /** @returns whether this call created the pin */
    method PinFile(cid: Cid) returns (created: bool)
      requires Valid()
      modifies this`pins
      ensures created == (cid !in old(pins))
      ensures Valid() && Moves(old(State()), State(), cid, Slot(Get(cid), true))
    {
      created := cid !in pins;
      pins := pins + {cid};
      MovesKeepsWellStored(old(State()), State(), cid, Slot(Get(cid), true));
    }

    /** @returns whether this call removed a pin */
    method UnpinFile(cid: Cid) returns (removed: bool)
      requires Valid()
      modifies this`pins
      ensures removed == (cid in old(pins))
      ensures Valid() && Moves(old(State()), State(), cid, Slot(Get(cid), false))
    {
      removed := cid in pins;
      pins := pins - {cid};
      MovesKeepsWellStored(old(State()), State(), cid, Slot(Get(cid), false));
    }

    /** Put back a record read earlier under the same lock, or its absence. */
    method RestoreRecord(cid: Cid, previous: Option<FileRecord>)
      requires Valid()
      requires previous.Some? ==> IsFileRecord(previous.value)
      modifies this`store, this`nextRevision
      ensures Valid() && Moves(old(State()), State(), cid, Slot(previous, cid in pins))
    {
      if previous.None? {
        var _ := Remove(cid, Works);
      } else {
        var _ := Save(cid, previous.value, Works);
      }
    }

    // ------------------------------------------------------------ replica stages

    /** `restoreStageWrite`: the pin first, then the record. */
    method RestoreStageWrite(cid: Cid, previous: Option<FileRecord>, createdPin: bool)
      requires Valid()
      requires previous.Some? ==> IsFileRecord(previous.value)
      modifies this`store, this`nextRevision, this`pins
      ensures Valid()
      ensures Moves(old(State()), State(), cid, Slot(previous, old(cid in pins) && !createdPin))
    {
      if createdPin {
        var _ := UnpinFile(cid);
      }
      RestoreRecord(cid, previous);
    }

    method StageReplica(cid: Cid, q: StageRequest, aborted: bool, fault: Fault) returns (reply: Reply)
      requires Valid()
      modifies this`store, this`nextRevision, this`pins
      ensures Valid()
      ensures Moves(old(State()), State(), cid, StageSlot(old(SlotAt(State(), cid)), q, aborted, fault).slot)
      ensures reply == StageSlot(old(SlotAt(State(), cid)), q, aborted, fault).reply
    {
      if aborted { return Error; }
      var previous := Get(cid);
      if previous.Some? && previous.value.stage.Some? {
        reply := JoinStage(cid, q, previous.value, fault);
        return;
      }
      if previous.Some? && previous.value.state == Temporary { return Error; }
      if previous.Some? && !IsAdmissionSettled(previous.value) { return Error; }
      reply := FirstStage(cid, q, previous, fault);
    }

    /** Another transaction shares a stage; its pin belongs to the others too. */
    method JoinStage(cid: Cid, q: StageRequest, previous: FileRecord, fault: Fault) returns (reply: Reply)
      requires Valid() && Get(cid) == Some(previous) && previous.stage.Some?
      modifies this`store, this`nextRevision, this`pins
      ensures Valid()
      ensures Moves(old(State()), State(), cid, StageSlot(old(SlotAt(State(), cid)), q, false, fault).slot)
      ensures reply == StageSlot(old(SlotAt(State(), cid)), q, false, fault).reply
    {
      var stage := previous.stage.value;
      if q.tx in stage.transactionIds && !MaySettle(OriginOf(stage, q.tx), q.origin) { return Error; }
      var _ := PinFile(cid);
      var joined := JoinedStage(previous, q.tx, q.origin, q.now + q.ttl);
      JoinedStageIsValid(previous, q.tx, q.origin, q.now + q.ttl);
      var ok := Save(cid, joined, fault);
      if !ok {
        // Other transactions still own this pin.
        RestoreStageWrite(cid, Some(previous), false);
        return Error;
      }
      return Ok(joined, true);
    }

    method FirstStage(cid: Cid, q: StageRequest, previous: Option<FileRecord>, fault: Fault) returns (reply: Reply)
      requires Valid() && Get(cid) == previous
      requires previous.Some? ==>
        previous.value.stage.None? && previous.value.state != Temporary && IsAdmissionSettled(previous.value)
      modifies this`store, this`nextRevision, this`pins
      ensures Valid()
      ensures Moves(old(State()), State(), cid, StageSlot(old(SlotAt(State(), cid)), q, false, fault).slot)
      ensures reply == StageSlot(old(SlotAt(State(), cid)), q, false, fault).reply
    {
      var wasDirectlyPinned := cid in pins;
      var createdPin := PinFile(cid);
      var record; var staged;
      if wasDirectlyPinned || (previous.Some? && previous.value.state == Confirmed) {
        record, staged := StableReplica(previous, q.name, q.stat, q.now), false;
      } else {
        record, staged := FreshStage(previous, q.name, q.stat, q.tx, q.origin, q.now, q.ttl), true;
      }
      var ok := Save(cid, record, fault);
      if !ok {
        RestoreStageWrite(cid, previous, createdPin);
        return Error;
      }
      return Ok(record, staged);
    }

    method CommitReplica(cid: Cid, tx: TransactionId, peer: Option<PeerId>, now: Time, fault: Fault)
      returns (reply: Reply)
      requires Valid()
      modifies this`store, this`nextRevision
      ensures Valid()
      ensures Moves(old(State()), State(), cid, CommitSlot(old(SlotAt(State(), cid)), tx, peer, now, fault).slot)
      ensures reply == CommitSlot(old(SlotAt(State(), cid)), tx, peer, now, fault).reply
    {
      var current := Get(cid);
      if current.None? || current.value.stage.None? || tx !in current.value.stage.value.transactionIds {
        if current.Some? && current.value.state == Confirmed && current.value.pinned
           && current.value.heldLocally && IsAdmissionSettled(current.value) {
          return Ok(current.value, false);
        }
        return Error;
      }
      if !MaySettle(OriginOf(current.value.stage.value, tx), peer) { return Error; }
      var ok := Save(cid, Durable(current.value, now), fault);
      return if ok then Ok(Durable(current.value, now), false) else Error;
    }

    method RestoreReplicaStage(cid: Cid, current: FileRecord, keepCreatedRecord: bool, fault: Fault)
      returns (reply: Reply)
      requires Valid() && Get(cid) == Some(current) && current.stage.Some?
      modifies this`store, this`nextRevision, this`pins
      ensures Valid()
      ensures Moves(old(State()), State(), cid,
          RestoreStageSlot(current, old(cid in pins), keepCreatedRecord, fault).slot)
      ensures reply == RestoreStageSlot(current, old(cid in pins), keepCreatedRecord, fault).reply
      ensures reply.Ok? ==> Entry(State(), cid).Some? && old(nextRevision) <= Entry(State(), cid).value.revision
    {
      var removedPin := UnpinFile(cid);
      if current.stage.value.previous.None? && !keepCreatedRecord {
        var removed := Remove(cid, fault);
        if removed { return Missing; }
        if removedPin {
          var _ := PinFile(cid);
        }
        var _ := Save(cid, current, Works);
        return Error;
      }
      // The promise of this write is returned, not awaited: nothing compensates it.
      var saved := Save(cid, Unstaged(current), fault);
      return if saved then Ok(Unstaged(current), false) else Error;
    }

    method AbortReplica(cid: Cid, tx: TransactionId, peer: Option<PeerId>, fault: Fault) returns (reply: Reply)
      requires Valid()
      modifies this`store, this`nextRevision, this`pins
      ensures Valid()
      ensures Moves(old(State()), State(), cid, AbortSlot(old(SlotAt(State(), cid)), tx, peer, fault).slot)
      ensures reply == AbortSlot(old(SlotAt(State(), cid)), tx, peer, fault).reply
    {
      var current := Get(cid);
      if current.None? || current.value.stage.None? || tx !in current.value.stage.value.transactionIds {
        return if current.Some? then Ok(current.value, false) else Missing;
      }
      var stage := current.value.stage.value;
      if !MaySettle(OriginOf(stage, tx), peer) { return Error; }
      if |Without(stage.transactionIds, tx)| > 0 {
        OneClaimLessIsValid(current.value, tx);
        var ok := Save(cid, OneClaimLess(current.value, tx), fault);
        return if ok then Ok(OneClaimLess(current.value, tx), true) else Error;
      }
      reply := RestoreReplicaStage(cid, current.value, false, fault);
    }

    // ------------------------------------------------------------ confirm, release, permanent store

    method RestoreLifecycleBaseline(cid: Cid, previous: Option<FileRecord>, wasPinned: bool)
      requires Valid()
      requires previous.Some? ==> IsFileRecord(previous.value)
      modifies this`store, this`nextRevision, this`pins
      ensures Valid() && Moves(old(State()), State(), cid, Slot(previous, wasPinned))
    {
      if wasPinned {
        var _ := PinFile(cid);
      } else {
        var _ := UnpinFile(cid);
      }
      RestoreRecord(cid, previous);
    }

    method RegisterPinned(cid: Cid, file: NewFile, now: Time, ttl: nat, fault: Fault) returns (reply: Reply)
      requires Valid()
      modifies this`store, this`nextRevision, this`pins
      ensures Valid()
      ensures Moves(old(State()), State(), cid,
                    RegisterPinnedSlot(old(SlotAt(State(), cid)), cid, owners, file, now, ttl, fault).slot)
      ensures reply == RegisterPinnedSlot(old(SlotAt(State(), cid)), cid, owners, file, now, ttl, fault).reply
    {
      var previous := Get(cid);
      var wasPinned := (previous.Some? && previous.value.pinned) || cid in pins;
      var _ := PinFile(cid);
      var registration := Register(previous, file, RegisterOptions(false, ttl, now, None), cid, owners);
      if registration.KeepExisting? && fault != FailsBeforeWrite { return Kept; }
      if registration.Write? {
        var ok := Save(cid, registration.record, fault);
        if ok { return Ok(registration.record, false); }
      }
      RestoreLifecycleBaseline(cid, previous, wasPinned);
      return Error;
    }

    method ConfirmStoredFile(cid: Cid, adopt: Option<NewFile>, now: Time, ttl: nat, fault: Fault)
      returns (reply: Reply)
      requires Valid()
      modifies this`store, this`nextRevision, this`pins
      ensures Valid()
      ensures Moves(old(State()), State(), cid,
                    ConfirmSlot(old(SlotAt(State(), cid)), cid, owners, adopt, now, ttl, fault).slot)
      ensures reply == ConfirmSlot(old(SlotAt(State(), cid)), cid, owners, adopt, now, ttl, fault).reply
    {
      var current := Get(cid);
      if current.None? {
        if adopt.None? { return Missing; }
        reply := RegisterPinned(cid, adopt.value, now, ttl, fault);
        return;
      }
      if IsLifecycleBusy(current.value, cid, owners) { return Error; }
      var wasPinned := current.value.pinned || cid in pins;
      var _ := PinFile(cid);
      var ok := Save(cid, Durable(current.value, now), fault);
      if ok { return Ok(Durable(current.value, now), false); }
      RestoreLifecycleBaseline(cid, current, wasPinned);
      return Error;
    }

    method ReleaseStoredFile(cid: Cid, fault: Fault) returns (reply: Reply)
      requires Valid()
      modifies this`store, this`nextRevision, this`pins
      ensures Valid()
      ensures Moves(old(State()), State(), cid, ReleaseSlot(old(SlotAt(State(), cid)), cid, owners, fault).slot)
      ensures reply == ReleaseSlot(old(SlotAt(State(), cid)), cid, owners, fault).reply
    {
      var current := Get(cid);
      if current.None? { return Missing; }
      if IsLifecycleBusy(current.value, cid, owners) { return Error; }
      var wasPinned := current.value.pinned || cid in pins;
      var _ := UnpinFile(cid);
      var ok := Save(cid, Released(current.value), fault);
      if ok { return Ok(Released(current.value), false); }
      RestoreLifecycleBaseline(cid, current, wasPinned);
      return Error;
    }

    // ------------------------------------------------------------ collection, handover, rescue

    /** Guard rail of a collection: a held confirmed file gets its missing pin back. */
    method GcRepairPin(cid: Cid, indirect: bool, localDag: bool, fault: Fault) returns (reply: Reply)
      requires Valid()
      modifies this`store, this`nextRevision, this`pins
      ensures Valid()
      ensures Moves(old(State()), State(), cid,
          GcRepairPinSlot(old(SlotAt(State(), cid)), indirect, localDag, fault).slot)
      ensures reply == GcRepairPinSlot(old(SlotAt(State(), cid)), indirect, localDag, fault).reply
      ensures reply.Missing? ==> State() == old(State())
    {
      var current := Get(cid);
      if current.None? || current.value.state != Confirmed || !current.value.heldLocally { return Missing; }
      if cid in pins || indirect { return Missing; }
      if !localDag { return Error; }
      var createdPin := PinFile(cid);
      var ok := Save(cid, current.value.(pinned := true), fault);
      if ok { return Ok(current.value.(pinned := true), false); }
      if createdPin && !current.value.pinned {
        var _ := UnpinFile(cid);
      }
      return Error;
    }

    method GcRelease(cid: Cid, plannedRevision: nat, fault: Fault) returns (reply: Reply)
      requires Valid()
      modifies this`store, this`nextRevision, this`pins
      ensures Valid()
      ensures Moves(old(State()), State(), cid,
                    GcReleaseSlot(old(SlotAt(State(), cid)), old(HasRevision(State(), cid, plannedRevision)), owners,
                        fault).slot)
      ensures reply == GcReleaseSlot(old(SlotAt(State(), cid)), old(HasRevision(State(), cid, plannedRevision)),
          owners, fault).reply
      ensures reply.Missing? ==> State() == old(State())
      ensures reply.Ok? ==> Entry(State(), cid).Some? && old(nextRevision) <= Entry(State(), cid).value.revision
    {
      var current := Get(cid);
      if current.None? || store[cid].revision != plannedRevision || current.value.state == Confirmed
         || IsAdmissionInFlight(current.value, owners) { return Missing; }
      if current.value.stage.Some? {
        reply := RestoreReplicaStage(cid, current.value, true, fault);
        return;
      }
      var removedPin := UnpinFile(cid);
      var ok := Save(cid, Released(current.value), fault);
      if ok { return Ok(Released(current.value), false); }
      if removedPin && current.value.pinned {
        var _ := PinFile(cid);
      }
      return Error;
    }

    method DemoteCopy(cid: Cid, selectedRevision: nat, fault: Fault) returns (reply: Reply)
      requires Valid()
      modifies this`store, this`nextRevision, this`pins
      ensures Valid()
      ensures Moves(old(State()), State(), cid,
                    DemoteSlot(old(SlotAt(State(), cid)), old(HasRevision(State(), cid, selectedRevision)), cid,
                        owners, fault).slot)
      ensures reply == DemoteSlot(old(SlotAt(State(), cid)), old(HasRevision(State(), cid, selectedRevision)), cid,
          owners, fault).reply
      ensures reply.Missing? ==> State() == old(State())
    {
      var current := Get(cid);
      if current.None? || store[cid].revision != selectedRevision || current.value.state != Confirmed
         || !current.value.heldLocally || IsLifecycleBusy(current.value, cid, owners) { return Missing; }
      var removedPin := UnpinFile(cid);
      var ok := Save(cid, Demoted(current.value), fault);
      if ok { return Ok(Demoted(current.value), false); }
      if removedPin && current.value.pinned {
        var _ := PinFile(cid);
      }
      return Error;
    }

    method RescueOrphan(cid: Cid, selectedRevision: nat, fault: Fault) returns (reply: Reply)
      requires Valid()
      modifies this`store, this`nextRevision, this`pins
      ensures Valid()
      ensures Moves(old(State()), State(), cid,
                    RescueSlot(old(SlotAt(State(), cid)), old(HasRevision(State(), cid, selectedRevision)), fault).slot)
      ensures reply == RescueSlot(old(SlotAt(State(), cid)), old(HasRevision(State(), cid, selectedRevision)),
          fault).reply
      ensures reply.Missing? ==> State() == old(State())
    {
      var current := Get(cid);
      if current.None? || store[cid].revision != selectedRevision || current.value.state != Confirmed
         || current.value.heldLocally { return Missing; }
      var createdPin := PinFile(cid);
      var rescued := current.value.(
        pinned := true, heldLocally := true, admissionId := None, admissionSettledAt := None, stage := None);
      var ok := Save(cid, rescued, fault);
      if ok { return Ok(rescued, false); }
      if createdPin && !current.value.pinned {
        var _ := UnpinFile(cid);
      }
      return Error;
    }

    /** Undo one file of a failed upload, unless another lifecycle adopted the CID. */
    method RollbackUpload(b: UploadBaseline, id: Option<AdmissionId>)
      requires Valid()
      requires b.previous.Some? ==> IsFileRecord(b.previous.value)
      modifies this`store, this`nextRevision, this`pins
      ensures Valid()
      ensures Moves(old(State()), State(), b.cid, RollbackSlot(old(SlotAt(State(), b.cid)), b, id))
    {
      if id.Some? {
        var current := Get(b.cid);
        if current.None? || current.value.admissionId != id { return; }
      }
      if b.createdPin && !(b.previous.Some? && b.previous.value.pinned) {
        var _ := UnpinFile(b.cid);
      }
      RestoreRecord(b.cid, b.previous);
    }
  }
}
