/**
 * What every lifecycle operation promises its caller, in terms of the fields a reader of the
 * registry sees: exactly when it succeeds, what it then changes, and what it leaves alone.
 */
module EffectLaws {
  import opened Common
  import opened Records
  import opened Lifecycle
  import opened NodeState
  import opened UploadRoute
  import opened NodeMachine

  /** Name, age, sizes and replica list: what only an upload, a stage or a store refreshes. */
  predicate SameContent(r: FileRecord, u: FileRecord) {
    && r.name == u.name && r.createdAt == u.createdAt && r.replicas == u.replicas
    && r.fileSize == u.fileSize && r.storedBytes == u.storedBytes && r.protectedBytes == u.protectedBytes
  }

  predicate NoOwner(r: FileRecord) { r.admissionId.None? && r.admissionSettledAt.None? && r.stage.None? }

  /** Some upload still has a say: its token is unsettled, or its request is running. */
  predicate UploadOwns(r: FileRecord, o: Owners) {
    r.admissionId.Some? && (r.admissionSettledAt.None? || r.admissionId.value in o.admissions)
  }

  /** Nobody else works on the CID. */
  predicate Free(r: FileRecord, c: Cid, o: Owners) { r.stage.None? && !UploadOwns(r, o) && c !in o.repairs }

  predicate Protects(r: FileRecord) { r.pinned && r.heldLocally }

  predicate GivesUp(r: FileRecord) { !r.pinned && !r.heldLocally }

  // ---------------------------------------------------------------- release and confirmation

  /**
   * A release succeeds exactly for a known CID nobody works on, when its save works. The file
   * is then expired, unpinned, not held and nobody's, and otherwise the same.
   */
  lemma ReleaseMeans(s: Slot, c: Cid, o: Owners, fault: Fault)
    ensures var out := ReleaseSlot(s, c, o, fault);
      && (out.reply.Missing? <==> s.rec.None?)
      && (out.reply.Ok? <==> s.rec.Some? && Free(s.rec.value, c, o) && fault == Works)
      && (out.reply.Ok? ==> IsReleased(s.rec.value, out))
  {
  }

  predicate IsReleased(before: FileRecord, out: Outcome) {
    && out.reply.Ok? && out.slot == Slot(Some(out.reply.record), false)
    && var r := out.reply.record;
    && r.state == Expired && GivesUp(r) && NoOwner(r) && !AnswersHave(out.slot)
    && SameContent(before, r) && r.expiresAt == before.expiresAt && r.confirmedAt == before.confirmedAt
  }

  /**
   * A confirmation of a known CID succeeds exactly when nobody works on it and its save works.
   * The file is then durable, keeps its first confirmation time, and is otherwise the same.
   */
  lemma ConfirmMeans(s: Slot, c: Cid, o: Owners, adopt: Option<NewFile>, now: Time, ttl: nat, fault: Fault)
    requires s.rec.Some?
    ensures var out := ConfirmSlot(s, c, o, adopt, now, ttl, fault);
      && !out.reply.Missing?
      && (out.reply.Ok? <==> Free(s.rec.value, c, o) && fault == Works)
      && (out.reply.Ok? ==> out.slot.pin && AnswersHave(out.slot) && IsMadeDurable(s.rec.value, out, now))
  {
  }

  predicate IsMadeDurable(before: FileRecord, out: Outcome, now: Time) {
    && out.reply.Ok? && out.slot.rec == Some(out.reply.record)
    && var r := out.reply.record;
    && r.state == Confirmed && r.expiresAt.None? && Protects(r) && NoOwner(r) && SameContent(before, r)
    && r.confirmedAt == (if before.confirmedAt.Some? then before.confirmedAt else Some(now))
  }

  /** An unknown CID is confirmed only when adoption is asked for, and then stored like any other. */
  lemma ConfirmUnknownMeans(s: Slot, c: Cid, o: Owners, adopt: Option<NewFile>, now: Time, ttl: nat, fault: Fault)
    requires s.rec.None?
    ensures var out := ConfirmSlot(s, c, o, adopt, now, ttl, fault);
      && (adopt.None? ==> out.slot == s && out.reply.Missing?)
      && (out.reply.Ok? <==> adopt.Some? && c !in o.repairs && fault == Works)
      && (out.reply.Ok? ==>
            && out.slot == Slot(Some(out.reply.record), true) && out.reply.record.state == Confirmed
            && NoOwner(out.reply.record) && IsNewFile(None, out.reply.record, adopt.value, now))
  {
  }

  // ---------------------------------------------------------------- registration

  predicate HasSizes(r: FileRecord, file: NewFile) {
    && r.fileSize == file.fileSize && r.storedBytes == file.storedBytes && r.protectedBytes.Some?
    && (if file.protectedBytes.Some? then r.protectedBytes == file.protectedBytes
        else r.protectedBytes.value == Max(file.storedBytes, file.fileSize))
  }

  /** A file registered for the first time, or after it had been given up: its age and replicas survive. */
  predicate IsNewFile(existing: Option<FileRecord>, r: FileRecord, file: NewFile, now: Time) {
    && r.name == file.name && HasSizes(r, file) && Protects(r)
    && (if existing.Some? then r.createdAt == existing.value.createdAt && r.replicas == existing.value.replicas
        else r.createdAt == now && r.replicas == [])
  }

  /** A durable file uploaded again: nothing about it is weakened. */
  predicate IsSameFile(e: FileRecord, r: FileRecord, file: NewFile) {
    && r.name == e.name && r.createdAt == e.createdAt && r.replicas == e.replicas
    && r.state == e.state && r.confirmedAt == e.confirmedAt && r.expiresAt == e.expiresAt && Protects(r)
    && r.fileSize == (if file.fileSize > 0 then file.fileSize else e.fileSize)
    && r.storedBytes == Max(e.storedBytes, file.storedBytes)
    && r.protectedBytes.Some? && r.protectedBytes.value >= ProtectedStorageBytes(e)
  }

  /**
   * A registration writes exactly when no repair and no other upload works on the CID, and a
   * stage is only taken over by an upload.
   */
  lemma RegisterWrites(existing: Option<FileRecord>, file: NewFile, opt: RegisterOptions, c: Cid, o: Owners)
    ensures Register(existing, file, opt, c, o).Write? <==>
      && c !in o.repairs
      && (existing.Some? && existing.value.stage.Some? ==> opt.admissionId.Some?)
      && (existing.Some? && UploadOwns(existing.value, o) ==> existing.value.admissionId == opt.admissionId)
    ensures Register(existing, file, opt, c, o).KeepExisting? <==>
      c !in o.repairs && existing.Some? && existing.value.stage.Some? && opt.admissionId.None?
  {
  }

  /**
   * What it writes. Durable content stays durable and never shrinks. Anything else is durable at
   * once, or, where a confirmation is required, temporary for exactly the configured time.
   */
  lemma RegisterMeans(existing: Option<FileRecord>, file: NewFile, opt: RegisterOptions, c: Cid, o: Owners)
    requires Register(existing, file, opt, c, o).Write?
    ensures var r := Register(existing, file, opt, c, o).record;
      && r.admissionId == opt.admissionId && r.admissionSettledAt.None? && r.stage.None?
      && (if existing.Some? && existing.value.state == Confirmed then IsSameFile(existing.value, r, file)
          else IsNewFile(existing, r, file, opt.now) && HasLifetime(r, opt))
  {
  }

  predicate HasLifetime(r: FileRecord, opt: RegisterOptions) {
    if opt.confirmationRequired
    then r.state == Temporary && r.confirmedAt.None? && r.expiresAt == Some(opt.now + opt.temporaryTtl)
    else r.state == Confirmed && r.confirmedAt == Some(opt.now) && r.expiresAt.None?
  }

  predicate AllWritten(rec: Option<FileRecord>, parts: seq<Part>, opt: RegisterOptions, c: Cid, o: Owners) {
    forall k :: 0 <= k < |parts| && parts[k].cid == c ==>
      Register(Registered(rec, parts[..k], opt, c, o), parts[k].file, opt, c, o).Write?
  }

  /**
   * A request that names a CID once or more leaves one record of its own: durable content is still
   * durable and as old as it was, anything else is as old as its first record and has the lifetime
   * of this request.
   */
  lemma {:induction false} RequestRegisters(rec: Option<FileRecord>, parts: seq<Part>, opt: RegisterOptions, c: Cid,
                                            o: Owners)
    requires c in PartCids(parts) && AllWritten(rec, parts, opt, c, o)
    ensures var t := Registered(rec, parts, opt, c, o);
      && t.Some? && t.value.admissionId == opt.admissionId && t.value.admissionSettledAt.None? && Protects(t.value)
      && (if rec.Some? && rec.value.state == Confirmed
          then t.value.state == Confirmed && t.value.createdAt == rec.value.createdAt
               && t.value.name == rec.value.name && t.value.expiresAt == rec.value.expiresAt
               && t.value.confirmedAt == rec.value.confirmedAt && t.value.storedBytes >= rec.value.storedBytes
          else HasLifetime(t.value, opt)
               && t.value.createdAt == (if rec.Some? then rec.value.createdAt else opt.now))
  {
    var n := |parts| - 1;
    var init := parts[..n];
    assert AllWritten(rec, init, opt, c, o) by {
      forall k | 0 <= k < |init| && init[k].cid == c
        ensures Register(Registered(rec, init[..k], opt, c, o), init[k].file, opt, c, o).Write?
      {
        assert init[..k] == parts[..k];
      }
    }
    if c in PartCids(init) {
      RequestRegisters(rec, init, opt, c, o);
    } else {
      assert parts[n].cid == c;
      NotRegistered(rec, init, opt, c, o);
    }
  }

  lemma {:induction false} NotRegistered(rec: Option<FileRecord>, parts: seq<Part>, opt: RegisterOptions, c: Cid,
                                         o: Owners)
    requires c !in PartCids(parts)
    ensures Registered(rec, parts, opt, c, o) == rec
  {
    if parts != [] {
      assert parts[|parts| - 1] in parts;
      NotRegistered(rec, parts[..|parts| - 1], opt, c, o);
    }
  }

  /** The bytes a pin protects: as measured, or the larger of the two sizes of an older record. */
  lemma ProtectedBytesMeans(r: FileRecord)
    ensures r.protectedBytes.Some? ==> ProtectedStorageBytes(r) == r.protectedBytes.value
    ensures r.protectedBytes.None? ==> ProtectedStorageBytes(r) == Max(r.storedBytes, r.fileSize)
  {
  }

  /** A permanent store: refused while others work on the CID, a stage in the way is kept, and success is durable. */
  lemma StoreMeans(s: Slot, c: Cid, o: Owners, file: NewFile, now: Time, ttl: nat, fault: Fault)
    ensures var out := RegisterPinnedSlot(s, c, o, file, now, ttl, fault);
      && (out.reply.Ok? <==> fault == Works && (if s.rec.None? then c !in o.repairs else Free(s.rec.value, c, o)))
      && (out.reply.Kept? ==> out.slot == Slot(s.rec, true) && s.rec.Some? && s.rec.value.stage.Some?)
      && (out.reply.Ok? ==>
            && out.slot == Slot(Some(out.reply.record), true) && NoOwner(out.reply.record)
            && out.reply.record.state == Confirmed && AnswersHave(out.slot)
            && (if s.rec.Some? && s.rec.value.state == Confirmed then IsSameFile(s.rec.value, out.reply.record, file)
                else IsNewFile(s.rec, out.reply.record, file, now)))
  {
  }

  // ---------------------------------------------------------------- stages

  predicate MayAct(stage: ReplicaStage, tx: TransactionId, peer: Option<PeerId>) {
    tx in stage.origins && peer.Some? ==> stage.origins[tx] == peer.value
  }

  /** A record no stage may build on: an unrelated temporary file, or one whose upload is unsettled. */
  predicate Unstageable(r: FileRecord) {
    r.stage.None? && (r.state == Temporary || (r.admissionId.Some? && r.admissionSettledAt.None?))
  }

  /**
   * A stage succeeds exactly when no marker rejects it, no other peer recorded its transaction,
   * no unrelated temporary or unsettled record is in the way, and its save works. It prepares a
   * copy exactly when there is a stage to join, or nothing durable or pinned to rely on.
   */
  lemma StageSucceeds(s: Slot, q: StageRequest, marked: bool, fault: Fault)
    ensures var out := StageSlot(s, q, marked, fault);
      && (out.reply.Ok? <==>
            && !marked && fault == Works
            && (s.rec.Some? ==> !Unstageable(s.rec.value))
            && (HasClaim(s, q.tx) ==> MayAct(s.rec.value.stage.value, q.tx, q.origin)))
      && (out.reply.Ok? ==>
            (out.reply.staged <==>
              (s.rec.Some? && s.rec.value.stage.Some?) || (!s.pin && (s.rec.None? || s.rec.value.state != Confirmed))))
  {
  }

  /** The origin a successful stage leaves recorded: the first one of its transaction stays. */
  function RecordedOrigin(s: Slot, q: StageRequest): Option<PeerId> {
    if HasClaim(s, q.tx) then OriginOf(s.rec.value.stage.value, q.tx) else q.origin
  }

  predicate ClaimUntil(s: Slot, tx: TransactionId, origin: Option<PeerId>, deadline: Time) {
    && HasClaim(s, tx) && OriginOf(s.rec.value.stage.value, tx) == origin
    && s.rec.value.state == Temporary && Protects(s.rec.value) && s.pin
    && s.rec.value.expiresAt.Some? && deadline <= s.rec.value.expiresAt.value
  }

  /**
   * A prepared copy, first, joined or repeated, carries a claim of its own transaction that
   * lasts for the whole lifetime it asked for, and for no longer than that or the time the
   * stage already had; every other claim keeps its place, its origin and its time.
   */
  lemma StageGivesClaim(s: Slot, q: StageRequest, marked: bool, fault: Fault)
    requires SoundRecord(s) && StageSlot(s, q, marked, fault).reply.Ok? && StageSlot(s, q, marked, fault).reply.staged
    ensures var t := StageSlot(s, q, marked, fault).slot;
      && SlotInv(t) && ClaimUntil(t, q.tx, RecordedOrigin(s, q), q.now + q.ttl)
      && (t.rec.value.expiresAt != Some(q.now + q.ttl) ==>
            s.rec.Some? && s.rec.value.stage.Some? && t.rec.value.expiresAt == s.rec.value.expiresAt)
      && (forall tx :: HasClaim(t, tx) <==> tx == q.tx || HasClaim(s, tx))
      && (forall tx :: HasClaim(s, tx) && tx != q.tx ==>
            OriginOf(t.rec.value.stage.value, tx) == OriginOf(s.rec.value.stage.value, tx))
  {
    if s.rec.Some? && s.rec.value.stage.Some? {
      JoinedStageIsValid(s.rec.value, q.tx, q.origin, q.now + q.ttl);
    }
  }

  predicate MeasuredSizes(previous: Option<FileRecord>, r: FileRecord, stat: Stat) {
    && r.fileSize == stat.size
    && r.storedBytes == Max(if previous.Some? then previous.value.storedBytes else 0, stat.dagBytes)
    && r.protectedBytes.Some?
    && r.protectedBytes.value == Max(if previous.Some? then ProtectedStorageBytes(previous.value) else 0, stat.dagBytes)
  }

  predicate KeepsHistory(previous: Option<FileRecord>, r: FileRecord, q: StageRequest) {
    if previous.Some?
    then
      && r.name == previous.value.name && r.createdAt == previous.value.createdAt
      && r.replicas == previous.value.replicas
    else r.name == q.name && r.createdAt == q.now && r.replicas == []
  }

  /** What a first stage records, and what a stage of durable or pinned content leaves: measured, never shrunk. */
  lemma StageRecords(s: Slot, q: StageRequest, marked: bool, fault: Fault)
    requires StageSlot(s, q, marked, fault).reply.Ok? && (s.rec.Some? ==> s.rec.value.stage.None?)
    ensures var out := StageSlot(s, q, marked, fault);
      && out.slot == Slot(Some(out.reply.record), true) && Protects(out.reply.record)
      && MeasuredSizes(s.rec, out.reply.record, q.stat) && KeepsHistory(s.rec, out.reply.record, q)
      && (out.reply.staged ==>
            && out.reply.record.confirmedAt.None? && out.reply.record.stage.Some?
            && out.reply.record.stage.value.previous ==
               (if s.rec.Some? then Some(StageBaseline(s.rec.value.expiresAt, s.rec.value.confirmedAt)) else None))
      && (!out.reply.staged ==>
            && out.reply.record.state == Confirmed && out.reply.record.expiresAt.None? && out.reply.record.stage.None?
            && out.reply.record.confirmedAt ==
               (if s.rec.Some? && s.rec.value.confirmedAt.Some? then s.rec.value.confirmedAt else Some(q.now)))
  {
  }

  /** A joined stage changes nothing but claims and expiry. */
  lemma JoinRecords(s: Slot, q: StageRequest, marked: bool, fault: Fault)
    requires SoundRecord(s) && StageSlot(s, q, marked, fault).reply.Ok? && s.rec.Some? && s.rec.value.stage.Some?
    ensures var out := StageSlot(s, q, marked, fault);
      && SameContent(s.rec.value, out.reply.record) && out.reply.record.confirmedAt == s.rec.value.confirmedAt
      && out.reply.record.stage.Some? && out.reply.record.stage.value.previous == s.rec.value.stage.value.previous
      && out.slot == Slot(Some(out.reply.record), true)
  {
  }

  /**
   * A commit succeeds exactly for a claim its peer may settle, whose save works, or for a copy
   * that is durable already. A written one leaves the durable record for all claimants.
   */
  lemma CommitMeans(s: Slot, tx: TransactionId, peer: Option<PeerId>, now: Time, fault: Fault)
    ensures var out := CommitSlot(s, tx, peer, now, fault);
      && out.slot.pin == s.pin
      && (out.reply.Ok? <==>
            if HasClaim(s, tx) then MayAct(s.rec.value.stage.value, tx, peer) && fault == Works
            else s.rec.Some? && s.rec.value.state == Confirmed && Protects(s.rec.value)
                 && (s.rec.value.admissionId.Some? ==> s.rec.value.admissionSettledAt.Some?))
      && (out.reply.Ok? && HasClaim(s, tx) ==>
            IsMadeDurable(s.rec.value, out, now) && (AnswersHave(out.slot) <==> s.pin))
      && (!HasClaim(s, tx) ==> out.slot == s)
  {
  }

  /**
   * An abort that its peer may make takes exactly its own claim. The copy stays for the others;
   * the last one takes the pin, and the record it created or the claim on the one it found.
   */
  lemma AbortMeans(s: Slot, tx: TransactionId, peer: Option<PeerId>)
    requires SoundRecord(s)
    ensures var out := AbortSlot(s, tx, peer, Works);
      && (!HasClaim(s, tx) ==> out.slot == s && !out.reply.Error?)
      && (HasClaim(s, tx) ==> (out.reply.Error? <==> !MayAct(s.rec.value.stage.value, tx, peer)))
      && (out.reply.Error? ==> out.slot == s)
      && (HasClaim(s, tx) && !out.reply.Error? ==> ClaimWithdrawn(s, out.slot, tx))
  {
    if HasClaim(s, tx) {
      var ids := s.rec.value.stage.value.transactionIds;
      WithoutProperties(ids, tx);
      var less := Without(ids, tx);
      forall t ensures t in less <==> t in ids && t != tx {
        assert t in less <==> t in Elements(less);
        assert t in ids <==> t in Elements(ids);
      }
      if |less| > 0 { assert less[0] in less; }
    }
  }

  predicate OthersClaim(s: Slot, tx: TransactionId) {
    HasClaim(s, tx) && exists t :: t in s.rec.value.stage.value.transactionIds && t != tx
  }

  ghost predicate ClaimWithdrawn(s: Slot, t: Slot, tx: TransactionId)
    requires HasClaim(s, tx)
  {
    if OthersClaim(s, tx) then
      && t.pin == s.pin && t.rec.Some? && t.rec.value.stage.Some? && SameContent(s.rec.value, t.rec.value)
      && t.rec.value.expiresAt == s.rec.value.expiresAt && t.rec.value.state == s.rec.value.state
      && (forall x :: HasClaim(t, x) <==> HasClaim(s, x) && x != tx)
      && (forall x :: HasClaim(t, x) ==>
            OriginOf(t.rec.value.stage.value, x) == OriginOf(s.rec.value.stage.value, x))
    else
      && !t.pin
      && (if s.rec.value.stage.value.previous.None? then t.rec.None?
          else t.rec.Some? && FallsBack(s.rec.value, t.rec.value))
  }

  /** An abandoned stage goes back to the expired record it was built on. */
  predicate FallsBack(before: FileRecord, r: FileRecord)
    requires before.stage.Some?
  {
    && r.state == Expired && GivesUp(r) && r.stage.None? && SameContent(before, r)
    && (if before.stage.value.previous.Some?
        then StageBaseline(r.expiresAt, r.confirmedAt) == before.stage.value.previous.value
        else r.expiresAt == before.expiresAt && r.confirmedAt.None?)
  }

  // ---------------------------------------------------------------- collection, handover, rescue

  /**
   * A collection releases exactly what is still as it was planned, is not durable and is in no
   * upload's hands; an abandoned stage falls back, anything else is released like by its owner.
   */
  lemma GcReleaseMeans(s: Slot, isCurrent: bool, o: Owners, fault: Fault)
    ensures var out := GcReleaseSlot(s, isCurrent, o, fault);
      && (out.reply.Missing? <==>
            s.rec.None? || !isCurrent || s.rec.value.state == Confirmed || UploadOwns(s.rec.value, o))
      && (out.reply.Missing? ==> out.slot == s)
      && (out.reply.Ok? <==> !out.reply.Missing? && fault == Works)
      && (out.reply.Ok? && s.rec.value.stage.None? ==> IsReleased(s.rec.value, out))
      && (out.reply.Ok? && s.rec.value.stage.Some? ==>
            out.slot == Slot(Some(out.reply.record), false) && FallsBack(s.rec.value, out.reply.record))
  {
  }

  /** A handover drops exactly a free, held, durable copy at its revision; the file stays durable for the network. */
  lemma DemoteMeans(s: Slot, isCurrent: bool, c: Cid, o: Owners, fault: Fault)
    ensures var out := DemoteSlot(s, isCurrent, c, o, fault);
      && (!out.reply.Missing? <==>
            && s.rec.Some? && isCurrent && s.rec.value.state == Confirmed && s.rec.value.heldLocally
            && Free(s.rec.value, c, o))
      && (out.reply.Missing? ==> out.slot == s)
      && (out.reply.Ok? <==> !out.reply.Missing? && fault == Works)
      && (out.reply.Ok? ==>
            && out.slot == Slot(Some(out.reply.record), false) && GivesUp(out.reply.record) && !AnswersHave(out.slot)
            && StaysDurable(s.rec.value, out.reply.record))
  {
  }

  predicate StaysDurable(before: FileRecord, r: FileRecord) {
    && r.state == Confirmed && NoOwner(r) && SameContent(before, r)
    && r.expiresAt == before.expiresAt && r.confirmedAt == before.confirmedAt
  }

  /** A rescue takes back exactly a durable file this node does not hold, at its revision. */
  lemma RescueMeans(s: Slot, isCurrent: bool, fault: Fault)
    ensures var out := RescueSlot(s, isCurrent, fault);
      && (out.reply.Missing? <==>
            !(s.rec.Some? && isCurrent && s.rec.value.state == Confirmed && !s.rec.value.heldLocally))
      && (out.reply.Missing? ==> out.slot == s)
      && (out.reply.Ok? <==> !out.reply.Missing? && fault == Works)
      && (out.reply.Ok? ==>
            && out.slot == Slot(Some(out.reply.record), true) && Protects(out.reply.record)
            && StaysDurable(s.rec.value, out.reply.record))
  {
  }

  /** A repaired pin belongs to a held durable file that had none, and changes nothing but the pin. */
  lemma RepairMeans(s: Slot, indirect: bool, localDag: bool, fault: Fault)
    ensures var out := GcRepairPinSlot(s, indirect, localDag, fault);
      && (out.reply.Missing? <==>
            !(s.rec.Some? && s.rec.value.state == Confirmed && s.rec.value.heldLocally && !s.pin && !indirect))
      && (out.reply.Missing? ==> out.slot == s)
      && (out.reply.Ok? <==> !out.reply.Missing? && localDag && fault == Works)
      && (out.reply.Ok? ==>
            && out.slot == Slot(Some(out.reply.record), true) && out.reply.record.pinned
            && out.reply.record == s.rec.value.(pinned := true))
  {
  }

  // ---------------------------------------------------------------- uploads and repairs

  /**
   * A rollback touches only what the request still owns: the former record is back, and the pin
   * goes exactly when the request made it and the former record does not claim it.
   */
  lemma RollbackMeans(s: Slot, b: UploadBaseline, id: AdmissionId)
    ensures var t := RollbackSlot(s, b, Some(id));
      if s.rec.None? || s.rec.value.admissionId != Some(id) then t == s
      else
        && t.rec == b.previous
        && (t.pin <==> s.pin && (b.createdPin ==> b.previous.Some? && b.previous.value.pinned))
  {
  }

  /** A settled request: the reported replicas are recorded, the mark where its write worked, and nothing else. */
  lemma SettleMeans(m: Machine, op: Op, m': Machine, i: nat)
    requires Next(m, op, m') && op.Settle? && i < |m.uploads[op.id]|
    ensures var c := m.uploads[op.id][i].cid; var s, t := SlotAt(m.node, c), SlotAt(m'.node, c);
      && s.rec.Some? && s.rec.value.admissionId == Some(op.id) && t.rec.Some? && t.pin == s.pin
      && t.rec.value.replicas == (if c in op.reports then op.reports[c] else s.rec.value.replicas)
      && (c !in op.failed ==> t.rec.value.admissionSettledAt == Some(op.settledAt))
      && (c in op.failed ==> t.rec.value.admissionSettledAt == s.rec.value.admissionSettledAt)
      && SameContent(s.rec.value.(replicas := []), t.rec.value.(replicas := []))
      && t.rec.value.state == s.rec.value.state && t.rec.value.expiresAt == s.rec.value.expiresAt
      && t.rec.value.pinned == s.rec.value.pinned && t.rec.value.heldLocally == s.rec.value.heldLocally
      && t.rec.value.admissionId == Some(op.id) && t.rec.value.stage == s.rec.value.stage
  {
  }

  /** A repair starts exactly on a durable held file at its revision that no upload or repair works on. */
  lemma BeginRepairMeans(m: Machine, c: Cid, revision: nat)
    ensures (exists m' :: Next(m, BeginRepair(c, revision), m')) <==>
      && c in m.node.store && m.node.store[c].revision == revision && c !in m.node.owners.repairs
      && var r := m.node.store[c].file;
      && r.state == Confirmed && r.heldLocally && !UploadOwns(r, m.node.owners)
  {
    var o := m.node.owners;
    var m' := m.(node := m.node.(owners := o.(repairs := o.repairs + {c})));
    if Entry(m.node, c).Some? && Entry(m.node, c).value.revision == revision
       && IsSettledHeldFile(Entry(m.node, c).value.file, c, o)
    {
      assert Next(m, BeginRepair(c, revision), m');
    }
  }

  // ---------------------------------------------------------------- records over runs

  /** The rules of the registry, field by field. */
  predicate FollowsRules(r: FileRecord) {
    && r.pinned == r.heldLocally
    && (r.state == Expired ==> !r.pinned)
    && (r.admissionSettledAt.Some? ==> r.admissionId.Some?)
    && (r.stage.Some? ==>
          && r.state == Temporary && r.pinned && r.expiresAt.Some? && r.admissionId.None?
          && r.stage.value.transactionIds != []
          && (forall i, j :: 0 <= i < j < |r.stage.value.transactionIds| ==>
                r.stage.value.transactionIds[i] != r.stage.value.transactionIds[j])
          && (forall t :: t in r.stage.value.origins ==> t in r.stage.value.transactionIds))
  }

  /** Over every interleaving of everything the node does, with every failure, each record follows them. */
  lemma RecordsFollowRules(ms: seq<Machine>, ops: seq<Op>, k: nat, c: Cid)
    requires Run(ms, ops) && Inv(ms[0]) && k <= |ops| && Entry(ms[k].node, c).Some?
    ensures FollowsRules(Entry(ms[k].node, c).value.file)
  {
    RunsKeepInv(ms, ops, k);
    assert SoundRecord(SlotAt(ms[k].node, c));
  }

  // ---------------------------------------------------------------- a release lasts

  /** Not pinned, and no record that says otherwise or could be rescued. */
  predicate Gone(s: Slot) { !s.pin && (s.rec.Some? ==> s.rec.value.state == Expired && GivesUp(s.rec.value)) }

  /** The only ways back: an upload, a stage, a permanent store or a confirmation of this CID. */
  predicate BringsBack(op: Op, c: Cid) {
    || (op.Admit? && c in BaselineCids(op.bs))
    || ((op.Stage? || op.Store? || op.Confirm?) && op.cid == c)
  }

  lemma EffectKeepsGone(n: Node, op: Op)
    requires OneCid(op) && SoundRecord(SlotAt(n, op.cid)) && Gone(SlotAt(n, op.cid)) && !BringsBack(op, op.cid)
    ensures Gone(Effect(n, op))
  {
  }

  lemma StepKeepsGone(m: Machine, op: Op, m': Machine, c: Cid)
    requires Inv(m) && Next(m, op, m') && Gone(SlotAt(m.node, c)) && !BringsBack(op, c)
    ensures Gone(SlotAt(m'.node, c))
  {
    assert SoundRecord(SlotAt(m.node, c));
    if OneCid(op) {
      if op.cid == c { EffectKeepsGone(m.node, op); }
    } else {
      match op
      case Rollback(id) =>
        var bs := m.uploads[id];
        if c in BaselineCids(bs) {
          var i :| 0 <= i < |bs| && bs[i].cid == c;
          assert !OwnedBy(SlotAt(m.node, c), id);
        }
      case Settle(id, reports, at, failed) =>
        assert c !in BaselineCids(m.uploads[id]);
      case _ =>
    }
  }

  lemma {:induction false} ReleaseLasts(ms: seq<Machine>, ops: seq<Op>, k: nat, c: Cid)
    requires Run(ms, ops) && Inv(ms[0]) && k <= |ops| && Gone(SlotAt(ms[0].node, c))
    requires forall i :: 0 <= i < k ==> !BringsBack(ops[i], c)
    ensures Gone(SlotAt(ms[k].node, c))
  {
    if k > 0 {
      ReleaseLasts(ms, ops, k - 1, c);
      RunsKeepInv(ms, ops, k - 1);
      StepKeepsGone(ms[k - 1], ops[k - 1], ms[k], c);
    }
  }

  /**
   * After a successful release no rescue, repair, handover, collection, commit, abort or
   * rollback takes the file back: only a new upload, stage, store or confirmation of it can.
   */
  lemma ReleasedStaysReleased(before: Machine, c: Cid, ms: seq<Machine>, ops: seq<Op>, k: nat)
    requires Run(ms, ops) && k <= |ops| && Inv(before) && Next(before, Release(c, Works), ms[0])
    requires ReleaseSlot(SlotAt(before.node, c), c, before.node.owners, Works).reply.Ok?
    requires forall i :: 0 <= i < k ==> !BringsBack(ops[i], c)
    ensures !SlotAt(ms[k].node, c).pin
    ensures Entry(ms[k].node, c).Some? ==>
      Entry(ms[k].node, c).value.file.state == Expired && GivesUp(Entry(ms[k].node, c).value.file)
  {
    StepKeepsInv(before, Release(c, Works), ms[0]);
    ReleaseMeans(SlotAt(before.node, c), c, before.node.owners, Works);
    ReleaseLasts(ms, ops, k, c);
  }
}
