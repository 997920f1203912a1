/**
 * Net effect of every lifecycle operation on the slot of the CID it locks.
 *
 * Each function here is the specification that the step-by-step methods of
 * `NodeStore` are proved against: it names the slot an operation leaves behind,
 * including after a failure, without saying in which order pins and writes happen.
 */
module Lifecycle {
  import opened Common
  import opened Records

  /** How the one principal write of an operation behaves. */
  datatype Fault = Works | FailsBeforeWrite | FailsAfterWrite

  datatype Reply = Error | Missing | Kept | Ok(record: FileRecord, staged: bool)

  datatype Outcome = Outcome(slot: Slot, reply: Reply)

  datatype Stat = Stat(size: nat, dagBytes: nat)

  datatype NewFile = NewFile(name: string, fileSize: nat, storedBytes: nat, protectedBytes: Option<nat>)

  datatype RegisterOptions = RegisterOptions(
    confirmationRequired: bool, temporaryTtl: nat, now: Time, admissionId: Option<AdmissionId>)

  datatype Registration = Busy | KeepExisting | Write(record: FileRecord)

  function BytesOf(file: NewFile): (n: nat) {
    if file.protectedBytes.Some? then file.protectedBytes.value
    else if file.storedBytes >= file.fileSize then file.storedBytes else file.fileSize
  }

  function MaxNat(a: nat, b: nat): nat { if a >= b then a else b }

  // ---------------------------------------------------------------- registration

  /** Decision of `registerExclusively` for the record currently stored. */
  function Register(existing: Option<FileRecord>, file: NewFile, opt: RegisterOptions, cid: Cid, o: Owners)
    : (r: Registration)
    ensures r.Write? ==> IsFileRecord(r.record) && r.record.pinned && r.record.heldLocally
    ensures r.Write? ==> r.record.admissionId == opt.admissionId && r.record.stage.None?
  {
    if cid in o.repairs then Busy
    else if existing.Some? && existing.value.stage.Some? && opt.admissionId.None? then KeepExisting
    else if existing.Some? && existing.value.admissionId.Some?
      && existing.value.admissionId != opt.admissionId && IsAdmissionInFlight(existing.value, o) then Busy
    else if existing.Some? && existing.value.state == Confirmed then
      Write(existing.value.(
        storedBytes := MaxNat(existing.value.storedBytes, file.storedBytes),
        protectedBytes := Some(MaxNat(ProtectedStorageBytes(existing.value), BytesOf(file))),
        fileSize := if file.fileSize > 0 then file.fileSize else existing.value.fileSize,
        pinned := true, heldLocally := true,
        admissionId := opt.admissionId, admissionSettledAt := None, stage := None))
    else
      Write(FileRecord(
        file.name,
        if opt.confirmationRequired then Temporary else Confirmed,
        if existing.Some? then existing.value.createdAt else opt.now,
        if opt.confirmationRequired then Some(opt.now + opt.temporaryTtl) else None,
        if opt.confirmationRequired then None else Some(opt.now),
        file.fileSize, file.storedBytes, Some(BytesOf(file)), true, true,
        if existing.Some? then existing.value.replicas else [],
        opt.admissionId, None, None))
  }

  // ---------------------------------------------------------------- replica stages

  function OriginOf(stage: ReplicaStage, tx: TransactionId): Option<PeerId> {
    if tx in stage.origins then Some(stage.origins[tx]) else None
  }

  /** Only the staging peer settles a claim whose origin is recorded. */
  predicate MaySettle(origin: Option<PeerId>, peer: Option<PeerId>) {
    origin.None? || peer.None? || origin == peer
  }

  function WithOrigin(origins: map<TransactionId, PeerId>, tx: TransactionId, peer: Option<PeerId>)
    : map<TransactionId, PeerId>
  {
    if peer.None? then origins else origins[tx := peer.value]
  }

  /** Record of a further claim on an existing stage. */
  function JoinedStage(r: FileRecord, tx: TransactionId, origin: Option<PeerId>, until: Time): (j: FileRecord)
    requires r.stage.Some?
  {
    var stage := r.stage.value;
    var known := tx in stage.transactionIds;
    r.(state := Temporary,
       expiresAt := Some(MaxNat(if r.expiresAt.Some? then r.expiresAt.value else 0, until)),
       pinned := true, heldLocally := true,
       stage := Some(stage.(
         transactionIds := if known then stage.transactionIds else stage.transactionIds + [tx],
         origins := if known then stage.origins else WithOrigin(stage.origins, tx, origin))))
  }

  lemma JoinedStageIsValid(r: FileRecord, tx: TransactionId, origin: Option<PeerId>, until: Time)
    requires r.stage.Some? && IsFileRecord(r)
    ensures IsFileRecord(JoinedStage(r, tx, origin, until))
  {
  }

  /** Record of a durable copy that predates the transaction asking for it. */
  function StableReplica(previous: Option<FileRecord>, name: string, stat: Stat, now: Time): (r: FileRecord) {
    FileRecord(
      if previous.Some? then previous.value.name else name,
      Confirmed,
      if previous.Some? then previous.value.createdAt else now,
      None,
      if previous.Some? && previous.value.confirmedAt.Some? then previous.value.confirmedAt else Some(now),
      stat.size,
      MaxNat(if previous.Some? then previous.value.storedBytes else 0, stat.dagBytes),
      Some(MaxNat(if previous.Some? then ProtectedStorageBytes(previous.value) else 0, stat.dagBytes)),
      true, true,
      if previous.Some? then previous.value.replicas else [],
      if previous.Some? then previous.value.admissionId else None,
      if previous.Some? then previous.value.admissionSettledAt else None,
      None)
  }

  /** Record of a first claim, carrying what its last abort has to restore. */
  function FreshStage(previous: Option<FileRecord>, name: string, stat: Stat, tx: TransactionId,
                      origin: Option<PeerId>, now: Time, ttl: nat): (r: FileRecord) {
    StableReplica(previous, name, stat, now).(
      state := Temporary, expiresAt := Some(now + ttl), confirmedAt := None,
      stage := Some(ReplicaStage(
        [tx], WithOrigin(map[], tx, origin),
        if previous.Some?
        then Some(StageBaseline(previous.value.expiresAt, previous.value.confirmedAt)) else None)))
  }

  datatype StageRequest = StageRequest(
    tx: TransactionId, origin: Option<PeerId>, name: string, stat: Stat, now: Time, ttl: nat)

  function StageSlot(s: Slot, q: StageRequest, aborted: bool, fault: Fault): (out: Outcome) {
    if aborted then Outcome(s, Error)
    else if s.rec.Some? && s.rec.value.stage.Some? then
      var stage := s.rec.value.stage.value;
      if q.tx in stage.transactionIds && !MaySettle(OriginOf(stage, q.tx), q.origin) then Outcome(s, Error)
      else if fault != Works then Outcome(Slot(s.rec, true), Error)
      else
        var joined := JoinedStage(s.rec.value, q.tx, q.origin, q.now + q.ttl);
        Outcome(Slot(Some(joined), true), Ok(joined, true))
    else if s.rec.Some? && (s.rec.value.state == Temporary || !IsAdmissionSettled(s.rec.value)) then
      Outcome(s, Error)
    else if fault != Works then Outcome(s, Error)
    else if s.pin || (s.rec.Some? && s.rec.value.state == Confirmed) then
      var stable := StableReplica(s.rec, q.name, q.stat, q.now);
      Outcome(Slot(Some(stable), true), Ok(stable, false))
    else
      var first := FreshStage(s.rec, q.name, q.stat, q.tx, q.origin, q.now, q.ttl);
      Outcome(Slot(Some(first), true), Ok(first, true))
  }

  predicate HasClaim(s: Slot, tx: TransactionId) {
    s.rec.Some? && s.rec.value.stage.Some? && tx in s.rec.value.stage.value.transactionIds
  }

  /** A durable, settled record; `confirmStoredFile` and `commitReplica` build exactly this. */
  function Durable(r: FileRecord, now: Time): FileRecord {
    r.(state := Confirmed, expiresAt := None,
       confirmedAt := if r.confirmedAt.Some? then r.confirmedAt else Some(now),
       pinned := true, heldLocally := true, admissionId := None, admissionSettledAt := None, stage := None)
  }

  /** Commit has no compensation: a failing write either changed nothing or landed. */
  function CommitSlot(s: Slot, tx: TransactionId, peer: Option<PeerId>, now: Time, fault: Fault): (out: Outcome) {
    if !HasClaim(s, tx) then
      if s.rec.Some? && s.rec.value.state == Confirmed && s.rec.value.pinned && s.rec.value.heldLocally
         && IsAdmissionSettled(s.rec.value)
      then Outcome(s, Ok(s.rec.value, false)) else Outcome(s, Error)
    else if !MaySettle(OriginOf(s.rec.value.stage.value, tx), peer) then Outcome(s, Error)
    else
      var committed := Durable(s.rec.value, now);
      if fault == FailsBeforeWrite then Outcome(s, Error)
      else Outcome(Slot(Some(committed), s.pin), if fault == Works then Ok(committed, false) else Error)
  }

  /** The record a withdrawn stage falls back to when it is not removed. */
  function Unstaged(r: FileRecord): (u: FileRecord)
    requires r.stage.Some?
  {
    var previous := r.stage.value.previous;
    r.(state := Expired,
       expiresAt := if previous.Some? then previous.value.expiresAt else r.expiresAt,
       confirmedAt := if previous.Some? then previous.value.confirmedAt else None,
       pinned := false, heldLocally := false, stage := None)
  }

  /**
   * Withdraw a stage. Removing the record is compensated, but the write of the
   * fallback record is returned without being awaited, so its failure is not:
   * the pin stays removed under a record that still claims it.
   */
  function RestoreStageSlot(r: FileRecord, pin: bool, keepCreated: bool, fault: Fault): (out: Outcome)
    requires r.stage.Some?
  {
    if r.stage.value.previous.None? && !keepCreated then
      if fault == Works then Outcome(Slot(None, false), Missing) else Outcome(Slot(Some(r), pin), Error)
    else if fault == FailsBeforeWrite then Outcome(Slot(Some(r), false), Error)
    else Outcome(Slot(Some(Unstaged(r)), false), if fault == Works then Ok(Unstaged(r), false) else Error)
  }

  /** Record after one of several claims is withdrawn. */
  function OneClaimLess(r: FileRecord, tx: TransactionId): (u: FileRecord)
    requires r.stage.Some?
  {
    var stage := r.stage.value;
    r.(stage := Some(stage.(transactionIds := Without(stage.transactionIds, tx), origins := stage.origins - {tx})))
  }

  lemma OneClaimLessIsValid(r: FileRecord, tx: TransactionId)
    requires r.stage.Some? && IsFileRecord(r) && |Without(r.stage.value.transactionIds, tx)| > 0
    ensures IsFileRecord(OneClaimLess(r, tx))
  {
    var ids := r.stage.value.transactionIds;
    WithoutProperties(ids, tx);
    forall t | t in OneClaimLess(r, tx).stage.value.origins ensures t in Without(ids, tx) {
      assert t in Elements(ids) - {tx};
    }
  }

  function AbortSlot(s: Slot, tx: TransactionId, peer: Option<PeerId>, fault: Fault): (out: Outcome) {
    if !HasClaim(s, tx) then Outcome(s, if s.rec.Some? then Ok(s.rec.value, false) else Missing)
    else
      var r := s.rec.value;
      if !MaySettle(OriginOf(r.stage.value, tx), peer) then Outcome(s, Error)
      else if |Without(r.stage.value.transactionIds, tx)| > 0 then
        var fewer := OneClaimLess(r, tx);
        if fault == FailsBeforeWrite then Outcome(s, Error)
        else Outcome(Slot(Some(fewer), s.pin), if fault == Works then Ok(fewer, true) else Error)
      else RestoreStageSlot(r, s.pin, false, fault)
  }

  // ---------------------------------------------------------------- confirm, release, permanent store

  predicate WasPinned(s: Slot) { s.pin || (s.rec.Some? && s.rec.value.pinned) }

  /** `restoreLifecycleBaseline`: the record as read, and a pin wherever one was recorded or real. */
  function Baseline(s: Slot): Slot { Slot(s.rec, WasPinned(s)) }

  function RegisterPinnedSlot(s: Slot, cid: Cid, o: Owners, file: NewFile, now: Time, ttl: nat, fault: Fault)
    : (out: Outcome)
  {
    match Register(s.rec, file, RegisterOptions(false, ttl, now, None), cid, o)
    case Busy => Outcome(Baseline(s), Error)
    case KeepExisting => if fault == FailsBeforeWrite then Outcome(Baseline(s), Error)
      else Outcome(Slot(s.rec, true), Kept)
    case Write(r) => if fault != Works then Outcome(Baseline(s), Error) else Outcome(Slot(Some(r), true), Ok(r, false))
  }

  function ConfirmSlot(s: Slot, cid: Cid, o: Owners, adopt: Option<NewFile>, now: Time, ttl: nat, fault: Fault)
    : (out: Outcome)
  {
    if s.rec.None? then
      if adopt.Some? then RegisterPinnedSlot(s, cid, o, adopt.value, now, ttl, fault) else Outcome(s, Missing)
    else if IsLifecycleBusy(s.rec.value, cid, o) then Outcome(s, Error)
    else if fault != Works then Outcome(Baseline(s), Error)
    else Outcome(Slot(Some(Durable(s.rec.value, now)), true), Ok(Durable(s.rec.value, now), false))
  }

  function Released(r: FileRecord): FileRecord {
    r.(state := Expired, pinned := false, heldLocally := false,
       admissionId := None, admissionSettledAt := None, stage := None)
  }

  function ReleaseSlot(s: Slot, cid: Cid, o: Owners, fault: Fault): (out: Outcome) {
    if s.rec.None? then Outcome(s, Missing)
    else if IsLifecycleBusy(s.rec.value, cid, o) then Outcome(s, Error)
    else if fault != Works then Outcome(Baseline(s), Error)
    else Outcome(Slot(Some(Released(s.rec.value)), false), Ok(Released(s.rec.value), false))
  }

  // ---------------------------------------------------------------- collection, handover, rescue
  //
  // `isCurrent` says that the record still carries the revision it was selected with.
  // The compensation of these operations undoes the pin only.

  function GcRepairPinSlot(s: Slot, indirect: bool, localDag: bool, fault: Fault): (out: Outcome) {
    if s.rec.None? || s.rec.value.state != Confirmed || !s.rec.value.heldLocally then Outcome(s, Missing)
    else if s.pin || indirect then Outcome(s, Missing)
    else if !localDag then Outcome(s, Error)
    else
      var repaired := s.rec.value.(pinned := true);
      match fault
      case Works => Outcome(Slot(Some(repaired), true), Ok(repaired, false))
      case FailsBeforeWrite => Outcome(Slot(s.rec, s.rec.value.pinned), Error)
      case FailsAfterWrite => Outcome(Slot(Some(repaired), s.rec.value.pinned), Error)
  }

  function GcReleaseSlot(s: Slot, isCurrent: bool, o: Owners, fault: Fault): (out: Outcome) {
    if s.rec.None? || !isCurrent || s.rec.value.state == Confirmed || IsAdmissionInFlight(s.rec.value, o) then
      Outcome(s, Missing)
    else if s.rec.value.stage.Some? then RestoreStageSlot(s.rec.value, s.pin, true, fault)
    else
      var released := Released(s.rec.value);
      match fault
      case Works => Outcome(Slot(Some(released), false), Ok(released, false))
      case FailsBeforeWrite => Outcome(Slot(s.rec, s.pin && s.rec.value.pinned), Error)
      case FailsAfterWrite => Outcome(Slot(Some(released), s.pin && s.rec.value.pinned), Error)
  }

  function Demoted(r: FileRecord): FileRecord {
    r.(pinned := false, heldLocally := false, admissionId := None, admissionSettledAt := None, stage := None)
  }

  function DemoteSlot(s: Slot, isCurrent: bool, cid: Cid, o: Owners, fault: Fault): (out: Outcome) {
    if s.rec.None? || !isCurrent || s.rec.value.state != Confirmed || !s.rec.value.heldLocally
       || IsLifecycleBusy(s.rec.value, cid, o) then Outcome(s, Missing)
    else
      var demoted := Demoted(s.rec.value);
      match fault
      case Works => Outcome(Slot(Some(demoted), false), Ok(demoted, false))
      case FailsBeforeWrite => Outcome(Slot(s.rec, s.pin && s.rec.value.pinned), Error)
      case FailsAfterWrite => Outcome(Slot(Some(demoted), s.pin && s.rec.value.pinned), Error)
  }

  function RescueSlot(s: Slot, isCurrent: bool, fault: Fault): (out: Outcome) {
    if s.rec.None? || !isCurrent || s.rec.value.state != Confirmed || s.rec.value.heldLocally then Outcome(s, Missing)
    else
      var rescued := s.rec.value.(
        pinned := true, heldLocally := true, admissionId := None, admissionSettledAt := None, stage := None);
      match fault
      case Works => Outcome(Slot(Some(rescued), true), Ok(rescued, false))
      case FailsBeforeWrite => Outcome(Slot(s.rec, s.pin || s.rec.value.pinned), Error)
      case FailsAfterWrite => Outcome(Slot(Some(rescued), s.pin || s.rec.value.pinned), Error)
  }

  // ---------------------------------------------------------------- upload ownership

  /** What a rollback needs to know about one CID an upload touched. */
  datatype UploadBaseline = UploadBaseline(cid: Cid, previous: Option<FileRecord>, createdPin: bool)

  predicate OwnedBy(s: Slot, id: AdmissionId) { s.rec.Some? && s.rec.value.admissionId == Some(id) }

  /** `rollbackUpload`; without an id the caller still holds the lock it registered under. */
  function RollbackSlot(s: Slot, b: UploadBaseline, id: Option<AdmissionId>): (t: Slot) {
    if id.Some? && !OwnedBy(s, id.value) then s
    else Slot(b.previous, s.pin && !(b.createdPin && !(b.previous.Some? && b.previous.value.pinned)))
  }

  function SetReplicas(r: FileRecord, replicas: seq<PeerId>): FileRecord { r.(replicas := replicas) }

  function TokenCleared(r: FileRecord): FileRecord { r.(admissionId := None, admissionSettledAt := None) }
}
