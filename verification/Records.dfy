/**
 * Lifecycle records and the predicates that policy is decided from
 * (src/storage/registry.ts).
 *
 * Identifiers are opaque and totally ordered, so they are modelled as naturals.
 * A record does not carry its CID (the store key is the CID) nor its revision:
 * `Stored` pairs a record with the stamp of the write that stored it, which makes
 * "the same record up to revision" plain equality of `FileRecord` values.
 */
module Records {
  import opened Common

  type Cid = nat
  type PeerId = nat
  type TransactionId = nat
  type AdmissionId = nat
  type Time = nat

  datatype FileState = Temporary | Confirmed | Expired

  /** What an abandoned stage restores; it is always expired, unpinned and not held. */
  datatype StageBaseline = StageBaseline(expiresAt: Option<Time>, confirmedAt: Option<Time>)

  /** `origins` without an entry covers both a missing table and a missing key. */
  datatype ReplicaStage = ReplicaStage(
    transactionIds: seq<TransactionId>,
    origins: map<TransactionId, PeerId>,
    previous: Option<StageBaseline>)

  datatype FileRecord = FileRecord(
    name: string,
    state: FileState,
    createdAt: Time,
    expiresAt: Option<Time>,
    confirmedAt: Option<Time>,
    fileSize: nat,
    storedBytes: nat,
    protectedBytes: Option<nat>,
    pinned: bool,
    heldLocally: bool,
    replicas: seq<PeerId>,
    admissionId: Option<AdmissionId>,
    admissionSettledAt: Option<Time>,
    stage: Option<ReplicaStage>)

  datatype Stored = Stored(file: FileRecord, revision: nat)

  /** Process-local ownership: running uploads and CIDs under repair. */
  datatype Owners = Owners(admissions: set<AdmissionId>, repairs: set<Cid>)

  predicate IsReplicaStage(s: ReplicaStage) {
    && |s.transactionIds| > 0
    && NoDuplicates(s.transactionIds)
    && forall t :: t in s.origins ==> t in s.transactionIds
  }

  /** The durable shape `save` insists on. */
  predicate IsFileRecord(r: FileRecord) {
    && (r.admissionSettledAt.Some? ==> r.admissionId.Some?)
    && (r.stage.Some? ==>
          && r.state == Temporary && r.pinned && r.heldLocally && r.expiresAt.Some?
          && IsReplicaStage(r.stage.value))
  }

  function ProtectedStorageBytes(r: FileRecord): (n: nat) {
    if r.protectedBytes.Some? then r.protectedBytes.value
    else if r.storedBytes >= r.fileSize then r.storedBytes else r.fileSize
  }

  predicate IsExpired(r: FileRecord, now: Time) {
    r.state == Expired || (r.state == Temporary && r.expiresAt.Some? && r.expiresAt.value <= now)
  }

  predicate IsAdmissionSettled(r: FileRecord) {
    r.admissionId.None? || r.admissionSettledAt.Some?
  }

  predicate IsActiveAdmission(id: Option<AdmissionId>, o: Owners) {
    id.Some? && id.value in o.admissions
  }

  predicate IsAdmissionInFlight(r: FileRecord, o: Owners) {
    !IsAdmissionSettled(r) || IsActiveAdmission(r.admissionId, o)
  }

  predicate IsLifecycleBusy(r: FileRecord, cid: Cid, o: Owners) {
    r.stage.Some? || IsAdmissionInFlight(r, o) || cid in o.repairs
  }

  predicate IsSettledHeldFile(r: FileRecord, cid: Cid, o: Owners) {
    && r.state == Confirmed && r.heldLocally && IsAdmissionSettled(r)
    && !IsActiveAdmission(r.admissionId, o) && cid !in o.repairs
  }

  /** One CID seen as a whole: its record, if any, and its membership in the pinset. */
  datatype Slot = Slot(rec: Option<FileRecord>, pin: bool)

  /** A permanent copy: registered, confirmed, settled, free of stages and pinned. */
  predicate HasDurable(s: Slot) {
    && s.rec.Some? && s.rec.value.state == Confirmed && s.rec.value.pinned && s.rec.value.heldLocally
    && IsAdmissionSettled(s.rec.value) && s.rec.value.stage.None? && s.pin
  }

  /** What `have` answers; a pin that awaits startup backfill has no record yet. */
  predicate AnswersHave(s: Slot) { if s.rec.None? then s.pin else HasDurable(s) }
}
