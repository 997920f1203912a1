/**
 * One node as a state machine: every critical section that takes CID locks is one
 * step, and network waits sit between steps. Background work and requests interleave
 * arbitrarily; the methods of `NodeStore` and `UploadRoute` are the steps.
 */
module NodeMachine {
  import opened Common
  import opened Records
  import opened Lifecycle
  import opened NodeState
  import opened UploadRoute

  datatype Op =
    | Stage(cid: Cid, q: StageRequest, aborted: bool, fault: Fault)
    | Commit(cid: Cid, tx: TransactionId, peer: Option<PeerId>, now: Time, fault: Fault)
    | Abort(cid: Cid, tx: TransactionId, peer: Option<PeerId>, fault: Fault)
    | Store(cid: Cid, file: NewFile, now: Time, ttl: nat, fault: Fault)
    | Confirm(cid: Cid, adopt: Option<NewFile>, now: Time, ttl: nat, fault: Fault)
    | Release(cid: Cid, fault: Fault)
    | GcRepairPin(cid: Cid, indirect: bool, localDag: bool, fault: Fault)
    | GcRelease(cid: Cid, revision: nat, fault: Fault)
    | GcForget(cid: Cid, revision: nat)
    | Demote(cid: Cid, revision: nat, fault: Fault)
    | Rescue(cid: Cid, revision: nat, fault: Fault)
    | WriteReplicas(cid: Cid, replicas: seq<PeerId>)
    | ClearToken(cid: Cid, id: AdmissionId)
    | BeginRepair(cid: Cid, revision: nat)
    | EndRepair(cid: Cid)
    | BeginUpload(id: AdmissionId)
    | Admit(id: AdmissionId, bs: seq<UploadBaseline>, temporary: bool)
    | AdmitFails(cids: set<Cid>)
    | Rollback(id: AdmissionId)
    | Settle(id: AdmissionId, reports: map<Cid, seq<PeerId>>, settledAt: Time, failed: set<Cid>)
    | ClearTokens(id: AdmissionId, cids: set<Cid>)
    | EndUpload(id: AdmissionId)

  /** `uploads` are requests that can still roll back; `released` the stamps collections wrote. */
  datatype Machine = Machine(
    node: Node, uploads: map<AdmissionId, seq<UploadBaseline>>, released: set<(Cid, nat)>)

  predicate OneCid(op: Op) {
    op.Stage? || op.Commit? || op.Abort? || op.Store? || op.Confirm? || op.Release? || op.GcRepairPin?
    || op.GcRelease? || op.GcForget? || op.Demote? || op.Rescue? || op.WriteReplicas? || op.ClearToken?
  }

  /** What a step that locks one CID leaves behind and answers. */
  function OutcomeOf(n: Node, op: Op): Outcome
    requires OneCid(op)
  {
    var s := SlotAt(n, op.cid);
    match op
    case Stage(c, q, aborted, fault) => StageSlot(s, q, aborted, fault)
    case Commit(c, tx, peer, now, fault) => CommitSlot(s, tx, peer, now, fault)
    case Abort(c, tx, peer, fault) => AbortSlot(s, tx, peer, fault)
    case Store(c, file, now, ttl, fault) => RegisterPinnedSlot(s, c, n.owners, file, now, ttl, fault)
    case Confirm(c, adopt, now, ttl, fault) => ConfirmSlot(s, c, n.owners, adopt, now, ttl, fault)
    case Release(c, fault) => ReleaseSlot(s, c, n.owners, fault)
    case GcRepairPin(c, indirect, dag, fault) => GcRepairPinSlot(s, indirect, dag, fault)
    case GcRelease(c, rev, fault) => GcReleaseSlot(s, HasRevision(n, c, rev), n.owners, fault)
    case GcForget(c, rev) => if HasRevision(n, c, rev) then Outcome(Slot(None, s.pin), Kept) else Outcome(s, Missing)
    case Demote(c, rev, fault) => DemoteSlot(s, HasRevision(n, c, rev), c, n.owners, fault)
    case Rescue(c, rev, fault) => RescueSlot(s, HasRevision(n, c, rev), fault)
    case WriteReplicas(c, replicas) =>
      if s.rec.Some? then Outcome(Slot(Some(SetReplicas(s.rec.value, replicas)), s.pin), Kept) else Outcome(s, Missing)
    case ClearToken(c, id) =>
      if OwnedBy(s, id) && id !in n.owners.admissions
      then Outcome(Slot(Some(TokenCleared(s.rec.value)), s.pin), Kept) else Outcome(s, Kept)
  }

  function Effect(n: Node, op: Op): Slot
    requires OneCid(op)
  {
    OutcomeOf(n, op).slot
  }

  predicate GcReleased(n: Node, op: Op) { op.GcRelease? && OutcomeOf(n, op).reply.Ok? }

  /** A background job that finds its record changed, or nothing to do, leaves the entry as it is. */
  predicate Skips(n: Node, op: Op) {
    (op.GcRepairPin? || op.GcRelease? || op.GcForget? || op.Demote? || op.Rescue?) && OutcomeOf(n, op).reply.Missing?
  }

  predicate Mentions(r: Option<FileRecord>, id: AdmissionId) { r.Some? && r.value.admissionId == Some(id) }

  /** Tokens are random and used by one request: nothing carries a new one. */
  ghost predicate NeverUsed(m: Machine, id: AdmissionId) {
    && (forall c :: !OwnedBy(SlotAt(m.node, c), id))
    && (forall u :: u in m.uploads ==> forall i :: 0 <= i < |m.uploads[u]| ==> !Mentions(m.uploads[u][i].previous, id))
  }

  ghost predicate OwnerStep(m: Machine, op: Op, m': Machine)
    requires !OneCid(op)
  {
    var o, o' := m.node.owners, m'.node.owners;
    match op
    case BeginRepair(c, rev) =>
      && Entry(m.node, c).Some? && Entry(m.node, c).value.revision == rev
      && IsSettledHeldFile(Entry(m.node, c).value.file, c, o) && c !in o.repairs
      && m' == m.(node := m.node.(owners := o.(repairs := o.repairs + {c})))
    case EndRepair(c) => m' == m.(node := m.node.(owners := o.(repairs := o.repairs - {c})))
    case BeginUpload(id) =>
      && id !in o.admissions && id !in m.uploads && NeverUsed(m, id)
      && m' == m.(node := m.node.(owners := o.(admissions := o.admissions + {id})))
    case EndUpload(id) =>
      m' == m.(node := m.node.(owners := o.(admissions := o.admissions - {id})), uploads := m.uploads - {id})
    case Admit(id, bs, temporary) =>
      && id in o.admissions && id !in m.uploads && (forall c :: !OwnedBy(SlotAt(m.node, c), id))
      && Admitted(m.node, m'.node, bs, id, temporary)
      && m'.uploads == m.uploads[id := bs] && m'.released == m.released
    case AdmitFails(cids) =>
      Undone(m.node, m'.node, cids) && m'.uploads == m.uploads && m'.released == m.released
    case Rollback(id) =>
      && id in m.uploads && m'.uploads == m.uploads && m'.released == m.released
      && RolledBackBy(m.node, m'.node, m.uploads[id], id)
    case Settle(id, reports, at, failed) =>
      && id in m.uploads && Owned(m.node, m.uploads[id], id)
      && SettledFrom(m.node, m'.node, m.uploads[id], reports, at, c => if c in failed then FailsBeforeWrite else Works)
      && m'.uploads == m.uploads - {id} && m'.released == m.released
    case ClearTokens(id, cids) =>
      && m'.uploads == m.uploads && m'.released == m.released
      && id !in m.uploads
      && Frame(m.node, m'.node, cids)
      && forall c :: c in cids ==>
        SlotAt(m'.node, c) == SlotAt(m.node, c) || TokenDropped(SlotAt(m.node, c), SlotAt(m'.node, c), id)
  }

  predicate TokenDropped(s: Slot, t: Slot, id: AdmissionId) {
    && OwnedBy(s, id) && t.rec.Some?
    && t == Slot(Some(TokenCleared(SetReplicas(s.rec.value, t.rec.value.replicas))), s.pin)
  }

  ghost predicate RolledBackBy(a: Node, b: Node, bs: seq<UploadBaseline>, id: AdmissionId) {
    && Frame(a, b, BaselineCids(bs))
    && forall i :: 0 <= i < |bs| ==> SlotAt(b, bs[i].cid) == RollbackSlot(SlotAt(a, bs[i].cid), bs[i], Some(id))
  }

  ghost predicate Next(m: Machine, op: Op, m': Machine) {
    if OneCid(op) then
      && m'.uploads == m.uploads
      && (op.GcForget? ==> (op.cid, op.revision) in m.released)
      && Moves(m.node, m'.node, op.cid, Effect(m.node, op))
      && (Skips(m.node, op) ==> Entry(m'.node, op.cid) == Entry(m.node, op.cid))
      && m'.released == (if GcReleased(m.node, op) && Entry(m'.node, op.cid).Some?
                         then m.released + {(op.cid, Entry(m'.node, op.cid).value.revision)} else m.released)
      && (GcReleased(m.node, op) && Entry(m'.node, op.cid).Some? ==>
            m.node.nextRevision <= Entry(m'.node, op.cid).value.revision)
    else OwnerStep(m, op, m')
  }

  // ---------------------------------------------------------------- the invariant

  /** What every record says about itself. */
  predicate RecordInv(r: FileRecord) {
    && IsFileRecord(r)
    && r.pinned == r.heldLocally
    && (r.state == Expired ==> !r.pinned)
    && (r.state == Temporary ==> r.pinned)
    && (r.admissionId.Some? ==> r.pinned)
    && (r.stage.Some? ==> r.admissionId.None?)
  }

  predicate SoundRecord(s: Slot) { s.rec.Some? ==> RecordInv(s.rec.value) }

  /** ... and that the pin it claims is real. */
  predicate PinReal(s: Slot) { s.rec.Some? && s.rec.value.pinned ==> s.pin }

  predicate SlotInv(s: Slot) { SoundRecord(s) && PinReal(s) }

  ghost predicate BaselinesInv(bs: seq<UploadBaseline>) {
    forall i :: 0 <= i < |bs| ==> bs[i].previous.Some? ==> RecordInv(bs[i].previous.value)
  }

  /** A stamp a collection wrote still names an expired, unpinned record. */
  ghost predicate ReleasedInv(n: Node, released: set<(Cid, nat)>) {
    forall p :: p in released ==>
      && p.1 < n.nextRevision
      && (HasRevision(n, p.0, p.1) ==> Entry(n, p.0).value.file.state == Expired)
  }

  /** Kept by every step there is; whether the pin of one CID is real is a matter of that CID alone. */
  ghost predicate Inv(m: Machine) {
    && WellStored(m.node)
    && (forall c :: SoundRecord(SlotAt(m.node, c)))
    && (forall id :: id in m.uploads ==> id in m.node.owners.admissions && BaselinesInv(m.uploads[id]))
    && ReleasedInv(m.node, m.released)
  }

  /**
   * The two writes no compensation covers: the fallback record of a withdrawn stage,
   * and a rescue whose write landed although it was reported as failed.
   */
  predicate Breaks(m: Machine, op: Op) {
    match op
    case Abort(c, tx, peer, FailsBeforeWrite) =>
      var s := SlotAt(m.node, c);
      && HasClaim(s, tx) && MaySettle(OriginOf(s.rec.value.stage.value, tx), peer)
      && Without(s.rec.value.stage.value.transactionIds, tx) == []
      && s.rec.value.stage.value.previous.Some?
    case GcRelease(c, rev, FailsBeforeWrite) =>
      HasRevision(m.node, c, rev) && Entry(m.node, c).value.file.stage.Some?
    case Rescue(c, rev, FailsAfterWrite) =>
      && HasRevision(m.node, c, rev) && Entry(m.node, c).value.file.state == Confirmed
      && !Entry(m.node, c).value.file.heldLocally && c !in m.node.pins
    case _ => false
  }

  predicate BreaksAt(m: Machine, op: Op, c: Cid) { Breaks(m, op) && OneCid(op) && op.cid == c }

  // ---------------------------------------------------------------- records

  lemma StageKeepsRecord(s: Slot, q: StageRequest, aborted: bool, fault: Fault)
    requires SoundRecord(s)
    ensures SoundRecord(StageSlot(s, q, aborted, fault).slot)
  {
    if s.rec.Some? && s.rec.value.stage.Some? {
      JoinedStageIsValid(s.rec.value, q.tx, q.origin, q.now + q.ttl);
    }
  }

  lemma AbortKeepsRecord(s: Slot, tx: TransactionId, peer: Option<PeerId>, fault: Fault)
    requires SoundRecord(s)
    ensures SoundRecord(AbortSlot(s, tx, peer, fault).slot)
  {
    if HasClaim(s, tx) && |Without(s.rec.value.stage.value.transactionIds, tx)| > 0 {
      OneClaimLessIsValid(s.rec.value, tx);
    }
  }

  /** Whatever fails and however, an operation leaves a sound record behind. */
  lemma EffectKeepsRecord(n: Node, op: Op)
    requires OneCid(op) && SoundRecord(SlotAt(n, op.cid))
    ensures SoundRecord(Effect(n, op))
  {
    match op
    case Stage(c, q, aborted, fault) => StageKeepsRecord(SlotAt(n, c), q, aborted, fault);
    case Abort(c, tx, peer, fault) => AbortKeepsRecord(SlotAt(n, c), tx, peer, fault);
    case _ =>
  }

  lemma OneCidStepKeepsInv(m: Machine, op: Op, m': Machine)
    requires Inv(m) && Next(m, op, m') && OneCid(op)
    ensures Inv(m')
  {
    assert SoundRecord(SlotAt(m.node, op.cid));
    EffectKeepsRecord(m.node, op);
    MovesKeepsWellStored(m.node, m'.node, op.cid, Effect(m.node, op));
    forall c ensures SoundRecord(SlotAt(m'.node, c)) {
      assert SoundRecord(SlotAt(m.node, c));
    }
    forall p | p in m'.released
      ensures p.1 < m'.node.nextRevision
      ensures HasRevision(m'.node, p.0, p.1) ==> Entry(m'.node, p.0).value.file.state == Expired
    {
      assert Stamped(m.node, m'.node, op.cid);
    }
  }

  lemma OwnerStepKeepsRecord(m: Machine, op: Op, m': Machine, c: Cid)
    requires Inv(m) && Next(m, op, m') && !OneCid(op)
    ensures SoundRecord(SlotAt(m'.node, c))
  {
    assert SoundRecord(SlotAt(m.node, c));
    match op
    case Admit(id, bs, temporary) =>
      if c in BaselineCids(bs) { var i :| 0 <= i < |bs| && bs[i].cid == c; }
    case Rollback(id) =>
      var bs := m.uploads[id];
      if c in BaselineCids(bs) { var i :| 0 <= i < |bs| && bs[i].cid == c; }
    case Settle(id, reports, at, failed) =>
      var bs := m.uploads[id];
      if c in BaselineCids(bs) { var i :| 0 <= i < |bs| && bs[i].cid == c; }
    case _ =>
  }

  lemma OwnerStepKeepsInv(m: Machine, op: Op, m': Machine)
    requires Inv(m) && Next(m, op, m') && !OneCid(op)
    ensures Inv(m')
  {
    forall c ensures SoundRecord(SlotAt(m'.node, c)) {
      OwnerStepKeepsRecord(m, op, m', c);
    }
    StampsKeepReleasedInv(m, op, m');
    if op.Admit? {
      forall i | 0 <= i < |op.bs| && op.bs[i].previous.Some? ensures RecordInv(op.bs[i].previous.value) {
        assert SoundRecord(SlotAt(m.node, op.bs[i].cid));
      }
    }
  }

  /** A multi-CID step only issues fresh stamps, so it never reuses one a collection wrote. */
  lemma StampsKeepReleasedInv(m: Machine, op: Op, m': Machine)
    requires Inv(m) && Next(m, op, m') && !OneCid(op)
    ensures ReleasedInv(m'.node, m'.released)
    ensures (forall c :: SoundRecord(SlotAt(m'.node, c))) ==> WellStored(m'.node)
  {
    forall c ensures Stamped(m.node, m'.node, c) {
    }
    if forall c :: SoundRecord(SlotAt(m'.node, c)) {
      forall c | Entry(m'.node, c).Some?
        ensures IsFileRecord(Entry(m'.node, c).value.file) && Entry(m'.node, c).value.revision < m'.node.nextRevision
      {
        assert SoundRecord(SlotAt(m'.node, c)) && Stamped(m.node, m'.node, c);
      }
    }
    forall p | p in m'.released
      ensures p.1 < m'.node.nextRevision
      ensures HasRevision(m'.node, p.0, p.1) ==> Entry(m'.node, p.0).value.file.state == Expired
    {
      assert Stamped(m.node, m'.node, p.0);
    }
  }

  /** Every step keeps what the records say, uncovered writes included. */
  lemma StepKeepsInv(m: Machine, op: Op, m': Machine)
    requires Inv(m) && Next(m, op, m')
    ensures Inv(m')
  {
    if OneCid(op) { OneCidStepKeepsInv(m, op, m'); } else { OwnerStepKeepsInv(m, op, m'); }
  }

  // ---------------------------------------------------------------- pins

  lemma EffectKeepsPin(m: Machine, op: Op)
    requires OneCid(op) && SlotInv(SlotAt(m.node, op.cid))
    ensures PinReal(Effect(m.node, op)) <==> !Breaks(m, op)
  {
  }

  lemma OwnerStepKeepsPin(m: Machine, op: Op, m': Machine, c: Cid)
    requires Inv(m) && Next(m, op, m') && !OneCid(op) && PinReal(SlotAt(m.node, c))
    ensures PinReal(SlotAt(m'.node, c))
  {
    assert SoundRecord(SlotAt(m.node, c));
    match op
    case Admit(id, bs, temporary) =>
      if c in BaselineCids(bs) { var i :| 0 <= i < |bs| && bs[i].cid == c; }
    case Rollback(id) =>
      var bs := m.uploads[id];
      if c in BaselineCids(bs) { var i :| 0 <= i < |bs| && bs[i].cid == c; }
    case Settle(id, reports, at, failed) =>
      var bs := m.uploads[id];
      if c in BaselineCids(bs) { var i :| 0 <= i < |bs| && bs[i].cid == c; }
    case _ =>
  }

  /** The pin a record claims stays real exactly when the step is not an uncovered write on that very CID. */
  lemma StepKeepsPin(m: Machine, op: Op, m': Machine, c: Cid)
    requires Inv(m) && Next(m, op, m') && PinReal(SlotAt(m.node, c))
    ensures PinReal(SlotAt(m'.node, c)) <==> !BreaksAt(m, op, c)
  {
    if !OneCid(op) {
      OwnerStepKeepsPin(m, op, m', c);
    } else if op.cid == c {
      assert SoundRecord(SlotAt(m.node, c));
      EffectKeepsPin(m, op);
    }
  }

  // ---------------------------------------------------------------- whole runs

  /** A history: one state more than there are steps. */
  ghost predicate Run(ms: seq<Machine>, ops: seq<Op>) {
    |ms| == |ops| + 1 && forall i :: 0 <= i < |ops| ==> Next(ms[i], ops[i], ms[i + 1])
  }

  /** No uncovered write on `c` among the first `k` steps. */
  ghost predicate CoveredAt(ms: seq<Machine>, ops: seq<Op>, c: Cid, k: nat)
    requires |ms| == |ops| + 1 && k <= |ops|
  {
    forall i :: 0 <= i < k ==> !BreaksAt(ms[i], ops[i], c)
  }

  lemma {:induction false} RunsKeepInv(ms: seq<Machine>, ops: seq<Op>, k: nat)
    requires Run(ms, ops) && Inv(ms[0]) && k <= |ops|
    ensures Inv(ms[k])
  {
    if k > 0 {
      RunsKeepInv(ms, ops, k - 1);
      StepKeepsInv(ms[k - 1], ops[k - 1], ms[k]);
    }
  }

  lemma {:induction false} RunsKeepPin(ms: seq<Machine>, ops: seq<Op>, k: nat, c: Cid)
    requires Run(ms, ops) && Inv(ms[0]) && k <= |ops| && PinReal(SlotAt(ms[0].node, c)) && CoveredAt(ms, ops, c, k)
    ensures PinReal(SlotAt(ms[k].node, c))
  {
    if k > 0 {
      RunsKeepPin(ms, ops, k - 1, c);
      RunsKeepInv(ms, ops, k - 1);
      StepKeepsPin(ms[k - 1], ops[k - 1], ms[k], c);
    }
  }

  /** An empty node satisfies the invariant, so every history that starts there keeps it. */
  lemma EmptyNodeInv(c: Cid)
    ensures Inv(Machine(Node(map[], {}, Owners({}, {}), 0), map[], {}))
    ensures PinReal(SlotAt(Node(map[], {}, Owners({}, {}), 0), c))
  {
  }

  // ---------------------------------------------------------------- the uncovered writes do happen

  function Holding(r: FileRecord, pins: set<Cid>): Machine {
    Machine(Node(map[0 := Stored(r, 0)], pins, Owners({}, {}), 1), map[], {})
  }

  /** A handed-over file: confirmed, not held, not pinned. */
  function HandedOver(): FileRecord {
    FileRecord("a", Confirmed, 0, None, Some(0), 1, 1, None, false, false, [], None, None, None)
  }

  /** A copy prepared over an expired record, claimed by transaction 7. */
  function Prepared(): FileRecord {
    FreshStage(Some(HandedOver().(state := Expired)), "a", Stat(1, 1), 7, None, 5, 10)
  }

  /** The last abort, or the collection, of a prepared copy loses the pin when the fallback write fails. */
  lemma WithdrawalCanLoseThePin()
    ensures Inv(Holding(Prepared(), {0})) && PinReal(SlotAt(Holding(Prepared(), {0}).node, 0))
    ensures !PinReal(SlotAt(Holding(Prepared(), {}).node, 0))
    ensures Next(Holding(Prepared(), {0}), Abort(0, 7, None, FailsBeforeWrite), Holding(Prepared(), {}))
    ensures Next(Holding(Prepared(), {0}), GcRelease(0, 0, FailsBeforeWrite), Holding(Prepared(), {}))
  {
    var m, m' := Holding(Prepared(), {0}), Holding(Prepared(), {});
    assert Entry(m.node, 0) == Some(Stored(Prepared(), 0)) == Entry(m'.node, 0);
    assert Without([7], 7) == [];
    forall c ensures SoundRecord(SlotAt(m.node, c)) { }
  }

  /** A rescue whose write landed although it was reported as failed claims a pin it took back. */
  lemma RescueCanClaimAMissingPin()
    ensures Inv(Holding(HandedOver(), {})) && PinReal(SlotAt(Holding(HandedOver(), {}).node, 0))
    ensures !PinReal(SlotAt(RescuedWithoutPin().node, 0))
    ensures Next(Holding(HandedOver(), {}), Rescue(0, 0, FailsAfterWrite), RescuedWithoutPin())
  {
    var m, m' := Holding(HandedOver(), {}), RescuedWithoutPin();
    assert Entry(m.node, 0) == Some(Stored(HandedOver(), 0));
    assert Entry(m'.node, 0).Some?;
  }

  function RescuedWithoutPin(): Machine {
    Machine(Node(map[0 := Stored(HandedOver().(pinned := true, heldLocally := true), 1)], {}, Owners({}, {}), 2),
        map[], {})
  }

  // ---------------------------------------------------------------- durability

  predicate Background(op: Op) {
    op.Stage? || op.Commit? || op.Abort? || op.Store? || op.GcRepairPin? || op.GcRelease? || op.GcForget?
    || op.Demote? || op.Rescue? || op.WriteReplicas? || op.ClearToken? || op.BeginRepair? || op.EndRepair?
  }

  predicate IsConfirmed(s: Slot) { s.rec.Some? && s.rec.value.state == Confirmed }

  /** No stage, store, collection, handover or repair step takes a record out of `confirmed`. */
  lemma BackgroundKeepsConfirmed(m: Machine, op: Op, m': Machine, c: Cid)
    requires Inv(m) && Next(m, op, m') && Background(op)
    requires IsConfirmed(SlotAt(m.node, c))
    ensures IsConfirmed(SlotAt(m'.node, c))
  {
    assert SoundRecord(SlotAt(m.node, c));
    if op.GcForget? && op.cid == c {
      assert (c, op.revision) in m.released;
    }
  }

  lemma {:induction false} BackgroundRunsKeepConfirmed(ms: seq<Machine>, ops: seq<Op>, k: nat, c: Cid)
    requires Run(ms, ops) && Inv(ms[0]) && k <= |ops|
    requires forall i :: 0 <= i < k ==> Background(ops[i])
    requires IsConfirmed(SlotAt(ms[0].node, c))
    ensures IsConfirmed(SlotAt(ms[k].node, c))
  {
    if k > 0 {
      BackgroundRunsKeepConfirmed(ms, ops, k - 1, c);
      RunsKeepInv(ms, ops, k - 1);
      BackgroundKeepsConfirmed(ms[k - 1], ops[k - 1], ms[k], c);
    }
  }

  // ---------------------------------------------------------------- failed operations

  /**
   * A stage, permanent store, confirmation or release that fails, whether or not its write
   * landed, leaves the record it found, and the pin membership unless the record's pin was
   * missing: that one is put back or left missing, never taken.
   */
  lemma FailedOperationIsExactUndo(m: Machine, op: Op)
    requires Inv(m) && (op.Stage? || op.Store? || op.Confirm? || op.Release?) && OutcomeOf(m.node, op).reply.Error?
    ensures Effect(m.node, op).rec == SlotAt(m.node, op.cid).rec
    ensures PinReal(SlotAt(m.node, op.cid)) ==> Effect(m.node, op) == SlotAt(m.node, op.cid)
    ensures SlotAt(m.node, op.cid).pin ==> Effect(m.node, op).pin
  {
    assert SoundRecord(SlotAt(m.node, op.cid));
  }

  /**
   * A request of several files, repeated CIDs included, that fails to be admitted leaves
   * every record; the slot is the same exactly when it is untouched or its pin was real.
   */
  lemma FailedUploadIsExactUndo(m: Machine, cids: set<Cid>, m': Machine, c: Cid)
    requires Inv(m) && Next(m, AdmitFails(cids), m')
    ensures SlotAt(m'.node, c).rec == SlotAt(m.node, c).rec
    ensures SlotAt(m'.node, c) == SlotAt(m.node, c) <==> c !in cids || PinReal(SlotAt(m.node, c))
  {
    assert SoundRecord(SlotAt(m.node, c));
  }

  // ---------------------------------------------------------------- upload ownership

  /** Steps only the request that holds `id` takes. */
  predicate TakenBy(op: Op, id: AdmissionId) {
    (op.Admit? && op.id == id) || (op.Rollback? && op.id == id) || (op.Settle? && op.id == id)
    || (op.ClearTokens? && op.id == id) || (op.EndUpload? && op.id == id)
  }

  /** The same owner, state and protection; sizes and the replica list may be refreshed. */
  predicate SameLifecycle(s: Slot, t: Slot) {
    && s.rec.Some? && t.rec.Some? && s.pin == t.pin
    && var (r, u) := (s.rec.value, t.rec.value);
    && r.name == u.name && r.createdAt == u.createdAt && r.state == u.state
    && r.pinned == u.pinned && r.heldLocally == u.heldLocally && r.stage == u.stage
    && r.admissionId == u.admissionId && r.admissionSettledAt == u.admissionSettledAt
  }

  lemma OwnedSlotIgnoresEffect(n: Node, op: Op, id: AdmissionId)
    requires OneCid(op) && SlotInv(SlotAt(n, op.cid))
    requires id in n.owners.admissions && OwnedBy(SlotAt(n, op.cid), id)
    requires op.GcForget? ==> !HasRevision(n, op.cid, op.revision)
    ensures SameLifecycle(SlotAt(n, op.cid), Effect(n, op))
  {
  }

  lemma OwnedSlotIgnoresOwners(m: Machine, op: Op, m': Machine, c: Cid, id: AdmissionId)
    requires Inv(m) && Next(m, op, m') && !OneCid(op) && !TakenBy(op, id)
    requires id in m.node.owners.admissions && OwnedBy(SlotAt(m.node, c), id) && SlotAt(m.node, c).pin
    ensures SameLifecycle(SlotAt(m.node, c), SlotAt(m'.node, c))
  {
    assert SoundRecord(SlotAt(m.node, c));
    match op
    case Admit(id2, bs, temporary) =>
      assert c !in BaselineCids(bs);
    case Rollback(id2) =>
      var bs := m.uploads[id2];
      if c in BaselineCids(bs) { var i :| 0 <= i < |bs| && bs[i].cid == c; }
    case Settle(id2, reports, at, failed) =>
      assert c !in BaselineCids(m.uploads[id2]);
    case _ =>
  }

  lemma UploadIsKept(m: Machine, op: Op, m': Machine, id: AdmissionId)
    requires Next(m, op, m') && !TakenBy(op, id) && id in m.node.owners.admissions
    ensures id in m'.node.owners.admissions
    ensures id in m.uploads ==> id in m'.uploads && m'.uploads[id] == m.uploads[id]
    ensures id !in m.uploads ==> id !in m'.uploads
  {
  }

  /** Nobody else adopts, releases, stages, collects or settles a CID a running upload owns. */
  lemma OwnedSlotIsStable(m: Machine, op: Op, m': Machine, c: Cid, id: AdmissionId)
    requires Inv(m) && Next(m, op, m') && !TakenBy(op, id)
    requires id in m.node.owners.admissions && OwnedBy(SlotAt(m.node, c), id) && SlotAt(m.node, c).pin
    ensures SameLifecycle(SlotAt(m.node, c), SlotAt(m'.node, c))
    ensures id in m'.node.owners.admissions && (id in m.uploads ==> id in m'.uploads && m'.uploads[id] == m.uploads[id])
  {
    UploadIsKept(m, op, m', id);
    if !OneCid(op) {
      OwnedSlotIgnoresOwners(m, op, m', c, id);
    } else if op.cid == c {
      assert SoundRecord(SlotAt(m.node, c));
      if op.GcForget? { assert (c, op.revision) in m.released; }
      OwnedSlotIgnoresEffect(m.node, op, id);
    }
  }

  /** What a running upload relies on: its slot as it was at `m0`, its ownership and its baselines. */
  predicate StillOwns(m0: Machine, m: Machine, c: Cid, id: AdmissionId) {
    && SameLifecycle(SlotAt(m0.node, c), SlotAt(m.node, c)) && id in m.node.owners.admissions
    && (id in m0.uploads ==> id in m.uploads && m.uploads[id] == m0.uploads[id])
  }

  lemma StillOwnsStep(m0: Machine, m: Machine, op: Op, m': Machine, c: Cid, id: AdmissionId)
    requires StillOwns(m0, m, c, id) && OwnedBy(SlotAt(m0.node, c), id) && SlotAt(m0.node, c).pin
    requires Inv(m) && Next(m, op, m') && !TakenBy(op, id)
    ensures StillOwns(m0, m', c, id)
  {
    OwnedSlotIsStable(m, op, m', c, id);
  }

  lemma {:induction false} OwnedSlotStableOverRun(ms: seq<Machine>, ops: seq<Op>, k: nat, c: Cid, id: AdmissionId)
    requires Run(ms, ops) && Inv(ms[0]) && k <= |ops|
    requires forall i :: 0 <= i < k ==> !TakenBy(ops[i], id)
    requires id in ms[0].node.owners.admissions && OwnedBy(SlotAt(ms[0].node, c), id) && SlotAt(ms[0].node, c).pin
    ensures StillOwns(ms[0], ms[k], c, id)
  {
    if k > 0 {
      OwnedSlotStableOverRun(ms, ops, k - 1, c, id);
      RunsKeepInv(ms, ops, k - 1);
      StillOwnsStep(ms[0], ms[k - 1], ops[k - 1], ms[k], c, id);
    }
  }

  /**
   * A refused upload is an exact undo. Whatever ran on this node between the admission
   * and the rollback, uncovered writes included, every CID of the request ends with the
   * record it had before the request, up to revision and whoever's it was, and with its
   * former pin membership exactly when the pin its former record claimed was real; a
   * missing one stays put back.
   */
  lemma RollbackIsExactUndo(before: Machine, id: AdmissionId, bs: seq<UploadBaseline>, temporary: bool,
                            ms: seq<Machine>, ops: seq<Op>, after: Machine, i: nat)
    requires Run(ms, ops) && Inv(before) && Next(before, Admit(id, bs, temporary), ms[0])
    requires forall j :: 0 <= j < |ops| ==> !TakenBy(ops[j], id)
    requires Next(ms[|ops|], Rollback(id), after)
    requires i < |bs|
    ensures SlotAt(after.node, bs[i].cid) == Baseline(SlotAt(before.node, bs[i].cid))
    ensures SlotAt(after.node, bs[i].cid) == SlotAt(before.node, bs[i].cid) <==> PinReal(SlotAt(before.node, bs[i].cid))
  {
    StepKeepsInv(before, Admit(id, bs, temporary), ms[0]);
    var c := bs[i].cid;
    assert FreshlyOwned(SlotAt(ms[0].node, c), id);
    OwnedSlotStableOverRun(ms, ops, |ops|, c, id);
    assert SoundRecord(SlotAt(before.node, c));
  }

  // ---------------------------------------------------------------- tokens

  /** A rollback never brings back a record that a running request owns. */
  ghost predicate OwnersAreGone(m: Machine) {
    forall u :: u in m.uploads ==> BaselineOwnersAreGone(m.uploads[u], m.node.owners)
  }

  ghost predicate BaselineOwnersAreGone(bs: seq<UploadBaseline>, o: Owners) {
    forall i, id :: 0 <= i < |bs| && Mentions(bs[i].previous, id) ==> id !in o.admissions
  }

  /** A record is settled only once its request can no longer roll it back. */
  ghost predicate RunningIsUnsettled(m: Machine) {
    forall u, c :: u in m.uploads && OwnedBy(SlotAt(m.node, c), u) ==>
      SlotAt(m.node, c).rec.value.admissionSettledAt.None?
  }

  ghost predicate TokensInv(m: Machine) { OwnersAreGone(m) && RunningIsUnsettled(m) }

  lemma OwnersStayGone(m: Machine, op: Op, m': Machine)
    requires Inv(m) && Next(m, op, m') && OwnersAreGone(m)
    ensures OwnersAreGone(m')
  {
    forall u | u in m'.uploads ensures BaselineOwnersAreGone(m'.uploads[u], m'.node.owners) {
      if u in m.uploads { assert BaselineOwnersAreGone(m.uploads[u], m.node.owners); }
      if op.Admit? && u == op.id {
        forall i, id | 0 <= i < |op.bs| && Mentions(op.bs[i].previous, id) ensures id !in m.node.owners.admissions {
          assert !OwnedBy(SlotAt(m.node, op.bs[i].cid), op.id);
        }
      }
    }
  }

  /** No operation on a CID hands it to a request or settles it. */
  lemma EffectKeepsOwner(n: Node, op: Op, id: AdmissionId)
    requires OneCid(op) && OwnedBy(Effect(n, op), id)
    ensures OwnedBy(SlotAt(n, op.cid), id)
    ensures Effect(n, op).rec.value.admissionSettledAt == SlotAt(n, op.cid).rec.value.admissionSettledAt
  {
  }

  lemma RunningStaysUnsettled(m: Machine, op: Op, m': Machine)
    requires Inv(m) && Next(m, op, m') && TokensInv(m)
    ensures RunningIsUnsettled(m')
  {
    forall u, c | u in m'.uploads && OwnedBy(SlotAt(m'.node, c), u)
      ensures SlotAt(m'.node, c).rec.value.admissionSettledAt.None?
    {
      if OneCid(op) {
        if op.cid == c { EffectKeepsOwner(m.node, op, u); }
        assert OwnedBy(SlotAt(m.node, c), u);
      } else {
        OwnerStepUnsettled(m, op, m', u, c);
      }
    }
  }

  lemma OwnerStepUnsettled(m: Machine, op: Op, m': Machine, u: AdmissionId, c: Cid)
    requires Inv(m) && Next(m, op, m') && TokensInv(m) && !OneCid(op) && u in m'.uploads
    requires OwnedBy(SlotAt(m'.node, c), u)
    ensures SlotAt(m'.node, c).rec.value.admissionSettledAt.None?
  {
    match op
    case Admit(id, bs, temporary) =>
      if c in BaselineCids(bs) {
        var i :| 0 <= i < |bs| && bs[i].cid == c;
      } else {
        assert OwnedBy(SlotAt(m.node, c), u);
      }
    case Rollback(id) =>
      var bs := m.uploads[id];
      if c in BaselineCids(bs) {
        var i :| 0 <= i < |bs| && bs[i].cid == c;
        assert BaselineOwnersAreGone(bs, m.node.owners);
        assert Mentions(bs[i].previous, u) ==> u !in m.node.owners.admissions;
        assert !Mentions(bs[i].previous, u) ==> OwnedBy(SlotAt(m.node, c), u);
      } else {
        assert OwnedBy(SlotAt(m.node, c), u);
      }
    case Settle(id, reports, at, failed) =>
      assert c !in BaselineCids(m.uploads[id]);
      assert OwnedBy(SlotAt(m.node, c), u);
    case AdmitFails(cids) => assert OwnedBy(SlotAt(m.node, c), u);
    case ClearTokens(id, cids) => assert OwnedBy(SlotAt(m.node, c), u);
    case BeginRepair(d, rev) => assert OwnedBy(SlotAt(m.node, c), u);
    case EndRepair(d) => assert OwnedBy(SlotAt(m.node, c), u);
    case BeginUpload(id) => assert OwnedBy(SlotAt(m.node, c), u);
    case EndUpload(id) => assert OwnedBy(SlotAt(m.node, c), u);
    case _ =>
  }

  lemma StepKeepsTokens(m: Machine, op: Op, m': Machine)
    requires Inv(m) && Next(m, op, m') && TokensInv(m)
    ensures TokensInv(m')
  {
    OwnersStayGone(m, op, m');
    RunningStaysUnsettled(m, op, m');
  }
}
