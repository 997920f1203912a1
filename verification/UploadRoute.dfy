/**
 * The local half of an upload (src/api/uploadRoute.ts): admitting every file of a
 * request under its locks, undoing a refused request, and settling an accepted one.
 */
module UploadRoute {
  import opened Common
  import opened Records
  import opened Lifecycle
  import opened NodeState
  import opened NodeStore

  /** One part of a request; `fault` is how its registration write behaves. */
  datatype Part = Part(cid: Cid, file: NewFile, fault: Fault)

  function PartCids(parts: seq<Part>): set<Cid> { set p | p in parts :: p.cid }

  function BaselineCids(bs: seq<UploadBaseline>): set<Cid> { set b | b in bs :: b.cid }

  /** Each CID of a request is recorded once, with the record and the pin it had. */
  ghost predicate Captured(a: Node, bs: seq<UploadBaseline>) {
    && (forall i, j :: 0 <= i < j < |bs| ==> bs[i].cid != bs[j].cid)
    && (forall i :: 0 <= i < |bs| ==>
          bs[i].previous == SlotAt(a, bs[i].cid).rec && bs[i].createdPin == (bs[i].cid !in a.pins))
  }

  /** The record an admitted upload owns: protected, unsettled and free of stages. */
  predicate FreshlyOwned(s: Slot, id: AdmissionId) {
    && OwnedBy(s, id) && s.pin && s.rec.value.pinned && s.rec.value.heldLocally
    && s.rec.value.state != Expired && s.rec.value.admissionSettledAt.None? && s.rec.value.stage.None?
  }

  /** Registration refuses a CID under repair and one that another running upload owns. */
  predicate MayRegister(rec: Option<FileRecord>, c: Cid, id: AdmissionId, o: Owners) {
    && c !in o.repairs
    && !(rec.Some? && rec.value.admissionId.Some? && rec.value.admissionId.value != id
         && IsAdmissionInFlight(rec.value, o))
  }

  /** Re-uploading durable content keeps it durable; anything else starts as the mode of the request says. */
  predicate AdmittedAs(s: Slot, t: Slot, temporary: bool) {
    && t.rec.Some?
    && t.rec.value.state ==
       (if temporary && !(s.rec.Some? && s.rec.value.state == Confirmed) then Temporary else Confirmed)
  }

  ghost predicate Frame(a: Node, b: Node, touched: set<Cid>) {
    && b.owners == a.owners
    && a.nextRevision <= b.nextRevision
    && (forall c :: Stamped(a, b, c))
    && (forall c :: c !in touched ==> Entry(b, c) == Entry(a, c) && (c in b.pins <==> c in a.pins))
  }

  ghost predicate Admitted(a: Node, b: Node, bs: seq<UploadBaseline>, id: AdmissionId, temporary: bool) {
    && Captured(a, bs)
    && Frame(a, b, BaselineCids(bs))
    && (forall i :: 0 <= i < |bs| ==>
          && MayRegister(bs[i].previous, bs[i].cid, id, a.owners)
          && FreshlyOwned(SlotAt(b, bs[i].cid), id)
          && AdmittedAs(SlotAt(a, bs[i].cid), SlotAt(b, bs[i].cid), temporary))
  }

  /** Every touched CID is back at its baseline, nothing else moved. */
  ghost predicate Undone(a: Node, b: Node, touched: set<Cid>) {
    && Frame(a, b, touched)
    && forall c :: c in touched ==> SlotAt(b, c) == Baseline(SlotAt(a, c))
  }

  /**
   * Undo the recorded baselines, newest first. With an id, only CIDs the request still
   * owns are touched.
   */
  method RollbackAll(n: NodeStore, bs: seq<UploadBaseline>, id: Option<AdmissionId>)
    requires n.Valid()
    requires forall i, j :: 0 <= i < j < |bs| ==> bs[i].cid != bs[j].cid
    requires forall i :: 0 <= i < |bs| && bs[i].previous.Some? ==> IsFileRecord(bs[i].previous.value)
    modifies n`store, n`nextRevision, n`pins
    ensures n.Valid()
    ensures Frame(old(n.State()), n.State(), BaselineCids(bs))
    ensures forall i :: 0 <= i < |bs| ==>
      SlotAt(n.State(), bs[i].cid) == RollbackSlot(old(SlotAt(n.State(), bs[i].cid)), bs[i], id)
  {
    ghost var a := n.State();
    var k := |bs|;
    while k > 0
      invariant 0 <= k <= |bs|
      invariant n.Valid() && Frame(a, n.State(), BaselineCids(bs[k..]))
      invariant forall i :: 0 <= i < k ==> SlotAt(n.State(), bs[i].cid) == SlotAt(a, bs[i].cid)
      invariant forall i :: k <= i < |bs| ==>
        SlotAt(n.State(), bs[i].cid) == RollbackSlot(SlotAt(a, bs[i].cid), bs[i], id)
    {
      k := k - 1;
      ghost var b := n.State();
      n.RollbackUpload(bs[k], id);
      FrameStep(a, b, n.State(), BaselineCids(bs[k + 1..]), bs[k].cid, SlotAt(n.State(), bs[k].cid));
      assert bs[k..] == [bs[k]] + bs[k + 1..];
      assert BaselineCids(bs[k..]) == BaselineCids(bs[k + 1..]) + {bs[k].cid};
    }
    assert bs[0..] == bs;
  }

  lemma FrameStep(a: Node, b: Node, d: Node, touched: set<Cid>, c: Cid, s: Slot)
    requires Frame(a, b, touched) && Moves(b, d, c, s)
    ensures Frame(a, d, touched + {c})
  {
    forall e ensures Stamped(a, d, e) {
      assert Stamped(a, b, e);
    }
  }

  /** Pin and register one part; a failure of either puts this CID back before it is reported. */
  method AdmitPart(n: NodeStore, part: Part, opt: RegisterOptions)
    returns (stored: bool, baseline: UploadBaseline)
    requires n.Valid() && opt.admissionId.Some?
    modifies n`store, n`nextRevision, n`pins
    ensures n.Valid()
    ensures baseline == UploadBaseline(part.cid, old(SlotAt(n.State(), part.cid)).rec, part.cid !in old(n.pins))
    ensures stored <==>
      Register(baseline.previous, part.file, opt, part.cid, n.owners).Write? && part.fault == Works
    ensures stored ==>
      SlotAt(n.State(), part.cid)
      == Slot(Some(Register(baseline.previous, part.file, opt, part.cid, n.owners).record), true)
    ensures stored ==> MayRegister(baseline.previous, part.cid, opt.admissionId.value, n.owners)
    ensures stored ==> FreshlyOwned(SlotAt(n.State(), part.cid), opt.admissionId.value)
    ensures stored ==>
      AdmittedAs(old(SlotAt(n.State(), part.cid)), SlotAt(n.State(), part.cid), opt.confirmationRequired)
    ensures !stored ==> SlotAt(n.State(), part.cid) == Baseline(old(SlotAt(n.State(), part.cid)))
    ensures Moves(old(n.State()), n.State(), part.cid, SlotAt(n.State(), part.cid))
  {
    var previous := n.Get(part.cid);
    var createdPin := n.PinFile(part.cid);
    baseline := UploadBaseline(part.cid, previous, createdPin);
    var registration := Register(previous, part.file, opt, part.cid, n.owners);
    stored := false;
    if registration.Write? {
      stored := n.Save(part.cid, registration.record, part.fault);
    }
    if !stored {
      n.RollbackUpload(baseline, None);
    }
  }

  /** The record of `c` once the parts were registered one after the other, starting from `rec`. */
  function Registered(rec: Option<FileRecord>, parts: seq<Part>, opt: RegisterOptions, c: Cid, o: Owners)
    : Option<FileRecord>
  {
    if parts == [] then rec
    else
      var (before, part) := (Registered(rec, parts[..|parts| - 1], opt, c, o), parts[|parts| - 1]);
      if part.cid != c then before
      else
        match Register(before, part.file, opt, c, o)
        case Write(r) => Some(r)
        case _ => before
  }

  ghost predicate RegisteredIn(a: Node, b: Node, parts: seq<Part>, opt: RegisterOptions) {
    forall c :: SlotAt(b, c).rec == Registered(SlotAt(a, c).rec, parts, opt, c, a.owners)
  }

  /** Part `k` is accepted after the ones before it, and its write works. */
  predicate Accepted(a: Node, parts: seq<Part>, k: nat, opt: RegisterOptions)
    requires k < |parts|
  {
    var (c, before) := (parts[k].cid, Registered(SlotAt(a, parts[k].cid).rec, parts[..k], opt, parts[k].cid, a.owners));
    Register(before, parts[k].file, opt, c, a.owners).Write? && parts[k].fault == Works
  }

  lemma RegisteredStep(a: Node, b: Node, d: Node, parts: seq<Part>, k: nat, opt: RegisterOptions)
    requires k < |parts| && RegisteredIn(a, b, parts[..k], opt) && b.owners == a.owners
    requires Accepted(a, parts, k, opt) && Moves(b, d, parts[k].cid, SlotAt(d, parts[k].cid))
    requires SlotAt(d, parts[k].cid).rec
      == Some(Register(SlotAt(b, parts[k].cid).rec, parts[k].file, opt, parts[k].cid, b.owners).record)
    ensures RegisteredIn(a, d, parts[..k + 1], opt)
  {
    assert parts[..k + 1][..k] == parts[..k];
    forall c ensures SlotAt(d, c).rec == Registered(SlotAt(a, c).rec, parts[..k + 1], opt, c, a.owners) {
      assert SlotAt(b, c).rec == Registered(SlotAt(a, c).rec, parts[..k], opt, c, a.owners);
    }
  }

  /** The first `k` parts are admitted, and everything else is as it was. */
  ghost predicate AdmittedSoFar(a: Node, b: Node, bs: seq<UploadBaseline>, parts: seq<Part>, k: nat,
                                opt: RegisterOptions)
    requires k <= |parts| && opt.admissionId.Some?
  {
    && Admitted(a, b, bs, opt.admissionId.value, opt.confirmationRequired)
    && BaselineCids(bs) == PartCids(parts[..k])
    && RegisteredIn(a, b, parts[..k], opt)
    && forall j :: 0 <= j < k ==> Accepted(a, parts, j, opt)
  }

  /** @returns whether every part was stored, how many parts were attempted, and the baselines */
  method AdmitParts(n: NodeStore, parts: seq<Part>, opt: RegisterOptions)
    returns (ok: bool, attempted: nat, bs: seq<UploadBaseline>)
    requires n.Valid() && opt.admissionId.Some?
    modifies n`store, n`nextRevision, n`pins
    ensures n.Valid() && attempted <= |parts|
    ensures ok ==> Admitted(old(n.State()), n.State(), bs, opt.admissionId.value, opt.confirmationRequired)
    ensures ok ==> BaselineCids(bs) == PartCids(parts)
    ensures ok <==> forall k :: 0 <= k < |parts| ==> Accepted(old(n.State()), parts, k, opt)
    ensures ok ==> RegisteredIn(old(n.State()), n.State(), parts, opt)
    ensures !ok ==> Undone(old(n.State()), n.State(), PartCids(parts[..attempted]))
  {
    ghost var a := n.State();
    bs := [];
    attempted := 0;
    while attempted < |parts|
      invariant attempted <= |parts| && n.Valid()
      invariant AdmittedSoFar(a, n.State(), bs, parts, attempted, opt)
    {
      ok, bs := AdmitNext(n, a, bs, parts, attempted, opt);
      attempted := attempted + 1;
      if !ok { return; }
    }
    assert parts[..attempted] == parts;
    ok := true;
  }

  /** One turn of the loop: the next part is admitted, or everything attempted so far is undone. */
  method AdmitNext(n: NodeStore, ghost a: Node, bs: seq<UploadBaseline>, parts: seq<Part>, k: nat, opt: RegisterOptions)
    returns (stored: bool, more: seq<UploadBaseline>)
    requires n.Valid() && WellStored(a) && k < |parts| && opt.admissionId.Some?
    requires AdmittedSoFar(a, n.State(), bs, parts, k, opt)
    modifies n`store, n`nextRevision, n`pins
    ensures n.Valid() && (stored <==> Accepted(a, parts, k, opt))
    ensures stored ==> AdmittedSoFar(a, n.State(), more, parts, k + 1, opt)
    ensures !stored ==> Undone(a, n.State(), PartCids(parts[..k + 1]))
  {
    var part := parts[k];
    ghost var b := n.State();
    var baseline;
    stored, baseline := AdmitPart(n, part, opt);
    more := if part.cid in BaselineCids(bs) then bs else bs + [baseline];
    OnePartMore(parts, k);
    if !stored {
      FrameStep(a, b, n.State(), BaselineCids(bs), part.cid, SlotAt(n.State(), part.cid));
      UndoFailedPart(n, a, bs, part.cid);
    } else {
      RegisteredStep(a, b, n.State(), parts, k, opt);
      AdmittedGrows(a, b, n.State(), bs, baseline, opt.admissionId.value, opt.confirmationRequired);
    }
  }

  lemma OnePartMore(parts: seq<Part>, k: nat)
    requires k < |parts|
    ensures PartCids(parts[..k + 1]) == PartCids(parts[..k]) + {parts[k].cid}
  {
    assert parts[..k + 1] == parts[..k] + [parts[k]];
  }

  /** One more part of a request: a repeated CID keeps the baseline of its first occurrence. */
  lemma AdmittedGrows(a: Node, b: Node, d: Node, bs: seq<UploadBaseline>, next: UploadBaseline, id: AdmissionId,
                      temporary: bool)
    requires Admitted(a, b, bs, id, temporary) && Moves(b, d, next.cid, SlotAt(d, next.cid))
    requires next == UploadBaseline(next.cid, SlotAt(b, next.cid).rec, next.cid !in b.pins)
    requires MayRegister(next.previous, next.cid, id, b.owners) && FreshlyOwned(SlotAt(d, next.cid), id)
    requires AdmittedAs(SlotAt(b, next.cid), SlotAt(d, next.cid), temporary)
    ensures next.cid in BaselineCids(bs) ==>
      Admitted(a, d, bs, id, temporary) && BaselineCids(bs) + {next.cid} == BaselineCids(bs)
    ensures next.cid !in BaselineCids(bs) ==> Admitted(a, d, bs + [next], id, temporary)
    ensures next.cid !in BaselineCids(bs) ==> BaselineCids(bs + [next]) == BaselineCids(bs) + {next.cid}
  {
    FrameStep(a, b, d, BaselineCids(bs), next.cid, SlotAt(d, next.cid));
    if next.cid in BaselineCids(bs) {
      assert BaselineCids(bs) + {next.cid} == BaselineCids(bs);
    } else {
      assert BaselineCids(bs + [next]) == BaselineCids(bs) + {next.cid};
    }
  }

  /** `restoreBaselines` after one part failed and was put back on its own. */
  method UndoFailedPart(n: NodeStore, ghost a: Node, bs: seq<UploadBaseline>, failed: Cid)
    requires n.Valid() && WellStored(a)
    requires Captured(a, bs) && Frame(a, n.State(), BaselineCids(bs) + {failed})
    requires forall i :: 0 <= i < |bs| ==> SlotAt(n.State(), bs[i].cid).pin
    requires failed !in BaselineCids(bs) ==> SlotAt(n.State(), failed) == Baseline(SlotAt(a, failed))
    modifies n`store, n`nextRevision, n`pins
    ensures n.Valid() && Undone(a, n.State(), BaselineCids(bs) + {failed})
  {
    ghost var b := n.State();
    assert forall i :: 0 <= i < |bs| && bs[i].previous.Some? ==> IsFileRecord(bs[i].previous.value) by {
      forall i | 0 <= i < |bs| && bs[i].previous.Some? ensures IsFileRecord(bs[i].previous.value) {
        assert Entry(a, bs[i].cid).Some?;
      }
    }
    RollbackAll(n, bs, None);
    FrameTransitive(a, b, n.State(), BaselineCids(bs) + {failed}, BaselineCids(bs));
    assert BaselineCids(bs) + {failed} + BaselineCids(bs) == BaselineCids(bs) + {failed};
    forall c | c in BaselineCids(bs) + {failed} ensures SlotAt(n.State(), c) == Baseline(SlotAt(a, c)) {
      if c in BaselineCids(bs) {
        var i :| 0 <= i < |bs| && bs[i].cid == c;
      }
    }
  }

  lemma FrameTransitive(a: Node, b: Node, d: Node, t1: set<Cid>, t2: set<Cid>)
    requires Frame(a, b, t1) && Frame(b, d, t2)
    ensures Frame(a, d, t1 + t2)
  {
    forall e ensures Stamped(a, d, e) {
      assert Stamped(a, b, e) && Stamped(b, d, e);
    }
  }

  // ---------------------------------------------------------------- settlement

  datatype Settlement = LifecycleChanged | RolledBack | Settled

  /** The record a request leaves once its local decision is final. */
  function SettledRecord(r: FileRecord, replicas: Option<seq<PeerId>>, settledAt: Time, fault: Fault): FileRecord {
    r.(replicas := if replicas.Some? then replicas.value else r.replicas,
       admissionSettledAt := if fault == FailsBeforeWrite then r.admissionSettledAt else Some(settledAt))
  }

  function ReportOf(reports: map<Cid, seq<PeerId>>, c: Cid): Option<seq<PeerId>> {
    if c in reports then Some(reports[c]) else None
  }

  ghost predicate Owned(b: Node, bs: seq<UploadBaseline>, id: AdmissionId) {
    forall i :: 0 <= i < |bs| ==> OwnedBy(SlotAt(b, bs[i].cid), id)
  }

  ghost predicate RolledBackFrom(a: Node, b: Node, bs: seq<UploadBaseline>) {
    && Frame(a, b, BaselineCids(bs))
    && forall i :: 0 <= i < |bs| ==> SlotAt(b, bs[i].cid) == RollbackSlot(SlotAt(a, bs[i].cid), bs[i], None)
  }

  ghost predicate SettledFrom(a: Node, b: Node, bs: seq<UploadBaseline>, reports: map<Cid, seq<PeerId>>,
                              settledAt: Time, settle: Cid -> Fault) {
    && Frame(a, b, BaselineCids(bs))
    && forall i :: 0 <= i < |bs| ==>
         SettledAt(a, b, bs[i].cid, ReportOf(reports, bs[i].cid), settledAt, settle(bs[i].cid))
  }

  ghost predicate SettledAt(a: Node, b: Node, c: Cid, replicas: Option<seq<PeerId>>, settledAt: Time, fault: Fault) {
    && SlotAt(a, c).rec.Some?
    && SlotAt(b, c) == Slot(Some(SettledRecord(SlotAt(a, c).rec.value, replicas, settledAt, fault)), SlotAt(a, c).pin)
  }

  ghost predicate ReportedAt(a: Node, b: Node, c: Cid, replicas: Option<seq<PeerId>>) {
    && SlotAt(a, c).rec.Some?
    && SlotAt(b, c) == Slot(Some(WithReport(SlotAt(a, c).rec.value, replicas)), SlotAt(a, c).pin)
  }

  ghost predicate ClearedAt(a: Node, b: Node, c: Cid, replicas: Option<seq<PeerId>>, fault: Fault) {
    && SlotAt(a, c).rec.Some?
    && SlotAt(b, c).rec ==
       (if fault == FailsBeforeWrite then SlotAt(a, c).rec
        else Some(TokenCleared(WithReport(SlotAt(a, c).rec.value, replicas))))
  }

  /**
   * Commit every local record as one decision. A failed replica write undoes the whole
   * request under the same locks; a failed settlement mark is only logged.
   */
  method FinalizeAdmitted(n: NodeStore, bs: seq<UploadBaseline>, reports: map<Cid, seq<PeerId>>, id: AdmissionId,
                          settledAt: Time, write: Cid -> Fault, settle: Cid -> Fault) returns (result: Settlement)
    requires n.Valid()
    requires forall i, j :: 0 <= i < j < |bs| ==> bs[i].cid != bs[j].cid
    requires forall i :: 0 <= i < |bs| && bs[i].previous.Some? ==> IsFileRecord(bs[i].previous.value)
    modifies n`store, n`nextRevision, n`pins
    ensures n.Valid()
    ensures result.LifecycleChanged? <==> !old(Owned(n.State(), bs, id))
    ensures result.RolledBack?
      <==> old(Owned(n.State(), bs, id)) && exists i :: 0 <= i < |bs| && write(bs[i].cid) != Works
    ensures result.LifecycleChanged? ==> n.State() == old(n.State())
    ensures result.RolledBack? ==> RolledBackFrom(old(n.State()), n.State(), bs)
    ensures result.Settled? ==> SettledFrom(old(n.State()), n.State(), bs, reports, settledAt, settle)
  {
    ghost var a := n.State();
    var k := 0;
    while k < |bs|
      invariant 0 <= k <= |bs|
      invariant forall i :: 0 <= i < k ==> OwnedBy(SlotAt(a, bs[i].cid), id)
    {
      var current := n.Get(bs[k].cid);
      if current.None? || current.value.admissionId != Some(id) { return LifecycleChanged; }
      k := k + 1;
    }
    var ok := WriteReplicas(n, bs, reports, id, write);
    if !ok {
      ghost var b := n.State();
      RollbackAll(n, bs, Some(id));
      FrameTransitive(a, b, n.State(), BaselineCids(bs), BaselineCids(bs));
      assert BaselineCids(bs) + BaselineCids(bs) == BaselineCids(bs);
      return RolledBack;
    }
    ghost var b := n.State();
    MarkSettled(n, bs, id, settledAt, settle);
    FrameTransitive(a, b, n.State(), BaselineCids(bs), BaselineCids(bs));
    assert BaselineCids(bs) + BaselineCids(bs) == BaselineCids(bs);
    return Settled;
  }

  /** First loop of `finalizeAdmitted`: every record keeps the token while replicas are written. */
  method WriteReplicas(n: NodeStore, bs: seq<UploadBaseline>, reports: map<Cid, seq<PeerId>>, id: AdmissionId,
                       write: Cid -> Fault) returns (ok: bool)
    requires n.Valid() && Owned(n.State(), bs, id)
    requires forall i, j :: 0 <= i < j < |bs| ==> bs[i].cid != bs[j].cid
    modifies n`store, n`nextRevision
    ensures n.Valid() && Frame(old(n.State()), n.State(), BaselineCids(bs))
    ensures ok <==> forall i :: 0 <= i < |bs| ==> write(bs[i].cid) == Works
    ensures Owned(n.State(), bs, id)
    ensures n.pins == old(n.pins)
    ensures ok ==> forall i :: 0 <= i < |bs| ==>
      ReportedAt(old(n.State()), n.State(), bs[i].cid, ReportOf(reports, bs[i].cid))
  {
    ghost var a := n.State();
    var k := 0;
    while k < |bs|
      invariant 0 <= k <= |bs|
      invariant n.Valid() && Frame(a, n.State(), BaselineCids(bs[..k])) && n.pins == old(n.pins)
      invariant Owned(n.State(), bs, id)
      invariant forall i :: 0 <= i < k ==> write(bs[i].cid) == Works
      invariant ReportedUpTo(a, n.State(), bs, k, reports)
    {
      ghost var b := n.State();
      ok := WriteReport(n, bs[k].cid, ReportOf(reports, bs[k].cid), id, write(bs[k].cid));
      SaveFrame(a, b, n.State(), bs, k);
      OwnedStep(b, n.State(), bs, k, id);
      if ok { ReportStep(a, b, n.State(), bs, k, reports); }
      if !ok { return; }
      k := k + 1;
    }
    assert bs[..k] == bs;
    ok := true;
  }

  /** The first `k` reports are written, the slots of the rest are as they were. */
  ghost predicate ReportedUpTo(a: Node, b: Node, bs: seq<UploadBaseline>, k: nat, reports: map<Cid, seq<PeerId>>) {
    && (forall i :: 0 <= i < k && i < |bs| ==> ReportedAt(a, b, bs[i].cid, ReportOf(reports, bs[i].cid)))
    && (forall i :: k <= i < |bs| ==> SlotAt(b, bs[i].cid) == SlotAt(a, bs[i].cid))
  }

  lemma ReportStep(a: Node, b: Node, d: Node, bs: seq<UploadBaseline>, k: nat, reports: map<Cid, seq<PeerId>>)
    requires k < |bs| && (forall i, j :: 0 <= i < j < |bs| ==> bs[i].cid != bs[j].cid)
    requires ReportedUpTo(a, b, bs, k, reports) && Moves(b, d, bs[k].cid, SlotAt(d, bs[k].cid))
    requires ReportedAt(b, d, bs[k].cid, ReportOf(reports, bs[k].cid))
    ensures ReportedUpTo(a, d, bs, k + 1, reports)
  {
  }

  lemma OwnedStep(b: Node, d: Node, bs: seq<UploadBaseline>, k: nat, id: AdmissionId)
    requires k < |bs| && Owned(b, bs, id) && OwnedBy(SlotAt(d, bs[k].cid), id)
    requires Moves(b, d, bs[k].cid, SlotAt(d, bs[k].cid))
    ensures Owned(d, bs, id)
  {
    forall i | 0 <= i < |bs| ensures OwnedBy(SlotAt(d, bs[i].cid), id) {
      assert OwnedBy(SlotAt(b, bs[i].cid), id);
    }
  }

  method WriteReport(n: NodeStore, c: Cid, replicas: Option<seq<PeerId>>, id: AdmissionId, fault: Fault)
    returns (ok: bool)
    requires n.Valid() && OwnedBy(SlotAt(n.State(), c), id)
    modifies n`store, n`nextRevision
    ensures n.Valid() && ok == (fault == Works)
    ensures Moves(old(n.State()), n.State(), c, SlotAt(n.State(), c)) && OwnedBy(SlotAt(n.State(), c), id)
    ensures ok ==> ReportedAt(old(n.State()), n.State(), c, replicas)
  {
    var current := n.Get(c).value;
    assert IsFileRecord(current) by { assert Entry(n.State(), c).Some?; }
    ok := n.Save(c, WithReport(current, replicas), fault);
  }

  function WithReport(r: FileRecord, replicas: Option<seq<PeerId>>): FileRecord {
    r.(replicas := if replicas.Some? then replicas.value else r.replicas)
  }

  /** Second loop: publish the decision; a write that fails is only logged. */
  method MarkSettled(n: NodeStore, bs: seq<UploadBaseline>, id: AdmissionId, settledAt: Time, settle: Cid -> Fault)
    requires n.Valid() && Owned(n.State(), bs, id)
    requires forall i, j :: 0 <= i < j < |bs| ==> bs[i].cid != bs[j].cid
    modifies n`store, n`nextRevision
    ensures n.Valid()
    ensures SettledFrom(old(n.State()), n.State(), bs, map[], settledAt, settle)
  {
    ghost var a := n.State();
    var k := 0;
    while k < |bs|
      invariant 0 <= k <= |bs|
      invariant n.Valid() && Frame(a, n.State(), BaselineCids(bs[..k])) && n.pins == old(n.pins)
      invariant Owned(a, bs, id)
      invariant forall i :: 0 <= i < k ==> SettledAt(a, n.State(), bs[i].cid, None, settledAt, settle(bs[i].cid))
      invariant forall i :: k <= i < |bs| ==> SlotAt(n.State(), bs[i].cid) == SlotAt(a, bs[i].cid)
    {
      ghost var b := n.State();
      assert OwnedBy(SlotAt(a, bs[k].cid), id);
      MarkOne(n, bs[k].cid, id, settledAt, settle(bs[k].cid));
      SaveFrame(a, b, n.State(), bs, k);
      k := k + 1;
    }
    assert bs[..k] == bs;
  }

  method MarkOne(n: NodeStore, c: Cid, id: AdmissionId, settledAt: Time, fault: Fault)
    requires n.Valid() && OwnedBy(SlotAt(n.State(), c), id)
    modifies n`store, n`nextRevision
    ensures n.Valid() && Moves(old(n.State()), n.State(), c, SlotAt(n.State(), c))
    ensures SettledAt(old(n.State()), n.State(), c, None, settledAt, fault)
  {
    var current := n.Get(c).value;
    assert IsFileRecord(current) by { assert Entry(n.State(), c).Some?; }
    var _ := n.Save(c, current.(admissionSettledAt := Some(settledAt)), fault);
  }

  lemma SaveFrame(a: Node, b: Node, d: Node, bs: seq<UploadBaseline>, k: nat)
    requires k < |bs| && Frame(a, b, BaselineCids(bs[..k]))
    requires d == b || Moves(b, d, bs[k].cid, SlotAt(d, bs[k].cid))
    ensures Frame(a, d, BaselineCids(bs[..k + 1])) && Frame(a, d, BaselineCids(bs))
  {
    assert bs[..k + 1] == bs[..k] + [bs[k]];
    assert BaselineCids(bs[..k + 1]) == BaselineCids(bs[..k]) + {bs[k].cid};
    assert BaselineCids(bs[..k + 1]) <= BaselineCids(bs);
    if d != b {
      FrameStep(a, b, d, BaselineCids(bs[..k]), bs[k].cid, SlotAt(d, bs[k].cid));
    }
  }

  /**
   * Drop the token of every committed CID and store its verified replicas. A CID whose
   * token changed stops the loop; a failing write is logged and the settled token stays.
   */
  method ClearSettledAdmissions(n: NodeStore, cids: seq<Cid>, reports: map<Cid, seq<PeerId>>, id: AdmissionId,
                                write: Cid -> Fault)
    returns (ok: bool)
    requires n.Valid() && NoDuplicates(cids)
    modifies n`store, n`nextRevision
    ensures n.Valid() && Frame(old(n.State()), n.State(), Elements(cids)) && n.pins == old(n.pins)
    ensures ok <==> forall i :: 0 <= i < |cids| ==> OwnedBy(old(SlotAt(n.State(), cids[i])), id)
    ensures ok ==> forall i :: 0 <= i < |cids| ==>
      ClearedAt(old(n.State()), n.State(), cids[i], ReportOf(reports, cids[i]), write(cids[i]))
  {
    ghost var a := n.State();
    var k := 0;
    while k < |cids|
      invariant 0 <= k <= |cids|
      invariant n.Valid() && Frame(a, n.State(), Elements(cids[..k])) && n.pins == old(n.pins)
      invariant forall i :: 0 <= i < k ==> OwnedBy(SlotAt(a, cids[i]), id)
      invariant forall i :: 0 <= i < k ==> ClearedAt(a, n.State(), cids[i], ReportOf(reports, cids[i]), write(cids[i]))
      invariant forall i :: k <= i < |cids| ==> SlotAt(n.State(), cids[i]) == SlotAt(a, cids[i])
    {
      var c := cids[k];
      var current := n.Get(c);
      assert Elements(cids[..k]) <= Elements(cids);
      if current.None? || current.value.admissionId != Some(id) { return false; }
      ghost var b := n.State();
      ClearOne(n, c, ReportOf(reports, c), write(c));
      assert Elements(cids[..k + 1]) == Elements(cids[..k]) + {c} by { assert cids[..k + 1] == cids[..k] + [c]; }
      FrameStep(a, b, n.State(), Elements(cids[..k]), c, SlotAt(n.State(), c));
      k := k + 1;
    }
    assert cids[..k] == cids;
    return true;
  }

  method ClearOne(n: NodeStore, c: Cid, replicas: Option<seq<PeerId>>, fault: Fault)
    requires n.Valid() && SlotAt(n.State(), c).rec.Some?
    modifies n`store, n`nextRevision
    ensures n.Valid() && Moves(old(n.State()), n.State(), c, SlotAt(n.State(), c))
    ensures ClearedAt(old(n.State()), n.State(), c, replicas, fault)
  {
    var current := n.Get(c).value;
    assert IsFileRecord(current) by { assert Entry(n.State(), c).Some?; }
    var _ := n.Save(c, TokenCleared(WithReport(current, replicas)), fault);
  }
}
