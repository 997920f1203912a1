/**
 * A collection run under interference (src/storage/gc.ts:239-497): arbitrary uploads,
 * confirmations, stages and repairs run between its plan, its pin checks, each release,
 * the deletion of blocks and the cleanup of records.
 */
module GcRun {
  import opened Common
  import opened Records
  import opened Lifecycle
  import opened NodeState
  import opened UploadRoute
  import opened NodeMachine
  import P = GcPlan

  datatype Phase = Guarding | Releasing | Deleting | Forgetting | Over

  /** `snap` is the node the plan was made from; `released` the records this run wrote. */
  datatype Gc = Gc(
    phase: Phase, snap: Node, now: Time, toGuard: seq<P.Item>, toRelease: seq<P.Item>,
    released: seq<(Cid, nat)>, unprotected: bool, collect: bool, dryRun: bool)

  datatype World = World(m: Machine, gc: Gc)

  datatype Step =
    | Env(op: Op)
    | Guard(indirect: bool, localDag: bool, fault: Fault)
    | GuardDone
    | ReleaseNext(fault: Fault)
    | ReleaseDone
    | DeleteBlocks(complete: bool)
    | ForgetNext
    | ForgetDone

  predicate ByGc(op: Op) { op.GcRepairPin? || op.GcRelease? || op.GcForget? }

  function GuardOp(w: World, t: Step): Op
    requires t.Guard? && w.gc.toGuard != []
  {
    GcRepairPin(w.gc.toGuard[0].cid, t.indirect, t.localDag, t.fault)
  }

  function ReleaseOp(w: World, t: Step): Op
    requires t.ReleaseNext? && w.gc.toRelease != []
  {
    GcRelease(w.gc.toRelease[0].cid, w.gc.toRelease[0].revision, t.fault)
  }

  function ForgetOp(w: World): Op
    requires w.gc.released != []
  {
    GcForget(w.gc.released[0].0, w.gc.released[0].1)
  }

  /** A check that could neither find nor restore protection for its file. */
  predicate CheckFails(w: World, t: Step) {
    && t.Guard? && w.gc.toGuard != [] && !w.gc.dryRun
    && GcRepairPinSlot(SlotAt(w.m.node, w.gc.toGuard[0].cid), t.indirect, t.localDag, t.fault).reply.Error?
  }

  ghost predicate WorldNext(w: World, t: Step, w': World) {
    match t
    case Env(op) => !ByGc(op) && w'.gc == w.gc && Next(w.m, op, w'.m)
    case Guard(indirect, dag, fault) =>
      && w.gc.phase == Guarding && w.gc.toGuard != []
      && (if w.gc.dryRun then w'.m == w.m else Next(w.m, GuardOp(w, t), w'.m))
      && w'.gc == w.gc.(
           toGuard := w.gc.toGuard[1..],
           unprotected := w.gc.unprotected || CheckFails(w, t))
    case GuardDone =>
      && w.gc.phase == Guarding && w.gc.toGuard == [] && w'.m == w.m
      && w'.gc == w.gc.(phase := if w.gc.dryRun || w.gc.unprotected then Over else Releasing)
    case ReleaseNext(fault) =>
      && w.gc.phase == Releasing && w.gc.toRelease != []
      && Next(w.m, ReleaseOp(w, t), w'.m)
      && w'.gc == w.gc.(
           toRelease := w.gc.toRelease[1..],
           released := if GcReleased(w.m.node, ReleaseOp(w, t)) && Entry(w'.m.node, ReleaseOp(w, t).cid).Some?
                       then w.gc.released +
                            [(ReleaseOp(w, t).cid, Entry(w'.m.node, ReleaseOp(w, t).cid).value.revision)]
                       else w.gc.released)
    case ReleaseDone =>
      && w.gc.phase == Releasing && w.gc.toRelease == [] && w'.m == w.m
      && w'.gc == w.gc.(phase := if w.gc.collect then Deleting else Over)
    case DeleteBlocks(complete) =>
      w.gc.phase == Deleting && w'.m == w.m && w'.gc == w.gc.(phase := if complete then Forgetting else Over)
    case ForgetNext =>
      && w.gc.phase == Forgetting && w.gc.released != [] && Next(w.m, ForgetOp(w), w'.m)
      && w'.gc == w.gc.(released := w.gc.released[1..])
    case ForgetDone => w.gc.phase == Forgetting && w.gc.released == [] && w'.m == w.m && w'.gc == w.gc.(phase := Over)
  }

  /** The files a run has to know protected before it takes anything away. */
  function HeldConfirmed(retained: seq<P.Item>): seq<P.Item> {
    P.Filter(retained, (i: P.Item) => i.file.state == Confirmed && i.file.heldLocally)
  }

  /** A run begins with a plan made from the records as they are. */
  ghost predicate Begins(w: World, p: P.Input, plan: P.Plan, force: bool) {
    && P.IsPlan(p, plan) && p.owners == w.m.node.owners
    && (forall i :: i in p.records ==> Entry(w.m.node, i.cid) == Some(Stored(i.file, i.revision)))
    && w.gc.phase == Guarding && w.gc.snap == w.m.node && w.gc.now == p.now
    && w.gc.toGuard == HeldConfirmed(plan.retained) && w.gc.toRelease == plan.expired + plan.evicted
    && w.gc.released == [] && !w.gc.unprotected && w.gc.collect == (force || plan.shouldCollect)
  }

  // ---------------------------------------------------------------- invariant

  /** A planned record as it was selected: unconfirmed, in nobody's hands, expired if staged. */
  ghost predicate Selected(snap: Node, now: Time, i: P.Item) {
    && Entry(snap, i.cid) == Some(Stored(i.file, i.revision))
    && i.file.state != Confirmed && !IsAdmissionInFlight(i.file, snap.owners)
    && (i.file.stage.Some? ==> IsExpired(i.file, now))
  }

  ghost predicate GcInv(w: World) {
    && Inv(w.m) && WellStored(w.gc.snap)
    && w.gc.snap.nextRevision <= w.m.node.nextRevision
    // an entry with an old stamp is the entry of the snapshot
    && (forall c :: Entry(w.m.node, c).Some? && Entry(w.m.node, c).value.revision < w.gc.snap.nextRevision ==>
          Entry(w.m.node, c) == Entry(w.gc.snap, c))
    && (forall i :: i in w.gc.toRelease ==> Selected(w.gc.snap, w.gc.now, i))
    && (forall p :: p in w.gc.released ==>
          p in w.m.released && w.gc.snap.nextRevision <= p.1 < w.m.node.nextRevision)
    && (w.gc.unprotected || w.gc.dryRun ==> w.gc.phase == Guarding || w.gc.phase == Over)
  }

  lemma BeginsWithInv(w: World, p: P.Input, plan: P.Plan, force: bool)
    requires Begins(w, p, plan, force) && Inv(w.m)
    ensures GcInv(w)
  {
    forall i | i in w.gc.toRelease ensures Selected(w.gc.snap, w.gc.now, i) {
      P.SelectionIsSafe(p, plan, i);
    }
  }

  /** Any step of the node only issues stamps that are new. */
  lemma StepsStamp(m: Machine, op: Op, m': Machine, c: Cid)
    requires Inv(m) && NodeMachine.Next(m, op, m')
    ensures Stamped(m.node, m'.node, c) && m.node.nextRevision <= m'.node.nextRevision && m.released <= m'.released
  {
  }

  lemma NodeStepKeepsGcInv(w: World, op: Op, w': World)
    requires GcInv(w) && Next(w.m, op, w'.m) && w'.gc == w.gc
    ensures GcInv(w')
  {
    StepKeepsInv(w.m, op, w'.m);
    forall c | Entry(w'.m.node, c).Some? && Entry(w'.m.node, c).value.revision < w.gc.snap.nextRevision
      ensures Entry(w'.m.node, c) == Entry(w.gc.snap, c)
    {
      StepsStamp(w.m, op, w'.m, c);
    }
    StepsStamp(w.m, op, w'.m, 0);
  }

  lemma GcStepKeepsInv(w: World, t: Step, w': World)
    requires GcInv(w) && WorldNext(w, t, w')
    ensures GcInv(w')
  {
    match t
    case Env(op) => NodeStepKeepsGcInv(w, op, w');
    case Guard(indirect, dag, fault) =>
      if !w.gc.dryRun { NodeStepKeepsGcInv(w, GuardOp(w, t), World(w'.m, w.gc)); }
    case ReleaseNext(fault) => NodeStepKeepsGcInv(w, ReleaseOp(w, t), World(w'.m, w.gc));
    case ForgetNext => NodeStepKeepsGcInv(w, ForgetOp(w), World(w'.m, w.gc));
    case _ =>
  }

  // ---------------------------------------------------------------- what each step of a run may do

  /**
   * A release changes a slot only if the record is, to the field, the one the plan selected:
   * nobody wrote it since. So it is unconfirmed and unowned, and no upload can lose a pin.
   */
  lemma ReleaseOnlyPlanned(w: World, t: Step, w': World, c: Cid)
    requires GcInv(w) && WorldNext(w, t, w') && t.ReleaseNext?
    requires SlotAt(w'.m.node, c) != SlotAt(w.m.node, c)
    ensures c == w.gc.toRelease[0].cid
    ensures Entry(w.m.node, c) == Some(Stored(w.gc.toRelease[0].file, w.gc.toRelease[0].revision))
    ensures Selected(w.gc.snap, w.gc.now, w.gc.toRelease[0])
  {
    var i := w.gc.toRelease[0];
    assert Selected(w.gc.snap, w.gc.now, i);
    assert i.revision < w.gc.snap.nextRevision by { assert Entry(w.gc.snap, i.cid).Some?; }
  }

  /** Cleanup removes only a record still at the stamp this run wrote: expired and unpinned. */
  lemma ForgetOnlyOwnWrites(w: World, w': World, c: Cid)
    requires GcInv(w) && WorldNext(w, ForgetNext, w')
    requires SlotAt(w'.m.node, c) != SlotAt(w.m.node, c)
    ensures (c, Entry(w.m.node, c).value.revision) == w.gc.released[0] && Entry(w.m.node, c).Some?
    ensures Entry(w.m.node, c).value.file.state == Expired && !Entry(w.m.node, c).value.file.pinned
    ensures SlotAt(w'.m.node, c) == Slot(None, c in w.m.node.pins)
  {
    assert w.gc.released[0] in w.m.released;
    assert SoundRecord(SlotAt(w.m.node, c));
  }

  /** Nothing a collection would delete: not a held durable file, or one a pin protects, its own or another DAG's. */
  predicate Protected(s: Slot, indirect: bool) {
    s.rec.Some? && s.rec.value.state == Confirmed && s.rec.value.heldLocally ==> s.pin || indirect
  }

  /** A check never takes a pin or a record's protection away, and touches only its own file. */
  lemma GuardOnlyProtects(w: World, t: Step, w': World, c: Cid)
    requires GcInv(w) && WorldNext(w, t, w') && t.Guard?
    ensures c in w.m.node.pins ==> c in w'.m.node.pins
    ensures PinReal(SlotAt(w.m.node, c)) ==> SlotAt(w'.m.node, c) == SlotAt(w.m.node, c)
    ensures c != w.gc.toGuard[0].cid ==> SlotAt(w'.m.node, c) == SlotAt(w.m.node, c)
  {
    assert SoundRecord(SlotAt(w.m.node, c));
  }

  /**
   * What one check achieves. It fails exactly when the file is a held durable one without any
   * pin and its blocks are missing or the repair could not be written. When it succeeds, the
   * file is protected, and a lost pin is back under a record that claims it.
   */
  lemma GuardDecides(w: World, t: Step, w': World)
    requires GcInv(w) && WorldNext(w, t, w') && t.Guard? && !w.gc.dryRun
    ensures var s, s' := SlotAt(w.m.node, w.gc.toGuard[0].cid), SlotAt(w'.m.node, w.gc.toGuard[0].cid);
      && (CheckFails(w, t) <==> !Protected(s, t.indirect) && (!t.localDag || t.fault != Works))
      && (!CheckFails(w, t) ==> Protected(s', t.indirect))
      && (!CheckFails(w, t) && !Protected(s, t.indirect) ==> SlotInv(s') && s'.pin)
      && (w'.gc.unprotected <==> w.gc.unprotected || CheckFails(w, t))
  {
    assert SoundRecord(SlotAt(w.m.node, w.gc.toGuard[0].cid));
  }

  // ---------------------------------------------------------------- whole runs

  ghost predicate Run(ws: seq<World>, ts: seq<Step>) {
    |ws| == |ts| + 1 && forall i :: 0 <= i < |ts| ==> WorldNext(ws[i], ts[i], ws[i + 1])
  }

  lemma {:induction false} RunsKeepInv(ws: seq<World>, ts: seq<Step>, k: nat)
    requires Run(ws, ts) && GcInv(ws[0]) && k <= |ts|
    ensures GcInv(ws[k])
  {
    if k > 0 {
      RunsKeepInv(ws, ts, k - 1);
      GcStepKeepsInv(ws[k - 1], ts[k - 1], ws[k]);
    }
  }

  lemma CollectStep(w: World, t: Step, w': World)
    requires WorldNext(w, t, w')
    ensures w'.gc.collect == w.gc.collect
    ensures w'.gc.phase == Deleting ==> w.gc.phase == Deleting || w.gc.collect
  {
  }

  lemma {:induction false} CollectIsFixed(ws: seq<World>, ts: seq<Step>, k: nat)
    requires Run(ws, ts) && ws[0].gc.phase == Guarding && k <= |ts|
    ensures ws[k].gc.collect == ws[0].gc.collect
    ensures ws[k].gc.phase == Deleting ==> ws[0].gc.collect
  {
    if k > 0 {
      CollectIsFixed(ws, ts, k - 1);
      CollectStep(ws[k - 1], ts[k - 1], ws[k]);
    }
  }

  /** Blocks are deleted only on demand, above the high mark, or below the disk reserve. */
  lemma DeletesOnlyWhenShort(ws: seq<World>, ts: seq<Step>, k: nat, p: P.Input, plan: P.Plan, force: bool)
    requires Run(ws, ts) && Begins(ws[0], p, plan, force) && k < |ts| && ts[k].DeleteBlocks?
    ensures force || p.high < p.blockstoreBytes
      || (p.available.Some? && p.reserve.Some? && p.available.value < p.reserve.value)
  {
    CollectIsFixed(ws, ts, k);
    assert WorldNext(ws[k], ts[k], ws[k + 1]);
    P.CollectsExactly(p, plan);
  }

  lemma {:induction false} UnprotectedIsFinal(ws: seq<World>, ts: seq<Step>, k: nat, l: nat)
    requires Run(ws, ts) && k <= l <= |ts| && (ws[k].gc.unprotected || ws[k].gc.dryRun)
    ensures ws[l].gc.unprotected || ws[l].gc.dryRun
  {
    if k < l {
      UnprotectedIsFinal(ws, ts, k, l - 1);
      assert WorldNext(ws[l - 1], ts[l - 1], ws[l]);
    }
  }

  /** After one failed check, or in a dry run, the collection releases, deletes and forgets nothing. */
  lemma UnprotectedReleasesNothing(ws: seq<World>, ts: seq<Step>, k: nat, l: nat)
    requires Run(ws, ts) && GcInv(ws[0]) && k <= l < |ts|
    requires ws[k].gc.dryRun || CheckFails(ws[k], ts[k])
    ensures !ts[l].ReleaseNext? && !ts[l].DeleteBlocks? && !ts[l].ForgetNext?
  {
    assert WorldNext(ws[k], ts[k], ws[k + 1]);
    if k < l || ws[k].gc.dryRun {
      UnprotectedIsFinal(ws, ts, if ws[k].gc.dryRun then k else k + 1, l);
      RunsKeepInv(ws, ts, l);
      assert WorldNext(ws[l], ts[l], ws[l + 1]);
    }
  }

  /** At step `j` the file `i` was checked and found, or made, protected. */
  ghost predicate CheckedAt(ws: seq<World>, ts: seq<Step>, j: nat, i: P.Item)
    requires |ws| == |ts| + 1
  {
    && j < |ts| && ts[j].Guard? && ws[j].gc.toGuard != [] && ws[j].gc.toGuard[0] == i && !CheckFails(ws[j], ts[j])
    && Protected(SlotAt(ws[j + 1].m.node, i.cid), ts[j].indirect)
  }

  /** The files still to be checked are a suffix, and every other one was checked with success unless a check failed. */
  lemma {:induction false} ChecksFollowTheList(ws: seq<World>, ts: seq<Step>, k: nat, i: P.Item)
    requires Run(ws, ts) && GcInv(ws[0]) && k <= |ts| && i in ws[0].gc.toGuard
    requires !ws[k].gc.unprotected && !ws[k].gc.dryRun
    ensures i in ws[k].gc.toGuard || exists j :: 0 <= j < k && CheckedAt(ws, ts, j, i)
  {
    if k > 0 {
      assert WorldNext(ws[k - 1], ts[k - 1], ws[k]);
      ChecksFollowTheList(ws, ts, k - 1, i);
      if i in ws[k - 1].gc.toGuard && i !in ws[k].gc.toGuard {
        assert ts[k - 1].Guard? && ws[k - 1].gc.toGuard == [ws[k - 1].gc.toGuard[0]] + ws[k].gc.toGuard;
        RunsKeepInv(ws, ts, k - 1);
        GuardDecides(ws[k - 1], ts[k - 1], ws[k]);
        assert CheckedAt(ws, ts, k - 1, i);
      }
    }
  }

  lemma {:induction false} ChecksComeFirst(ws: seq<World>, ts: seq<Step>, k: nat)
    requires Run(ws, ts) && ws[0].gc.phase == Guarding && k <= |ts|
    requires TakesAway(ws[k].gc.phase)
    ensures ws[k].gc.toGuard == [] && !ws[k].gc.unprotected && !ws[k].gc.dryRun
  {
    assert WorldNext(ws[k - 1], ts[k - 1], ws[k]);
    if TakesAway(ws[k - 1].gc.phase) { ChecksComeFirst(ws, ts, k - 1); }
  }

  predicate TakesAway(phase: Phase) { phase == Releasing || phase == Deleting || phase == Forgetting }

  /**
   * Nothing is released, deleted or forgotten before every durable file this node held when
   * the plan was made was checked, and at its check found or made protected, or no longer
   * a held durable file.
   */
  lemma CheckedBeforeTaking(ws: seq<World>, ts: seq<Step>, k: nat, p: P.Input, plan: P.Plan, force: bool, i: P.Item)
    requires Run(ws, ts) && Begins(ws[0], p, plan, force) && Inv(ws[0].m) && k <= |ts| && TakesAway(ws[k].gc.phase)
    requires i in p.records && i.file.state == Confirmed && i.file.heldLocally && P.DistinctCids(p.records)
    ensures exists j :: 0 <= j < k && CheckedAt(ws, ts, j, i)
  {
    BeginsWithInv(ws[0], p, plan, force);
    P.PlanIsAPartition(p, plan, i);
    if i in plan.expired || i in plan.evicted { P.SelectionIsSafe(p, plan, i); }
    ChecksComeFirst(ws, ts, k);
    ChecksFollowTheList(ws, ts, k, i);
  }

  // A check that fails is reached: a failed rescue left a held durable file without its pin.

  function LostPin(unprotected: bool, toGuard: seq<P.Item>): World {
    World(RescuedWithoutPin(),
      Gc(Guarding, RescuedWithoutPin().node, 0, toGuard, [], [], unprotected, false, false))
  }

  function LostPinItem(): P.Item { P.Item(0, 1, HandedOver().(pinned := true, heldLocally := true)) }

  function LostPinInput(): P.Input { P.Input(0, 0, 0, 0, None, None, [LostPinItem()], 0, Owners({}, {})) }

  function LostPinPlan(): P.Plan { P.Plan(false, P.NoTrigger, [], [], [LostPinItem()], 0) }

  lemma LostPinIsPlanned()
    ensures P.IsPlan(LostPinInput(), LostPinPlan())
  {
    P.DurableAreRetained(LostPinInput());
  }

  lemma LostPinBegins()
    ensures Begins(LostPin(false, [LostPinItem()]), LostPinInput(), LostPinPlan(), false)
  {
    LostPinIsPlanned();
    assert Entry(RescuedWithoutPin().node, 0) == Some(Stored(LostPinItem().file, 1));
  }

  lemma LostPinInv()
    ensures Inv(RescuedWithoutPin())
  {
    assert Entry(RescuedWithoutPin().node, 0) == Some(Stored(LostPinItem().file, 1));
  }

  lemma ChecksCanFail()
    ensures Begins(LostPin(false, [LostPinItem()]), LostPinInput(), LostPinPlan(), false)
    ensures Inv(RescuedWithoutPin())
    ensures CheckFails(LostPin(false, [LostPinItem()]), Guard(false, false, Works))
    ensures WorldNext(LostPin(false, [LostPinItem()]), Guard(false, false, Works), LostPin(true, []))
  {
    LostPinBegins();
    LostPinInv();
    LostPinCheck();
  }

  lemma LostPinCheck()
    ensures CheckFails(LostPin(false, [LostPinItem()]), Guard(false, false, Works))
    ensures WorldNext(LostPin(false, [LostPinItem()]), Guard(false, false, Works), LostPin(true, []))
  {
    assert Entry(RescuedWithoutPin().node, 0) == Some(Stored(LostPinItem().file, 1));
  }

  // ---------------------------------------------------------------- interference

  /** A record written by somebody else after the plan, with its pin. */
  ghost predicate Foreign(w: World, c: Cid, e: Stored) {
    && Entry(w.m.node, c) == Some(e) && PinReal(SlotAt(w.m.node, c))
    && w.gc.snap.nextRevision <= e.revision < w.m.node.nextRevision
    && (c, e.revision) !in w.gc.released
  }

  lemma GcLeavesForeignAlone(w: World, t: Step, w': World, c: Cid, e: Stored)
    requires GcInv(w) && WorldNext(w, t, w') && !t.Env? && Foreign(w, c, e)
    ensures Foreign(w', c, e) && (c in w'.m.node.pins <==> c in w.m.node.pins)
  {
    assert SoundRecord(SlotAt(w.m.node, c));
    match t
    case ReleaseNext(fault) =>
      assert Selected(w.gc.snap, w.gc.now, w.gc.toRelease[0]);
      assert Entry(w.gc.snap, w.gc.toRelease[0].cid).Some?;
    case ForgetNext =>
      assert w.gc.released[0] in w.gc.released;
    case _ =>
  }

  /** A request step that leaves the record and the pin of `c` alone. */
  ghost predicate LeavesAlone(w: World, w': World, c: Cid) {
    Entry(w'.m.node, c) == Entry(w.m.node, c) && (c in w'.m.node.pins <==> c in w.m.node.pins)
  }

  lemma EnvKeepsForeign(w: World, t: Step, w': World, c: Cid, e: Stored)
    requires GcInv(w) && WorldNext(w, t, w') && t.Env? && Foreign(w, c, e) && LeavesAlone(w, w', c)
    ensures Foreign(w', c, e)
  {
    StepsStamp(w.m, t.op, w'.m, c);
  }

  /** `e` is foreign and pinned exactly as `pin` says. */
  ghost predicate Settled(w: World, c: Cid, e: Stored, pin: bool) {
    GcInv(w) && Foreign(w, c, e) && (c in w.m.node.pins <==> pin)
  }

  lemma SettledStep(w: World, t: Step, w': World, c: Cid, e: Stored, pin: bool)
    requires Settled(w, c, e, pin) && WorldNext(w, t, w') && (t.Env? ==> LeavesAlone(w, w', c))
    ensures Settled(w', c, e, pin)
  {
    GcStepKeepsInv(w, t, w');
    if t.Env? { EnvKeepsForeign(w, t, w', c, e); } else { GcLeavesForeignAlone(w, t, w', c, e); }
  }

  /** Requests leave the record and the pin of `c` alone from step `i` on. */
  ghost predicate Quiet(ws: seq<World>, ts: seq<Step>, i: nat, c: Cid)
    requires |ws| == |ts| + 1
  {
    forall j :: i <= j < |ts| && ts[j].Env? ==> LeavesAlone(ws[j], ws[j + 1], c)
  }

  lemma {:induction false} ForeignStays(ws: seq<World>, ts: seq<Step>, i: nat, k: nat, c: Cid, e: Stored, pin: bool)
    requires Run(ws, ts) && i <= k <= |ts| && Settled(ws[i], c, e, pin) && Quiet(ws, ts, i, c)
    ensures Settled(ws[k], c, e, pin)
  {
    if i < k {
      ForeignStays(ws, ts, i, k - 1, c, e, pin);
      SettledStep(ws[k - 1], ts[k - 1], ws[k], c, e, pin);
    }
  }

  /**
   * A pinned record a request writes while a collection runs, in whatever phase, keeps that
   * record and its pin to the end of the run: the collection never touches it again, even
   * when the CID was planned for release, or released and due for cleanup.
   */
  lemma ReuploadSurvives(ws: seq<World>, ts: seq<Step>, i: nat, c: Cid, e: Stored)
    requires Run(ws, ts) && GcInv(ws[0]) && i < |ts| && ts[i].Env?
    requires Entry(ws[i + 1].m.node, c) == Some(e) && e.revision >= ws[i].m.node.nextRevision
    requires PinReal(SlotAt(ws[i + 1].m.node, c)) && Quiet(ws, ts, i + 1, c)
    ensures Entry(ws[|ts|].m.node, c) == Some(e)
    ensures c in ws[|ts|].m.node.pins <==> c in ws[i + 1].m.node.pins
  {
    RunsKeepInv(ws, ts, i);
    RunsKeepInv(ws, ts, i + 1);
    assert WorldNext(ws[i], ts[i], ws[i + 1]);
    ForeignStays(ws, ts, i + 1, |ts|, c, e, c in ws[i + 1].m.node.pins);
  }
}
