/**
 * A strict upload: the coordinator places, aborts or commits copies on peers while
 * messages get lost and every node goes on working (src/api/uploadRoute.ts,
 * src/storage/service.ts). The transaction id of the copies is the admission id of the
 * request. Every node involved is a `Machine`.
 */
module StrictUpload {
  import opened Common
  import opened Records
  import opened Lifecycle
  import opened NodeState
  import opened UploadRoute
  import opened NodeMachine
  import opened Placement
  import EffectLaws

  // ---------------------------------------------------------------- quorum

  function RequiredAcks(ackQuorum: nat, p: Placement): nat { Max(1, Min(ackQuorum, p.copies)) }

  /**
   * What an upload has to collect: the configured number, or a copy on every designated holder
   * where that is less, and never nothing. It is the configured number whenever the age of the
   * file and the network offer as many copies.
   */
  lemma RequiredAcksMeans(score: PeerId -> nat, tiers: seq<Tier>, age: nat, self: PeerId, peers: seq<PeerId>,
                          ackQuorum: nat)
    ensures var p := PlaceFile(score, tiers, age, self, peers); var r := RequiredAcks(ackQuorum, p);
      && 1 <= r <= |p.holders| && (r == ackQuorum || r == |p.holders| || ackQuorum == 0)
      && (1 <= ackQuorum ==> r <= ackQuorum)
      && (1 <= ackQuorum <= CopiesForAge(tiers, age) && ackQuorum <= |Known(self, peers)| ==> r == ackQuorum)
    ensures var r := RequiredAcks(ackQuorum, PlaceFile(score, tiers, age, self, peers));
      r >= ackQuorum || r >= CopiesForAge(tiers, age) || r >= |Known(self, peers)|
  {
    HoldersAreTheBest(score, tiers, age, self, peers);
    NoDuplicatesSize(PlaceFile(score, tiers, age, self, peers).holders);
  }

  /** The quorum asked for can be met: enough peers are asked to hold a copy. */
  lemma QuorumIsReachable(score: PeerId -> nat, tiers: seq<Tier>, age: nat, self: PeerId, peers: seq<PeerId>,
                          ackQuorum: nat)
    ensures var p := PlaceFile(score, tiers, age, self, peers);
      RequiredAcks(ackQuorum, p) <= |StorageTargets(p, self)| + 1
  {
    HoldersAreTheBest(score, tiers, age, self, peers);
    RemovesAtMostOne(PlaceFile(score, tiers, age, self, peers).holders, self);
  }

  lemma {:induction false} RemovesAtMostOne(s: seq<PeerId>, x: PeerId)
    requires NoDuplicates(s)
    ensures |Without(s, x)| >= |s| - 1
  {
    if s != [] {
      if s[0] == x {
        assert x !in s[1..];
        WithoutProperties(s[1..], x);
      } else {
        RemovesAtMostOne(s[1..], x);
      }
    }
  }

  // ---------------------------------------------------------------- claims on one node

  predicate RecordClaims(r: Option<FileRecord>, tx: TransactionId) { HasClaim(Slot(r, false), tx) }

  /** Every claim of `tx` a node holds, or could put back by a rollback, is on a CID in `known`. */
  ghost predicate ClaimsWithin(m: Machine, tx: TransactionId, known: set<Cid>) {
    && (forall c :: HasClaim(SlotAt(m.node, c), tx) ==> c in known)
    && (forall id :: id in m.uploads ==> BaselineClaimsWithin(m.uploads[id], tx, known))
  }

  ghost predicate BaselineClaimsWithin(bs: seq<UploadBaseline>, tx: TransactionId, known: set<Cid>) {
    forall i :: 0 <= i < |bs| ==> RecordClaims(bs[i].previous, tx) ==> bs[i].cid in known
  }

  /** Only a stage of the transaction creates a claim of it. */
  lemma EffectClaims(n: Node, op: Op, tx: TransactionId)
    requires OneCid(op) && HasClaim(Effect(n, op), tx)
    ensures HasClaim(SlotAt(n, op.cid), tx) || (op.Stage? && op.q.tx == tx)
  {
    if op.Abort? && HasClaim(SlotAt(n, op.cid), op.tx) {
      WithoutProperties(SlotAt(n, op.cid).rec.value.stage.value.transactionIds, op.tx);
      var less := Without(SlotAt(n, op.cid).rec.value.stage.value.transactionIds, op.tx);
      assert tx in less ==> tx in Elements(less);
    }
  }

  lemma StepClaims(m: Machine, op: Op, m': Machine, tx: TransactionId, known: set<Cid>)
    requires Inv(m) && Next(m, op, m') && ClaimsWithin(m, tx, known)
    requires op.Stage? && op.q.tx == tx && HasClaim(Effect(m.node, op), tx) ==> op.cid in known
    ensures ClaimsWithin(m', tx, known)
  {
    forall c | HasClaim(SlotAt(m'.node, c), tx) ensures c in known {
      if OneCid(op) {
        if op.cid == c { EffectClaims(m.node, op, tx); }
      } else {
        OwnerStepClaims(m, op, m', tx, known, c);
      }
    }
    if op.Admit? {
      forall i | 0 <= i < |op.bs| && RecordClaims(op.bs[i].previous, tx) ensures op.bs[i].cid in known {
        assert HasClaim(SlotAt(m.node, op.bs[i].cid), tx);
      }
    }
  }

  lemma OwnerStepClaims(m: Machine, op: Op, m': Machine, tx: TransactionId, known: set<Cid>, c: Cid)
    requires Inv(m) && Next(m, op, m') && !OneCid(op) && ClaimsWithin(m, tx, known) && HasClaim(SlotAt(m'.node, c), tx)
    ensures c in known
  {
    match op
    case Admit(id, bs, temporary) => assert c !in BaselineCids(bs);
    case Rollback(id) =>
      var bs := m.uploads[id];
      if c in BaselineCids(bs) {
        var i :| 0 <= i < |bs| && bs[i].cid == c;
        assert BaselineClaimsWithin(bs, tx, known);
      }
    case Settle(id, reports, at, failed) => assert SoundRecord(SlotAt(m.node, c));
    case _ =>
  }

  // ---------------------------------------------------------------- the protocol

  /** One peer asked for one copy. `staged`: the copy belongs, or may belong, to this request. */
  datatype Attempt = Attempt(stored: bool, staged: bool)

  datatype Answer = Success | QuorumMissed | Failed

  datatype Phase = Placing | Aborting | Finalizing | Withdrawing | Committing | Answered(answer: Answer)

  /** What a request asks for; it never changes. */
  datatype Request = Request(
    me: PeerId, id: AdmissionId, bs: seq<UploadBaseline>,
    targets: map<Cid, set<PeerId>>, required: map<Cid, nat>, names: map<PeerId, string>)

  /** The replication settings a request runs under, and what it knows about each of its files. */
  datatype Policy = Policy(
    enabled: bool, ackQuorum: nat, tiers: seq<Tier>, peers: seq<PeerId>,
    score: Cid -> PeerId -> nat, age: Cid -> nat)

  /** Every file is placed by the ranking of its CID; without replication nobody is asked. */
  ghost predicate Follows(req: Request, g: Policy) {
    && req.targets.Keys == BaselineCids(req.bs) && req.required.Keys == BaselineCids(req.bs)
    && forall c :: c in req.targets ==>
         if g.enabled then
           var p := PlaceFile(g.score(c), g.tiers, g.age(c), req.me, g.peers);
           req.targets[c] == Elements(StorageTargets(p, req.me)) && req.required[c] == RequiredAcks(g.ackQuorum, p)
         else req.targets[c] == {} && req.required[c] == 1
  }

  /**
   * The coordinator. `aborted` and `committed` are acknowledged, `tried` are the peers whose
   * abort or commit is over; `unsettled` the CIDs whose settlement mark could not be written.
   */
  datatype Coordinator = Coordinator(
    req: Request, phase: Phase, attempts: map<(Cid, PeerId), Attempt>,
    aborted: set<(Cid, PeerId)>, committed: set<(Cid, PeerId)>, tried: set<(Cid, PeerId)>,
    failures: bool, unsettled: set<Cid>)

  /** `base` is this node just before the request was admitted. */
  datatype World = World(base: Node, local: Machine, peers: map<PeerId, Machine>, co: Coordinator)

  datatype Step =
    | LocalOp(op: Op)
    | PeerOp(op: Op, p: PeerId)
    | HaveAnswered(c: Cid, p: PeerId)
    | StageAt(c: Cid, p: PeerId, q: StageRequest, marked: bool, fault: Fault, heard: bool)
    | NotStored(c: Cid, p: PeerId, reached: bool)
    | Throws(ok: bool)
    | Decide
    | AbortAt(c: Cid, p: PeerId, fault: Fault, heard: bool)
    | AbortLost(c: Cid, p: PeerId)
    | RollBack(ok: bool)
    | Finalize(reports: map<Cid, seq<PeerId>>, at: Time, failed: set<Cid>)
    | FinalizeFails(undone: bool)
    | CommitAt(c: Cid, p: PeerId, now: Time, fault: Fault, heard: bool)
    | ProbeAt(c: Cid, p: PeerId, heard: bool)
    | Respond(cleared: set<Cid>)

  predicate Asked(co: Coordinator, c: Cid, p: PeerId) { c in co.req.targets && p in co.req.targets[c] }

  predicate Pending(co: Coordinator, c: Cid, p: PeerId) {
    co.phase == Placing && Asked(co, c, p) && (c, p) !in co.attempts
  }

  /** Peers an abort is sent to, failed attempts included. */
  predicate Withdrawable(co: Coordinator, c: Cid, p: PeerId) { (c, p) in co.attempts && co.attempts[(c, p)].staged }

  /** Peers a commit is sent to. */
  predicate Committable(co: Coordinator, c: Cid, p: PeerId) {
    (c, p) in co.attempts && co.attempts[(c, p)].stored && co.attempts[(c, p)].staged
  }

  /** A copy the coordinator counts as permanent. */
  predicate Vouched(co: Coordinator, c: Cid, p: PeerId) {
    && (c, p) in co.attempts && co.attempts[(c, p)].stored
    && (!co.attempts[(c, p)].staged || (c, p) in co.committed)
  }

  predicate Took(co: Coordinator, c: Cid, p: PeerId) { (c, p) in co.attempts && co.attempts[(c, p)].stored }

  function StoredAt(co: Coordinator, c: Cid): set<PeerId>
    requires c in co.req.targets
  {
    set p | p in co.req.targets[c] && Took(co, c, p)
  }

  function VouchedAt(co: Coordinator, c: Cid): set<PeerId>
    requires c in co.req.targets
  {
    set p | p in co.req.targets[c] && Vouched(co, c, p)
  }

  /** Verified replicas are listed by display name, without repetition. */
  function NamesOf(co: Coordinator, ps: set<PeerId>): set<string> {
    set p | p in ps && p in co.req.names :: co.req.names[p]
  }

  predicate QuorumReached(co: Coordinator) {
    forall c :: c in co.req.targets ==> c in co.req.required && |StoredAt(co, c)| + 1 >= co.req.required[c]
  }

  predicate Verified(co: Coordinator, c: Cid) {
    c in co.req.targets && c in co.req.required && |NamesOf(co, VouchedAt(co, c))| + 1 >= co.req.required[c]
  }

  /** A refusal the peer states outright; after any other failure the copy may be staged. */
  predicate RefusesStage(s: Slot, q: StageRequest, marked: bool) { StageSlot(s, q, marked, Works).reply.Error? }

  /** What the coordinator notes about a stage the peer worked on. */
  function StageNoted(s: Slot, q: StageRequest, marked: bool, fault: Fault, heard: bool): Attempt {
    var reply := StageSlot(s, q, marked, fault).reply;
    if !heard then Attempt(false, true)
    else if reply.Ok? then Attempt(true, reply.staged)
    else Attempt(false, !RefusesStage(s, q, marked))
  }

  function PeerSlot(w: World, c: Cid, p: PeerId): Slot
    requires p in w.peers
  {
    SlotAt(w.peers[p].node, c)
  }

  /** The peer `p` takes one step, every other node stands still. */
  ghost predicate AtPeer(w: World, p: PeerId, op: Op, w': World) {
    && p in w.peers && w'.peers.Keys == w.peers.Keys && w'.local == w.local
    && Next(w.peers[p], op, w'.peers[p])
    && forall o :: o in w.peers && o != p ==> w'.peers[o] == w.peers[o]
  }

  ghost predicate AtHome(w: World, w': World) { w'.peers == w.peers }

  ghost predicate Still(w: World, w': World) { w'.peers == w.peers && w'.local == w.local }

  function AbortOp(co: Coordinator, c: Cid, fault: Fault): Op { Abort(c, co.req.id, Some(co.req.me), fault) }

  function CommitOp(co: Coordinator, c: Cid, now: Time, fault: Fault): Op {
    Commit(c, co.req.id, Some(co.req.me), now, fault)
  }

  /** Every peer that may hold a copy was asked to withdraw it. */
  predicate AbortsOver(co: Coordinator) {
    forall k :: k in co.attempts && co.attempts[k].staged ==> k in co.tried
  }

  predicate CommitsOver(co: Coordinator) {
    forall k :: k in co.attempts && co.attempts[k].staged && co.attempts[k].stored ==> k in co.tried
  }

  /** This node and its peers go on working between the messages of the request. */
  ghost predicate Interferes(w: World, t: Step, w': World) {
    match t
    case LocalOp(op) => AtHome(w, w') && !TakenBy(op, w.co.req.id) && Next(w.local, op, w'.local) && w'.co == w.co
    case PeerOp(op, p) =>
      && AtPeer(w, p, op, w') && w'.co == w.co
      // transaction ids are unique, so only a message of this request that arrives late stages for it
      && (op.Stage? && op.q.tx == w.co.req.id ==> Withdrawable(w.co, op.cid, p))
    case _ => false
  }

  ghost predicate Places(w: World, t: Step, w': World) {
    var co := w.co;
    match t
    case HaveAnswered(c, p) =>
      && Still(w, w') && Pending(co, c, p) && p in w.peers && AnswersHave(PeerSlot(w, c, p))
      && w'.co == co.(attempts := co.attempts[(c, p) := Attempt(true, false)])
    case StageAt(c, p, q, marked, fault, heard) =>
      && Pending(co, c, p) && q.tx == co.req.id && q.origin == Some(co.req.me)
      && AtPeer(w, p, Stage(c, q, marked, fault), w')
      && w'.co == co.(attempts := co.attempts[(c, p) := StageNoted(PeerSlot(w, c, p), q, marked, fault, heard)])
    case NotStored(c, p, reached) =>
      && Still(w, w') && Pending(co, c, p)
      && w'.co == co.(attempts := co.attempts[(c, p) := Attempt(false, !reached)])
    // something unforeseen: the request is rolled back here, and no peer is asked to abort
    case Throws(ok) =>
      && co.phase == Placing && AtHome(w, w')
      && (if ok then Next(w.local, Rollback(co.req.id), w'.local) else w'.local == w.local)
      && w'.co == co.(phase := Answered(Failed))
    case Decide =>
      && Still(w, w') && co.phase == Placing && (forall c: Cid, p: PeerId :: Asked(co, c, p) ==> (c, p) in co.attempts)
      && w'.co == co.(phase := if QuorumReached(co) then Finalizing else Aborting)
    case _ => false
  }

  ghost predicate Refuses(w: World, t: Step, w': World) {
    var co := w.co;
    && (co.phase == Aborting || co.phase == Withdrawing)
    && match t
       case AbortAt(c, p, fault, heard) =>
         && Withdrawable(co, c, p) && (c, p) !in co.tried && AtPeer(w, p, AbortOp(co, c, fault), w')
         && var acked := heard && !AbortSlot(PeerSlot(w, c, p), co.req.id, Some(co.req.me), fault).reply.Error?;
         w'.co == co.(tried := co.tried + {(c, p)}, failures := co.failures || !acked,
                      aborted := if acked then co.aborted + {(c, p)} else co.aborted)
       case AbortLost(c, p) =>
         && Withdrawable(co, c, p) && (c, p) !in co.tried && Still(w, w')
         && w'.co == co.(tried := co.tried + {(c, p)}, failures := true)
       case RollBack(ok) =>
         && AbortsOver(co) && AtHome(w, w')
         && (if ok then Next(w.local, Rollback(co.req.id), w'.local) else w'.local == w.local)
         && w'.co == co.(phase := Answered(
              if co.phase == Aborting && ok && !co.failures then QuorumMissed else Failed))
       case _ => false
  }

  ghost predicate Settles(w: World, t: Step, w': World) {
    var co := w.co;
    && co.phase == Finalizing && AtHome(w, w')
    && match t
       case Finalize(reports, at, failed) =>
         && Next(w.local, Settle(co.req.id, reports, at, failed), w'.local)
         && w'.co == co.(phase := Committing, unsettled := failed)
       case FinalizeFails(undone) =>
         && (if undone then Next(w.local, Rollback(co.req.id), w'.local) else w'.local == w.local)
         && w'.co == co.(phase := Withdrawing, failures := true)
       case _ => false
  }

  ghost predicate Commits(w: World, t: Step, w': World) {
    var co := w.co;
    && co.phase == Committing
    && match t
       case CommitAt(c, p, now, fault, heard) =>
         && Committable(co, c, p) && (c, p) !in co.tried && AtPeer(w, p, CommitOp(co, c, now, fault), w')
         && var acked := heard && CommitSlot(PeerSlot(w, c, p), co.req.id, Some(co.req.me), now, fault).reply.Ok?;
         w'.co == if acked then co.(tried := co.tried + {(c, p)}, committed := co.committed + {(c, p)}) else co
       case ProbeAt(c, p, heard) =>
         && Committable(co, c, p) && (c, p) !in co.tried && Still(w, w') && p in w.peers
         && w'.co == co.(
              tried := co.tried + {(c, p)},
              committed := if heard && AnswersHave(PeerSlot(w, c, p)) then co.committed + {(c, p)} else co.committed)
       case Respond(cleared) =>
         && CommitsOver(co) && AtHome(w, w')
         && (forall c :: c in cleared ==> Verified(co, c))
         && Next(w.local, ClearTokens(co.req.id, cleared), w'.local)
         && (forall c :: c in cleared ==> TokenDropped(SlotAt(w.local.node, c), SlotAt(w'.local.node, c), co.req.id))
         && w'.co == co.(phase := Answered(
              if (forall c :: c in co.req.targets ==> Verified(co, c)) && Owned(w.local.node, co.req.bs, co.req.id)
              then Success else Failed))
       case _ => false
  }

  ghost predicate WorldNext(w: World, t: Step, w': World) {
    && w'.base == w.base
    && if t.LocalOp? || t.PeerOp? then Interferes(w, t, w')
       else if t.HaveAnswered? || t.StageAt? || t.NotStored? || t.Throws? || t.Decide? then Places(w, t, w')
       else if t.AbortAt? || t.AbortLost? || t.RollBack? then Refuses(w, t, w')
       else if t.Finalize? || t.FinalizeFails? then Settles(w, t, w')
       else Commits(w, t, w')
  }

  // ---------------------------------------------------------------- invariants

  ghost predicate NodesInv(w: World) {
    Inv(w.local) && forall p :: p in w.peers ==> Inv(w.peers[p])
  }

  /** CIDs of which peer `p` may hold a copy for this request, as far as the coordinator knows. */
  function ReportedAt(co: Coordinator, p: PeerId): set<Cid> {
    set k | k in co.attempts && k.1 == p && co.attempts[k].staged :: k.0
  }

  /** No peer holds a claim of this request that an abort would miss. */
  ghost predicate ClaimsReported(w: World) {
    forall p :: p in w.peers ==> ClaimsWithin(w.peers[p], w.co.req.id, ReportedAt(w.co, p))
  }

  /** Only peers that were asked are noted, and only noted copies are committed. */
  predicate NotesInv(co: Coordinator) {
    && (forall k :: k in co.attempts ==> Asked(co, k.0, k.1))
    && (forall k :: k in co.committed ==> k in co.attempts)
  }

  /** Aborts begin with a clean slate, and without a failure every one of them was acknowledged. */
  predicate AbortsInv(co: Coordinator) {
    && (co.phase == Placing || co.phase == Finalizing ==> co.tried == {} && !co.failures)
    && (co.phase == Aborting && !co.failures ==> co.tried <= co.aborted)
  }

  predicate BooksInv(co: Coordinator) { NotesInv(co) && AbortsInv(co) }

  predicate OwnedDurable(s: Slot, id: AdmissionId) { FreshlyOwned(s, id) && s.rec.value.state == Confirmed }

  /** While the request can still be refused: everything it owns is as it was admitted. */
  ghost predicate HeldInv(w: World) {
    && w.co.req.id in w.local.uploads && w.local.uploads[w.co.req.id] == w.co.req.bs
    && w.co.req.id in w.local.node.owners.admissions
    && Captured(w.base, w.co.req.bs)
    && forall i :: 0 <= i < |w.co.req.bs| ==>
         && SoundRecord(SlotAt(w.base, w.co.req.bs[i].cid))
         && OwnedDurable(SlotAt(w.local.node, w.co.req.bs[i].cid), w.co.req.id)
  }

  /** Decided locally; settled unless the mark could not be written. */
  predicate DecidedSlot(s: Slot, id: AdmissionId, marked: bool) {
    && OwnedBy(s, id) && s.pin && s.rec.value.pinned && s.rec.value.heldLocally && s.rec.value.state == Confirmed
    && s.rec.value.stage.None? && (s.rec.value.admissionSettledAt.Some? <==> marked)
  }

  ghost predicate DecidedInv(w: World) {
    && w.co.req.id in w.local.node.owners.admissions && w.co.req.id !in w.local.uploads
    && forall i :: 0 <= i < |w.co.req.bs| ==>
         DecidedSlot(SlotAt(w.local.node, w.co.req.bs[i].cid), w.co.req.id, w.co.req.bs[i].cid !in w.co.unsettled)
  }

  /** What this node owes the request, by phase. */
  ghost predicate HomeInv(w: World) {
    && (CanRefuse(w.co) ==> HeldInv(w))
    && (w.co.phase == Committing ==> DecidedInv(w))
  }

  ghost predicate WorldInv(w: World) {
    NodesInv(w) && ClaimsReported(w) && BooksInv(w.co) && HomeInv(w)
  }

  /** The one node that acts in a step, if any: a peer, or this node. */
  datatype Act = Nobody | Home(op: Op) | Remote(p: PeerId, op: Op)

  function ActOf(co: Coordinator, t: Step): Act {
    match t
    case LocalOp(op) => Home(op)
    case PeerOp(op, p) => Remote(p, op)
    case StageAt(c, p, q, marked, fault, heard) => Remote(p, Stage(c, q, marked, fault))
    case AbortAt(c, p, fault, heard) => Remote(p, AbortOp(co, c, fault))
    case CommitAt(c, p, now, fault, heard) => Remote(p, CommitOp(co, c, now, fault))
    case Throws(ok) => if ok then Home(Rollback(co.req.id)) else Nobody
    case RollBack(ok) => if ok then Home(Rollback(co.req.id)) else Nobody
    case Finalize(reports, at, failed) => Home(Settle(co.req.id, reports, at, failed))
    case FinalizeFails(undone) => if undone then Home(Rollback(co.req.id)) else Nobody
    case Respond(cleared) => Home(ClearTokens(co.req.id, cleared))
    case _ => Nobody
  }

  ghost predicate Acted(w: World, a: Act, w': World) {
    match a
    case Nobody => Still(w, w')
    case Home(op) => AtHome(w, w') && Next(w.local, op, w'.local)
    case Remote(p, op) => AtPeer(w, p, op, w')
  }

  lemma OneNodeActs(w: World, t: Step, w': World)
    requires WorldNext(w, t, w')
    ensures Acted(w, ActOf(w.co, t), w')
  {
  }

  lemma NodesStep(w: World, a: Act, w': World)
    requires NodesInv(w) && Acted(w, a, w')
    ensures NodesInv(w')
  {
    match a
    case Nobody =>
    case Home(op) => StepKeepsInv(w.local, op, w'.local);
    case Remote(p, op) => StepKeepsInv(w.peers[p], op, w'.peers[p]);
  }

  lemma NotesStep(w: World, t: Step, w': World)
    requires NotesInv(w.co) && WorldNext(w, t, w')
    ensures NotesInv(w'.co)
  {
  }

  lemma AbortsStep(w: World, t: Step, w': World)
    requires AbortsInv(w.co) && WorldNext(w, t, w')
    ensures AbortsInv(w'.co)
  {
  }

  /** A stage that creates a claim is noted as staged, whether or not its answer arrives. */
  lemma ClaimIsNoted(s: Slot, q: StageRequest, marked: bool, fault: Fault, heard: bool)
    requires !HasClaim(s, q.tx) && HasClaim(StageSlot(s, q, marked, fault).slot, q.tx)
    ensures StageNoted(s, q, marked, fault, heard).staged
  {
  }

  lemma MoreIsReported(w: World, t: Step, w': World, p: PeerId)
    requires WorldNext(w, t, w')
    ensures ReportedAt(w.co, p) <= ReportedAt(w'.co, p)
  {
    forall c | c in ReportedAt(w.co, p) ensures c in ReportedAt(w'.co, p) {
      assert (c, p) in w.co.attempts;
      assert (c, p) in w'.co.attempts && w'.co.attempts[(c, p)].staged;
    }
  }

  lemma WithinMore(m: Machine, tx: TransactionId, known: set<Cid>, more: set<Cid>)
    requires ClaimsWithin(m, tx, known) && known <= more
    ensures ClaimsWithin(m, tx, more)
  {
    forall id | id in m.uploads ensures BaselineClaimsWithin(m.uploads[id], tx, more) {
      assert BaselineClaimsWithin(m.uploads[id], tx, known);
    }
  }

  lemma ClaimsAtPeer(w: World, op: Op, p: PeerId, w': World, q: PeerId)
    requires NodesInv(w) && ClaimsReported(w) && AtPeer(w, p, op, w') && q in w'.peers && w'.co.req.id == w.co.req.id
    requires ReportedAt(w.co, q) <= ReportedAt(w'.co, q)
    requires StagesFor(w.peers[p].node, op, w.co.req.id) ==> op.cid in ReportedAt(w'.co, p)
    ensures ClaimsWithin(w'.peers[q], w.co.req.id, ReportedAt(w'.co, q))
  {
    WithinMore(w.peers[q], w.co.req.id, ReportedAt(w.co, q), ReportedAt(w'.co, q));
    if q == p { StepClaims(w.peers[p], op, w'.peers[p], w.co.req.id, ReportedAt(w'.co, p)); }
  }

  /** A stage of this request that creates its claim. */
  predicate StagesFor(n: Node, op: Op, tx: TransactionId) {
    op.Stage? && op.q.tx == tx && HasClaim(Effect(n, op), tx)
  }

  /** The coordinator keeps its reports, and reports the claim a stage of this request creates. */
  ghost predicate Reports(w: World, a: Act, w': World) {
    && w'.co.req.id == w.co.req.id
    && (forall p :: ReportedAt(w.co, p) <= ReportedAt(w'.co, p))
    && (a.Remote? && a.p in w.peers && StagesFor(w.peers[a.p].node, a.op, w.co.req.id) ==>
          a.op.cid in ReportedAt(w'.co, a.p))
  }

  lemma StageIsReported(w: World, t: Step, w': World)
    requires ClaimsReported(w) && WorldNext(w, t, w') && (t.StageAt? || t.PeerOp?)
    ensures var a := ActOf(w.co, t);
      a.p in w.peers && StagesFor(w.peers[a.p].node, a.op, w.co.req.id) ==> a.op.cid in ReportedAt(w'.co, a.p)
  {
    if t.StageAt? {
      StageClaims(w, t, w');
    } else if t.op.Stage? && t.op.q.tx == w.co.req.id {
      assert (t.op.cid, t.p) in w'.co.attempts;
    }
  }

  lemma StepReports(w: World, t: Step, w': World)
    requires ClaimsReported(w) && WorldNext(w, t, w')
    ensures Reports(w, ActOf(w.co, t), w')
  {
    forall p ensures ReportedAt(w.co, p) <= ReportedAt(w'.co, p) {
      MoreIsReported(w, t, w', p);
    }
    if t.StageAt? || t.PeerOp? { StageIsReported(w, t, w'); }
  }

  /** No peer ever holds a claim of the request that an abort would miss. */
  lemma ClaimsStep(w: World, a: Act, w': World)
    requires NodesInv(w) && ClaimsReported(w) && Acted(w, a, w') && Reports(w, a, w')
    ensures ClaimsReported(w')
  {
    forall o | o in w'.peers ensures ClaimsWithin(w'.peers[o], w'.co.req.id, ReportedAt(w'.co, o)) {
      if a.Remote? {
        ClaimsAtPeer(w, a.op, a.p, w', o);
      } else {
        WithinMore(w.peers[o], w.co.req.id, ReportedAt(w.co, o), ReportedAt(w'.co, o));
      }
    }
  }

  lemma StageClaims(w: World, t: Step, w': World)
    requires ClaimsReported(w) && WorldNext(w, t, w') && t.StageAt?
    ensures HasClaim(Effect(w.peers[t.p].node, Stage(t.c, t.q, t.marked, t.fault)), w.co.req.id) ==>
      t.c in ReportedAt(w'.co, t.p)
  {
    var s := PeerSlot(w, t.c, t.p);
    if HasClaim(StageSlot(s, t.q, t.marked, t.fault).slot, w.co.req.id) {
      assert ClaimsWithin(w.peers[t.p], w.co.req.id, ReportedAt(w.co, t.p));
      assert t.c !in ReportedAt(w.co, t.p);
      ClaimIsNoted(s, t.q, t.marked, t.fault, t.heard);
      assert (t.c, t.p) in w'.co.attempts;
    }
  }

  predicate CanRefuse(co: Coordinator) { co.phase == Placing || co.phase == Aborting || co.phase == Finalizing }

  /** This node is left alone, or interferes with itself by a step that is not the request's own. */
  ghost predicate Elsewhere(w: World, t: Step, w': World) {
    if t.LocalOp? then Next(w.local, t.op, w'.local) && !TakenBy(t.op, w.co.req.id) else w'.local == w.local
  }

  /** How the phases of a request treat this node. */
  ghost predicate HomeMoves(w: World, t: Step, w': World) {
    && w'.base == w.base && w'.co.req == w.co.req
    && (CanRefuse(w'.co) ==> CanRefuse(w.co) && Elsewhere(w, t, w'))
    && (w'.co.phase == Committing ==>
          if w.co.phase == Committing then Elsewhere(w, t, w') && w'.co.unsettled == w.co.unsettled
          else CanRefuse(w.co) && t.Finalize? && Settles(w, t, w'))
  }

  lemma PhasesMoveHome(w: World, t: Step, w': World)
    requires WorldNext(w, t, w')
    ensures HomeMoves(w, t, w')
  {
  }

  /** What this node admitted stays as it is until the request decides. */
  lemma HeldStep(w: World, t: Step, w': World)
    requires Inv(w.local) && HeldInv(w) && HomeMoves(w, t, w') && CanRefuse(w'.co)
    ensures HeldInv(w')
  {
    if t.LocalOp? {
      forall i | 0 <= i < |w.co.req.bs| ensures OwnedDurable(SlotAt(w'.local.node, w.co.req.bs[i].cid), w.co.req.id) {
        OwnedSlotIsStable(w.local, t.op, w'.local, w.co.req.bs[i].cid, w.co.req.id);
      }
      UploadIsKept(w.local, t.op, w'.local, w.co.req.id);
    }
  }

  lemma FinalizeDecides(w: World, t: Step, w': World)
    requires HeldInv(w) && Settles(w, t, w') && t.Finalize?
    ensures DecidedInv(w')
  {
  }

  lemma DecidedStep(w: World, t: Step, w': World)
    requires Inv(w.local) && DecidedInv(w) && HomeMoves(w, t, w') && w.co.phase == Committing
    requires w'.co.phase == Committing
    ensures DecidedInv(w')
  {
    if t.LocalOp? {
      forall i | 0 <= i < |w.co.req.bs|
        ensures DecidedSlot(SlotAt(w'.local.node, w.co.req.bs[i].cid), w.co.req.id,
            w.co.req.bs[i].cid !in w.co.unsettled)
      {
        OwnedSlotIsStable(w.local, t.op, w'.local, w.co.req.bs[i].cid, w.co.req.id);
      }
      UploadIsKept(w.local, t.op, w'.local, w.co.req.id);
    }
  }

  lemma HomeStep(w: World, t: Step, w': World)
    requires Inv(w.local) && HomeInv(w) && HomeMoves(w, t, w')
    ensures HomeInv(w')
  {
    if CanRefuse(w'.co) {
      HeldStep(w, t, w');
    } else if w'.co.phase == Committing {
      if w.co.phase == Committing { DecidedStep(w, t, w'); } else { FinalizeDecides(w, t, w'); }
    }
  }

  lemma NodesAndClaimsStep(w: World, a: Act, w': World)
    requires NodesInv(w) && ClaimsReported(w) && Acted(w, a, w') && Reports(w, a, w')
    ensures NodesInv(w') && ClaimsReported(w')
  {
    NodesStep(w, a, w');
    ClaimsStep(w, a, w');
  }

  lemma NodesAndClaimsKept(w: World, t: Step, w': World)
    requires NodesInv(w) && ClaimsReported(w) && WorldNext(w, t, w')
    ensures NodesInv(w') && ClaimsReported(w')
  {
    OneNodeActs(w, t, w');
    StepReports(w, t, w');
    NodesAndClaimsStep(w, ActOf(w.co, t), w');
  }

  lemma HomeKept(w: World, t: Step, w': World)
    requires Inv(w.local) && HomeInv(w) && WorldNext(w, t, w')
    ensures HomeInv(w')
  {
    PhasesMoveHome(w, t, w');
    HomeStep(w, t, w');
  }

  lemma BooksKept(w: World, t: Step, w': World)
    requires BooksInv(w.co) && WorldNext(w, t, w')
    ensures BooksInv(w'.co)
  {
    NotesStep(w, t, w');
    AbortsStep(w, t, w');
  }

  lemma WorldStep(w: World, t: Step, w': World)
    requires WorldInv(w) && WorldNext(w, t, w')
    ensures WorldInv(w')
  {
    NodesAndClaimsKept(w, t, w');
    BooksKept(w, t, w');
    HomeKept(w, t, w');
  }

  // ---------------------------------------------------------------- whole requests

  /**
   * A request just admitted. In strict mode every registration is confirmed, and its
   * fresh id is on no peer yet.
   */
  ghost predicate Begins(w: World, before: Machine, g: Policy) {
    var co := w.co;
    && Follows(co.req, g)
    && Inv(before) && w.base == before.node && Next(before, Admit(co.req.id, co.req.bs, false), w.local)
    && co.phase == Placing && co.attempts == map[] && co.tried == {} && co.committed == {} && co.aborted == {}
    && !co.failures
    && forall p :: p in w.peers ==> Inv(w.peers[p]) && ClaimsWithin(w.peers[p], co.req.id, {})
  }

  /** What a strict upload without a confirmation step registers is confirmed. */
  lemma StrictRegistrationIsConfirmed(existing: Option<FileRecord>, file: NewFile, opt: RegisterOptions,
                                      cid: Cid, o: Owners)
    requires !opt.confirmationRequired && Register(existing, file, opt, cid, o).Write?
    ensures Register(existing, file, opt, cid, o).record.state == Confirmed
  {
  }

  lemma BeginsWithInv(w: World, before: Machine, g: Policy)
    requires Begins(w, before, g)
    ensures WorldInv(w)
  {
    StepKeepsInv(before, Admit(w.co.req.id, w.co.req.bs, false), w.local);
    forall p | p in w.peers ensures ClaimsWithin(w.peers[p], w.co.req.id, ReportedAt(w.co, p)) {
      assert ReportedAt(w.co, p) == {};
    }
    forall i | 0 <= i < |w.co.req.bs| ensures SoundRecord(SlotAt(w.base, w.co.req.bs[i].cid)) {
    }
  }

  ghost predicate Run(ws: seq<World>, ts: seq<Step>) {
    |ws| == |ts| + 1 && forall i :: 0 <= i < |ts| ==> WorldNext(ws[i], ts[i], ws[i + 1])
  }

  lemma {:induction false} RunsKeepInv(ws: seq<World>, ts: seq<Step>, k: nat)
    requires Run(ws, ts) && WorldInv(ws[0]) && k <= |ts|
    ensures WorldInv(ws[k])
  {
    if k > 0 {
      RunsKeepInv(ws, ts, k - 1);
      WorldStep(ws[k - 1], ts[k - 1], ws[k]);
    }
  }

  /** How many distinct peers said that they took the file, staged or for good. */
  function TakenBySome(co: Coordinator, c: Cid): set<PeerId> {
    set k | k in co.attempts && k.0 == c && co.attempts[k].stored :: k.1
  }

  /** With this node they are as many as configured, or everybody designated. */
  predicate EnoughTook(co: Coordinator, g: Policy, c: Cid) {
    var n := |TakenBySome(co, c)| + 1;
    n >= g.ackQuorum || n >= |PlaceFile(g.score(c), g.tiers, g.age(c), co.req.me, g.peers).holders|
  }

  lemma StoredExactly(co: Coordinator, g: Policy, c: Cid)
    requires NotesInv(co) && Follows(co.req, g) && g.enabled && c in co.req.targets
    ensures |StoredAt(co, c)| + 1 >= co.req.required[c] <==> EnoughTook(co, g, c)
  {
    TakenIsStored(co, c);
    RequiredAcksMeans(g.score(c), g.tiers, g.age(c), co.req.me, g.peers, g.ackQuorum);
  }

  lemma ReachedExactly(co: Coordinator, g: Policy)
    requires NotesInv(co) && Follows(co.req, g) && g.enabled
    ensures QuorumReached(co) <==> forall c :: c in BaselineCids(co.req.bs) ==> EnoughTook(co, g, c)
  {
    forall c | c in co.req.targets
      ensures |StoredAt(co, c)| + 1 >= co.req.required[c] <==> EnoughTook(co, g, c)
    {
      StoredExactly(co, g, c);
    }
  }

  /**
   * Once every peer has answered, the request goes on exactly when every file was taken by the
   * configured number of nodes, this one included, or by everybody designated to hold it.
   */
  lemma DecidesExactly(w: World, w': World, g: Policy)
    requires WorldNext(w, Decide, w') && NotesInv(w.co) && Follows(w.co.req, g) && g.enabled
    ensures w'.co.phase == Finalizing || w'.co.phase == Aborting
    ensures w'.co.phase == Finalizing <==> forall c :: c in BaselineCids(w.co.req.bs) ==> EnoughTook(w.co, g, c)
  {
    ReachedExactly(w.co, g);
  }

  lemma TakenIsStored(co: Coordinator, c: Cid)
    requires NotesInv(co) && c in co.req.targets
    ensures StoredAt(co, c) == TakenBySome(co, c)
  {
    forall p | p in StoredAt(co, c) ensures p in TakenBySome(co, c) {
      assert (c, p) in co.attempts;
    }
  }

  /** The distinct peers whose copy of the file is permanent: taken for good, or committed. */
  function Permanent(co: Coordinator, c: Cid): set<PeerId> {
    set k |
      && k in co.attempts && k.0 == c && co.attempts[k].stored
      && (!co.attempts[k].staged || k in co.committed) :: k.1
  }

  lemma PermanentIsVouched(co: Coordinator, c: Cid)
    requires NotesInv(co) && c in co.req.targets
    ensures VouchedAt(co, c) == Permanent(co, c)
  {
    forall p | p in VouchedAt(co, c) ensures p in Permanent(co, c) {
      assert (c, p) in co.attempts;
    }
  }

  /** Every record of the request still carries its token. */
  predicate StillOwned(n: Node, bs: seq<UploadBaseline>, id: AdmissionId) {
    forall i :: 0 <= i < |bs| ==> bs[i].cid in n.store && n.store[bs[i].cid].file.admissionId == Some(id)
  }

  /** The distinct names behind the permanent copies, and this node, are as many as configured or designated. */
  predicate EnoughNames(co: Coordinator, g: Policy, c: Cid) {
    var n := |NamesOf(co, Permanent(co, c))| + 1;
    n >= g.ackQuorum || n >= |PlaceFile(g.score(c), g.tiers, g.age(c), co.req.me, g.peers).holders|
  }

  lemma VerifiedExactly(co: Coordinator, g: Policy, c: Cid)
    requires NotesInv(co) && Follows(co.req, g) && g.enabled && c in co.req.targets
    ensures Verified(co, c) <==> EnoughNames(co, g, c)
  {
    PermanentIsVouched(co, c);
    RequiredAcksMeans(g.score(c), g.tiers, g.age(c), co.req.me, g.peers, g.ackQuorum);
  }

  lemma AnsweredSuccess(w: World, cleared: set<Cid>, w': World)
    requires WorldNext(w, Respond(cleared), w')
    ensures w'.co.phase == Answered(Success) <==>
      (forall c :: c in w.co.req.targets ==> Verified(w.co, c)) && StillOwned(w.local.node, w.co.req.bs, w.co.req.id)
    ensures w'.co.phase == Answered(Success) || w'.co.phase == Answered(Failed)
  {
  }

  /**
   * Once every commit is over, the answer is success exactly when every file has enough
   * permanent copies and nobody took its record away from the request.
   */
  lemma SucceedsExactly(w: World, cleared: set<Cid>, w': World, g: Policy)
    requires WorldNext(w, Respond(cleared), w') && NotesInv(w.co) && Follows(w.co.req, g) && g.enabled
    ensures w'.co.phase == Answered(Success) <==>
      && (forall c :: c in BaselineCids(w.co.req.bs) ==> EnoughNames(w.co, g, c))
      && StillOwned(w.local.node, w.co.req.bs, w.co.req.id)
  {
    AnsweredSuccess(w, cleared, w');
    forall c | c in w.co.req.targets ensures Verified(w.co, c) <==> EnoughNames(w.co, g, c) {
      VerifiedExactly(w.co, g, c);
    }
  }

  /**
   * A copy counts as taken when the peer said so, and as free of any claim of the request only
   * on the word of the peer: it refused outright, or it has the file for good.
   */
  lemma StageNotedMeans(s: Slot, q: StageRequest, marked: bool, fault: Fault, heard: bool)
    ensures var a := StageNoted(s, q, marked, fault, heard); var reply := StageSlot(s, q, marked, fault).reply;
      && (a.stored <==> heard && reply.Ok?)
      && (!a.staged <==> heard && (Refused(s, q, marked) || (reply.Ok? && !reply.staged)))
  {
  }

  /** Reasons a peer states: an abort marker, a file in the way, or another peer behind the transaction. */
  predicate Refused(s: Slot, q: StageRequest, marked: bool) {
    || marked
    || (s.rec.Some? && EffectLaws.Unstageable(s.rec.value))
    || (HasClaim(s, q.tx) && !EffectLaws.MayAct(s.rec.value.stage.value, q.tx, q.origin))
  }

  lemma StepKeepsRequest(w: World, t: Step, w': World)
    requires WorldNext(w, t, w')
    ensures w'.co.req == w.co.req && w'.base == w.base
  {
  }

  lemma {:induction false} RunsKeepRequest(ws: seq<World>, ts: seq<Step>, k: nat)
    requires Run(ws, ts) && k <= |ts|
    ensures ws[k].co.req == ws[0].co.req && ws[k].base == ws[0].base
  {
    if k > 0 {
      RunsKeepRequest(ws, ts, k - 1);
      StepKeepsRequest(ws[k - 1], ts[k - 1], ws[k]);
    }
  }

  lemma StableAnswerIsDurable(s: Slot, q: StageRequest, marked: bool, fault: Fault)
    requires StageSlot(s, q, marked, fault).reply.Ok? && !StageSlot(s, q, marked, fault).reply.staged
    ensures HasDurable(StageSlot(s, q, marked, fault).slot)
  {
  }

  /** An acknowledged commit leaves a durable record; the copy is durable exactly when the pin was still there. */
  lemma CommitAnswerIsDurable(s: Slot, tx: TransactionId, peer: Option<PeerId>, now: Time, fault: Fault)
    requires SoundRecord(s) && CommitSlot(s, tx, peer, now, fault).reply.Ok?
    ensures HasDurable(CommitSlot(s, tx, peer, now, fault).slot) <==> s.pin
    ensures Recorded(CommitSlot(s, tx, peer, now, fault).slot)
  {
  }

  /** A record that says the copy is permanent, whether or not its pin is there. */
  predicate Recorded(s: Slot) { HasDurable(Slot(s.rec, true)) }

  lemma PeerSlotAfter(w: World, p: PeerId, op: Op, w': World)
    requires AtPeer(w, p, op, w') && OneCid(op)
    ensures p in w'.peers && PeerSlot(w', op.cid, p) == Effect(w.peers[p].node, op)
  {
  }

  /** The only steps that make a copy count as permanent, and what they were told. */
  lemma WhoVouches(w: World, t: Step, w': World, c: Cid, p: PeerId)
    requires BooksInv(w.co) && WorldNext(w, t, w') && !Vouched(w.co, c, p) && Vouched(w'.co, c, p)
    ensures t.HaveAnswered? || t.StageAt? || t.CommitAt? || t.ProbeAt?
    ensures t.c == c && t.p == p && p in w.peers
    ensures t.HaveAnswered? || t.ProbeAt? ==> Still(w, w') && AnswersHave(PeerSlot(w, c, p))
    ensures t.StageAt? ==> AtPeer(w, p, Stage(c, t.q, t.marked, t.fault), w') && StablyStored(PeerSlot(w, c, p), t)
    ensures t.CommitAt? ==> AtPeer(w, p, CommitOp(w.co, c, t.now, t.fault), w')
    ensures t.CommitAt? ==> CommitSlot(PeerSlot(w, c, p), w.co.req.id, Some(w.co.req.me), t.now, t.fault).reply.Ok?
  {
  }

  predicate StablyStored(s: Slot, t: Step)
    requires t.StageAt?
  {
    StageSlot(s, t.q, t.marked, t.fault).reply.Ok? && !StageSlot(s, t.q, t.marked, t.fault).reply.staged
  }

  /**
   * What an answer that makes a copy count has to meet for the copy to be durable: a pin under
   * the stage that is committed, a record under a `have`; a stable stage brings both along.
   */
  predicate Meets(w: World, t: Step)
    requires t.HaveAnswered? || t.StageAt? || t.CommitAt? || t.ProbeAt?
    requires t.p in w.peers
  {
    if t.StageAt? then true else if t.CommitAt? then PeerSlot(w, t.c, t.p).pin else PeerSlot(w, t.c, t.p).rec.Some?
  }

  /** Step `t` makes the copy of `c` on `p` count as permanent. */
  predicate Vouches(w: World, t: Step, w': World, c: Cid, p: PeerId) {
    && (t.HaveAnswered? || t.StageAt? || t.CommitAt? || t.ProbeAt?)
    && t.c == c && t.p == p && p in w.peers && p in w'.peers
    && !Vouched(w.co, c, p) && Vouched(w'.co, c, p)
  }

  /**
   * The moment a copy begins to count as permanent the peer has a record of it or, unregistered,
   * its pin. It holds the file confirmed, pinned, settled and unstaged exactly when the answer
   * met a pinned stage or a record.
   */
  lemma VouchedIsTrue(w: World, t: Step, w': World, c: Cid, p: PeerId)
    requires NodesInv(w) && BooksInv(w.co) && WorldNext(w, t, w') && !Vouched(w.co, c, p) && Vouched(w'.co, c, p)
    ensures Vouches(w, t, w', c, p)
    ensures HasDurable(PeerSlot(w', c, p)) <==> Meets(w, t)
    ensures t.CommitAt? ==> Recorded(PeerSlot(w', c, p))
    ensures !t.CommitAt? ==> AnswersHave(PeerSlot(w', c, p))
  {
    WhoVouches(w, t, w', c, p);
    assert Inv(w.peers[p]);
    if t.StageAt? {
      StageWitness(w, p, Stage(c, t.q, t.marked, t.fault), w');
    } else if t.CommitAt? {
      CommitWitness(w, p, CommitOp(w.co, c, t.now, t.fault), w');
    }
  }

  lemma StageWitness(w: World, p: PeerId, op: Op, w': World)
    requires AtPeer(w, p, op, w') && op.Stage?
    requires StageSlot(PeerSlot(w, op.cid, p), op.q, op.aborted, op.fault).reply.Ok?
    requires !StageSlot(PeerSlot(w, op.cid, p), op.q, op.aborted, op.fault).reply.staged
    ensures p in w'.peers && HasDurable(PeerSlot(w', op.cid, p))
  {
    PeerSlotAfter(w, p, op, w');
    StableAnswerIsDurable(PeerSlot(w, op.cid, p), op.q, op.aborted, op.fault);
  }

  lemma CommitWitness(w: World, p: PeerId, op: Op, w': World)
    requires AtPeer(w, p, op, w') && op.Commit? && Inv(w.peers[p])
    requires CommitSlot(PeerSlot(w, op.cid, p), op.tx, op.peer, op.now, op.fault).reply.Ok?
    ensures p in w'.peers && Recorded(PeerSlot(w', op.cid, p))
    ensures HasDurable(PeerSlot(w', op.cid, p)) <==> PeerSlot(w, op.cid, p).pin
  {
    PeerSlotAfter(w, p, op, w');
    assert SoundRecord(SlotAt(w.peers[p].node, op.cid));
    CommitAnswerIsDurable(PeerSlot(w, op.cid, p), op.tx, op.peer, op.now, op.fault);
  }

  /** At step `j` the copy began to count, and was durable exactly when the answer met what it has to meet. */
  ghost predicate CountedAt(ws: seq<World>, ts: seq<Step>, j: nat, c: Cid, p: PeerId)
    requires |ws| == |ts| + 1
  {
    && j < |ts| && Vouches(ws[j], ts[j], ws[j + 1], c, p)
    && (HasDurable(PeerSlot(ws[j + 1], c, p)) <==> Meets(ws[j], ts[j]))
    && (if ts[j].CommitAt? then Recorded(PeerSlot(ws[j + 1], c, p)) else AnswersHave(PeerSlot(ws[j + 1], c, p)))
  }

  lemma CountedNow(ws: seq<World>, ts: seq<Step>, j: nat, c: Cid, p: PeerId)
    requires Run(ws, ts) && WorldInv(ws[0]) && j < |ts| && !Vouched(ws[j].co, c, p) && Vouched(ws[j + 1].co, c, p)
    ensures CountedAt(ws, ts, j, c, p)
  {
    RunsKeepInv(ws, ts, j);
    VouchedIsTrue(ws[j], ts[j], ws[j + 1], c, p);
  }

  /** A copy that counts as permanent began to count at some step of the run. */
  lemma {:induction false} VouchedWasCounted(ws: seq<World>, ts: seq<Step>, k: nat, c: Cid, p: PeerId)
    returns (j: nat)
    requires Run(ws, ts) && WorldInv(ws[0]) && k <= |ts| && !Vouched(ws[0].co, c, p) && Vouched(ws[k].co, c, p)
    ensures j < k && CountedAt(ws, ts, j, c, p)
  {
    if Vouched(ws[k - 1].co, c, p) {
      j := VouchedWasCounted(ws, ts, k - 1, c, p);
    } else {
      CountedNow(ws, ts, k - 1, c, p);
      j := k - 1;
    }
  }

  /** Verified names never outnumber the peers behind them. */
  lemma {:induction false} NamesAreFewer(co: Coordinator, ps: set<PeerId>)
    ensures |NamesOf(co, ps)| <= |ps|
  {
    if ps != {} {
      var p :| p in ps;
      NamesAreFewer(co, ps - {p});
      if p in co.req.names {
        assert NamesOf(co, ps) == NamesOf(co, ps - {p}) + {co.req.names[p]};
      } else {
        assert NamesOf(co, ps) == NamesOf(co, ps - {p});
      }
    }
  }

  /** With this node they are as many as configured, or as the age and the network allow. */
  predicate ReachQuorum(g: Policy, me: PeerId, c: Cid, ps: set<PeerId>) {
    && ps <= Elements(g.peers) - {me}
    && var n := |ps| + 1;
    g.enabled ==> n >= g.ackQuorum || n >= CopiesForAge(g.tiers, g.age(c)) || n >= |Known(me, g.peers)|
  }

  /** Distinct peers that reach the quorum, each of whose copies began to count at some step. */
  ghost predicate QuorumOf(ws: seq<World>, ts: seq<Step>, g: Policy, c: Cid, ps: set<PeerId>)
    requires |ws| == |ts| + 1
  {
    && c in ws[0].co.req.targets && ps <= ws[0].co.req.targets[c] && ReachQuorum(g, ws[0].co.req.me, c, ps)
    && forall p :: p in ps ==> exists j :: 0 <= j < |ts| && CountedAt(ws, ts, j, c, p)
  }

  lemma PlacedTargets(score: PeerId -> nat, tiers: seq<Tier>, age: nat, me: PeerId, peers: seq<PeerId>)
    ensures Elements(StorageTargets(PlaceFile(score, tiers, age, me, peers), me)) <= Elements(peers) - {me}
  {
    PlacementMeans(score, tiers, age, me, peers);
    HoldersAreTheBest(score, tiers, age, me, peers);
  }

  lemma TargetsReachQuorum(req: Request, g: Policy, c: Cid, ps: set<PeerId>)
    requires Follows(req, g) && c in req.targets && ps <= req.targets[c] && |ps| + 1 >= req.required[c]
    ensures ReachQuorum(g, req.me, c, ps)
  {
    if g.enabled {
      PlacedTargets(g.score(c), g.tiers, g.age(c), req.me, g.peers);
      RequiredAcksMeans(g.score(c), g.tiers, g.age(c), req.me, g.peers, g.ackQuorum);
    }
  }

  lemma RespondedVerified(w: World, t: Step, w': World, c: Cid)
    requires WorldNext(w, t, w') && t.Respond? && w'.co.phase == Answered(Success) && c in w.co.req.targets
    ensures Verified(w.co, c)
  {
  }

  /**
   * A success answer: for every CID of the request the configured number of copies, this node's
   * included, or as many as the age and the network allow. Behind it are distinct peers that
   * each gave an answer that counted; at that step the peer held the file confirmed, pinned,
   * settled and unstaged exactly when the answer met a pinned stage or a record.
   */
  lemma SuccessMeansQuorum(ws: seq<World>, ts: seq<Step>, before: Machine, g: Policy, c: Cid)
    requires Run(ws, ts) && Begins(ws[0], before, g) && ts != [] && ts[|ts| - 1].Respond?
    requires ws[|ts|].co.phase == Answered(Success) && c in BaselineCids(ws[0].co.req.bs)
    ensures exists ps :: QuorumOf(ws, ts, g, c, ps)
  {
    BeginsWithInv(ws[0], before, g);
    var n := |ts| - 1;
    RunsKeepRequest(ws, ts, n);
    RespondedVerified(ws[n], ts[n], ws[n + 1], c);
    var ps := VouchedAt(ws[n].co, c);
    NamesAreFewer(ws[n].co, ps);
    forall p | p in ps ensures exists j :: 0 <= j < |ts| && CountedAt(ws, ts, j, c, p) {
      var j := VouchedWasCounted(ws, ts, n, c, p);
    }
    TargetsReachQuorum(ws[0].co.req, g, c, ps);
    assert QuorumOf(ws, ts, g, c, ps);
  }

  // ---------------------------------------------------------------- when every counted copy is durable

  /** An uncovered write of peer `p` on `c`: a withdrawal or a rescue that loses the pin. */
  predicate LosesPin(w: World, t: Step, c: Cid, p: PeerId) {
    var a := ActOf(w.co, t);
    a.Remote? && a.p == p && p in w.peers && BreaksAt(w.peers[p], a.op, c)
  }

  lemma PeerPinStep(w: World, t: Step, w': World, c: Cid, p: PeerId)
    requires NodesInv(w) && Acted(w, ActOf(w.co, t), w') && p in w.peers && PinReal(PeerSlot(w, c, p))
    requires !LosesPin(w, t, c, p)
    ensures p in w'.peers && PinReal(PeerSlot(w', c, p))
  {
    var a := ActOf(w.co, t);
    if a.Remote? && a.p == p { StepKeepsPin(w.peers[p], a.op, w'.peers[p], c); }
  }

  lemma PeerPinKept(w: World, t: Step, w': World, c: Cid, p: PeerId)
    requires NodesInv(w) && WorldNext(w, t, w') && p in w.peers && PinReal(PeerSlot(w, c, p)) && !LosesPin(w, t, c, p)
    ensures p in w'.peers && PinReal(PeerSlot(w', c, p))
  {
    OneNodeActs(w, t, w');
    PeerPinStep(w, t, w', c, p);
  }

  lemma {:induction false} PeerPinStays(ws: seq<World>, ts: seq<Step>, k: nat, c: Cid, p: PeerId)
    requires Run(ws, ts) && WorldInv(ws[0]) && k <= |ts| && p in ws[0].peers && PinReal(PeerSlot(ws[0], c, p))
    requires forall i :: 0 <= i < k ==> !LosesPin(ws[i], ts[i], c, p)
    ensures p in ws[k].peers && PinReal(PeerSlot(ws[k], c, p))
  {
    if k > 0 {
      PeerPinStays(ws, ts, k - 1, c, p);
      RunsKeepInv(ws, ts, k - 1);
      PeerPinKept(ws[k - 1], ts[k - 1], ws[k], c, p);
    }
  }

  /**
   * A commit meets its pin whenever no uncovered write of that file happened on that peer since
   * the request began, so the counted copy is durable.
   */
  lemma CommittedCopyIsDurable(ws: seq<World>, ts: seq<Step>, j: nat, c: Cid, p: PeerId)
    requires Run(ws, ts) && WorldInv(ws[0]) && CountedAt(ws, ts, j, c, p) && ts[j].CommitAt?
    requires p in ws[0].peers && PinReal(PeerSlot(ws[0], c, p))
    requires forall i :: 0 <= i < j ==> !LosesPin(ws[i], ts[i], c, p)
    ensures HasDurable(PeerSlot(ws[j + 1], c, p))
  {
    assert Meets(ws[j], ts[j]) by {
      PeerPinStays(ws, ts, j, c, p);
      RunsKeepInv(ws, ts, j);
      CommitMeetsRealPin(ws[j], ts[j], ws[j + 1]);
    }
  }

  /** A peer on which no uncovered write hit the file and that never had a pin without a record. */
  ghost predicate Dependable(ws: seq<World>, ts: seq<Step>, c: Cid, p: PeerId)
    requires |ws| == |ts| + 1
  {
    && p in ws[0].peers && PinReal(PeerSlot(ws[0], c, p))
    && (forall i :: 0 <= i < |ts| ==> !LosesPin(ws[i], ts[i], c, p))
    && (forall i :: 0 <= i < |ws| && p in ws[i].peers ==> PeerSlot(ws[i], c, p) != Slot(None, true))
  }

  /** What a dependable peer is counted for is durable. */
  lemma CountedCopyIsDurable(ws: seq<World>, ts: seq<Step>, j: nat, c: Cid, p: PeerId)
    requires Run(ws, ts) && WorldInv(ws[0]) && CountedAt(ws, ts, j, c, p) && Dependable(ws, ts, c, p)
    ensures HasDurable(PeerSlot(ws[j + 1], c, p))
  {
    if ts[j].CommitAt? { CommittedCopyIsDurable(ws, ts, j, c, p); }
  }

  /** At some moment of the run the peer had the file confirmed, pinned, settled and unstaged. */
  ghost predicate HeldDurably(ws: seq<World>, c: Cid, p: PeerId) {
    exists i :: 0 <= i < |ws| && p in ws[i].peers && HoldsDurably(ws[i].peers[p].node, c)
  }

  predicate HoldsDurably(n: Node, c: Cid) {
    && c in n.pins && c in n.store
    && var r := n.store[c].file;
    && r.state == Confirmed && r.pinned && r.heldLocally && r.stage.None?
    && (r.admissionId.Some? ==> r.admissionSettledAt.Some?)
  }

  /**
   * When every peer of the network is dependable, a success answer means that the configured
   * number of copies, or as many as the age and the network allow, were made: each of the peers
   * behind it held the file durably at a moment of the request.
   */
  lemma SuccessMeansDurable(ws: seq<World>, ts: seq<Step>, before: Machine, g: Policy, c: Cid)
    requires Run(ws, ts) && Begins(ws[0], before, g) && ts != [] && ts[|ts| - 1].Respond?
    requires ws[|ts|].co.phase == Answered(Success) && c in BaselineCids(ws[0].co.req.bs)
    requires forall p :: c in ws[0].co.req.targets && p in ws[0].co.req.targets[c] ==> Dependable(ws, ts, c, p)
    ensures exists ps :: ReachQuorum(g, ws[0].co.req.me, c, ps) && forall p :: p in ps ==> HeldDurably(ws, c, p)
  {
    BeginsWithInv(ws[0], before, g);
    SuccessMeansQuorum(ws, ts, before, g, c);
    var ps :| QuorumOf(ws, ts, g, c, ps);
    forall p | p in ps ensures HeldDurably(ws, c, p) {
      var j :| 0 <= j < |ts| && CountedAt(ws, ts, j, c, p);
      CountedCopyIsDurable(ws, ts, j, c, p);
      assert HoldsDurably(ws[j + 1].peers[p].node, c);
    }
  }

  lemma CommitMeetsRealPin(w: World, t: Step, w': World)
    requires NodesInv(w) && BooksInv(w.co) && WorldNext(w, t, w') && t.CommitAt? && PinReal(PeerSlot(w, t.c, t.p))
    requires !Vouched(w.co, t.c, t.p) && Vouched(w'.co, t.c, t.p)
    ensures PeerSlot(w, t.c, t.p).pin
  {
    WhoVouches(w, t, w', t.c, t.p);
    assert SoundRecord(SlotAt(w.peers[t.p].node, t.c));
    AckedCommitHadRecord(PeerSlot(w, t.c, t.p), w.co.req.id, Some(w.co.req.me), t.now, t.fault);
  }

  lemma AckedCommitHadRecord(s: Slot, tx: TransactionId, peer: Option<PeerId>, now: Time, fault: Fault)
    requires SoundRecord(s) && CommitSlot(s, tx, peer, now, fault).reply.Ok?
    ensures s.rec.Some? && s.rec.value.pinned
  {
  }

  /**
   * A success answer: this node holds every file permanently, and its decision is settled
   * exactly when the settlement mark or the removal of the token was written.
   */
  lemma SuccessMeansSettled(w: World, cleared: set<Cid>, w': World, i: nat)
    requires WorldInv(w) && WorldNext(w, Respond(cleared), w') && w'.co.phase == Answered(Success) && i < |w.co.req.bs|
    ensures var c := w.co.req.bs[i].cid; var s := SlotAt(w'.local.node, c);
      IsConfirmed(s) && s.pin && s.rec.value.pinned && s.rec.value.heldLocally && s.rec.value.stage.None?
      && (HasDurable(s) <==> c in cleared || c !in w.co.unsettled)
  {
    var c := w.co.req.bs[i].cid;
    assert DecidedSlot(SlotAt(w.local.node, c), w.co.req.id, c !in w.co.unsettled);
  }

  lemma AbortEndsClaim(s: Slot, tx: TransactionId, peer: Option<PeerId>, fault: Fault)
    requires !AbortSlot(s, tx, peer, fault).reply.Error?
    ensures !HasClaim(AbortSlot(s, tx, peer, fault).slot, tx)
  {
    if HasClaim(s, tx) {
      var less := Without(s.rec.value.stage.value.transactionIds, tx);
      WithoutProperties(s.rec.value.stage.value.transactionIds, tx);
      assert tx in less ==> tx in Elements(less);
    }
  }

  lemma WhoAborts(w: World, t: Step, w': World, k: (Cid, PeerId))
    requires WorldNext(w, t, w') && k in w'.co.aborted && k !in w.co.aborted
    ensures t.AbortAt? && (t.c, t.p) == k && AtPeer(w, t.p, AbortOp(w.co, t.c, t.fault), w')
    ensures !AbortSlot(PeerSlot(w, t.c, t.p), w.co.req.id, Some(w.co.req.me), t.fault).reply.Error?
  {
  }

  /** A peer that acknowledged an abort holds no claim of the request right after it. */
  lemma AbortedIsWithdrawn(w: World, t: Step, w': World, c: Cid, p: PeerId)
    requires WorldNext(w, t, w') && (c, p) in w'.co.aborted && (c, p) !in w.co.aborted
    ensures t.AbortAt? && t.c == c && t.p == p && p in w'.peers && !HasClaim(PeerSlot(w', c, p), w.co.req.id)
  {
    WhoAborts(w, t, w', (c, p));
    PeerSlotAfter(w, p, AbortOp(w.co, c, t.fault), w');
    AbortEndsClaim(PeerSlot(w, c, p), w.co.req.id, Some(w.co.req.me), t.fault);
  }

  /** The former slot; exactly it when its pin was real, and with the pin its record claims otherwise. */
  predicate Restored(a: Node, b: Node, c: Cid) {
    && SlotAt(b, c) == Baseline(SlotAt(a, c))
    && (SlotAt(b, c) == SlotAt(a, c) <==> PinReal(SlotAt(a, c)))
  }

  /**
   * A quorum-miss answer: every CID of the request has its former record, up to revision,
   * and its former pin membership, or a pin the former record claimed and had lost; every peer
   * that was, or may have been, staged
   * acknowledged the abort; and whatever claim of the request any peer still shows is one
   * whose withdrawal it acknowledged.
   */
  lemma QuorumMissRestores(w: World, ok: bool, w': World)
    requires WorldInv(w) && WorldNext(w, RollBack(ok), w') && w'.co.phase == Answered(QuorumMissed)
    ensures forall i :: 0 <= i < |w.co.req.bs| ==> Restored(w.base, w'.local.node, w.co.req.bs[i].cid)
    ensures forall k :: k in w.co.attempts && w.co.attempts[k].staged ==> k in w'.co.aborted
    ensures forall c: Cid, p :: p in w'.peers && HasClaim(PeerSlot(w', c, p), w.co.req.id) ==> (c, p) in w'.co.aborted
  {
    forall i | 0 <= i < |w.co.req.bs|
      ensures Restored(w.base, w'.local.node, w.co.req.bs[i].cid)
    {
      assert OwnedDurable(SlotAt(w.local.node, w.co.req.bs[i].cid), w.co.req.id);
      assert SoundRecord(SlotAt(w.base, w.co.req.bs[i].cid));
    }
    forall c: Cid, p | p in w'.peers && HasClaim(PeerSlot(w', c, p), w.co.req.id) ensures (c, p) in w'.co.aborted {
      assert ClaimsWithin(w.peers[p], w.co.req.id, ReportedAt(w.co, p));
      assert c in ReportedAt(w.co, p);
    }
  }

  /** At some moment of the run the peer worked on the abort and held no claim of the request afterwards. */
  ghost predicate Withdrew(ws: seq<World>, c: Cid, p: PeerId) {
    exists i :: 0 <= i < |ws| && p in ws[i].peers && !HasClaim(PeerSlot(ws[i], c, p), ws[i].co.req.id)
      && (c, p) in ws[i].co.aborted
  }

  lemma {:induction false} AbortedWithdrew(ws: seq<World>, ts: seq<Step>, k: nat, c: Cid, p: PeerId)
    requires Run(ws, ts) && k <= |ts| && (c, p) !in ws[0].co.aborted && (c, p) in ws[k].co.aborted
    ensures Withdrew(ws, c, p)
  {
    if (c, p) in ws[k - 1].co.aborted {
      AbortedWithdrew(ws, ts, k - 1, c, p);
    } else {
      AbortedIsWithdrawn(ws[k - 1], ts[k - 1], ws[k], c, p);
      StepKeepsRequest(ws[k - 1], ts[k - 1], ws[k]);
    }
  }

  /**
   * A run that ends with a quorum-miss answer: this node is back at its baseline, exactly the
   * slots it had wherever their pins were real, and every peer that was or may have been staged
   * worked on the abort and held no claim of the request afterwards.
   */
  lemma QuorumMissMeansUndone(ws: seq<World>, ts: seq<Step>, before: Machine, g: Policy)
    requires Run(ws, ts) && Begins(ws[0], before, g) && ts != [] && ts[|ts| - 1].RollBack?
    requires ws[|ts|].co.phase == Answered(QuorumMissed)
    ensures forall i :: 0 <= i < |ws[0].co.req.bs| ==>
      Restored(before.node, ws[|ts|].local.node, ws[0].co.req.bs[i].cid)
    ensures forall c: Cid, p: PeerId :: Withdrawable(ws[|ts| - 1].co, c, p) ==> Withdrew(ws, c, p)
  {
    BeginsWithInv(ws[0], before, g);
    var n := |ts| - 1;
    RunsKeepRequest(ws, ts, n);
    RunsKeepInv(ws, ts, n);
    QuorumMissRestores(ws[n], ts[n].ok, ws[n + 1]);
    forall c: Cid, p: PeerId | Withdrawable(ws[n].co, c, p) ensures Withdrew(ws, c, p) {
      AbortedWithdrew(ws, ts, n + 1, c, p);
    }
  }

  predicate IsDecided(co: Coordinator) { co.phase == Committing || co.phase.Answered? }

  /** Steps that undo something of the request. */
  predicate Undoes(t: Step, id: AdmissionId) {
    t.Throws? || t.RollBack? || t.FinalizeFails? || t.AbortAt? || t.AbortLost? || (t.LocalOp? && t.op == Rollback(id))
  }

  lemma DecidedStepUndoesNothing(w: World, t: Step, w': World)
    requires WorldNext(w, t, w') && IsDecided(w.co)
    ensures IsDecided(w'.co) && !Undoes(t, w.co.req.id)
  {
  }

  /** Once this node settled the request, no later step of any run rolls it back or withdraws a copy. */
  lemma {:induction false} SettlementIsFinal(ws: seq<World>, ts: seq<Step>, i: nat, j: nat)
    requires Run(ws, ts) && i <= j < |ts| && IsDecided(ws[i].co)
    ensures IsDecided(ws[j + 1].co) && !Undoes(ts[j], ws[j].co.req.id)
  {
    if i < j { SettlementIsFinal(ws, ts, i, j - 1); }
    DecidedStepUndoesNothing(ws[j], ts[j], ws[j + 1]);
  }

  // ---------------------------------------------------------------- a success that is not settled

  /** A node that owns file 0 for request 1 and could not write the settlement mark. */
  function Unmarked(): Machine {
    Machine(
      Node(map[0 := Records.Stored(
             FileRecord("a", Confirmed, 0, None, Some(0), 1, 1, Some(1), true, true, [], Some(1), None, None), 0)],
           {0}, Owners({1}, {}), 1), map[], {})
  }

  function UnmarkedRequest(phase: Phase): Coordinator {
    Coordinator(Request(0, 1, [UploadBaseline(0, None, true)], map[0 := {}], map[0 := 1], map[]),
                phase, map[], {}, {}, {}, false, {0})
  }

  function UnmarkedWorld(phase: Phase): World {
    World(Node(map[], {}, Owners({1}, {}), 0), Unmarked(), map[], UnmarkedRequest(phase))
  }

  lemma UnmarkedInv()
    ensures WorldInv(UnmarkedWorld(Committing))
  {
    assert Entry(Unmarked().node, 0).Some?;
  }

  lemma UnmarkedIsVerified()
    ensures Verified(UnmarkedRequest(Committing), 0) && CommitsOver(UnmarkedRequest(Committing))
    ensures Owned(Unmarked().node, [UploadBaseline(0, None, true)], 1)
    ensures !HasDurable(SlotAt(Unmarked().node, 0))
  {
    assert Entry(Unmarked().node, 0).Some?;
    assert VouchedAt(UnmarkedRequest(Committing), 0) == {} && NamesOf(UnmarkedRequest(Committing), {}) == {};
  }

  lemma UnmarkedResponds()
    ensures WorldNext(UnmarkedWorld(Committing), Respond({}), UnmarkedWorld(Answered(Success)))
  {
    UnmarkedIsVerified();
  }

  /** When both the mark and the removal of the token fail, the answer is success and the decision is not settled. */
  lemma SuccessCanBeUnsettled()
    ensures WorldInv(UnmarkedWorld(Committing))
    ensures WorldNext(UnmarkedWorld(Committing), Respond({}), UnmarkedWorld(Answered(Success)))
    ensures !HasDurable(SlotAt(UnmarkedWorld(Answered(Success)).local.node, 0))
  {
    UnmarkedInv();
    UnmarkedResponds();
    UnmarkedIsVerified();
  }
}
