/**
 * Handover of one file across a network: every node decides alone, from the rendezvous
 * ranking and from probes that may be stale, whether to drop its copy
 * (src/storage/service.ts:1207-1275).
 */
module Handover {
  import opened Common
  import opened Records
  import opened Lifecycle
  import opened NodeState
  import opened UploadRoute
  import opened NodeMachine
  import opened Placement

  /** What all nodes share. Ages are not shared: each node reads its own clock. */
  datatype Network = Network(members: seq<PeerId>, tiers: seq<Tier>, cid: Cid)

  /** A demotion in progress: whom this node has to ask, and who already confirmed. */
  datatype Sweep = Sweep(holders: seq<PeerId>, confirmed: set<PeerId>)

  datatype Cluster = Cluster(nodes: map<PeerId, Machine>, sweeps: map<PeerId, Sweep>, dropped: bool)

  /** The node keeps the file, whether or not an upload still owns its record. */
  predicate Keeps(s: Slot) {
    s.pin && (s.rec.Some? ==> s.rec.value.state == Confirmed && s.rec.value.pinned && s.rec.value.heldLocally)
  }

  datatype Step =
    | Begin(p: PeerId, age: nat, peers: seq<PeerId>)
    | ProbeConfirms(p: PeerId, q: PeerId)
    | GiveUp(p: PeerId)
    | Drop(p: PeerId, revision: nat, fault: Fault)
    | Other(p: PeerId, op: Op)

  /** A temporary upload of a CID this node only has a pin of: the new record lets the pin expire. */
  predicate AdoptsBarePin(n: Node, op: Op, c: Cid) {
    op.Admit? && op.temporary && c in BaselineCids(op.bs) && SlotAt(n, c).rec.None? && c in n.pins
  }

  /** A release of a free record that is written. */
  predicate ReleasesCopy(n: Node, op: Op, c: Cid) {
    && op.Release? && op.cid == c && op.fault == Works
    && SlotAt(n, c).rec.Some? && !IsLifecycleBusy(SlotAt(n, c).rec.value, c, n.owners)
  }

  /** A handover of a free record, at its revision, whose write lands. */
  predicate DropsCopy(n: Node, op: Op, c: Cid) {
    && op.Demote? && op.cid == c && op.fault != FailsBeforeWrite
    && HasRevision(n, c, op.revision) && !IsLifecycleBusy(SlotAt(n, c).rec.value, c, n.owners)
  }

  /** The steps that cost a node a copy it keeps, decided from what the step finds. */
  predicate TakesCopy(n: Node, op: Op, c: Cid) {
    AdoptsBarePin(n, op, c) || ReleasesCopy(n, op, c) || DropsCopy(n, op, c)
  }

  /** Node `p` takes the step `op`, every other node stands still. */
  ghost predicate Moves(c: Cluster, p: PeerId, op: Op, c': Cluster) {
    && p in c.nodes && c'.nodes.Keys == c.nodes.Keys && NodeMachine.Next(c.nodes[p], op, c'.nodes[p])
    && forall q :: q in c.nodes && q != p ==> c'.nodes[q] == c.nodes[q]
  }

  ghost predicate Next(n: Network, score: PeerId -> nat, c: Cluster, t: Step, c': Cluster) {
    && t.p in n.members && t.p in c.nodes
    && match t
       case Begin(p, age, peers) =>
         var placement := PlaceFile(score, n.tiers, age, p, peers);
         && Elements([p] + peers) == Elements(n.members)
         && MayDemote(placement)
         && |StorageTargets(placement, p)| >= placement.copies
         && c' == c.(sweeps := c.sweeps[p := Sweep(StorageTargets(placement, p), {})])
       case ProbeConfirms(p, q) =>
         && p in c.sweeps && q in c.sweeps[p].holders && q in c.nodes && AnswersHave(SlotAt(c.nodes[q].node, n.cid))
         && c' == c.(sweeps := c.sweeps[p := c.sweeps[p].(confirmed := c.sweeps[p].confirmed + {q})])
       case GiveUp(p) => c' == c.(sweeps := c.sweeps - {p})
       case Drop(p, revision, fault) =>
         && p in c.sweeps && (forall q :: q in c.sweeps[p].holders ==> q in c.sweeps[p].confirmed)
         && Moves(c, p, Demote(n.cid, revision, fault), c')
         && c'.sweeps == c.sweeps - {p} && c'.dropped
       case Other(p, op) =>
         && !(op.Demote? && op.cid == n.cid) && Moves(c, p, op, c')
         && c'.sweeps == c.sweeps && c'.dropped == c.dropped
  }

  /** No core node releases the file, or lets a temporary upload adopt its bare pin of it. */
  predicate SparesCore(n: Network, score: PeerId -> nat, c: Cluster, t: Step)
    requires |n.tiers| > 0
  {
    t.Other? && t.p in c.nodes && t.p in Core(n, score) ==> !TakesCopy(c.nodes[t.p].node, t.op, n.cid)
  }

  // ---------------------------------------------------------------- the core

  function LeastCopies(tiers: seq<Tier>): (n: nat)
    requires |tiers| > 0
    ensures forall i :: 0 <= i < |tiers| ==> n <= tiers[i].copies
  {
    var last := tiers[|tiers| - 1].copies;
    if |tiers| == 1 then last
    else
      var rest := LeastCopies(tiers[..|tiers| - 1]);
      assert forall i :: 0 <= i < |tiers| - 1 ==> tiers[i] == tiers[..|tiers| - 1][i];
      if last <= rest then last else rest
  }

  /** The smallest number of copies any tier asks for, as far as the network allows. */
  function CoreSize(n: Network): (k: nat)
    requires |n.tiers| > 0
  {
    EffectiveCopies(LeastCopies(n.tiers), |n.members|)
  }

  /** The best-ranked nodes up to that number. */
  function Core(n: Network, score: PeerId -> nat): seq<PeerId>
    requires |n.tiers| > 0
  {
    Take(RankHolders(score, n.members), CoreSize(n))
  }

  lemma {:induction false} LeastIsATier(tiers: seq<Tier>)
    requires |tiers| > 0
    ensures exists i :: 0 <= i < |tiers| && tiers[i].copies == LeastCopies(tiers)
  {
    if |tiers| > 1 && LeastCopies(tiers[..|tiers| - 1]) < tiers[|tiers| - 1].copies {
      LeastIsATier(tiers[..|tiers| - 1]);
      var i :| 0 <= i < |tiers| - 1 && tiers[..|tiers| - 1][i].copies == LeastCopies(tiers[..|tiers| - 1]);
      assert tiers[i].copies == LeastCopies(tiers);
    } else {
      assert tiers[|tiers| - 1].copies == LeastCopies(tiers);
    }
  }

  /** Every tier asks for at least `k` copies, and there are that many nodes. */
  predicate AlwaysAsks(n: Network, k: nat) {
    k <= |n.members| && forall i :: 0 <= i < |n.tiers| ==> k <= n.tiers[i].copies
  }

  /** The core is everybody with fewer nodes above it than every tier asks copies for. */
  lemma CoreIsTheTop(n: Network, score: PeerId -> nat, k: nat, x: PeerId)
    requires ValidNetwork(n) && AlwaysAsks(n, k) && x in n.members
    requires |Above(score, Elements(n.members), x)| < k
    ensures x in Core(n, score)
  {
    LeastIsATier(n.tiers);
    FirstPlaces(score, n.members, CoreSize(n), x);
  }

  lemma CoreIsLarge(n: Network, score: PeerId -> nat, k: nat)
    requires ValidNetwork(n) && AlwaysAsks(n, k)
    ensures k <= |Elements(Core(n, score))|
  {
    LeastIsATier(n.tiers);
    RankingRanks(score, n.members);
    assert NoDuplicates(Core(n, score));
    NoDuplicatesSize(Core(n, score));
  }

  ghost predicate ValidNetwork(n: Network) { NoDuplicates(n.members) && ValidTiers(n.tiers) }

  /**
   * Whatever age a node believes the file has: a node that may demote is outside the core,
   * and has to ask the whole core.
   */
  lemma CoreNeverDemotes(n: Network, score: PeerId -> nat, p: PeerId, age: nat, peers: seq<PeerId>)
    requires ValidNetwork(n) && Elements([p] + peers) == Elements(n.members)
    requires MayDemote(PlaceFile(score, n.tiers, age, p, peers))
    ensures p !in Core(n, score)
    ensures forall q :: q in Core(n, score) ==> q in StorageTargets(PlaceFile(score, n.tiers, age, p, peers), p)
  {
    var placement := PlaceFile(score, n.tiers, age, p, peers);
    MembersAgree(score, n.members, p, peers);
    CopiesComeFromATier(n.tiers, age);
    var i :| 0 <= i < |n.tiers| && n.tiers[i].copies == CopiesForAge(n.tiers, age);
    assert CoreSize(n) <= placement.copies;
    assert Core(n, score) <= placement.holders;
    WithoutProperties(placement.holders, p);
    forall q | q in Core(n, score) ensures q in placement.holders && q in StorageTargets(placement, p) && q != p {
      assert q in Elements(placement.holders) - {p};
      assert q in Elements(StorageTargets(placement, p));
    }
  }

  // ---------------------------------------------------------------- one node keeps its copy

  ghost predicate NodeInv(m: Machine) { Inv(m) && TokensInv(m) }

  /** The node keeps `c`, and would after the rollback of any upload that is still running. */
  ghost predicate KeepsFor(m: Machine, c: Cid) {
    Keeps(SlotAt(m.node, c)) && forall u :: u in m.uploads ==> RollbacksKeep(SlotAt(m.node, c), m.uploads[u], u, c)
  }

  ghost predicate RollbacksKeep(s: Slot, bs: seq<UploadBaseline>, u: AdmissionId, c: Cid) {
    forall i :: 0 <= i < |bs| && bs[i].cid == c ==> Keeps(RollbackSlot(s, bs[i], Some(u)))
  }

  /** Whoever answers `have` keeps the copy: a settled record is beyond every rollback. */
  lemma HaveMeansKeeps(m: Machine, c: Cid)
    requires NodeInv(m) && AnswersHave(SlotAt(m.node, c))
    ensures KeepsFor(m, c)
  {
    forall u | u in m.uploads ensures RollbacksKeep(SlotAt(m.node, c), m.uploads[u], u, c) {
      assert !OwnedBy(SlotAt(m.node, c), u);
    }
  }

  /** An operation on the CID keeps the copy exactly when it neither releases nor drops it. */
  lemma EffectKeepsCopy(n: Node, op: Op)
    requires OneCid(op) && SoundRecord(SlotAt(n, op.cid)) && Keeps(SlotAt(n, op.cid))
    requires op.GcForget? ==> !HasRevision(n, op.cid, op.revision)
    ensures Keeps(Effect(n, op)) <==> !TakesCopy(n, op, op.cid)
  {
  }

  lemma OneCidKeepsCopy(m: Machine, op: Op, m': Machine, c: Cid)
    requires NodeInv(m) && NodeMachine.Next(m, op, m') && KeepsFor(m, c) && OneCid(op)
    ensures KeepsFor(m', c) <==> !TakesCopy(m.node, op, c)
  {
    if op.cid == c {
      assert SoundRecord(SlotAt(m.node, c));
      if op.GcForget? { assert (c, op.revision) in m.released; }
      EffectKeepsCopy(m.node, op);
      forall u | u in m'.uploads && Keeps(SlotAt(m'.node, c))
        ensures RollbacksKeep(SlotAt(m'.node, c), m'.uploads[u], u, c)
      {
        assert RollbacksKeep(SlotAt(m.node, c), m.uploads[u], u, c);
        if OwnedBy(SlotAt(m'.node, c), u) { EffectKeepsOwner(m.node, op, u); }
      }
    }
  }

  lemma OwnerStepKeepsSlot(m: Machine, op: Op, m': Machine, c: Cid)
    requires NodeInv(m) && NodeMachine.Next(m, op, m') && KeepsFor(m, c) && !OneCid(op)
    ensures Keeps(SlotAt(m'.node, c)) <==> !AdoptsBarePin(m.node, op, c)
  {
    assert SoundRecord(SlotAt(m.node, c));
    match op
    case Admit(id, bs, temporary) =>
      if c in BaselineCids(bs) { var i :| 0 <= i < |bs| && bs[i].cid == c; }
    case Rollback(id) =>
      var bs := m.uploads[id];
      assert RollbacksKeep(SlotAt(m.node, c), bs, id, c);
      if c in BaselineCids(bs) { var i :| 0 <= i < |bs| && bs[i].cid == c; }
    case Settle(id, reports, at, failed) =>
      var bs := m.uploads[id];
      if c in BaselineCids(bs) { var i :| 0 <= i < |bs| && bs[i].cid == c; }
    case _ =>
  }

  /** A running upload still finds the slot it would roll back, or one that is not its own. */
  lemma OwnerStepKeepsRollback(m: Machine, op: Op, m': Machine, c: Cid, u: AdmissionId)
    requires NodeInv(m) && NodeMachine.Next(m, op, m') && KeepsFor(m, c) && !OneCid(op)
    requires u in m'.uploads && Keeps(SlotAt(m'.node, c))
    ensures RollbacksKeep(SlotAt(m'.node, c), m'.uploads[u], u, c)
  {
    if u in m.uploads { assert RollbacksKeep(SlotAt(m.node, c), m.uploads[u], u, c); }
    match op
    case Admit(id, bs, temporary) =>
      if c in BaselineCids(bs) { var i :| 0 <= i < |bs| && bs[i].cid == c; }
    case Rollback(id) =>
      var bs := m.uploads[id];
      if c in BaselineCids(bs) {
        var i :| 0 <= i < |bs| && bs[i].cid == c;
        assert BaselineOwnersAreGone(bs, m.node.owners);
        assert Mentions(bs[i].previous, u) ==> u !in m.node.owners.admissions;
      }
    case Settle(id, reports, at, failed) =>
      var bs := m.uploads[id];
      if c in BaselineCids(bs) { var i :| 0 <= i < |bs| && bs[i].cid == c; }
    case _ =>
  }

  /**
   * A node that keeps its copy goes on keeping it, whatever it does and whatever fails, exactly
   * when the step does not release it, hand it over, or let a temporary upload adopt a pin
   * without a record.
   */
  lemma StepKeepsCopy(m: Machine, op: Op, m': Machine, c: Cid)
    requires NodeInv(m) && NodeMachine.Next(m, op, m') && KeepsFor(m, c)
    ensures KeepsFor(m', c) <==> !TakesCopy(m.node, op, c)
  {
    if OneCid(op) {
      OneCidKeepsCopy(m, op, m', c);
    } else {
      OwnerStepKeepsSlot(m, op, m', c);
      forall u | u in m'.uploads && Keeps(SlotAt(m'.node, c))
        ensures RollbacksKeep(SlotAt(m'.node, c), m'.uploads[u], u, c)
      {
        OwnerStepKeepsRollback(m, op, m', c, u);
      }
    }
  }

  lemma StepKeepsNodeInv(m: Machine, op: Op, m': Machine)
    requires NodeInv(m) && NodeMachine.Next(m, op, m')
    ensures NodeInv(m')
  {
    StepKeepsInv(m, op, m');
    StepKeepsTokens(m, op, m');
  }

  // ---------------------------------------------------------------- invariant

  ghost predicate CoreKept(n: Network, score: PeerId -> nat, c: Cluster, asked: set<PeerId>)
    requires |n.tiers| > 0
  {
    forall q :: q in Core(n, score) && q in asked ==> q in c.nodes && KeepsFor(c.nodes[q], n.cid)
  }

  ghost predicate ClusterInv(n: Network, score: PeerId -> nat, c: Cluster)
    requires |n.tiers| > 0
  {
    && (forall p :: p in c.nodes ==> NodeInv(c.nodes[p]))
    && (forall p :: p in c.sweeps ==> p !in Core(n, score) && Elements(Core(n, score)) <= Elements(c.sweeps[p].holders))
    && (forall p :: p in c.sweeps ==> CoreKept(n, score, c, c.sweeps[p].confirmed))
    && (c.dropped ==> CoreKept(n, score, c, Elements(Core(n, score))))
  }

  lemma BeginKeepsInv(n: Network, score: PeerId -> nat, c: Cluster, t: Step, c': Cluster)
    requires ValidNetwork(n) && ClusterInv(n, score, c) && Next(n, score, c, t, c') && t.Begin?
    ensures ClusterInv(n, score, c')
  {
    CoreNeverDemotes(n, score, t.p, t.age, t.peers);
  }

  lemma ProbeKeepsInv(n: Network, score: PeerId -> nat, c: Cluster, t: Step, c': Cluster)
    requires ValidNetwork(n) && ClusterInv(n, score, c) && Next(n, score, c, t, c') && t.ProbeConfirms?
    ensures ClusterInv(n, score, c')
  {
    HaveMeansKeeps(c.nodes[t.q], n.cid);
  }

  /** Nodes keep what they kept when one of them moves, unless that one drops. */
  lemma MoveKeepsCore(n: Network, score: PeerId -> nat, c: Cluster, p: PeerId, op: Op, c': Cluster, asked: set<PeerId>)
    requires |n.tiers| > 0 && (forall q :: q in c.nodes ==> NodeInv(c.nodes[q])) && Moves(c, p, op, c')
    requires CoreKept(n, score, c, asked) && (p in Core(n, score) ==> !TakesCopy(c.nodes[p].node, op, n.cid))
    ensures CoreKept(n, score, c', asked)
  {
    if p in Core(n, score) && p in asked { StepKeepsCopy(c.nodes[p], op, c'.nodes[p], n.cid); }
  }

  lemma MoveKeepsNodes(n: Network, c: Cluster, p: PeerId, op: Op, c': Cluster)
    requires (forall q :: q in c.nodes ==> NodeInv(c.nodes[q])) && Moves(c, p, op, c')
    ensures forall q :: q in c'.nodes ==> NodeInv(c'.nodes[q])
  {
    StepKeepsNodeInv(c.nodes[p], op, c'.nodes[p]);
  }

  /** A node that drops was told by the whole core, and is not part of it. */
  lemma DropKeepsInv(n: Network, score: PeerId -> nat, c: Cluster, t: Step, c': Cluster)
    requires ValidNetwork(n) && ClusterInv(n, score, c) && Next(n, score, c, t, c') && t.Drop?
    ensures ClusterInv(n, score, c')
  {
    var op := Demote(n.cid, t.revision, t.fault);
    MoveKeepsNodes(n, c, t.p, op, c');
    assert forall q :: q in Core(n, score) ==> q in Elements(c.sweeps[t.p].holders);
    MoveKeepsCore(n, score, c, t.p, op, c', c.sweeps[t.p].confirmed);
    forall p | p in c'.sweeps ensures CoreKept(n, score, c', c'.sweeps[p].confirmed) {
      MoveKeepsCore(n, score, c, t.p, op, c', c.sweeps[p].confirmed);
    }
  }

  lemma OtherKeepsInv(n: Network, score: PeerId -> nat, c: Cluster, t: Step, c': Cluster)
    requires ValidNetwork(n) && ClusterInv(n, score, c) && Next(n, score, c, t, c') && t.Other?
    requires SparesCore(n, score, c, t)
    ensures ClusterInv(n, score, c')
  {
    MoveKeepsNodes(n, c, t.p, t.op, c');
    forall p | p in c'.sweeps ensures CoreKept(n, score, c', c'.sweeps[p].confirmed) {
      MoveKeepsCore(n, score, c, t.p, t.op, c', c.sweeps[p].confirmed);
    }
    if c'.dropped { MoveKeepsCore(n, score, c, t.p, t.op, c', Elements(Core(n, score))); }
  }

  lemma ClusterStepKeepsInv(n: Network, score: PeerId -> nat, c: Cluster, t: Step, c': Cluster)
    requires ValidNetwork(n) && ClusterInv(n, score, c) && Next(n, score, c, t, c') && SparesCore(n, score, c, t)
    ensures ClusterInv(n, score, c')
  {
    match t
    case Begin(p, age, peers) => BeginKeepsInv(n, score, c, t, c');
    case ProbeConfirms(p, q) => ProbeKeepsInv(n, score, c, t, c');
    case GiveUp(p) =>
    case Drop(p, revision, fault) => DropKeepsInv(n, score, c, t, c');
    case Other(p, op) => OtherKeepsInv(n, score, c, t, c');
  }

  /** Once a copy was dropped, the core keeps its own through a step exactly when the step spares it. */
  lemma CoreKeptExactlyWhenSpared(n: Network, score: PeerId -> nat, c: Cluster, t: Step, c': Cluster)
    requires ValidNetwork(n) && ClusterInv(n, score, c) && Next(n, score, c, t, c') && c.dropped
    ensures CoreKept(n, score, c', Elements(Core(n, score))) <==> SparesCore(n, score, c, t)
  {
    if SparesCore(n, score, c, t) {
      ClusterStepKeepsInv(n, score, c, t, c');
      if !t.Drop? { assert c'.dropped; }
    } else {
      assert KeepsFor(c.nodes[t.p], n.cid);
      StepKeepsCopy(c.nodes[t.p], t.op, c'.nodes[t.p], n.cid);
      assert t.p in Elements(Core(n, score));
    }
  }

  // ---------------------------------------------------------------- whole runs

  ghost predicate Run(n: Network, score: PeerId -> nat, cs: seq<Cluster>, ts: seq<Step>) {
    |cs| == |ts| + 1 && forall i :: 0 <= i < |ts| ==> Next(n, score, cs[i], ts[i], cs[i + 1])
  }

  ghost predicate CoreSpared(n: Network, score: PeerId -> nat, cs: seq<Cluster>, ts: seq<Step>)
    requires |n.tiers| > 0 && |cs| == |ts| + 1
  {
    forall i :: 0 <= i < |ts| ==> SparesCore(n, score, cs[i], ts[i])
  }

  /** Nothing dropped, nobody probing, every slot sound; copies may be anywhere. */
  ghost predicate Start(c: Cluster) {
    !c.dropped && c.sweeps == map[] && forall p :: p in c.nodes ==> NodeInv(c.nodes[p])
  }

  lemma {:induction false} ClusterRunsKeepInv(n: Network, score: PeerId -> nat, cs: seq<Cluster>, ts: seq<Step>, k: nat)
    requires ValidNetwork(n) && Run(n, score, cs, ts) && Start(cs[0]) && CoreSpared(n, score, cs, ts) && k <= |ts|
    ensures ClusterInv(n, score, cs[k])
  {
    if k > 0 {
      ClusterRunsKeepInv(n, score, cs, ts, k - 1);
      ClusterStepKeepsInv(n, score, cs[k - 1], ts[k - 1], cs[k]);
    } else {
      StartsWithInv(n, score, cs[0]);
    }
  }

  lemma StartsWithInv(n: Network, score: PeerId -> nat, c: Cluster)
    requires |n.tiers| > 0 && Start(c)
    ensures ClusterInv(n, score, c)
  {
  }

  /** The node still has the pin, and any record of the file says that it is durable and held. */
  predicate StillHolds(c: Cluster, p: PeerId, cid: Cid) {
    && p in c.nodes && cid in c.nodes[p].node.pins
    && (cid in c.nodes[p].node.store ==>
          && c.nodes[p].node.store[cid].file.state == Confirmed
          && c.nodes[p].node.store[cid].file.pinned && c.nodes[p].node.store[cid].file.heldLocally)
  }

  function Copies(c: Cluster, cid: Cid): set<PeerId> { set p | p in c.nodes && StillHolds(c, p, cid) }

  /**
   * Handover safety. Probes, drops and everything else any number of nodes do interleave
   * arbitrarily, and the nodes may disagree about the age of the file; only core nodes may not
   * give up a copy outside handover. Once any node has dropped its copy, as many nodes as every
   * tier asks for still hold theirs: all those with fewer than that many nodes above them, and
   * none of them is handing over.
   */
  lemma HandoverKeepsCore(n: Network, score: PeerId -> nat, cs: seq<Cluster>, ts: seq<Step>, k: nat)
    requires ValidNetwork(n) && Run(n, score, cs, ts) && Start(cs[0]) && CoreSpared(n, score, cs, ts) && k <= |ts|
    ensures forall m: nat, x :: AlwaysAsks(n, m) && x in n.members && |Above(score, Elements(n.members), x)| < m ==>
      x !in cs[k].sweeps && (cs[k].dropped ==> StillHolds(cs[k], x, n.cid))
    ensures forall m: nat :: cs[k].dropped && AlwaysAsks(n, m) ==> m <= |Copies(cs[k], n.cid)|
  {
    ClusterRunsKeepInv(n, score, cs, ts, k);
    forall m: nat, x | AlwaysAsks(n, m) && x in n.members && |Above(score, Elements(n.members), x)| < m
      ensures x !in cs[k].sweeps && (cs[k].dropped ==> StillHolds(cs[k], x, n.cid))
    {
      CoreIsTheTop(n, score, m, x);
    }
    forall m: nat | cs[k].dropped && AlwaysAsks(n, m) ensures m <= |Copies(cs[k], n.cid)| {
      CoreIsLarge(n, score, m);
      assert forall x :: x in Core(n, score) ==> KeepsFor(cs[k].nodes[x], n.cid);
      SubsetSize(Elements(Core(n, score)), Copies(cs[k], n.cid));
    }
  }

  /** After a drop somebody still holds the file, whatever the tiers. */
  lemma SomebodyKeepsIt(n: Network, score: PeerId -> nat, cs: seq<Cluster>, ts: seq<Step>, k: nat)
    requires ValidNetwork(n) && Run(n, score, cs, ts) && Start(cs[0]) && CoreSpared(n, score, cs, ts) && k <= |ts|
    requires cs[k].dropped
    ensures Copies(cs[k], n.cid) != {}
  {
    DroppersAreMembers(n, score, cs, ts, k);
    assert AlwaysAsks(n, 1);
    HandoverKeepsCore(n, score, cs, ts, k);
  }

  lemma {:induction false} DroppersAreMembers(n: Network, score: PeerId -> nat, cs: seq<Cluster>, ts: seq<Step>, k: nat)
    requires Run(n, score, cs, ts) && Start(cs[0]) && k <= |ts| && cs[k].dropped
    ensures |n.members| > 0
  {
    assert k > 0;
    assert ts[k - 1].p in n.members;
  }
}
