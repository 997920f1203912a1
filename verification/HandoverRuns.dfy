/**
 * A handover that ends without any copy. Node 1 is the one designated holder and has only a
 * pin without a record; node 0 asks it, hands over and drops. A temporary upload then adopts
 * the pin of node 1 and expires.
 */
module HandoverRuns {
  import opened Common
  import opened Records
  import opened Lifecycle
  import opened NodeState
  import opened UploadRoute
  import opened NodeMachine
  import opened Placement
  import opened Handover

  function TwoNodes(): Network { Network([0, 1], [Tier(0, 1)], 0) }

  function Score(p: PeerId): nat { if p == 1 then 1 else 0 }

  lemma Ranking()
    ensures RankHolders(Score, [0, 1]) == [1, 0]
  {
    assert [0, 1][1..] == [1] && [1][1..] == [];
    assert RankHolders(Score, [1]) == [1];
  }

  lemma Members()
    ensures Distinct([0] + [1]) == [0, 1]
  {
    assert [0][..0] == [] && [0, 1][..1] == [0] && [0] + [1] == [0, 1];
    assert Distinct([0]) == [0];
  }

  lemma NodeZeroAsksNodeOne()
    ensures var placement := PlaceFile(Score, [Tier(0, 1)], 0, 0, [1]);
      MayDemote(placement) && placement.copies == 1 && StorageTargets(placement, 0) == [1]
  {
    Members();
    Ranking();
    assert [1, 0][..1] == [1];
    assert Without([1], 0) == [1];
  }

  lemma NodeOneIsTheCore()
    ensures ValidNetwork(TwoNodes()) && Core(TwoNodes(), Score) == [1]
  {
    Ranking();
    assert [1, 0][..1] == [1];
  }

  // ---------------------------------------------------------------- the nodes

  function Of(store: map<Cid, Stored>, pins: set<Cid>, running: set<AdmissionId>, next: nat): Machine {
    Machine(Node(store, pins, Owners(running, {}), next), map[], {})
  }

  function HeldFile(): FileRecord { HandedOver().(pinned := true, heldLocally := true) }

  function Holder(): Machine { Of(map[0 := Stored(HeldFile(), 0)], {0}, {}, 1) }

  function Former(): Machine { Of(map[0 := Stored(Demoted(HeldFile()), 1)], {}, {}, 2) }

  function Bare(running: set<AdmissionId>): Machine { Of(map[], {0}, running, 0) }

  /** The temporary record, with the token of request 7 or without. */
  function Uploaded(owner: Option<AdmissionId>, settledAt: Option<Time>): FileRecord {
    FileRecord("a", Temporary, 0, Some(10), None, 1, 1, Some(1), true, true, [], owner, settledAt, None)
  }

  function Baselines(): seq<UploadBaseline> { [UploadBaseline(0, None, false)] }

  function Adopted(): Machine {
    Of(map[0 := Stored(Uploaded(Some(7), None), 0)], {0}, {7}, 1).(uploads := map[7 := Baselines()])
  }

  function Settled(): Machine { Of(map[0 := Stored(Uploaded(Some(7), Some(9)), 1)], {0}, {7}, 2) }

  function Free(): Machine { Of(map[0 := Stored(Uploaded(None, None), 2)], {0}, {7}, 3) }

  function Collected(): Machine {
    Of(map[0 := Stored(Released(Uploaded(None, None)), 3)], {}, {7}, 4).(released := {(0, 3)})
  }

  lemma HolderDrops()
    ensures NodeMachine.Next(Holder(), Demote(0, 0, Works), Former())
  {
    assert Entry(Holder().node, 0) == Some(Stored(HeldFile(), 0));
    assert Entry(Former().node, 0) == Some(Stored(Demoted(HeldFile()), 1));
  }

  lemma UploadBegins()
    ensures NodeMachine.Next(Bare({}), BeginUpload(7), Bare({7}))
  {
    assert Entry(Bare({}).node, 0) == None;
  }

  lemma UploadAdopts()
    ensures NodeMachine.Next(Bare({7}), Admit(7, Baselines(), true), Adopted())
    ensures AdoptsBarePin(Bare({7}).node, Admit(7, Baselines(), true), 0)
  {
    assert Entry(Bare({7}).node, 0) == None;
    assert Entry(Adopted().node, 0) == Some(Stored(Uploaded(Some(7), None), 0));
    assert BaselineCids(Baselines()) == {0};
  }

  lemma UploadSettles()
    ensures NodeMachine.Next(Adopted(), Settle(7, map[], 9, {}), Settled())
  {
    assert Entry(Adopted().node, 0) == Some(Stored(Uploaded(Some(7), None), 0));
    assert Entry(Settled().node, 0) == Some(Stored(Uploaded(Some(7), Some(9)), 1));
    assert BaselineCids(Baselines()) == {0};
    assert Adopted().uploads - {7} == map[];
  }

  lemma TokenIsCleared()
    ensures NodeMachine.Next(Settled(), ClearTokens(7, {0}), Free())
  {
    assert Entry(Settled().node, 0) == Some(Stored(Uploaded(Some(7), Some(9)), 1));
    assert Entry(Free().node, 0) == Some(Stored(Uploaded(None, None), 2));
  }

  /** The lifetime of the record ends at 10, so a collection planned then selects it. */
  lemma CollectionReleases()
    ensures IsExpired(Uploaded(None, None), 10)
    ensures NodeMachine.Next(Free(), GcRelease(0, 2, Works), Collected())
  {
    assert Entry(Free().node, 0) == Some(Stored(Uploaded(None, None), 2));
    assert Entry(Collected().node, 0) == Some(Stored(Released(Uploaded(None, None)), 3));
  }

  // ---------------------------------------------------------------- the run

  function At(zero: Machine, one: Machine, sweeps: map<PeerId, Sweep>, dropped: bool): Cluster {
    Cluster(map[0 := zero, 1 := one], sweeps, dropped)
  }

  function Clusters(): seq<Cluster> {
    [At(Holder(), Bare({}), map[], false),
     At(Holder(), Bare({}), map[0 := Sweep([1], {})], false),
     At(Holder(), Bare({}), map[0 := Sweep([1], {1})], false),
     At(Former(), Bare({}), map[], true),
     At(Former(), Bare({7}), map[], true),
     At(Former(), Adopted(), map[], true),
     At(Former(), Settled(), map[], true),
     At(Former(), Free(), map[], true),
     At(Former(), Collected(), map[], true)]
  }

  function Moments(): seq<Step> {
    [Begin(0, 0, [1]), ProbeConfirms(0, 1), Drop(0, 0, Works), Other(1, BeginUpload(7)),
     Other(1, Admit(7, Baselines(), true)), Other(1, Settle(7, map[], 9, {})), Other(1, ClearTokens(7, {0})),
     Other(1, GcRelease(0, 2, Works))]
  }

  ghost predicate Takes(i: nat) {
    i < |Moments()| && Handover.Next(TwoNodes(), Score, Clusters()[i], Moments()[i], Clusters()[i + 1])
  }

  lemma Assemble()
    requires forall i: nat :: i < |Moments()| ==> Takes(i)
    ensures Handover.Run(TwoNodes(), Score, Clusters(), Moments())
  {
    forall i: nat | i < |Moments()|
      ensures Handover.Next(TwoNodes(), Score, Clusters()[i], Moments()[i], Clusters()[i + 1])
    {
      assert Takes(i);
    }
  }

  lemma SweepBegins()
    ensures Takes(0)
  {
    NodeZeroAsksNodeOne();
    assert [0] + [1] == [0, 1];
    var m: map<PeerId, Sweep> := map[];
    assert m[0 := Sweep([1], {})] == map[0 := Sweep([1], {})];
  }

  lemma ProbeStep()
    ensures Takes(1)
  {
    assert {} + {1} == {1};
    assert Entry(Bare({}).node, 0) == None;
    assert map[0 := Sweep([1], {})][0 := Sweep([1], {1})] == map[0 := Sweep([1], {1})];
  }

  lemma DropStep()
    ensures Takes(2)
  {
    HolderDrops();
    assert map[0 := Sweep([1], {1})] - {0} == map[];
  }

  /** Node 1 takes the step `op`, and node 0 has dropped its copy already. */
  lemma NodeOneMoves(before: Machine, op: Op, after: Machine)
    requires NodeMachine.Next(before, op, after) && !op.Demote?
    ensures Handover.Next(TwoNodes(), Score, At(Former(), before, map[], true), Other(1, op),
                          At(Former(), after, map[], true))
  {
  }

  lemma BeginStep()
    ensures Takes(3)
  {
    UploadBegins();
    NodeOneMoves(Bare({}), BeginUpload(7), Bare({7}));
  }

  lemma AdmitStep()
    ensures Takes(4)
  {
    UploadAdopts();
    NodeOneMoves(Bare({7}), Admit(7, Baselines(), true), Adopted());
  }

  lemma SettleStep()
    ensures Takes(5)
  {
    UploadSettles();
    NodeOneMoves(Adopted(), Settle(7, map[], 9, {}), Settled());
  }

  lemma ClearStep()
    ensures Takes(6)
  {
    TokenIsCleared();
    NodeOneMoves(Settled(), ClearTokens(7, {0}), Free());
  }

  lemma ReleaseStep()
    ensures Takes(7)
  {
    CollectionReleases();
    NodeOneMoves(Free(), GcRelease(0, 2, Works), Collected());
  }

  lemma IsARun()
    ensures Handover.Run(TwoNodes(), Score, Clusters(), Moments())
  {
    forall i: nat | i < |Moments()| ensures Takes(i) {
      if i == 0 { SweepBegins(); } else if i == 1 { ProbeStep(); } else if i == 2 { DropStep(); }
      else if i == 3 { BeginStep(); } else if i == 4 { AdmitStep(); } else if i == 5 { SettleStep(); }
      else if i == 6 { ClearStep(); } else { ReleaseStep(); }
    }
    Assemble();
  }

  lemma NodesAreSound()
    ensures NodeInv(Holder()) && NodeInv(Bare({}))
  {
    assert Entry(Holder().node, 0) == Some(Stored(HeldFile(), 0));
    assert Entry(Bare({}).node, 0) == None;
  }

  lemma NobodyKeepsIt()
    ensures Copies(At(Former(), Collected(), map[], true), 0) == {}
  {
    assert Entry(Former().node, 0) == Some(Stored(Demoted(HeldFile()), 1));
    assert Entry(Collected().node, 0) == Some(Stored(Released(Uploaded(None, None)), 3));
  }

  lemma HarmlessSteps(n: Network, score: PeerId -> nat, c: Cluster, t: Step)
    requires |n.tiers| > 0 && (t.Other? ==> !t.op.Admit? && !t.op.Release? && !t.op.Demote?)
    ensures SparesCore(n, score, c, t)
  {
  }

  /** Every other step of the run spares the core. */
  lemma OnlyTheUploadTakes(i: nat)
    requires i < |Moments()|
    ensures SparesCore(TwoNodes(), Score, Clusters()[i], Moments()[i]) <==> i != 4
  {
    if i == 4 {
      NodeOneIsTheCore();
      UploadAdopts();
    } else {
      HarmlessSteps(TwoNodes(), Score, Clusters()[i], Moments()[i]);
    }
  }

  lemma StartsSound()
    ensures Start(Clusters()[0])
  {
    NodesAreSound();
  }

  /**
   * From a sound start, with one copy dropped after its only designated holder confirmed, a
   * single step that does not spare the core leaves no node with a copy.
   */
  lemma BarePinIsLost()
    ensures ValidNetwork(TwoNodes()) && Handover.Run(TwoNodes(), Score, Clusters(), Moments()) && Start(Clusters()[0])
    ensures Clusters()[8].dropped && 1 in Core(TwoNodes(), Score) && Copies(Clusters()[8], 0) == {}
    ensures forall i :: 0 <= i < |Moments()| ==>
      (SparesCore(TwoNodes(), Score, Clusters()[i], Moments()[i]) <==> i != 4)
  {
    NodeOneIsTheCore();
    IsARun();
    StartsSound();
    NobodyKeepsIt();
    forall i | 0 <= i < |Moments()|
      ensures SparesCore(TwoNodes(), Score, Clusters()[i], Moments()[i]) <==> i != 4
    {
      OnlyTheUploadTakes(i);
    }
  }
}
