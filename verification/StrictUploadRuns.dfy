/**
 * Two complete strict uploads of one file to one peer that are answered with success
 * although the peer never holds the file durably: its `have` meets a pin without a record,
 * or its commit meets a stage whose pin was lost by an uncovered write.
 */
module StrictUploadRuns {
  import opened Common
  import opened Records
  import opened Lifecycle
  import opened NodeState
  import opened UploadRoute
  import opened NodeMachine
  import opened StrictUpload
  import opened Placement

  // ---------------------------------------------------------------- this node

  function OwnRecord(settledAt: Option<Time>): FileRecord {
    FileRecord("a", Confirmed, 0, None, Some(0), 1, 1, Some(1), true, true, [], Some(7), settledAt, None)
  }

  function Baselines(): seq<UploadBaseline> { [UploadBaseline(0, None, true)] }

  function Before(): Machine { Machine(Node(map[], {}, Owners({7}, {}), 0), map[], {}) }

  function AdmittedHere(): Machine {
    Machine(Node(map[0 := Stored(OwnRecord(None), 0)], {0}, Owners({7}, {}), 1), map[7 := Baselines()], {})
  }

  function SettledHere(): Machine {
    Machine(Node(map[0 := Stored(OwnRecord(Some(9)), 1)], {0}, Owners({7}, {}), 2), map[], {})
  }

  lemma Admits()
    ensures Inv(Before()) && NodeMachine.Next(Before(), Admit(7, Baselines(), false), AdmittedHere())
  {
    assert Entry(AdmittedHere().node, 0) == Some(Stored(OwnRecord(None), 0));
    assert BaselineCids(Baselines()) == {0};
  }

  lemma SettlesHere()
    ensures NodeMachine.Next(AdmittedHere(), Settle(7, map[], 9, {}), SettledHere())
  {
    var a, b := AdmittedHere(), SettledHere();
    assert Entry(a.node, 0) == Some(Stored(OwnRecord(None), 0));
    assert Entry(b.node, 0) == Some(Stored(OwnRecord(Some(9)), 1));
    assert BaselineCids(Baselines()) == {0};
    assert a.uploads - {7} == map[];
  }

  lemma ClearsNothing()
    ensures NodeMachine.Next(SettledHere(), ClearTokens(7, {}), SettledHere())
  {
  }

  // ---------------------------------------------------------------- the request

  function Asks(): Request { Request(0, 7, Baselines(), map[0 := {1}], map[0 := 2], map[1 := "b"]) }

  /** Two copies of everything, on this node and on peer 1. */
  function Settings(): Policy { Policy(true, 2, [Tier(0, 2)], [1], (c: Cid) => Score, (c: Cid) => 0) }

  function Score(p: PeerId): nat { p }

  lemma PlacesOnPeer()
    ensures var p := PlaceFile(Score, [Tier(0, 2)], 0, 0, [1]);
      RequiredAcks(2, p) == 2 && Elements(StorageTargets(p, 0)) == {1}
  {
    assert Known(0, [1]) == {0, 1} by { assert [0] + [1] == [0, 1]; }
    HoldersAreTheBest(Score, [Tier(0, 2)], 0, 0, [1]);
    PlacementMeans(Score, [Tier(0, 2)], 0, 0, [1]);
    RequiredAcksMeans(Score, [Tier(0, 2)], 0, 0, [1], 2);
  }

  function Co(phase: Phase, attempts: map<(Cid, PeerId), Attempt>, committed: set<(Cid, PeerId)>): Coordinator {
    Coordinator(Asks(), phase, attempts, {}, committed, committed, false, {})
  }

  function At(local: Machine, peer: Machine, co: Coordinator): World {
    World(Before().node, local, map[1 := peer], co)
  }

  function Peer(store: map<Cid, Stored>, pins: set<Cid>, next: nat): Machine {
    Machine(Node(store, pins, Owners({}, {}), next), map[], {})
  }

  function One(staged: bool): map<(Cid, PeerId), Attempt> { map[(0, 1) := Attempt(true, staged)] }

  lemma DecidesToFinalize(peer: Machine, staged: bool)
    ensures WorldNext(At(AdmittedHere(), peer, Co(Placing, One(staged), {})), Decide,
                      At(AdmittedHere(), peer, Co(Finalizing, One(staged), {})))
  {
    var co := Co(Placing, One(staged), {});
    assert StoredAt(co, 0) == {1};
  }

  lemma FinalizesHere(peer: Machine, staged: bool)
    ensures WorldNext(At(AdmittedHere(), peer, Co(Finalizing, One(staged), {})), Finalize(map[], 9, {}),
                      At(SettledHere(), peer, Co(Committing, One(staged), {})))
  {
    SettlesHere();
  }

  lemma Succeeds(peer: Machine, staged: bool, committed: set<(Cid, PeerId)>)
    requires committed == if staged then {(0, 1)} else {}
    ensures WorldNext(At(SettledHere(), peer, Co(Committing, One(staged), committed)), Respond({}),
                      At(SettledHere(), peer, Co(Answered(Success), One(staged), committed)))
  {
    var co := Co(Committing, One(staged), committed);
    ClearsNothing();
    assert VouchedAt(co, 0) == {1};
    assert NamesOf(co, {1}) == {"b"};
    assert Entry(SettledHere().node, 0).Some?;
    assert Owned(SettledHere().node, Baselines(), 7);
  }

  lemma StartsWith(peer: Machine)
    requires Inv(peer) && ClaimsWithin(peer, 7, {})
    ensures Begins(At(AdmittedHere(), peer, Co(Placing, map[], {})), Before(), Settings())
  {
    Admits();
    PlacesOnPeer();
    assert Entry(AdmittedHere().node, 0) == Some(Stored(OwnRecord(None), 0));
    assert BaselineCids(Baselines()) == {0};
  }

  ghost predicate Steps(ws: seq<World>, ts: seq<Step>, i: nat) {
    i < |ts| && i + 1 < |ws| && WorldNext(ws[i], ts[i], ws[i + 1])
  }

  /** Runs are put together step by step. */
  lemma Assemble(ws: seq<World>, ts: seq<Step>)
    requires |ws| == |ts| + 1 && forall i :: 0 <= i < |ts| ==> Steps(ws, ts, i)
    ensures StrictUpload.Run(ws, ts)
  {
    forall i | 0 <= i < |ts| ensures WorldNext(ws[i], ts[i], ws[i + 1]) {
      assert Steps(ws, ts, i);
    }
  }

  /** A run from admission to a success answer in which peer 1 never holds file 0 durably. */
  ghost predicate SucceedsWithoutCopy(ws: seq<World>, ts: seq<Step>) {
    && StrictUpload.Run(ws, ts) && Begins(ws[0], Before(), Settings()) && ws[0].co.req == Asks()
    && ts != [] && ts[|ts| - 1].Respond? && ws[|ts|].co.phase == Answered(Success)
    && forall i :: 0 <= i < |ws| ==> 1 in ws[i].peers && !HasDurable(PeerSlot(ws[i], 0, 1))
  }

  // ---------------------------------------------------------------- a pin without a record

  function Unregistered(): Machine { Peer(map[], {0}, 0) }

  function PinWorlds(): seq<World> {
    var m := Unregistered();
    [At(AdmittedHere(), m, Co(Placing, map[], {})), At(AdmittedHere(), m, Co(Placing, One(false), {})),
     At(AdmittedHere(), m, Co(Finalizing, One(false), {})), At(SettledHere(), m, Co(Committing, One(false), {})),
     At(SettledHere(), m, Co(Answered(Success), One(false), {}))]
  }

  function PinSteps(): seq<Step> { [HaveAnswered(0, 1), Decide, Finalize(map[], 9, {}), Respond({})] }

  lemma PinIsCounted()
    ensures Steps(PinWorlds(), PinSteps(), 0)
  {
    assert Asked(Co(Placing, map[], {}), 0, 1);
    assert map[][(0, 1) := Attempt(true, false)] == One(false);
  }

  lemma PinDecides()
    ensures Steps(PinWorlds(), PinSteps(), 1)
  {
    DecidesToFinalize(Unregistered(), false);
  }

  lemma PinSettles()
    ensures Steps(PinWorlds(), PinSteps(), 2)
  {
    FinalizesHere(Unregistered(), false);
  }

  lemma PinResponds()
    ensures Steps(PinWorlds(), PinSteps(), 3)
  {
    Succeeds(Unregistered(), false, {});
  }

  lemma PinRun()
    ensures StrictUpload.Run(PinWorlds(), PinSteps())
  {
    forall i | 0 <= i < |PinSteps()| ensures Steps(PinWorlds(), PinSteps(), i) {
      if i == 0 { PinIsCounted(); } else if i == 1 { PinDecides(); } else if i == 2 { PinSettles(); }
        else { PinResponds(); }
    }
    Assemble(PinWorlds(), PinSteps());
  }

  lemma PinStarts()
    ensures Begins(PinWorlds()[0], Before(), Settings())
  {
    StartsWith(Unregistered());
  }

  lemma PinIsNeverDurable(i: nat)
    requires i < |PinWorlds()|
    ensures 1 in PinWorlds()[i].peers && !HasDurable(PeerSlot(PinWorlds()[i], 0, 1))
  {
    assert Entry(Unregistered().node, 0) == None;
  }

  /** One required copy is a pin the peer has no record of. */
  lemma UnregisteredPinCounts()
    ensures SucceedsWithoutCopy(PinWorlds(), PinSteps())
  {
    PinStarts();
    PinRun();
    forall i | 0 <= i < |PinWorlds()|
      ensures 1 in PinWorlds()[i].peers && !HasDurable(PeerSlot(PinWorlds()[i], 0, 1))
    {
      PinIsNeverDurable(i);
    }
  }

  // ---------------------------------------------------------------- a stage without a pin

  function Asking(): StageRequest { StageRequest(7, Some(0), "a", Stat(1, 1), 5, 10) }

  function StagedRecord(): FileRecord { FreshStage(None, "a", Stat(1, 1), 7, Some(0), 5, 10) }

  function Empty(): Machine { Peer(map[], {}, 0) }

  function Staged(pins: set<Cid>): Machine { Peer(map[0 := Stored(StagedRecord(), 0)], pins, 1) }

  function Unpinned(): Machine { Peer(map[0 := Stored(Durable(StagedRecord(), 6), 1)], {}, 2) }

  function LossWorlds(): seq<World> {
    [At(AdmittedHere(), Empty(), Co(Placing, map[], {})), At(AdmittedHere(), Staged({0}), Co(Placing, One(true), {})),
     At(AdmittedHere(), Staged({}), Co(Placing, One(true), {})),
     At(AdmittedHere(), Staged({}), Co(Finalizing, One(true), {})),
     At(SettledHere(), Staged({}), Co(Committing, One(true), {})),
     At(SettledHere(), Unpinned(), Co(Committing, One(true), {(0, 1)})),
     At(SettledHere(), Unpinned(), Co(Answered(Success), One(true), {(0, 1)}))]
  }

  function LossSteps(): seq<Step> {
    [StageAt(0, 1, Asking(), false, Works, true), PeerOp(GcRelease(0, 0, FailsBeforeWrite), 1), Decide,
     Finalize(map[], 9, {}), CommitAt(0, 1, 6, Works, true), Respond({})]
  }

  lemma PeerStages()
    ensures NodeMachine.Next(Empty(), NodeMachine.Stage(0, Asking(), false, Works), Staged({0}))
  {
    assert Entry(Empty().node, 0) == None;
    assert Entry(Staged({0}).node, 0) == Some(Stored(StagedRecord(), 0));
  }

  /** The collection of the expired stage fails before its fallback record is written. */
  lemma PeerLosesPin()
    ensures NodeMachine.Next(Staged({0}), GcRelease(0, 0, FailsBeforeWrite), Staged({}))
    ensures BreaksAt(Staged({0}), GcRelease(0, 0, FailsBeforeWrite), 0)
  {
    assert Entry(Staged({0}).node, 0) == Some(Stored(StagedRecord(), 0)) == Entry(Staged({}).node, 0);
  }

  lemma PeerCommits()
    ensures NodeMachine.Next(Staged({}), NodeMachine.Commit(0, 7, Some(0), 6, Works), Unpinned())
  {
    assert Entry(Staged({}).node, 0) == Some(Stored(StagedRecord(), 0));
    assert Entry(Unpinned().node, 0) == Some(Stored(Durable(StagedRecord(), 6), 1));
  }

  lemma StageStep()
    ensures Steps(LossWorlds(), LossSteps(), 0)
  {
    PeerStages();
    assert Asked(Co(Placing, map[], {}), 0, 1);
    assert map[][(0, 1) := Attempt(true, true)] == One(true);
  }

  lemma LossStep()
    ensures Steps(LossWorlds(), LossSteps(), 1)
  {
    PeerLosesPin();
  }

  lemma CommitIsAcknowledged()
    ensures SlotAt(Staged({}).node, 0) == Slot(Some(StagedRecord()), false)
    ensures CommitSlot(Slot(Some(StagedRecord()), false), 7, Some(0), 6, Works).reply.Ok?
  {
    assert Entry(Staged({}).node, 0) == Some(Stored(StagedRecord(), 0));
  }

  lemma CommitReaches()
    ensures AtPeer(At(SettledHere(), Staged({}), Co(Committing, One(true), {})), 1,
        NodeMachine.Commit(0, 7, Some(0), 6, Works),
                   At(SettledHere(), Unpinned(), Co(Committing, One(true), {(0, 1)})))
  {
    PeerCommits();
  }

  lemma CommitStep()
    ensures WorldNext(At(SettledHere(), Staged({}), Co(Committing, One(true), {})), CommitAt(0, 1, 6, Works, true),
                      At(SettledHere(), Unpinned(), Co(Committing, One(true), {(0, 1)})))
  {
    CommitReaches();
    CommitIsAcknowledged();
    assert {} + {(0, 1)} == {(0, 1)};
  }

  lemma NeverDurable(i: nat)
    requires i < |LossWorlds()|
    ensures 1 in LossWorlds()[i].peers && !HasDurable(PeerSlot(LossWorlds()[i], 0, 1))
  {
    assert Entry(Staged({0}).node, 0) == Some(Stored(StagedRecord(), 0));
  }

  lemma LossDecides()
    ensures Steps(LossWorlds(), LossSteps(), 2)
  {
    DecidesToFinalize(Staged({}), true);
  }

  lemma LossSettles()
    ensures Steps(LossWorlds(), LossSteps(), 3)
  {
    FinalizesHere(Staged({}), true);
  }

  lemma LossCommits()
    ensures Steps(LossWorlds(), LossSteps(), 4)
  {
    CommitStep();
  }

  lemma LossResponds()
    ensures Steps(LossWorlds(), LossSteps(), 5)
  {
    Succeeds(Unpinned(), true, {(0, 1)});
  }

  lemma LossRun()
    ensures StrictUpload.Run(LossWorlds(), LossSteps())
  {
    forall i | 0 <= i < |LossSteps()| ensures Steps(LossWorlds(), LossSteps(), i) {
      if i == 0 { StageStep(); } else if i == 1 { LossStep(); } else if i == 2 { LossDecides(); }
      else if i == 3 { LossSettles(); } else if i == 4 { LossCommits(); } else { LossResponds(); }
    }
    Assemble(LossWorlds(), LossSteps());
  }

  /** The acknowledged commit of a stage that lost its pin is the one required copy. */
  lemma LostPinCounts()
    ensures SucceedsWithoutCopy(LossWorlds(), LossSteps())
  {
    StartsWith(Empty());
    LossRun();
    forall i | 0 <= i < |LossWorlds()|
      ensures 1 in LossWorlds()[i].peers && !HasDurable(PeerSlot(LossWorlds()[i], 0, 1))
    {
      NeverDurable(i);
    }
  }
}
