/**
 * Rendezvous placement (src/storage/placement.ts, src/storage/retrieval.ts). The hash of
 * a peer for the CID in question is an arbitrary function `score`; ties are broken by the
 * total order on peer ids.
 */
module Placement {
  import opened Common
  import opened Records

  datatype Tier = Tier(minAge: nat, copies: nat)

  /** What configuration validation guarantees about tiers. */
  predicate ValidTiers(tiers: seq<Tier>) {
    && |tiers| > 0 && tiers[0].minAge == 0
    && (forall i :: 0 <= i < |tiers| ==> tiers[i].copies >= 1)
    && (forall i :: 0 < i < |tiers| ==> tiers[i - 1].minAge < tiers[i].minAge && tiers[i].copies <= tiers[i - 1].copies)
  }

  /** The last tier a file of this age has reached. */
  function CopiesForAge(tiers: seq<Tier>, age: nat): nat {
    if |tiers| == 0 then 1
    else if |tiers| == 1 || tiers[|tiers| - 1].minAge <= age then tiers[|tiers| - 1].copies
    else CopiesForAge(tiers[..|tiers| - 1], age)
  }

  method ComputeCopiesForAge(tiers: seq<Tier>, age: nat) returns (copies: nat)
    ensures copies == CopiesForAge(tiers, age)
  {
    copies := if |tiers| > 0 then tiers[0].copies else 1;
    for i := 0 to |tiers|
      invariant copies == if i == 0 then (if |tiers| > 0 then tiers[0].copies else 1) else CopiesForAge(tiers[..i], age)
    {
      assert tiers[..i + 1][..i] == tiers[..i];
      if age >= tiers[i].minAge {
        copies := tiers[i].copies;
      }
    }
    assert tiers[..|tiers|] == tiers;
  }

  /**
   * A file is asked for as many copies as the last tier its age has reached; before the first
   * tier that tier counts already, and without tiers one copy.
   */
  lemma {:induction false} CopiesOfReachedTier(tiers: seq<Tier>, age: nat, i: nat)
    requires i < |tiers| && (tiers[i].minAge <= age || i == 0)
    requires forall j :: i < j < |tiers| ==> age < tiers[j].minAge
    ensures CopiesForAge(tiers, age) == tiers[i].copies
    ensures CopiesForAge([], age) == 1
  {
    if i + 1 < |tiers| { CopiesOfReachedTier(tiers[..|tiers| - 1], age, i); }
  }

  /** Configured tiers never ask for more copies of an older file. */
  lemma {:induction false} AgeAsksForLess(tiers: seq<Tier>, early: nat, late: nat)
    requires ValidTiers(tiers) && early <= late
    ensures 1 <= CopiesForAge(tiers, late) <= CopiesForAge(tiers, early) <= tiers[0].copies
  {
    if |tiers| > 1 {
      AgeAsksForLess(tiers[..|tiers| - 1], early, late);
      if tiers[|tiers| - 1].minAge <= late { LastTierIsLeast(tiers, early); }
    }
  }

  lemma {:induction false} LastTierIsLeast(tiers: seq<Tier>, age: nat)
    requires ValidTiers(tiers)
    ensures tiers[|tiers| - 1].copies <= CopiesForAge(tiers, age) <= tiers[0].copies
  {
    if |tiers| > 1 { LastTierIsLeast(tiers[..|tiers| - 1], age); }
  }

  function EffectiveCopies(desired: nat, networkSize: nat): nat {
    var least := if desired <= networkSize then desired else networkSize;
    if least >= 1 then least else 1
  }

  // ---------------------------------------------------------------- ranking

  predicate Better(score: PeerId -> nat, a: PeerId, b: PeerId) {
    score(a) > score(b) || (score(a) == score(b) && a < b)
  }

  function Insert(score: PeerId -> nat, x: PeerId, ranked: seq<PeerId>): seq<PeerId> {
    if ranked == [] then [x]
    else if Better(score, ranked[0], x) then [ranked[0]] + Insert(score, x, ranked[1..])
    else [x] + ranked
  }

  /** The peers, best first. */
  function RankHolders(score: PeerId -> nat, peers: seq<PeerId>): seq<PeerId> {
    if peers == [] then [] else Insert(score, peers[0], RankHolders(score, peers[1..]))
  }

  ghost predicate Ranked(score: PeerId -> nat, s: seq<PeerId>) {
    forall i, j :: 0 <= i < j < |s| ==> Better(score, s[i], s[j])
  }

  lemma {:induction false} InsertAdds(score: PeerId -> nat, x: PeerId, s: seq<PeerId>)
    ensures Elements(Insert(score, x, s)) == Elements(s) + {x} && |Insert(score, x, s)| == |s| + 1
  {
    if s != [] && Better(score, s[0], x) {
      InsertAdds(score, x, s[1..]);
      assert s == [s[0]] + s[1..];
      assert Elements([s[0]] + Insert(score, x, s[1..])) == {s[0]} + Elements(Insert(score, x, s[1..]));
    } else {
      assert Elements([x] + s) == {x} + Elements(s);
    }
  }

  lemma {:induction false} InsertRanks(score: PeerId -> nat, x: PeerId, s: seq<PeerId>)
    requires Ranked(score, s) && x !in s
    ensures Ranked(score, Insert(score, x, s))
  {
    if s != [] && Better(score, s[0], x) {
      InsertRanks(score, x, s[1..]);
      InsertAdds(score, x, s[1..]);
      var rest := Insert(score, x, s[1..]);
      forall i | 0 <= i < |rest| ensures Better(score, s[0], rest[i]) {
        assert rest[i] in Elements(rest);
      }
    }
  }

  /** The ranking is a permutation of distinct peers into strictly descending order. */
  lemma {:induction false} RankingRanks(score: PeerId -> nat, peers: seq<PeerId>)
    requires NoDuplicates(peers)
    ensures Ranked(score, RankHolders(score, peers))
    ensures Elements(RankHolders(score, peers)) == Elements(peers) && |RankHolders(score, peers)| == |peers|
  {
    if peers != [] {
      RankingRanks(score, peers[1..]);
      assert Elements(peers) == {peers[0]} + Elements(peers[1..]);
      assert peers[0] !in Elements(peers[1..]);
      InsertAdds(score, peers[0], RankHolders(score, peers[1..]));
      assert peers[0] !in Elements(RankHolders(score, peers[1..]));
      InsertRanks(score, peers[0], RankHolders(score, peers[1..]));
    }
  }

  /** The peers with a higher score than `x`, equal scores in the order of their ids. */
  function Above(score: PeerId -> nat, peers: set<PeerId>, x: PeerId): set<PeerId> {
    set p | p in peers && (score(p) > score(x) || (score(p) == score(x) && p < x))
  }

  /** The place of a peer is the number of peers above it. */
  lemma PlaceIsCountAbove(score: PeerId -> nat, s: seq<PeerId>, i: nat)
    requires Ranked(score, s) && i < |s|
    ensures |Above(score, Elements(s), s[i])| == i
  {
    assert NoDuplicates(s[..i]);
    NoDuplicatesSize(s[..i]);
    forall x ensures x in Elements(s[..i]) <==> x in Above(score, Elements(s), s[i]) {
      if x in Above(score, Elements(s), s[i]) {
        var j :| 0 <= j < |s| && s[j] == x;
        assert j < i;
        assert s[..i][j] == x;
      }
    }
    assert Elements(s[..i]) == Above(score, Elements(s), s[i]);
  }

  /** The first `k` places belong to the peers with fewer than `k` above them. */
  lemma FirstPlaces(score: PeerId -> nat, peers: seq<PeerId>, k: nat, x: PeerId)
    requires NoDuplicates(peers)
    ensures x in Take(RankHolders(score, peers), k) <==> x in peers && |Above(score, Elements(peers), x)| < k
  {
    var r := RankHolders(score, peers);
    RankingRanks(score, peers);
    assert x in peers <==> x in Elements(r);
    if x in r {
      var i :| 0 <= i < |r| && r[i] == x;
      PlaceIsCountAbove(score, r, i);
      if i < k { assert Take(r, k)[i] == x; }
    }
  }

  /** A set of peers has one ranking. */
  lemma {:induction false} RankingIsUnique(score: PeerId -> nat, s: seq<PeerId>, t: seq<PeerId>)
    requires Ranked(score, s) && Ranked(score, t) && Elements(s) == Elements(t)
    ensures s == t
  {
    assert t != [] ==> t[0] in Elements(t);
    if s != [] {
      assert s[0] in Elements(t);
      assert t != [] && t[0] in Elements(s);
      assert s[0] == t[0];
      TailElements(score, s);
      TailElements(score, t);
      RankingIsUnique(score, s[1..], t[1..]);
    }
  }

  lemma TailElements(score: PeerId -> nat, s: seq<PeerId>)
    requires Ranked(score, s) && s != []
    ensures Ranked(score, s[1..]) && Elements(s[1..]) == Elements(s) - {s[0]}
  {
    assert s == [s[0]] + s[1..];
  }

  /** Neither the order of the peer list nor who computes it matters. */
  lemma RankingDependsOnSet(score: PeerId -> nat, a: seq<PeerId>, b: seq<PeerId>)
    requires NoDuplicates(a) && NoDuplicates(b) && Elements(a) == Elements(b)
    ensures RankHolders(score, a) == RankHolders(score, b)
  {
    RankingRanks(score, a);
    RankingRanks(score, b);
    RankingIsUnique(score, RankHolders(score, a), RankHolders(score, b));
  }

  lemma {:induction false} WithoutStaysRanked(score: PeerId -> nat, s: seq<PeerId>, x: PeerId)
    requires Ranked(score, s)
    ensures Ranked(score, Without(s, x))
  {
    if s != [] {
      WithoutStaysRanked(score, s[1..], x);
      WithoutProperties(s[1..], x);
      var rest := Without(s[1..], x);
      forall i | 0 <= i < |rest| ensures Better(score, s[0], rest[i]) {
        assert rest[i] in Elements(rest);
      }
    }
  }

  /** A node that leaves (or, read backwards, joins) does not reorder the others. */
  lemma LeavingKeepsOrder(score: PeerId -> nat, peers: seq<PeerId>, x: PeerId)
    requires NoDuplicates(peers)
    ensures RankHolders(score, Without(peers, x)) == Without(RankHolders(score, peers), x)
  {
    WithoutProperties(peers, x);
    RankingRanks(score, peers);
    RankingRanks(score, Without(peers, x));
    WithoutStaysRanked(score, RankHolders(score, peers), x);
    WithoutProperties(RankHolders(score, peers), x);
    RankingIsUnique(score, RankHolders(score, Without(peers, x)), Without(RankHolders(score, peers), x));
  }

  function Take(s: seq<PeerId>, k: nat): seq<PeerId> { if k <= |s| then s[..k] else s }

  lemma {:induction false} WithoutAt(s: seq<PeerId>, i: nat)
    requires NoDuplicates(s) && i < |s|
    ensures Without(s, s[i]) == s[..i] + s[i + 1..]
  {
    if i == 0 {
      WithoutProperties(s[1..], s[0]);
    } else {
      assert s[1..][i - 1] == s[i];
      WithoutAt(s[1..], i - 1);
      assert [s[0]] + (s[1..][..i - 1] + s[1..][i..]) == s[..i] + s[i + 1..];
    }
  }

  /**
   * Membership changes move at most one holder: when `x` leaves and the copy count stays
   * `k`, the holders are the same, or `x` is replaced by the first node behind them.
   */
  lemma LeavingSwapsOneHolder(score: PeerId -> nat, peers: seq<PeerId>, x: PeerId, k: nat)
    requires NoDuplicates(peers) && k < |peers| && x in peers
    ensures var r := RankHolders(score, peers);
      && |r| == |peers|
      && Elements(Take(RankHolders(score, Without(peers, x)), k)) ==
         (if x in r[..k] then Elements(r[..k]) - {x} + {r[k]} else Elements(r[..k]))
  {
    var r := RankHolders(score, peers);
    RankingRanks(score, peers);
    LeavingKeepsOrder(score, peers, x);
    assert x in Elements(r);
    var i :| 0 <= i < |r| && r[i] == x;
    assert NoDuplicates(r);
    WithoutAt(r, i);
    if i < k {
      assert r[..k][i] == x;
      CutBefore(r, i, k);
    } else {
      assert (r[..i] + r[i + 1..])[..k] == r[..k];
    }
  }

  /** The first `k` places once place `i` among them is vacated. */
  lemma CutBefore(r: seq<PeerId>, i: nat, k: nat)
    requires NoDuplicates(r) && i < k < |r|
    ensures Elements((r[..i] + r[i + 1..])[..k]) == Elements(r[..k]) - {r[i]} + {r[k]}
  {
    var t := (r[..i] + r[i + 1..])[..k];
    forall y ensures y in t <==> (y in r[..k] && y != r[i]) || y == r[k] {
      if y in t {
        var m :| 0 <= m < |t| && t[m] == y;
        assert y == if m < i then r[m] else r[m + 1];
        assert m + 1 < k ==> r[..k][m + 1] == r[m + 1];
        assert m < i ==> r[..k][m] == r[m];
      }
      if y in r[..k] && y != r[i] {
        var m :| 0 <= m < k && r[..k][m] == y;
        assert t[if m < i then m else m - 1] == y;
      }
      if y == r[k] { assert t[k - 1] == y; }
    }
  }

  // ---------------------------------------------------------------- placement

  datatype Placement = Placement(
    desiredCopies: nat, copies: nat, holders: seq<PeerId>, selfIsHolder: bool, networkTooSmall: bool)

  /** First occurrences, in order. */
  function Distinct(s: seq<PeerId>): seq<PeerId> {
    if s == [] then [] else
      var d := Distinct(s[..|s| - 1]);
      if s[|s| - 1] in d then d else d + [s[|s| - 1]]
  }

  lemma {:induction false} DistinctIsASet(s: seq<PeerId>)
    ensures NoDuplicates(Distinct(s)) && Elements(Distinct(s)) == Elements(s)
  {
    if s != [] {
      var init := s[..|s| - 1];
      DistinctIsASet(init);
      assert s == init + [s[|s| - 1]];
      assert Elements(s) == Elements(init) + {s[|s| - 1]};
      assert s[|s| - 1] in Distinct(init) <==> s[|s| - 1] in Elements(Distinct(init));
    }
  }

  datatype ReplicationPeer = ReplicationPeer(name: string, id: PeerId)

  function IdsOf(peers: seq<ReplicationPeer>): set<PeerId> { set p | p in peers :: p.id }

  predicate FirstOfItsId(peers: seq<ReplicationPeer>, p: ReplicationPeer) {
    exists i :: 0 <= i < |peers| && peers[i] == p && p.id !in IdsOf(peers[..i])
  }

  /** One address for each remote identity, so that no machine counts twice towards a quorum. */
  method DistinctPeers(peers: seq<ReplicationPeer>, self: PeerId) returns (r: seq<ReplicationPeer>)
    ensures forall i, j :: 0 <= i < j < |r| ==> r[i].id != r[j].id
    ensures IdsOf(r) == IdsOf(peers) - {self}
    ensures forall i :: 0 <= i < |r| ==> FirstOfItsId(peers, r[i])
  {
    r := [];
    for i := 0 to |peers|
      invariant forall i, j :: 0 <= i < j < |r| ==> r[i].id != r[j].id
      invariant IdsOf(r) == IdsOf(peers[..i]) - {self}
      invariant forall i :: 0 <= i < |r| ==> FirstOfItsId(peers, r[i])
    {
      IdsGrow(peers[..i], peers[i]);
      IdsGrow(r, peers[i]);
      assert peers[..i + 1] == peers[..i] + [peers[i]];
      if peers[i].id != self && peers[i].id !in IdsOf(r) {
        assert FirstOfItsId(peers, peers[i]);
        r := r + [peers[i]];
      }
    }
    assert peers[..|peers|] == peers;
  }

  lemma IdsGrow(peers: seq<ReplicationPeer>, p: ReplicationPeer)
    ensures IdsOf(peers + [p]) == IdsOf(peers) + {p.id}
    ensures forall i :: 0 <= i < |peers| ==> peers[i].id in IdsOf(peers)
  {
  }

  function PlaceFile(score: PeerId -> nat, tiers: seq<Tier>, age: nat, self: PeerId, peers: seq<PeerId>): Placement {
    var candidates := Distinct([self] + peers);
    var desired := CopiesForAge(tiers, age);
    var copies := EffectiveCopies(desired, |candidates|);
    var holders := Take(RankHolders(score, candidates), copies);
    Placement(desired, copies, holders, self in holders, |candidates| <= desired)
  }

  predicate MayDemote(p: Placement) { !p.networkTooSmall && !p.selfIsHolder }

  /** The designated holders minus the node itself. */
  function StorageTargets(p: Placement, self: PeerId): seq<PeerId> { Without(p.holders, self) }

  /** Everybody this node knows, itself included. */
  function Known(self: PeerId, peers: seq<PeerId>): set<PeerId> { Elements([self] + peers) }

  /**
   * The designated holders: as many distinct nodes as the age asks for when the network has
   * that many, everybody otherwise, and never nobody. They are the nodes with the highest scores.
   */
  lemma HoldersAreTheBest(score: PeerId -> nat, tiers: seq<Tier>, age: nat, self: PeerId, peers: seq<PeerId>)
    ensures var p := PlaceFile(score, tiers, age, self, peers); var all := Known(self, peers);
      && NoDuplicates(p.holders) && Elements(p.holders) <= all && p.copies == |p.holders|
      && (1 <= CopiesForAge(tiers, age) <= |all| ==> |p.holders| == CopiesForAge(tiers, age))
      && (|all| <= CopiesForAge(tiers, age) ==> Elements(p.holders) == all)
      && (CopiesForAge(tiers, age) == 0 ==> |p.holders| == 1)
    ensures var p := PlaceFile(score, tiers, age, self, peers);
      forall h, x :: h in p.holders && x in Known(self, peers) && x !in p.holders ==>
        score(h) > score(x) || (score(h) == score(x) && h < x)
  {
    var p := PlaceFile(score, tiers, age, self, peers);
    var candidates := Distinct([self] + peers);
    DistinctIsASet([self] + peers);
    RankingRanks(score, candidates);
    NoDuplicatesSize(candidates);
    var r := RankHolders(score, candidates);
    assert self in [self] + peers && self in Known(self, peers);
    assert |candidates| > 0;
    assert p.holders <= r;
    forall h | h in p.holders ensures h in Known(self, peers) {
      assert h in Elements(r);
    }
    forall h, x | h in p.holders && x in Known(self, peers) && x !in p.holders
      ensures score(h) > score(x) || (score(h) == score(x) && h < x)
    {
      var i :| 0 <= i < |p.holders| && p.holders[i] == h;
      assert x in Elements(r);
      var j :| 0 <= j < |r| && r[j] == x;
      assert forall k :: 0 <= k < |p.holders| ==> r[k] in p.holders;
      assert Better(score, r[i], r[j]);
    }
  }

  /** What the rest of a placement says about its holders. */
  lemma PlacementMeans(score: PeerId -> nat, tiers: seq<Tier>, age: nat, self: PeerId, peers: seq<PeerId>)
    ensures var p := PlaceFile(score, tiers, age, self, peers);
      && p.desiredCopies == CopiesForAge(tiers, age)
      && (p.selfIsHolder <==> self in p.holders)
      && (p.networkTooSmall <==> |Known(self, peers)| <= CopiesForAge(tiers, age))
      && Elements(StorageTargets(p, self)) == Elements(p.holders) - {self} && NoDuplicates(StorageTargets(p, self))
  {
    var p := PlaceFile(score, tiers, age, self, peers);
    HoldersAreTheBest(score, tiers, age, self, peers);
    DistinctIsASet([self] + peers);
    NoDuplicatesSize(Distinct([self] + peers));
    WithoutProperties(p.holders, self);
  }

  /** A node may drop its copy exactly when as many others as the age asks for rank above it. */
  lemma MayDemoteExactly(score: PeerId -> nat, tiers: seq<Tier>, age: nat, self: PeerId, peers: seq<PeerId>)
    requires ValidTiers(tiers)
    ensures MayDemote(PlaceFile(score, tiers, age, self, peers)) <==>
      |Above(score, Known(self, peers), self)| >= CopiesForAge(tiers, age)
  {
    var candidates := Distinct([self] + peers);
    DistinctIsASet([self] + peers);
    NoDuplicatesSize(candidates);
    AgeAsksForLess(tiers, age, age);
    var p := PlaceFile(score, tiers, age, self, peers);
    assert self in [self] + peers && self in Elements(candidates);
    FirstPlaces(score, candidates, p.copies, self);
    var above := Above(score, Known(self, peers), self);
    assert above <= Known(self, peers) - {self};
    SubsetSize(above, Known(self, peers) - {self});
  }

  /** The ranking every member computes, whatever its own list looks like. */
  lemma MembersAgree(score: PeerId -> nat, members: seq<PeerId>, self: PeerId, peers: seq<PeerId>)
    requires NoDuplicates(members) && Elements(members) == Elements([self] + peers)
    ensures RankHolders(score, Distinct([self] + peers)) == RankHolders(score, members)
    ensures |Distinct([self] + peers)| == |members|
  {
    DistinctIsASet([self] + peers);
    RankingDependsOnSet(score, Distinct([self] + peers), members);
    RankingRanks(score, members);
    RankingRanks(score, Distinct([self] + peers));
  }

  /** Designated holders are agreed by construction, and for every age a prefix of one ranking. */
  lemma HoldersAgree(score: PeerId -> nat, tiers: seq<Tier>, age: nat,
                     a: PeerId, peersA: seq<PeerId>, b: PeerId, peersB: seq<PeerId>)
    requires Elements([a] + peersA) == Elements([b] + peersB)
    ensures PlaceFile(score, tiers, age, a, peersA).holders == PlaceFile(score, tiers, age, b, peersB).holders
    ensures PlaceFile(score, tiers, age, a, peersA).networkTooSmall
      == PlaceFile(score, tiers, age, b, peersB).networkTooSmall
    ensures PlaceFile(score, tiers, age, a, peersA).holders <= RankHolders(score, Distinct([a] + peersA))
  {
    DistinctIsASet([a] + peersA);
    MembersAgree(score, Distinct([a] + peersA), b, peersB);
    RankingRanks(score, Distinct([a] + peersA));
  }

  // ---------------------------------------------------------------- retrieval

  const RETRIEVAL_WIDENING: nat := 2

  function WidestTier(tiers: seq<Tier>): (n: nat)
    requires |tiers| > 0
    ensures forall i :: 0 <= i < |tiers| ==> tiers[i].copies <= n
  {
    var last := tiers[|tiers| - 1].copies;
    if |tiers| == 1 then last
    else
      var rest := WidestTier(tiers[..|tiers| - 1]);
      assert forall i :: 0 <= i < |tiers| - 1 ==> tiers[i] == tiers[..|tiers| - 1][i];
      if last >= rest then last else rest
  }

  function Among(peers: seq<PeerId>, wanted: seq<PeerId>): (r: seq<PeerId>)
    ensures forall p :: p in r <==> p in peers && p in wanted
  {
    if peers == [] then []
    else (if peers[0] in wanted then [peers[0]] else []) + Among(peers[1..], wanted)
  }

  function RetrievalTargets(score: PeerId -> nat, enabled: bool, tiers: seq<Tier>, self: PeerId, peers: seq<PeerId>)
    : seq<PeerId>
    requires |tiers| > 0
  {
    if !enabled then peers
    else Among(peers, Take(RankHolders(score, [self] + peers), WidestTier(tiers) + RETRIEVAL_WIDENING))
  }

  lemma {:induction false} CopiesComeFromATier(tiers: seq<Tier>, age: nat)
    requires |tiers| > 0
    ensures exists i :: 0 <= i < |tiers| && tiers[i].copies == CopiesForAge(tiers, age)
  {
    if !(|tiers| == 1 || tiers[|tiers| - 1].minAge <= age) {
      CopiesComeFromATier(tiers[..|tiers| - 1], age);
      var i :| 0 <= i < |tiers| - 1 && tiers[..|tiers| - 1][i].copies == CopiesForAge(tiers[..|tiers| - 1], age);
      assert tiers[i].copies == CopiesForAge(tiers, age);
    } else {
      assert tiers[|tiers| - 1].copies == CopiesForAge(tiers, age);
    }
  }

  /**
   * A node that knows nothing about a file still asks every remote holder of it: the
   * targets contain the holders for a file of any age.
   */
  lemma RetrievalReachesHolders(score: PeerId -> nat, tiers: seq<Tier>, age: nat, self: PeerId, peers: seq<PeerId>,
                          h: PeerId)
    requires ValidTiers(tiers) && NoDuplicates(peers) && self !in peers
    requires h in StorageTargets(PlaceFile(score, tiers, age, self, peers), self)
    ensures h in RetrievalTargets(score, true, tiers, self, peers)
  {
    var all := [self] + peers;
    assert NoDuplicates(all);
    var p := PlaceFile(score, tiers, age, self, peers);
    MembersAgree(score, all, self, peers);
    var ranked := RankHolders(score, all);
    RankingRanks(score, all);
    WithoutProperties(p.holders, self);
    assert h in Elements(Without(p.holders, self));
    assert h in p.holders && h != self;
    CopiesComeFromATier(tiers, age);
    var i :| 0 <= i < |tiers| && tiers[i].copies == CopiesForAge(tiers, age);
    assert p.copies <= WidestTier(tiers);
    var wide := Take(ranked, WidestTier(tiers) + RETRIEVAL_WIDENING);
    assert p.holders <= wide;
    assert h in wide;
    assert h in Elements(ranked) && Elements(ranked) == Elements(all);
    assert h in all;
  }

  /** Some tier is the widest. */
  lemma {:induction false} WidestIsATier(tiers: seq<Tier>)
    requires |tiers| > 0
    ensures exists i :: 0 <= i < |tiers| && tiers[i].copies == WidestTier(tiers)
  {
    if |tiers| > 1 && tiers[|tiers| - 1].copies < WidestTier(tiers[..|tiers| - 1]) {
      WidestIsATier(tiers[..|tiers| - 1]);
      var i :| 0 <= i < |tiers| - 1 && tiers[..|tiers| - 1][i].copies == WidestTier(tiers[..|tiers| - 1]);
      assert tiers[i].copies == WidestTier(tiers);
    } else {
      assert tiers[|tiers| - 1].copies == WidestTier(tiers);
    }
  }

  /**
   * Exactly the peers within two places of the holders of some tier are asked; without
   * replication everybody is.
   */
  lemma RetrievalAsksExactly(score: PeerId -> nat, tiers: seq<Tier>, self: PeerId, peers: seq<PeerId>, h: PeerId)
    requires |tiers| > 0 && NoDuplicates(peers) && self !in peers
    ensures RetrievalTargets(score, false, tiers, self, peers) == peers
    ensures h in RetrievalTargets(score, true, tiers, self, peers) <==>
      h in peers && exists i :: 0 <= i < |tiers| && |Above(score, Known(self, peers), h)| < tiers[i].copies + 2
  {
    assert NoDuplicates([self] + peers);
    FirstPlaces(score, [self] + peers, WidestTier(tiers) + RETRIEVAL_WIDENING, h);
    WidestIsATier(tiers);
  }
}
