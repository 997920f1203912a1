/**
 * The per-CID queues of the registry and the ordered acquisition of several of them
 * (src/storage/registry.ts:331-402).
 */
module CidLocks {
  import opened Common

  type Cid = nat
  type RequestId = nat

  datatype Phase = Acquiring | Working | Unlocking | Done

  /** A request for `cids`, of which the first `at` are locked. */
  datatype Job = Job(cids: seq<Cid>, at: nat, phase: Phase)

  /** For each CID the holder, then everyone who waits, in order of arrival. */
  datatype Locks = Locks(queues: map<Cid, seq<RequestId>>, jobs: map<RequestId, Job>)

  function Queue(s: Locks, c: Cid): seq<RequestId> { if c in s.queues then s.queues[c] else [] }

  predicate AtFront(q: seq<RequestId>, r: RequestId) { q != [] && q[0] == r }

  predicate Ascending(cids: seq<Cid>) { forall i, j :: 0 <= i < j < |cids| ==> cids[i] < cids[j] }

  datatype Step =
    | Submit(r: RequestId, cids: seq<Cid>)
    | Advance(r: RequestId)
    | Finish(r: RequestId)
    | Unlock(r: RequestId)

  /** A job that moved on: it queues for its next CID, or starts its work when it holds all. */
  function Queued(s: Locks, r: RequestId, cids: seq<Cid>, at: nat): Locks {
    if at < |cids|
    then Locks(s.queues[cids[at] := Queue(s, cids[at]) + [r]], s.jobs[r := Job(cids, at, Acquiring)])
    else s.(jobs := s.jobs[r := Job(cids, at, Working)])
  }

  predicate Enabled(s: Locks, t: Step) {
    match t
    case Submit(r, cids) => r !in s.jobs && Ascending(cids)
    case Advance(r) =>
      && r in s.jobs && s.jobs[r].phase == Acquiring && s.jobs[r].at < |s.jobs[r].cids|
      && AtFront(Queue(s, s.jobs[r].cids[s.jobs[r].at]), r)
    case Finish(r) => r in s.jobs && s.jobs[r].phase == Working
    case Unlock(r) =>
      && r in s.jobs && s.jobs[r].phase == Unlocking && s.jobs[r].at <= |s.jobs[r].cids|
      && (s.jobs[r].at > 0 ==> AtFront(Queue(s, s.jobs[r].cids[s.jobs[r].at - 1]), r))
  }

  function After(s: Locks, t: Step): Locks
    requires Enabled(s, t)
  {
    match t
    case Submit(r, cids) => Queued(s, r, cids, 0)
    case Advance(r) => Queued(s, r, s.jobs[r].cids, s.jobs[r].at + 1)
    case Finish(r) => s.(jobs := s.jobs[r := s.jobs[r].(phase := Unlocking)])
    case Unlock(r) =>
      var j := s.jobs[r];
      if j.at == 0 then s.(jobs := s.jobs[r := j.(phase := Done)])
      else
        var c := j.cids[j.at - 1];
        Locks(s.queues[c := Queue(s, c)[1..]], s.jobs[r := j.(at := j.at - 1)])
  }

  // ---------------------------------------------------------------- invariant

  predicate Shaped(j: Job) {
    && Ascending(j.cids) && j.at <= |j.cids|
    && (j.phase == Acquiring ==> j.at < |j.cids|)
    && (j.phase == Working ==> j.at == |j.cids|)
    && (j.phase == Done ==> j.at == 0)
  }

  /** The first `at` CIDs of a job are locked by it. */
  predicate Holds(j: Job, c: Cid) { exists i :: 0 <= i < j.at && i < |j.cids| && j.cids[i] == c }

  /** The CID a job is queued for. */
  predicate WaitsFor(j: Job, c: Cid) { j.phase == Acquiring && j.at < |j.cids| && j.cids[j.at] == c }

  ghost predicate JobInv(s: Locks, r: RequestId, j: Job) {
    && Shaped(j)
    && (forall c :: Holds(j, c) ==> AtFront(Queue(s, c), r))
    && (forall c :: WaitsFor(j, c) ==> r in Queue(s, c))
  }

  /** A queue lists each request once, and only requests that hold or want its CID. */
  ghost predicate QueueInv(s: Locks, c: Cid) {
    && NoDuplicates(Queue(s, c))
    && forall r :: r in Queue(s, c) ==> r in s.jobs && (Holds(s.jobs[r], c) || WaitsFor(s.jobs[r], c))
  }

  ghost predicate Inv(s: Locks) {
    (forall r :: r in s.jobs ==> JobInv(s, r, s.jobs[r])) && (forall c :: QueueInv(s, c))
  }

  /** What a job that moved on to `cids[at]` holds. */
  lemma HoldsNext(cids: seq<Cid>, at: nat, phase: Phase, phase': Phase, c: Cid)
    requires at < |cids| && Ascending(cids)
    ensures Holds(Job(cids, at + 1, phase'), c) <==> Holds(Job(cids, at, phase), c) || c == cids[at]
    ensures c == cids[at] ==> !Holds(Job(cids, at, phase), c)
  {
    var j, j' := Job(cids, at, phase), Job(cids, at + 1, phase');
    if Holds(j', c) {
      var i :| 0 <= i < j'.at && i < |cids| && cids[i] == c;
      if i < at { assert Holds(j, c); }
    }
    if Holds(j, c) {
      var i :| 0 <= i < j.at && i < |cids| && cids[i] == c;
      assert 0 <= i < j'.at;
    }
    if c == cids[at] { assert 0 <= at < j'.at && j'.cids[at] == c; }
  }

  lemma FinishKeepsInv(s: Locks, r: RequestId)
    requires Inv(s) && Enabled(s, Finish(r))
    ensures Inv(After(s, Finish(r)))
  {
    var s' := After(s, Finish(r));
    forall c ensures QueueInv(s', c) && (Holds(s'.jobs[r], c) <==> Holds(s.jobs[r], c)) {
      assert QueueInv(s, c);
    }
    forall q | q in s'.jobs ensures JobInv(s', q, s'.jobs[q]) {
      assert JobInv(s, q, s.jobs[q]);
    }
  }

  /** A request never queues twice for one CID: it is not yet in the queue it joins. */
  lemma NotYetQueued(s: Locks, r: RequestId, cids: seq<Cid>, at: nat)
    requires Inv(s) && Ascending(cids) && at < |cids|
    requires if at == 0 then r !in s.jobs else r in s.jobs && s.jobs[r] == Job(cids, at - 1, Acquiring)
    ensures r !in Queue(s, cids[at])
  {
    assert QueueInv(s, cids[at]);
  }

  lemma QueuedKeepsQueues(s: Locks, r: RequestId, cids: seq<Cid>, at: nat, c: Cid)
    requires Inv(s) && Ascending(cids) && at <= |cids|
    requires if at == 0 then r !in s.jobs else r in s.jobs && s.jobs[r] == Job(cids, at - 1, Acquiring)
    ensures QueueInv(Queued(s, r, cids, at), c)
  {
    var s' := Queued(s, r, cids, at);
    assert QueueInv(s, c);
    if at > 0 { HoldsNext(cids, at - 1, Acquiring, s'.jobs[r].phase, c); }
    if at < |cids| && c == cids[at] {
      NotYetQueued(s, r, cids, at);
      assert WaitsFor(s'.jobs[r], c);
    }
  }

  lemma QueuedKeepsJobs(s: Locks, r: RequestId, cids: seq<Cid>, at: nat, q: RequestId)
    requires q in s.jobs ==> JobInv(s, q, s.jobs[q])
    requires Ascending(cids) && at <= |cids| && q in Queued(s, r, cids, at).jobs
    requires if at == 0 then r !in s.jobs
             else r in s.jobs && s.jobs[r] == Job(cids, at - 1, Acquiring) && AtFront(Queue(s, cids[at - 1]), r)
    ensures JobInv(Queued(s, r, cids, at), q, Queued(s, r, cids, at).jobs[q])
  {
    var s' := Queued(s, r, cids, at);
    forall c | Holds(s'.jobs[q], c) ensures AtFront(Queue(s', c), q) {
      if q == r && at > 0 { HoldsNext(cids, at - 1, Acquiring, s'.jobs[r].phase, c); }
      assert AtFront(Queue(s, c), q);
    }
  }

  lemma UnlockKeepsQueues(s: Locks, r: RequestId, c: Cid)
    requires Inv(s) && Enabled(s, Unlock(r))
    ensures QueueInv(After(s, Unlock(r)), c)
  {
    var s' := After(s, Unlock(r));
    var j := s.jobs[r];
    assert QueueInv(s, c) && JobInv(s, r, j);
    if j.at > 0 {
      HoldsNext(j.cids, j.at - 1, Unlocking, Unlocking, c);
    } else {
      assert Holds(s'.jobs[r], c) <==> Holds(j, c);
    }
  }

  lemma UnlockKeepsJobs(s: Locks, r: RequestId, q: RequestId)
    requires Inv(s) && Enabled(s, Unlock(r)) && q in s.jobs
    ensures JobInv(After(s, Unlock(r)), q, After(s, Unlock(r)).jobs[q])
  {
    var s' := After(s, Unlock(r));
    var j := s.jobs[r];
    assert JobInv(s, q, s.jobs[q]) && JobInv(s, r, j);
    forall c | Holds(s'.jobs[q], c) ensures AtFront(Queue(s', c), q) {
      if j.at > 0 {
        HoldsNext(j.cids, j.at - 1, Unlocking, Unlocking, c);
      }
    }
  }

  lemma UnlockKeepsInv(s: Locks, r: RequestId)
    requires Inv(s) && Enabled(s, Unlock(r))
    ensures Inv(After(s, Unlock(r)))
  {
    var s' := After(s, Unlock(r));
    forall c ensures QueueInv(s', c) { UnlockKeepsQueues(s, r, c); }
    forall q | q in s'.jobs ensures JobInv(s', q, s'.jobs[q]) { UnlockKeepsJobs(s, r, q); }
  }

  /** Joining the next queue, from outside or from the front of the one before. */
  lemma QueuedKeepsInv(s: Locks, r: RequestId, cids: seq<Cid>, at: nat)
    requires Inv(s) && Ascending(cids) && at <= |cids|
    requires if at == 0 then r !in s.jobs
             else r in s.jobs && s.jobs[r] == Job(cids, at - 1, Acquiring) && AtFront(Queue(s, cids[at - 1]), r)
    ensures Inv(Queued(s, r, cids, at))
  {
    var s' := Queued(s, r, cids, at);
    forall c ensures QueueInv(s', c) { QueuedKeepsQueues(s, r, cids, at, c); }
    forall q | q in s'.jobs ensures JobInv(s', q, s'.jobs[q]) { QueuedKeepsJobs(s, r, cids, at, q); }
  }

  lemma StepKeepsInv(s: Locks, t: Step)
    requires Inv(s) && Enabled(s, t)
    ensures Inv(After(s, t))
  {
    match t
    case Submit(r, cids) => QueuedKeepsInv(s, r, cids, 0);
    case Advance(r) =>
      assert JobInv(s, r, s.jobs[r]);
      QueuedKeepsInv(s, r, s.jobs[r].cids, s.jobs[r].at + 1);
    case Finish(r) => FinishKeepsInv(s, r);
    case Unlock(r) => UnlockKeepsInv(s, r);
  }

  // ---------------------------------------------------------------- what holds in every reachable state

  /** Two requests never hold the same CID. */
  lemma MutualExclusion(s: Locks, r: RequestId, q: RequestId, c: Cid)
    requires Inv(s) && r in s.jobs && q in s.jobs && Holds(s.jobs[r], c) && Holds(s.jobs[q], c)
    ensures r == q
  {
    assert JobInv(s, r, s.jobs[r]) && JobInv(s, q, s.jobs[q]);
  }

  predicate Unfinished(s: Locks, r: RequestId) { r in s.jobs && s.jobs[r].phase != Done }

  /** A request that does not have to wait for anybody. */
  predicate CanMove(s: Locks, r: RequestId) {
    r in s.jobs && (Enabled(s, Advance(r)) || Enabled(s, Finish(r)) || Enabled(s, Unlock(r)))
  }

  /** The CIDs with a queue from `c` upwards. */
  function Above(s: Locks, c: Cid): set<Cid> { set d | d in s.queues && c <= d }

  /**
   * Follow the queues from a waiting request: whoever is in front either can move, or waits
   * for a strictly larger CID, so the walk ends.
   */
  lemma {:induction false} SomebodyCanMove(s: Locks, r: RequestId) returns (m: RequestId)
    requires Inv(s) && Unfinished(s, r)
    ensures CanMove(s, m)
    decreases if s.jobs[r].phase == Acquiring && s.jobs[r].at < |s.jobs[r].cids|
              then 1 + |Above(s, s.jobs[r].cids[s.jobs[r].at])| else 0
  {
    var j := s.jobs[r];
    assert JobInv(s, r, j);
    if j.phase == Unlocking && j.at > 0 {
      assert Holds(j, j.cids[j.at - 1]);
    }
    if CanMove(s, r) { return r; }
    var c := j.cids[j.at];
    assert QueueInv(s, c);
    assert WaitsFor(j, c);
    var h := Queue(s, c)[0];
    assert h in Queue(s, c) && JobInv(s, h, s.jobs[h]);
    if CanMove(s, h) { return h; }
    var k := s.jobs[h];
    assert Holds(k, c);
    var i :| 0 <= i < k.at && i < |k.cids| && k.cids[i] == c;
    assert c in Above(s, c);
    SubsetSize(Above(s, k.cids[k.at]), Above(s, c) - {c});
    m := SomebodyCanMove(s, h);
  }

  /**
   * No deadlock: while a request is unfinished, and everybody who is at the front of a
   * queue has moved on and every finished job has unlocked, some request is doing its work.
   */
  lemma SomebodyWorks(s: Locks, r: RequestId) returns (m: RequestId)
    requires Inv(s) && Unfinished(s, r)
    requires forall q :: q in s.jobs ==> !Enabled(s, Advance(q)) && !Enabled(s, Unlock(q))
    ensures m in s.jobs && s.jobs[m].phase == Working
  {
    m := SomebodyCanMove(s, r);
  }

  /** Whoever arrived first at a CID leaves it first. */
  predicate Before(q: seq<RequestId>, a: RequestId, b: RequestId) {
    exists i, j :: 0 <= i < j < |q| && q[i] == a && q[j] == b
  }

  lemma FirstComeFirstServed(s: Locks, t: Step, c: Cid, a: RequestId, b: RequestId)
    requires Inv(s) && Enabled(s, t) && Before(Queue(s, c), a, b)
    ensures Before(Queue(After(s, t), c), a, b) || (a !in Queue(After(s, t), c) && b in Queue(After(s, t), c))
    ensures !AtFront(Queue(s, c), b)
  {
    var q, q' := Queue(s, c), Queue(After(s, t), c);
    assert QueueInv(s, c);
    var i, j :| 0 <= i < j < |q| && q[i] == a && q[j] == b;
    if q' == q[1..] {
      assert q'[j - 1] == b;
      if i > 0 { assert q'[i - 1] == a; }
    } else {
      assert q' == q || exists r :: q' == q + [r];
      assert q'[i] == a && q'[j] == b;
    }
  }

  // ---------------------------------------------------------------- whole runs

  ghost predicate Run(ss: seq<Locks>, ts: seq<Step>) {
    && |ss| == |ts| + 1 && ss[0] == Locks(map[], map[])
    && forall i :: 0 <= i < |ts| ==> Enabled(ss[i], ts[i]) && ss[i + 1] == After(ss[i], ts[i])
  }

  lemma {:induction false} EveryStateInv(ss: seq<Locks>, ts: seq<Step>, k: nat)
    requires Run(ss, ts) && k < |ss|
    ensures Inv(ss[k])
  {
    if k > 0 {
      EveryStateInv(ss, ts, k - 1);
      StepKeepsInv(ss[k - 1], ts[k - 1]);
    }
  }

  /** At some moment after `i` and up to `k`, `a` had left the queue of `c` and `b` had not. */
  ghost predicate LeftBetween(ss: seq<Locks>, i: nat, k: nat, c: Cid, a: RequestId, b: RequestId) {
    exists j :: i < j <= k && j < |ss| && a !in Queue(ss[j], c) && b in Queue(ss[j], c)
  }

  /** From `i` to `k`, `b` stayed behind `a` unless `a` left. */
  ghost predicate StillBehind(ss: seq<Locks>, i: nat, k: nat, c: Cid, a: RequestId, b: RequestId)
    requires k < |ss|
  {
    Before(Queue(ss[k], c), a, b) || LeftBetween(ss, i, k, c, a, b)
  }

  lemma NextStillBehind(ss: seq<Locks>, ts: seq<Step>, i: nat, k: nat, c: Cid, a: RequestId, b: RequestId)
    requires Run(ss, ts) && i <= k < |ts| && StillBehind(ss, i, k, c, a, b)
    ensures StillBehind(ss, i, k + 1, c, a, b)
  {
    if Before(Queue(ss[k], c), a, b) {
      EveryStateInv(ss, ts, k);
      FirstComeFirstServed(ss[k], ts[k], c, a, b);
    }
  }

  /**
   * First come, first served over whole runs: a request that waits behind another one on a CID
   * stays behind it until the other one leaves.
   */
  lemma {:induction false} ServedInOrder(ss: seq<Locks>, ts: seq<Step>, i: nat, k: nat, c: Cid, a: RequestId,
                          b: RequestId)
    requires Run(ss, ts) && i <= k < |ss| && Before(Queue(ss[i], c), a, b)
    ensures StillBehind(ss, i, k, c, a, b)
  {
    if i < k {
      ServedInOrder(ss, ts, i, k - 1, c, a, b);
      NextStillBehind(ss, ts, i, k - 1, c, a, b);
    }
  }

  /** It gets to the front only after the other one left. */
  lemma FrontComesAfter(ss: seq<Locks>, ts: seq<Step>, i: nat, k: nat, c: Cid, a: RequestId, b: RequestId)
    requires Run(ss, ts) && i <= k < |ss| && Before(Queue(ss[i], c), a, b) && AtFront(Queue(ss[k], c), b)
    ensures LeftBetween(ss, i, k, c, a, b)
  {
    ServedInOrder(ss, ts, i, k, c, a, b);
    EveryStateInv(ss, ts, k);
    FrontIsFirst(ss[k], c, a, b);
  }

  lemma FrontIsFirst(s: Locks, c: Cid, a: RequestId, b: RequestId)
    requires Inv(s) && AtFront(Queue(s, c), b)
    ensures !Before(Queue(s, c), a, b)
  {
    assert QueueInv(s, c);
  }
}
