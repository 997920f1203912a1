/**
 * Requests for several CIDs over chained promises (src/storage/registry.ts:331-402) refine the
 * queues of `CidLocks`: whoever's promise lets it run is at the front of its queue there, and
 * each step taken on the promises is the step of the same name.
 */
module LockRefinement {
  import opened Common
  import L = CidLocks
  import P = PromiseQueues

  type Cid = nat

  /** A queue of calls is a queue of requests, one call each. */
  ghost predicate Matches(calls: seq<P.Ticket>, q: seq<L.RequestId>, who: map<P.Ticket, L.RequestId>) {
    |calls| == |q| && forall i :: 0 <= i < |q| ==> calls[i] in who && who[calls[i]] == q[i]
  }

  /** One more call and its request, in this queue or in another one. */
  lemma MatchesJoin(calls: seq<P.Ticket>, q: seq<L.RequestId>, who: map<P.Ticket, L.RequestId>, t: P.Ticket,
                    r: L.RequestId)
    requires Matches(calls, q, who) && t !in who
    ensures Matches(calls + [t], q + [r], who[t := r]) && Matches(calls, q, who[t := r])
  {
  }

  lemma MatchesPop(calls: seq<P.Ticket>, q: seq<L.RequestId>, who: map<P.Ticket, L.RequestId>)
    requires Matches(calls, q, who) && q != []
    ensures Matches(calls[1..], q[1..], who)
  {
  }

  class Registry {
    const promises: P.PromiseQueues
    /** The queues as `CidLocks` has them, and the request behind each call. */
    ghost var locks: L.Locks
    ghost var who: map<P.Ticket, L.RequestId>

    ghost predicate Valid()
      reads this, promises
    {
      && promises.Valid() && L.Inv(locks)
      && (forall t :: t in who ==> t in promises.previous)
      && forall c :: Matches(promises.Queue(c), L.Queue(locks, c), who)
    }

    constructor ()
      ensures Valid() && locks == L.Locks(map[], map[])
    {
      promises := new P.PromiseQueues();
      locks, who := L.Locks(map[], map[]), map[];
    }

    /** A request starts to queue for its first CID; one without any starts its work. */
    method Submit(r: L.RequestId, cids: seq<Cid>) returns (call: Option<P.Ticket>)
      requires Valid() && r !in locks.jobs && L.Ascending(cids)
      modifies this, promises
      ensures Valid() && locks == L.After(old(locks), L.Submit(r, cids))
    {
      L.StepKeepsInv(locks, L.Submit(r, cids));
      call := Join(r, cids, 0);
    }

    /** The promise of its call lets it run: the request holds this CID and turns to the next. */
    method Advance(r: L.RequestId, cids: seq<Cid>, at: nat, t: P.Ticket) returns (call: Option<P.Ticket>)
      requires Valid() && at < |cids| && r in locks.jobs && locks.jobs[r] == L.Job(cids, at, L.Acquiring)
      requires t in promises.Queue(cids[at]) && t in who && who[t] == r && promises.MayRun(t)
      modifies this, promises
      ensures L.Enabled(old(locks), L.Advance(r))
      ensures Valid() && locks == L.After(old(locks), L.Advance(r))
    {
      RunsAtFront(cids[at], t);
      L.StepKeepsInv(locks, L.Advance(r));
      call := Join(r, cids, at + 1);
    }

    /** Enter the queue of the next CID, if there is one. */
    method Join(r: L.RequestId, cids: seq<Cid>, at: nat) returns (call: Option<P.Ticket>)
      requires Valid() && at <= |cids| && L.Inv(L.Queued(locks, r, cids, at))
      modifies this, promises
      ensures Valid() && locks == L.Queued(old(locks), r, cids, at)
      ensures call.Some? <==> at < |cids|
      ensures call.Some? ==> call.value in who && who[call.value] == r && call.value in promises.Queue(cids[at])
    {
      ghost var was, before := locks, who;
      call := None;
      if at < |cids| {
        var t := promises.Enter(cids[at]);
        who := who[t := r];
        call := Some(t);
      }
      locks := L.Queued(locks, r, cids, at);
      forall c ensures Matches(promises.Queue(c), L.Queue(locks, c), who) {
        assert Matches(old(promises.Queue(c)), L.Queue(was, c), before);
        if at < |cids| { MatchesJoin(old(promises.Queue(c)), L.Queue(was, c), before, call.value, r); }
      }
    }

    /** The work is over, with success or not. */
    method Finish(r: L.RequestId)
      requires Valid() && L.Enabled(locks, L.Finish(r))
      modifies this
      ensures Valid() && locks == L.After(old(locks), L.Finish(r))
    {
      L.StepKeepsInv(locks, L.Finish(r));
      ghost var was := locks;
      locks := L.After(locks, L.Finish(r));
      forall c ensures Matches(promises.Queue(c), L.Queue(locks, c), who) {
        assert Matches(promises.Queue(c), L.Queue(was, c), who);
      }
    }

    /** A call settles once the calls nested in it have, so the last CID is unlocked first. */
    method Unlock(r: L.RequestId, cids: seq<Cid>, at: nat, t: P.Ticket)
      requires Valid() && 0 < at <= |cids| && r in locks.jobs && locks.jobs[r] == L.Job(cids, at, L.Unlocking)
      requires t in promises.Queue(cids[at - 1]) && t in who && who[t] == r
      modifies this, promises
      ensures L.Enabled(old(locks), L.Unlock(r)) && old(promises.MayRun(t))
      ensures Valid() && locks == L.After(old(locks), L.Unlock(r)) && t in promises.settled
    {
      HolderRuns(r, cids, at, t);
      L.StepKeepsInv(locks, L.Unlock(r));
      ghost var was := locks;
      promises.Settle(cids[at - 1], t);
      locks := L.After(locks, L.Unlock(r));
      forall c ensures Matches(promises.Queue(c), L.Queue(locks, c), who) {
        assert Matches(old(promises.Queue(c)), L.Queue(was, c), who);
        if c == cids[at - 1] { MatchesPop(old(promises.Queue(c)), L.Queue(was, c), who); }
      }
    }

    /** A call whose promise lets it run is in front, in both queues. */
    lemma RunsAtFront(c: Cid, t: P.Ticket)
      requires Valid() && t in promises.Queue(c) && t in who && promises.MayRun(t)
      ensures L.AtFront(L.Queue(locks, c), who[t])
    {
      promises.RunsInOrder(c, t);
      assert Matches(promises.Queue(c), L.Queue(locks, c), who);
    }

    /** The call of a request that holds a CID is the one that runs. */
    lemma HolderRuns(r: L.RequestId, cids: seq<Cid>, at: nat, t: P.Ticket)
      requires Valid() && 0 < at <= |cids| && r in locks.jobs && locks.jobs[r] == L.Job(cids, at, L.Unlocking)
      requires t in promises.Queue(cids[at - 1]) && t in who && who[t] == r
      ensures promises.MayRun(t) && L.Enabled(locks, L.Unlock(r))
    {
      var c := cids[at - 1];
      assert L.JobInv(locks, r, locks.jobs[r]);
      assert L.Holds(locks.jobs[r], c);
      assert L.QueueInv(locks, c);
      var calls, q := promises.Queue(c), L.Queue(locks, c);
      assert Matches(calls, q, who);
      var i :| 0 <= i < |calls| && calls[i] == t;
      assert q[i] == r && q[0] == r;
      promises.RunsInOrder(c, t);
    }
  }
}
