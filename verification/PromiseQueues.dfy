/**
 * How the registry queues work on one CID (src/storage/registry.ts:331-360): every call
 * chains on the promise it finds in a map, leaves its own there, and deletes the entry
 * afterwards only if it is still its own. The FIFO queues of `CidLocks` are what this
 * amounts to.
 */
module PromiseQueues {
  import opened Common
  import opened Records

  type Ticket = nat

  /** What every call left behind: the promise it chained on, whether it settled, its CID, and whether it cleaned up. */
  datatype Calls = Calls(
    previous: map<Ticket, Option<Ticket>>, settled: set<Ticket>, home: map<Ticket, Cid>, cleaned: set<Ticket>)

  /** The queue of a CID as the map of last promises implies it. */
  ghost predicate Chained(q: seq<Ticket>, last: Option<Ticket>, a: Calls, c: Cid) {
    && NoDuplicates(q)
    && (forall i :: 0 <= i < |q| ==> q[i] in a.previous && q[i] !in a.settled && q[i] in a.home && a.home[q[i]] == c)
    && (forall i :: 0 < i < |q| ==> a.previous[q[i]] == Some(q[i - 1]))
    && (q != [] ==> last == Some(q[|q| - 1]) && (a.previous[q[0]].None? || a.previous[q[0]].value in a.settled))
    && (last.Some? ==>
      last.value in a.previous && last.value in a.home && a.home[last.value] == c && last.value !in a.cleaned)
    && (q == [] && last.Some? ==> last.value in a.settled)
  }

  function Entered(a: Calls, t: Ticket, c: Cid, last: Option<Ticket>): Calls {
    a.(previous := a.previous[t := last], home := a.home[t := c])
  }

  /** A new call is chained behind the last one, and no other queue sees it. */
  lemma EnterChains(q: seq<Ticket>, last: Option<Ticket>, a: Calls, c: Cid, t: Ticket, d: Cid)
    requires Chained(q, last, a, d) && t !in a.previous && t !in a.home && t !in a.settled && t !in a.cleaned
    ensures d != c ==> forall p :: Chained(q, last, Entered(a, t, c, p), d)
    ensures d == c ==> Chained(q + [t], Some(t), Entered(a, t, c, last), c)
  {
  }

  /** Only the queue of its own CID notices that the call in front settled. */
  lemma SettleChains(q: seq<Ticket>, last: Option<Ticket>, a: Calls, c: Cid, t: Ticket, d: Cid)
    requires Chained(q, last, a, d) && t in a.home && a.home[t] == c && (d == c ==> q != [] && q[0] == t)
    ensures Chained(if d == c then q[1..] else q, last, a.(settled := a.settled + {t}), d)
  {
    if d == c && |q| > 1 { assert a.previous[q[1]] == Some(q[0]); }
  }

  /** Deleting the entry of a settled call, and only its own, keeps every queue. */
  lemma CleanupChains(q: seq<Ticket>, last: Option<Ticket>, a: Calls, c: Cid, t: Ticket, d: Cid)
    requires Chained(q, last, a, d) && t in a.settled && t in a.home && a.home[t] == c
    ensures Chained(q, if d == c && last == Some(t) then None else last, a.(cleaned := a.cleaned + {t}), d)
  {
  }

  class PromiseQueues {
    /** The promise of the last call for each CID. */
    var queued: map<Cid, Ticket>
    /** The promise each call chained on. */
    var previous: map<Ticket, Option<Ticket>>
    var settled: set<Ticket>
    var next: Ticket
    /** Calls for each CID that have not settled, in order of arrival. */
    ghost var order: map<Cid, seq<Ticket>>
    ghost var home: map<Ticket, Cid>
    ghost var cleaned: set<Ticket>

    ghost function Queue(c: Cid): seq<Ticket>
      reads this
    {
      if c in order then order[c] else []
    }

    function Last(c: Cid): Option<Ticket>
      reads this
    {
      if c in queued then Some(queued[c]) else None
    }

    ghost function Made(): Calls
      reads this
    {
      Calls(previous, settled, home, cleaned)
    }

    ghost predicate Valid()
      reads this
    {
      && (forall t :: t in previous ==> t < next)
      && home.Keys == previous.Keys && settled <= previous.Keys && cleaned <= settled
      && forall c :: Chained(Queue(c), Last(c), Made(), c)
    }

    constructor ()
      ensures Valid() && queued == map[] && previous == map[] && forall c :: Queue(c) == []
    {
      queued, previous, settled, next := map[], map[], {}, 0;
      order, home, cleaned := map[], map[], {};
    }

    /** The promise a call chained on has settled, and its own work has not. */
    predicate MayRun(t: Ticket)
      reads this
    {
      t in previous && t !in settled && (previous[t].None? || previous[t].value in settled)
    }

    /** A call joins the end of the queue. */
    method Enter(c: Cid) returns (t: Ticket)
      requires Valid()
      modifies this
      ensures Valid() && t !in old(previous) && previous.Keys == old(previous.Keys) + {t}
      ensures Queue(c) == old(Queue(c)) + [t] && forall d :: d != c ==> Queue(d) == old(Queue(d))
      ensures settled == old(settled)
    {
      t := next;
      ghost var a := Made();
      order, home := order[c := Queue(c) + [t]], home[t := c];
      previous := previous[t := Last(c)];
      queued := queued[c := t];
      next := next + 1;
      assert Made() == Entered(a, t, c, old(Last(c)));
      forall d ensures Chained(Queue(d), Last(d), Made(), d) {
        assert Chained(old(Queue(d)), old(Last(d)), a, d);
        EnterChains(old(Queue(d)), old(Last(d)), a, c, t, d);
        assert d != c ==> Queue(d) == old(Queue(d)) && Last(d) == old(Last(d));
      }
    }

    /** The work of the call in front is over, with success or not. */
    method Settle(c: Cid, t: Ticket)
      requires Valid() && t in Queue(c) && MayRun(t)
      modifies this
      ensures Valid() && settled == old(settled) + {t} && previous == old(previous)
      ensures old(Queue(c))[0] == t && Queue(c) == old(Queue(c))[1..]
      ensures forall d :: d != c ==> Queue(d) == old(Queue(d))
    {
      RunsInOrder(c, t);
      assert Chained(Queue(c), Last(c), Made(), c);
      ghost var a := Made();
      order := order[c := Queue(c)[1..]];
      settled := settled + {t};
      forall d ensures Chained(Queue(d), Last(d), Made(), d) {
        assert Chained(old(Queue(d)), old(Last(d)), a, d);
        SettleChains(old(Queue(d)), old(Last(d)), a, c, t, d);
      }
    }

    /** What a call does last: its entry goes, but not that of a later call. */
    method Cleanup(c: Cid, t: Ticket)
      requires Valid() && t in settled && t in home && home[t] == c
      modifies this
      ensures Valid() && previous == old(previous) && settled == old(settled) && cleaned == old(cleaned) + {t}
      ensures forall d :: Queue(d) == old(Queue(d))
    {
      ghost var a := Made();
      if c in queued && queued[c] == t {
        queued := queued - {c};
      }
      cleaned := cleaned + {t};
      forall d ensures Chained(Queue(d), Last(d), Made(), d) {
        assert Chained(old(Queue(d)), old(Last(d)), a, d);
        CleanupChains(old(Queue(d)), old(Last(d)), a, c, t, d);
      }
    }

    /** Of all calls for a CID exactly the one in front may run: one at a time, first come first served. */
    lemma RunsInOrder(c: Cid, t: Ticket)
      requires Valid() && t in Queue(c)
      ensures MayRun(t) <==> t == Queue(c)[0]
    {
      var q := Queue(c);
      assert Chained(q, Last(c), Made(), c);
      var i :| 0 <= i < |q| && q[i] == t;
      if i > 0 { assert previous[q[i]] == Some(q[i - 1]); }
    }

    /** The map does not grow with the CIDs ever touched: once every call has cleaned up it is empty. */
    lemma NothingIsLeft()
      requires Valid() && forall t :: t in previous ==> t in cleaned
      ensures queued == map[]
    {
      forall c ensures c !in queued {
        assert Chained(Queue(c), Last(c), Made(), c);
      }
    }
  }
}
