/** The fair reader/writer lock between imports and block deletion (src/storage/operationLock.ts). */
module OperationLock {
  import opened Common

  type LeaseId = nat

  datatype Mode = Shared | Exclusive

  datatype Waiter = Waiter(id: LeaseId, mode: Mode)

  /** A granted lease: the closure state of its `release`. */
  datatype Lease = Lease(mode: Mode, released: bool)

  /**
   * The lock as a value. `arrivals` and `grants` are the histories of requests and of
   * granted requests; `leases` has one entry for every grant.
   */
  datatype Lock = Lock(
    readers: nat, writer: bool, waiters: seq<Waiter>,
    leases: map<LeaseId, Lease>, arrivals: seq<LeaseId>, grants: seq<LeaseId>)

  const FREE := Lock(0, false, [], map[], [], [])

  function Ids(ws: seq<Waiter>): seq<LeaseId> { seq(|ws|, i requires 0 <= i < |ws| => ws[i].id) }

  function Held(leases: map<LeaseId, Lease>, mode: Mode): set<LeaseId> {
    set id | id in leases && leases[id] == Lease(mode, false)
  }

  predicate Holds(l: Lock, id: LeaseId) { id in l.leases && !l.leases[id].released }

  function Granted(l: Lock, w: Waiter): Lock {
    var g := l.(leases := l.leases[w.id := Lease(w.mode, false)], grants := l.grants + [w.id]);
    if w.mode == Shared then g.(readers := l.readers + 1) else g.(writer := true)
  }

  function MayEnter(l: Lock, mode: Mode): bool {
    !l.writer && l.waiters == [] && (mode == Exclusive ==> l.readers == 0)
  }

  function Acquired(l: Lock, id: LeaseId, mode: Mode): Lock {
    var a := l.(arrivals := l.arrivals + [id]);
    if MayEnter(l, mode) then Granted(a, Waiter(id, mode)) else a.(waiters := a.waiters + [Waiter(id, mode)])
  }

  /** Grant the shared waiters at the head of the queue. */
  function ReadersIn(l: Lock): Lock
    decreases |l.waiters|
  {
    if l.waiters == [] || l.waiters[0].mode == Exclusive then l
    else ReadersIn(Granted(l.(waiters := l.waiters[1..]), l.waiters[0]))
  }

  function Drained(l: Lock): Lock {
    if l.writer || l.readers > 0 || l.waiters == [] then l
    else if l.waiters[0].mode == Exclusive then Granted(l.(waiters := l.waiters[1..]), l.waiters[0])
    else ReadersIn(l)
  }

  function Returned(l: Lock, id: LeaseId): Lock
    requires id in l.leases
  {
    var r := l.(leases := l.leases[id := l.leases[id].(released := true)]);
    if l.leases[id].mode == Shared then r.(readers := if l.readers > 0 then l.readers - 1 else 0)
    else r.(writer := false)
  }

  /** Releasing a lease that was already released, or never granted, changes nothing. */
  function Released(l: Lock, id: LeaseId): Lock {
    if !Holds(l, id) then l else Drained(Returned(l, id))
  }

  // ---------------------------------------------------------------- the lock in place

  class StorageOperationLock {
    var readers: nat
    var writer: bool
    var waiters: seq<Waiter>
    var leases: map<LeaseId, Lease>
    ghost var arrivals: seq<LeaseId>
    ghost var grants: seq<LeaseId>

    ghost function State(): Lock
      reads this
    {
      Lock(readers, writer, waiters, leases, arrivals, grants)
    }

    constructor ()
      ensures State() == FREE
    {
      readers, writer, waiters, leases, arrivals, grants := 0, false, [], map[], [], [];
    }

    method Grant(w: Waiter)
      modifies this
      ensures State() == Granted(old(State()), w)
    {
      if w.mode == Shared {
        readers := readers + 1;
      } else {
        writer := true;
      }
      leases := leases[w.id := Lease(w.mode, false)];
      grants := grants + [w.id];
    }

    /** @returns whether the lease was granted at once */
    method Acquire(id: LeaseId, mode: Mode) returns (granted: bool)
      modifies this
      ensures State() == Acquired(old(State()), id, mode)
      ensures granted == old(MayEnter(State(), mode))
    {
      arrivals := arrivals + [id];
      granted := !writer && waiters == [] && (mode == Exclusive ==> readers == 0);
      if granted {
        Grant(Waiter(id, mode));
      } else {
        waiters := waiters + [Waiter(id, mode)];
      }
    }

    method Release(id: LeaseId)
      modifies this
      ensures State() == Released(old(State()), id)
    {
      if id !in leases || leases[id].released { return; }
      var lease := leases[id];
      leases := leases[id := lease.(released := true)];
      if lease.mode == Shared {
        readers := if readers > 0 then readers - 1 else 0;
      } else {
        writer := false;
      }
      Drain();
    }

    method Drain()
      modifies this
      ensures State() == Drained(old(State()))
    {
      if writer || readers > 0 || waiters == [] { return; }
      var first := waiters[0];
      if first.mode == Exclusive {
        waiters := waiters[1..];
        Grant(first);
        return;
      }
      while waiters != [] && waiters[0].mode == Shared
        invariant ReadersIn(State()) == ReadersIn(old(State()))
        decreases |waiters|
      {
        var reader := waiters[0];
        waiters := waiters[1..];
        Grant(reader);
      }
    }
  }

  // ---------------------------------------------------------------- what every reachable state satisfies

  /** Bookkeeping: one lease per grant, counters that match the leases out, arrival order. */
  ghost predicate Accounted(l: Lock) { Ordered(l) && Counted(l) }

  ghost predicate Ordered(l: Lock) {
    && NoDuplicates(l.arrivals)
    && l.arrivals == l.grants + Ids(l.waiters)
    && l.leases.Keys == Elements(l.grants)
  }

  ghost predicate Counted(l: Lock) {
    && |Held(l.leases, Shared)| == l.readers
    && |Held(l.leases, Exclusive)| == (if l.writer then 1 else 0)
  }

  ghost predicate Inv(l: Lock) {
    && Accounted(l)
    && (l.writer ==> l.readers == 0)
    && (!l.writer && l.readers == 0 ==> l.waiters == [])
    && (!l.writer && l.waiters != [] ==> l.waiters[0].mode == Exclusive && l.readers > 0)
  }

  /** A waiter has no lease yet. */
  lemma WaiterHasNoLease(l: Lock, w: Waiter)
    requires Accounted(l) && l.waiters != [] && l.waiters[0] == w
    ensures w.id !in l.leases
  {
    assert l.arrivals[|l.grants|] == Ids(l.waiters)[0] == w.id;
    forall i | 0 <= i < |l.grants| ensures l.grants[i] != w.id {
      assert l.arrivals[i] == l.grants[i];
    }
  }

  lemma GrantCounts(l: Lock, w: Waiter)
    requires Counted(l) && w.id !in l.leases && (w.mode == Exclusive ==> !l.writer)
    ensures Counted(Granted(l, w))
  {
    var g := Granted(l, w);
    assert Held(g.leases, w.mode) == Held(l.leases, w.mode) + {w.id};
    assert forall m :: m != w.mode ==> Held(g.leases, m) == Held(l.leases, m);
  }

  lemma GrantOrders(l: Lock, w: Waiter)
    requires Ordered(l) && l.waiters != [] && l.waiters[0] == w
    ensures Ordered(Granted(l.(waiters := l.waiters[1..]), w))
  {
    assert Ids(l.waiters) == [w.id] + Ids(l.waiters[1..]);
    assert Elements(l.grants + [w.id]) == Elements(l.grants) + {w.id};
  }

  /** Granting the head of the queue keeps the accounts. */
  lemma GrantKeepsAccounts(l: Lock, w: Waiter)
    requires Accounted(l) && l.waiters != [] && l.waiters[0] == w && (w.mode == Exclusive ==> !l.writer)
    ensures Accounted(Granted(l.(waiters := l.waiters[1..]), w))
  {
    WaiterHasNoLease(l, w);
    GrantOrders(l, w);
    GrantCounts(l.(waiters := l.waiters[1..]), w);
  }

  lemma AcquireKeepsInv(l: Lock, id: LeaseId, mode: Mode)
    requires Inv(l) && id !in l.arrivals
    ensures Inv(Acquired(l, id, mode))
  {
    var w := Waiter(id, mode);
    var a := l.(arrivals := l.arrivals + [id]);
    assert Ids(l.waiters + [w]) == Ids(l.waiters) + [id];
    assert l.arrivals + [id] == l.grants + (Ids(l.waiters) + [id]);
    assert NoDuplicates(a.arrivals);
    var q := a.(waiters := a.waiters + [w]);
    if MayEnter(l, mode) {
      assert q.waiters == [w];
      GrantKeepsAccounts(q, w);
      assert q.(waiters := q.waiters[1..]) == a;
    }
  }

  lemma {:induction false} ReadersInKeepsAccounts(l: Lock)
    requires Accounted(l) && !l.writer
    ensures Accounted(ReadersIn(l)) && !ReadersIn(l).writer && l.readers <= ReadersIn(l).readers
    ensures ReadersIn(l).waiters != [] ==> ReadersIn(l).waiters[0].mode == Exclusive
    ensures l.waiters != [] && l.waiters[0].mode == Shared ==> ReadersIn(l).readers > 0
    decreases |l.waiters|
  {
    if l.waiters != [] && l.waiters[0].mode == Shared {
      var rest := l.(waiters := l.waiters[1..]);
      GrantKeepsAccounts(l, l.waiters[0]);
      ReadersInKeepsAccounts(Granted(rest, l.waiters[0]));
    }
  }

  lemma ReturnKeepsAccounts(l: Lock, id: LeaseId)
    requires Inv(l) && Holds(l, id)
    ensures Accounted(Returned(l, id))
  {
    var r := Returned(l, id);
    var mode := l.leases[id].mode;
    assert id in Held(l.leases, mode);
    assert Held(r.leases, mode) == Held(l.leases, mode) - {id};
    assert forall m :: m != mode ==> Held(r.leases, m) == Held(l.leases, m);
  }

  lemma ReleaseKeepsInv(l: Lock, id: LeaseId)
    requires Inv(l)
    ensures Inv(Released(l, id))
  {
    if Holds(l, id) {
      var r := Returned(l, id);
      ReturnKeepsAccounts(l, id);
      assert l.leases[id].mode == Shared ==> id in Held(l.leases, Shared);
      assert l.leases[id].mode == Exclusive ==> id in Held(l.leases, Exclusive);
      if !r.writer && r.readers == 0 && r.waiters != [] {
        if r.waiters[0].mode == Exclusive {
          GrantKeepsAccounts(r, r.waiters[0]);
        } else {
          ReadersInKeepsAccounts(r);
        }
      }
    }
  }

  // ---------------------------------------------------------------- whole runs

  datatype Event = Acquiring(id: LeaseId, mode: Mode) | Releasing(id: LeaseId)

  function After(l: Lock, e: Event): Lock {
    match e
    case Acquiring(id, mode) => Acquired(l, id, mode)
    case Releasing(id) => Released(l, id)
  }

  function AfterAll(es: seq<Event>): Lock {
    if es == [] then FREE else After(AfterAll(es[..|es| - 1]), es[|es| - 1])
  }

  /** Each request is made once; releases may be repeated at will. */
  ghost predicate Requests(es: seq<Event>) {
    forall i, j :: 0 <= i < j < |es| && es[i].Acquiring? && es[j].Acquiring? ==> es[i].id != es[j].id
  }

  /**
   * In every state any sequence of requests and releases can reach: readers counts the shared
   * leases still out, a writer is alone, a queue only exists behind a holder and is headed by
   * a collector while readers hold, and grants are a prefix of arrivals.
   */
  lemma {:induction false} EveryStateIsFair(es: seq<Event>)
    requires Requests(es)
    ensures Inv(AfterAll(es))
    ensures AfterAll(es).grants <= AfterAll(es).arrivals
    ensures forall id :: id in AfterAll(es).arrivals ==> exists i :: 0 <= i < |es| && es[i].Acquiring? && es[i].id == id
  {
    if es == [] {
      assert Held(FREE.leases, Shared) == {} && Held(FREE.leases, Exclusive) == {};
    } else {
      var init, e := es[..|es| - 1], es[|es| - 1];
      EveryStateIsFair(init);
      var l := AfterAll(init);
      match e {
        case Acquiring(id, mode) =>
          assert id !in l.arrivals;
          AcquireKeepsInv(l, id, mode);
        case Releasing(id) =>
          ReleaseKeepsInv(l, id);
          DrainKeepsArrivals(l, id);
      }
      forall id | id in AfterAll(es).arrivals ensures exists i :: 0 <= i < |es| && es[i].Acquiring? && es[i].id == id {
        if id in l.arrivals {
          var i :| 0 <= i < |init| && init[i].Acquiring? && init[i].id == id;
          assert es[i].Acquiring? && es[i].id == id;
        } else {
          assert es[|es| - 1].Acquiring? && es[|es| - 1].id == id;
        }
      }
    }
  }

  lemma DrainKeepsArrivals(l: Lock, id: LeaseId)
    ensures Released(l, id).arrivals == l.arrivals
  {
    if Holds(l, id) { ReadersInKeepsArrivals(Returned(l, id)); }
  }

  lemma {:induction false} ReadersInKeepsArrivals(l: Lock)
    ensures ReadersIn(l).arrivals == l.arrivals
    decreases |l.waiters|
  {
    if l.waiters != [] && l.waiters[0].mode == Shared {
      ReadersInKeepsArrivals(Granted(l.(waiters := l.waiters[1..]), l.waiters[0]));
    }
  }

  // ---------------------------------------------------------------- leases are stable

  /** Who waits, and with which mode, decides the mode of the lease that is granted. */
  ghost predicate LeasesFrom(l: Lock, g: Lock) {
    && (forall id :: id in l.leases ==> id in g.leases && g.leases[id] == l.leases[id])
    && (forall id :: id in g.leases && id !in l.leases ==>
          exists i :: 0 <= i < |l.waiters| && l.waiters[i] == Waiter(id, g.leases[id].mode) && !g.leases[id].released)
    && (forall w :: w in g.waiters ==> w in l.waiters)
  }

  lemma {:induction false} ReadersInLeases(l: Lock)
    requires Accounted(l) && !l.writer
    ensures LeasesFrom(l, ReadersIn(l))
    decreases |l.waiters|
  {
    if l.waiters != [] && l.waiters[0].mode == Shared {
      var w := l.waiters[0];
      var g := Granted(l.(waiters := l.waiters[1..]), w);
      WaiterHasNoLease(l, w);
      GrantKeepsAccounts(l, w);
      ReadersInLeases(g);
      var d := ReadersIn(g);
      forall id | id in d.leases && id !in l.leases
        ensures !d.leases[id].released
        ensures exists i :: 0 <= i < |l.waiters| && l.waiters[i] == Waiter(id, d.leases[id].mode)
      {
        if id == w.id {
          assert l.waiters[0] == Waiter(id, d.leases[id].mode);
        } else {
          var i :| 0 <= i < |g.waiters| && g.waiters[i] == Waiter(id, d.leases[id].mode) && !d.leases[id].released;
          assert l.waiters[i + 1] == g.waiters[i];
        }
      }
    }
  }

  /** A release touches its own lease and grants waiting ones; every other lease is as it was. */
  lemma ReleaseLeases(l: Lock, id: LeaseId)
    requires Inv(l) && Holds(l, id)
    ensures LeasesFrom(Returned(l, id), Released(l, id))
  {
    var r := Returned(l, id);
    ReturnKeepsAccounts(l, id);
    if !r.writer && r.readers == 0 && r.waiters != [] {
      if r.waiters[0].mode == Exclusive { WaiterHasNoLease(r, r.waiters[0]); } else { ReadersInLeases(r); }
    }
  }

  /** What giving `id` back does to everybody's lease. */
  ghost predicate GaveBack(l: Lock, g: Lock, id: LeaseId) {
    && id in l.leases && id in g.leases && g.leases[id] == l.leases[id].(released := true)
    && g.arrivals == l.arrivals
    && (forall x :: x in l.leases && x != id ==> x in g.leases && g.leases[x] == l.leases[x])
    && (forall x :: x in g.leases && x !in l.leases ==>
          !g.leases[x].released && Waiter(x, g.leases[x].mode) in l.waiters)
    && (forall w :: w in g.waiters ==> w in l.waiters)
  }

  lemma ReleaseGivesBack(l: Lock, id: LeaseId)
    requires Inv(l) && id in l.leases
    ensures Inv(Released(l, id)) && GaveBack(l, Released(l, id), id)
  {
    ReleaseKeepsInv(l, id);
    DrainKeepsArrivals(l, id);
    if Holds(l, id) { ReleaseLeases(l, id); }
  }

  /** What a request does to everybody's lease. */
  ghost predicate Arrived(l: Lock, a: Lock, w: Waiter) {
    && a.arrivals == l.arrivals + [w.id]
    && (forall x :: x in l.leases ==> x != w.id && x in a.leases && a.leases[x] == l.leases[x])
    && (forall x :: x in a.leases && x !in l.leases ==> x == w.id && a.leases[x] == Lease(w.mode, false))
    && (forall v :: v in a.waiters ==> v in l.waiters || v == w)
    && (forall v :: v in l.waiters ==> v.id != w.id)
  }

  lemma AcquireArrives(l: Lock, id: LeaseId, mode: Mode)
    requires Inv(l) && id !in l.arrivals
    ensures Inv(Acquired(l, id, mode)) && Arrived(l, Acquired(l, id, mode), Waiter(id, mode))
  {
    AcquireKeepsInv(l, id, mode);
    forall x | x in l.leases ensures x != id {
      assert x in Elements(l.grants);
      assert x in l.arrivals;
    }
    forall i | 0 <= i < |l.waiters| ensures l.waiters[i].id != id {
      assert l.arrivals[|l.grants| + i] == Ids(l.waiters)[i];
    }
  }

  /** A collector that holds the exclusive lease is the only holder of any lease. */
  lemma WriterIsAlone(l: Lock, c: LeaseId)
    requires Inv(l) && Holds(l, c) && l.leases[c].mode == Exclusive
    ensures l.readers == 0 && forall r :: Holds(l, r) ==> r == c
  {
    assert c in Held(l.leases, Exclusive);
    assert l.writer && |Held(l.leases, Shared)| == 0;
    forall r | Holds(l, r) ensures r == c {
      assert l.leases[r].mode == Shared ==> r in Held(l.leases, Shared);
      if r != c {
        SubsetSize({c, r}, Held(l.leases, Exclusive));
        assert false;
      }
    }
  }
}
