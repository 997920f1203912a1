/**
 * The import-to-pin window: upload admission, sessions, and the collector, over the
 * shared storage lock (src/middleware/uploadAdmission.ts, src/storage/uploadSession.ts).
 * A request takes one shared lease, identified by the request itself.
 */
module UploadWindow {
  import opened Common
  import L = OperationLock

  type Id = L.LeaseId

  /** `Waiting` for the lease, `Measuring` free space, `Admitted` with a session, or `Gone`. */
  datatype Phase = Waiting | Measuring | Admitted | Gone

  /** `cleaning` spans the asynchronous deletions after `settled` is set by a cleanup. */
  datatype Session = Session(settled: bool, claimed: bool, cleaning: bool)

  /** `closed` is the middleware's `released` flag. */
  datatype Request = Request(phase: Phase, closed: bool, session: Option<Session>)

  datatype Window = Window(lock: L.Lock, requests: map<Id, Request>, deleting: Option<Id>)

  datatype Space = Enough | Short | Unknown

  datatype Event =
    | Arrive(r: Id)
    | Resume(r: Id)
    | Measured(r: Id, space: Space)
    | Close(r: Id)
    | Claim(r: Id)
    | Commit(r: Id)
    | Cleanup(r: Id)
    | CleanupDone(r: Id)
    | Collect(c: Id)
    | StartDeleting(c: Id)
    | StopDeleting(c: Id)

  function Give(w: Window, r: Id): L.Lock { L.Released(w.lock, r) }

  function With(w: Window, r: Id, q: Request): Window { w.(requests := w.requests[r := q]) }

  /** The middleware's `release`: once, and without the lease of a session that is not settled. */
  function Ended(w: Window, r: Id): Window
    requires r in w.requests
  {
    var q := w.requests[r];
    if q.closed then w
    else
      var e := With(w, r, q.(closed := true));
      if q.phase != Waiting && (q.session.None? || q.session.value.settled) then e.(lock := Give(w, r)) else e
  }

  predicate Unsettled(q: Request) { q.session.Some? && !q.session.value.settled }

  function StartCleanup(w: Window, r: Id): Window
    requires r in w.requests && w.requests[r].session.Some?
  {
    var q := w.requests[r];
    if q.session.value.settled then w
    else With(w, r, q.(session := Some(q.session.value.(settled := true, claimed := false, cleaning := true))))
  }

  function After(w: Window, e: Event): Window {
    match e
    case Arrive(r) =>
      if r in w.lock.arrivals then w
      else With(w.(lock := L.Acquired(w.lock, r, L.Shared)), r, Request(Waiting, false, None))
    case Resume(r) =>
      if r !in w.requests || w.requests[r].phase != Waiting || r !in w.lock.leases then w
      else if w.requests[r].closed then With(w.(lock := Give(w, r)), r, w.requests[r].(phase := Gone))
      else With(w, r, w.requests[r].(phase := Measuring))
    case Measured(r, space) =>
      if r !in w.requests || w.requests[r].phase != Measuring then w
      else if w.requests[r].closed then With(w.(lock := Give(w, r)), r, w.requests[r].(phase := Gone))
      else if space == Enough then
        With(w, r, w.requests[r].(phase := Admitted, session := Some(Session(false, false, false))))
      else
        var ended := Ended(w, r);
        With(ended, r, ended.requests[r].(phase := Gone))
    case Close(r) =>
      if r !in w.requests then w
      else
        var ended := Ended(w, r);
        var q := ended.requests[r];
        if Unsettled(q) && !q.session.value.claimed then StartCleanup(ended, r) else ended
    case Claim(r) =>
      if r !in w.requests || !Unsettled(w.requests[r]) then w
      else With(w, r, w.requests[r].(session := Some(w.requests[r].session.value.(claimed := true))))
    case Commit(r) =>
      if r !in w.requests || !Unsettled(w.requests[r]) then w
      else With(w.(lock := Give(w, r)), r, w.requests[r].(session := Some(Session(true, false, false))))
    case Cleanup(r) =>
      if r !in w.requests || w.requests[r].session.None? then w else StartCleanup(w, r)
    case CleanupDone(r) =>
      if r !in w.requests || w.requests[r].session.None? || !w.requests[r].session.value.cleaning then w
      else With(w.(lock := Give(w, r)), r,
                w.requests[r].(session := Some(w.requests[r].session.value.(cleaning := false))))
    case Collect(c) =>
      if c in w.lock.arrivals then w
      else w.(lock := L.Acquired(w.lock, c, L.Exclusive))
    case StartDeleting(c) =>
      if c in w.requests || !L.Holds(w.lock, c) || w.deleting.Some? then w else w.(deleting := Some(c))
    case StopDeleting(c) =>
      if w.deleting != Some(c) then w else w.(deleting := None, lock := Give(w, c))
  }

  // ---------------------------------------------------------------- invariant

  predicate LeaseOut(l: L.Lock, r: Id) { L.Holds(l, r) && l.leases[r].mode == L.Shared }

  predicate LeaseBack(l: L.Lock, r: Id) { r in l.leases && l.leases[r] == L.Lease(L.Shared, true) }

  /** Where the lease of a request is, phase by phase. */
  predicate RequestInv(l: L.Lock, r: Id, q: Request) {
    match q.phase
    case Waiting => q.session.None? && (r in l.leases ==> LeaseOut(l, r))
    case Measuring => q.session.None? && (if q.closed then LeaseBack(l, r) else LeaseOut(l, r))
    case Gone => q.session.None? && LeaseBack(l, r)
    case Admitted =>
      && q.session.Some?
      && (q.session.value.cleaning ==> q.session.value.settled)
      && (if !q.session.value.settled then LeaseOut(l, r)
          else if q.session.value.cleaning then LeaseOut(l, r) || LeaseBack(l, r)
          else LeaseBack(l, r))
  }

  function ModeOf(requests: map<Id, Request>, id: Id): L.Mode { if id in requests then L.Shared else L.Exclusive }

  /** Requests ask for shared leases, collectors for exclusive ones. */
  ghost predicate Modes(l: L.Lock, requests: map<Id, Request>) {
    && (forall i :: 0 <= i < |l.waiters| ==> l.waiters[i].mode == ModeOf(requests, l.waiters[i].id))
    && (forall id :: id in l.leases ==> l.leases[id].mode == ModeOf(requests, id))
  }

  ghost predicate Placed(l: L.Lock, requests: map<Id, Request>) {
    Modes(l, requests) && forall r :: r in requests ==> r in l.arrivals && RequestInv(l, r, requests[r])
  }

  predicate Deleting(w: Window) {
    w.deleting.Some? ==> w.deleting.value !in w.requests && L.Holds(w.lock, w.deleting.value)
  }

  ghost predicate Inv(w: Window) { L.Inv(w.lock) && Placed(w.lock, w.requests) && Deleting(w) }

  /** Giving a lease back keeps the place of every other request's lease. */
  lemma GiveKeeps(l: L.Lock, g: L.Lock, requests: map<Id, Request>, id: Id)
    requires L.GaveBack(l, g, id) && Modes(l, requests)
    ensures Modes(g, requests)
    ensures forall c :: c != id && L.Holds(l, c) ==> L.Holds(g, c)
    ensures forall r :: r in requests && r != id && RequestInv(l, r, requests[r]) ==> RequestInv(g, r, requests[r])
  {
    forall i | 0 <= i < |g.waiters| ensures g.waiters[i].mode == ModeOf(requests, g.waiters[i].id) {
      assert g.waiters[i] in l.waiters;
    }
    forall x | x in g.leases ensures g.leases[x].mode == ModeOf(requests, x) {
      if x !in l.leases { assert L.Waiter(x, g.leases[x].mode) in l.waiters; }
    }
  }

  /** A newcomer keeps the place of every request's lease. */
  lemma ArriveKeeps(l: L.Lock, a: L.Lock, requests: map<Id, Request>, w: L.Waiter)
    requires L.Arrived(l, a, w) && Placed(l, requests) && w.id !in requests
    ensures w.mode == L.Exclusive ==> Placed(a, requests)
    ensures w.mode == L.Shared ==> Placed(a, requests[w.id := Request(Waiting, false, None)])
  {
    var requests' := if w.mode == L.Shared then requests[w.id := Request(Waiting, false, None)] else requests;
    forall i | 0 <= i < |a.waiters| ensures a.waiters[i].mode == ModeOf(requests', a.waiters[i].id) {
      assert a.waiters[i] in l.waiters || a.waiters[i] == w;
    }
  }

  predicate Gives(w: Window, e: Event) {
    match e
    case Resume(r) => r in w.requests && w.requests[r].phase == Waiting && r in w.lock.leases && w.requests[r].closed
    case Measured(r, space) =>
      r in w.requests && w.requests[r].phase == Measuring && (w.requests[r].closed || space != Enough)
    case Close(r) =>
      && r in w.requests && !w.requests[r].closed && w.requests[r].phase != Waiting
      && (w.requests[r].session.None? || w.requests[r].session.value.settled)
    case Commit(r) => r in w.requests && Unsettled(w.requests[r])
    case CleanupDone(r) => r in w.requests && w.requests[r].session.Some? && w.requests[r].session.value.cleaning
    case StopDeleting(c) => w.deleting == Some(c)
    case _ => false
  }

  function Subject(e: Event): Id { if e.Collect? || e.StartDeleting? || e.StopDeleting? then e.c else e.r }

  predicate Arrives(w: Window, e: Event) { (e.Arrive? || e.Collect?) && Subject(e) !in w.lock.arrivals }

  /** A step changes the lock in one of three ways. */
  lemma LockStep(w: Window, e: Event)
    requires Subject(e) in w.requests ==> RequestInv(w.lock, Subject(e), w.requests[Subject(e)])
    ensures After(w, e).lock ==
      if Gives(w, e) then L.Released(w.lock, Subject(e))
      else if Arrives(w, e) then L.Acquired(w.lock, Subject(e), if e.Arrive? then L.Shared else L.Exclusive)
      else w.lock
  {
  }

  lemma GivenLeaseExists(w: Window, e: Event)
    requires Placed(w.lock, w.requests) && Deleting(w) && Gives(w, e)
    ensures Subject(e) in w.lock.leases
  {
    assert Subject(e) in w.requests ==> RequestInv(w.lock, Subject(e), w.requests[Subject(e)]);
  }

  /** Only the request that acted is described anew. */
  lemma OnlyTheSubject(w: Window, e: Event)
    requires Gives(w, e)
    ensures var w' := After(w, e); var id := Subject(e);
      if e.StopDeleting? then w'.requests == w.requests
      else id in w.requests && id in w'.requests && w'.requests == w.requests[id := w'.requests[id]]
  {
  }

  /** The request that gave its lease back ends in a phase where the lease is back. */
  lemma SubjectIsPlaced(w: Window, e: Event)
    requires Gives(w, e) && !e.StopDeleting? && RequestInv(w.lock, Subject(e), w.requests[Subject(e)])
    requires L.GaveBack(w.lock, After(w, e).lock, Subject(e)) && w.lock.leases[Subject(e)].mode == L.Shared
    ensures Subject(e) in After(w, e).requests
    ensures RequestInv(After(w, e).lock, Subject(e), After(w, e).requests[Subject(e)])
  {
  }

  lemma GivingStep(w: Window, e: Event, w': Window)
    requires Placed(w.lock, w.requests) && Deleting(w) && Gives(w, e) && w' == After(w, e)
    requires L.GaveBack(w.lock, w'.lock, Subject(e))
    ensures Placed(w'.lock, w'.requests) && Deleting(w')
  {
    var id := Subject(e);
    GiveKeeps(w.lock, w'.lock, w.requests, id);
    OnlyTheSubject(w, e);
    if !e.StopDeleting? {
      assert RequestInv(w.lock, id, w.requests[id]);
      SubjectIsPlaced(w, e);
      assert forall x :: ModeOf(w'.requests, x) == ModeOf(w.requests, x);
    }
  }

  /** A step that leaves the lock alone describes at most its subject anew, with the lease where it was. */
  lemma QuietSubject(w: Window, e: Event)
    requires !Gives(w, e) && !Arrives(w, e) && After(w, e).lock == w.lock
    requires Subject(e) in w.requests ==> RequestInv(w.lock, Subject(e), w.requests[Subject(e)])
    ensures var w' := After(w, e); var id := Subject(e);
      w'.requests == w.requests
      || (id in w.requests && id in w'.requests && w'.requests == w.requests[id := w'.requests[id]]
          && RequestInv(w.lock, id, w'.requests[id]))
  {
  }

  lemma QuietStep(w: Window, e: Event, w': Window)
    requires Placed(w.lock, w.requests) && Deleting(w) && !Gives(w, e) && !Arrives(w, e)
    requires w' == After(w, e) && w'.lock == w.lock
    ensures Placed(w'.lock, w'.requests) && Deleting(w')
  {
    QuietSubject(w, e);
    assert forall x :: ModeOf(w'.requests, x) == ModeOf(w.requests, x);
  }

  lemma StepKeepsInv(w: Window, e: Event)
    requires Inv(w)
    ensures Inv(After(w, e))
  {
    var w' := After(w, e);
    LockStep(w, e);
    if Gives(w, e) {
      GivenLeaseExists(w, e);
      L.ReleaseGivesBack(w.lock, Subject(e));
      GivingStep(w, e, w');
    } else if Arrives(w, e) {
      var mode := if e.Arrive? then L.Shared else L.Exclusive;
      L.AcquireArrives(w.lock, Subject(e), mode);
      ArriveKeeps(w.lock, w'.lock, w.requests, L.Waiter(Subject(e), mode));
    } else {
      QuietStep(w, e, w');
    }
  }

  // ---------------------------------------------------------------- whole runs

  const IDLE := Window(L.FREE, map[], None)

  function AfterAll(es: seq<Event>): Window {
    if es == [] then IDLE else After(AfterAll(es[..|es| - 1]), es[|es| - 1])
  }

  lemma {:induction false} EveryStateInv(es: seq<Event>)
    ensures Inv(AfterAll(es))
  {
    if es == [] {
      assert L.Held(L.FREE.leases, L.Shared) == {} && L.Held(L.FREE.leases, L.Exclusive) == {};
    } else {
      EveryStateInv(es[..|es| - 1]);
      StepKeepsInv(AfterAll(es[..|es| - 1]), es[|es| - 1]);
    }
  }

  /**
   * In every interleaving of uploads, disconnects, commits, cleanups and collections: an
   * unsettled session holds its one shared lease; a request that is gone or settled (and
   * done cleaning) has given it back; and while blocks are being deleted no session is
   * unsettled, so none has imported blocks that are not pinned yet.
   */
  lemma WindowIsProtected(es: seq<Event>, r: Id)
    requires r in AfterAll(es).requests
    ensures var w := AfterAll(es); var q := w.requests[r];
      && (Unsettled(q) ==> LeaseOut(w.lock, r) && w.deleting.None?)
      && (q.phase == Gone || (q.session.Some? && q.session.value.settled && !q.session.value.cleaning) ==>
        LeaseBack(w.lock, r))
  {
    EveryStateInv(es);
    var w := AfterAll(es);
    if w.deleting.Some? {
      L.WriterIsAlone(w.lock, w.deleting.value);
    }
  }

  /** A lease that was given back stays given back: it is never returned twice. */
  lemma LeaseReturnsOnce(es: seq<Event>, e: Event, r: Id)
    requires r in AfterAll(es).requests && LeaseBack(AfterAll(es).lock, r)
    ensures LeaseBack(AfterAll(es + [e]).lock, r)
    ensures L.Released(AfterAll(es).lock, r) == AfterAll(es).lock
  {
    EveryStateInv(es);
    var w := AfterAll(es);
    assert (es + [e])[..|es|] == es;
    LockStep(w, e);
    if Gives(w, e) {
      GivenLeaseExists(w, e);
      L.ReleaseGivesBack(w.lock, Subject(e));
    } else if Arrives(w, e) {
      L.AcquireArrives(w.lock, Subject(e), if e.Arrive? then L.Shared else L.Exclusive);
    }
  }

  // ---------------------------------------------------------------- what an event does, exactly

  function SessionOf(w: Window, r: Id): Option<Session> { if r in w.requests then w.requests[r].session else None }

  predicate IsClosed(w: Window, r: Id) { r in w.requests && w.requests[r].closed }

  /** A session is opened exactly when the free space of a request still connected was found to be enough. */
  lemma OpensExactly(w: Window, e: Event, r: Id)
    requires SessionOf(w, r).None?
    ensures SessionOf(After(w, e), r).Some? <==>
      e == Measured(r, Enough) && r in w.requests && w.requests[r].phase == Measuring && !w.requests[r].closed
    ensures SessionOf(After(w, e), r).Some? ==> SessionOf(After(w, e), r).value == Session(false, false, false)
  {
  }

  /** It is settled exactly by a commit, a cleanup, or a close of the connection before a handler claimed it. */
  lemma SettlesExactly(w: Window, e: Event, r: Id)
    requires r in w.requests && r in w.lock.arrivals && RequestInv(w.lock, r, w.requests[r])
    requires SessionOf(w, r).Some? && !SessionOf(w, r).value.settled
    ensures var v := SessionOf(After(w, e), r);
      && v.Some?
      && (v.value.settled <==>
            e == Commit(r) || e == Cleanup(r) || (e == Close(r) && !SessionOf(w, r).value.claimed))
      && (v.value.settled ==> (v.value.cleaning <==> e != Commit(r)))
      && (!v.value.settled ==> (v.value.claimed <==> e == Claim(r) || SessionOf(w, r).value.claimed))
  {
  }

  /** A settled session only ever finishes its cleanup; a connection is closed by its end or by a refusal. */
  lemma EndsExactly(w: Window, e: Event, r: Id)
    requires r in w.requests && r in w.lock.arrivals && RequestInv(w.lock, r, w.requests[r])
    ensures SessionOf(w, r).Some? && SessionOf(w, r).value.settled ==>
      SessionOf(After(w, e), r) ==
      Some(SessionOf(w, r).value.(cleaning := SessionOf(w, r).value.cleaning && e != CleanupDone(r)))
    ensures IsClosed(After(w, e), r) <==>
      || w.requests[r].closed || e == Close(r)
      || (w.requests[r].phase == Measuring && (e == Measured(r, Short) || e == Measured(r, Unknown)))
  {
  }

  // ---------------------------------------------------------------- cleanup and the lease

  predicate IsSettled(w: Window, r: Id) {
    r in w.requests && w.requests[r].session.Some? && w.requests[r].session.value.settled
  }

  predicate Cleaning(w: Window, r: Id) { IsSettled(w, r) && w.requests[r].session.value.cleaning }

  /** Only events of the request itself describe it anew, and a settled session stays settled. */
  lemma SettledStep(w: Window, e: Event, r: Id)
    requires IsSettled(w, r) && r in w.lock.arrivals && RequestInv(w.lock, r, w.requests[r]) && w.deleting != Some(r)
    ensures IsSettled(After(w, e), r)
    ensures Cleaning(After(w, e), r) ==> Cleaning(w, r)
    ensures w.requests[r].closed ==> After(w, e).requests[r].closed
    ensures After(w, e).requests[r].closed != w.requests[r].closed ==> e == Close(r) && Gives(w, e)
    ensures Gives(w, e) && Subject(e) == r && Cleaning(After(w, e), r) ==> e == Close(r) && !w.requests[r].closed
  {
  }

  lemma LeaseStays(w: Window, e: Event, r: Id)
    requires Inv(w) && r in w.requests && (LeaseOut(w.lock, r) || LeaseBack(w.lock, r))
    ensures LeaseBack(w.lock, r) ==> LeaseBack(After(w, e).lock, r)
    ensures LeaseOut(w.lock, r) && !(Gives(w, e) && Subject(e) == r) ==> LeaseOut(After(w, e).lock, r)
    ensures LeaseOut(w.lock, r) && Gives(w, e) && Subject(e) == r ==> LeaseBack(After(w, e).lock, r)
  {
    LockStep(w, e);
    if Gives(w, e) {
      GivenLeaseExists(w, e);
      L.ReleaseGivesBack(w.lock, Subject(e));
    } else if Arrives(w, e) {
      L.AcquireArrives(w.lock, Subject(e), if e.Arrive? then L.Shared else L.Exclusive);
    }
  }

  /** What became of the lease of a request that was cleaning up at `w` with its lease out. */
  predicate LeaseFollows(w: Window, v: Window, r: Id)
    requires r in w.requests
  {
    && IsSettled(v, r)
    && (Cleaning(v, r) ==>
          if v.requests[r].closed == w.requests[r].closed then LeaseOut(v.lock, r) else LeaseBack(v.lock, r))
    && (w.requests[r].closed ==> v.requests[r].closed)
  }

  lemma LeaseFollowsStep(w: Window, v: Window, e: Event, r: Id)
    requires r in w.requests && LeaseFollows(w, v, r) && Inv(v)
    ensures LeaseFollows(w, After(v, e), r)
  {
    SettledStep(v, e, r);
    if Cleaning(v, r) { LeaseStays(v, e, r); }
  }

  lemma AfterOneMore(es: seq<Event>, e: Event)
    ensures AfterAll(es + [e]) == After(AfterAll(es), e)
  {
    assert (es + [e])[..|es|] == es;
  }

  lemma LeaseFollowsOne(es: seq<Event>, more: seq<Event>, e: Event, r: Id)
    requires r in AfterAll(es).requests && LeaseFollows(AfterAll(es), AfterAll(es + more), r)
    ensures LeaseFollows(AfterAll(es), AfterAll(es + (more + [e])), r)
  {
    EveryStateInv(es + more);
    LeaseFollowsStep(AfterAll(es), AfterAll(es + more), e, r);
    assert es + (more + [e]) == (es + more) + [e];
    AfterOneMore(es + more, e);
  }

  /**
   * A cleanup that begins with the lease keeps it to the end exactly when the connection does
   * not close meanwhile: `closed` is still what it was. A close during the deletions gives the
   * lease back although they go on.
   */
  lemma {:induction false} LeaseThroughCleanup(es: seq<Event>, more: seq<Event>, r: Id)
    requires Cleaning(AfterAll(es), r) && LeaseOut(AfterAll(es).lock, r)
    ensures LeaseFollows(AfterAll(es), AfterAll(es + more), r)
  {
    if more == [] {
      assert es + more == es;
    } else {
      var n := |more| - 1;
      LeaseThroughCleanup(es, more[..n], r);
      LeaseFollowsOne(es, more[..n], more[n], r);
      assert more[..n] + [more[n]] == more;
    }
  }

  function Failing(): Window {
    After(After(After(After(IDLE, Arrive(0)), Resume(0)), Measured(0, Enough)), Cleanup(0))
  }

  /** It happens: a handler fails and cleans up, and the connection closes before the deletions are over. */
  lemma CleanupCanLoseItsLease()
    ensures Cleaning(Failing(), 0) && LeaseOut(Failing().lock, 0)
    ensures Cleaning(After(Failing(), Close(0)), 0) && LeaseBack(After(Failing(), Close(0)).lock, 0)
  {
    var w := After(IDLE, Arrive(0));
    assert w.lock.leases == map[0 := L.Lease(L.Shared, false)];
  }
}
