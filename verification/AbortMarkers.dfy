/**
 * Abort markers: an insertion-ordered table that rejects a stage request still in
 * flight when its abort was processed (src/storage/replicaStage.ts:13-84).
 */
module AbortMarkers {
  import opened Common
  import opened Records
  import opened Lifecycle

  const MAX_ABORT_TOMBSTONES: nat := 10_000

  /** `peer` is absent for callers that do not identify themselves. */
  datatype Key = Key(cid: Cid, tx: TransactionId, peer: Option<PeerId>)

  datatype Marker = Marker(key: Key, expiresAt: Time)

  predicate Distinct(t: seq<Marker>) {
    forall i, j :: 0 <= i < j < |t| ==> t[i].key != t[j].key
  }

  predicate Has(t: seq<Marker>, k: Key) { exists i :: 0 <= i < |t| && t[i].key == k }

  function Live(t: seq<Marker>, now: Time): seq<Marker> {
    if t == [] then []
    else Live(t[..|t| - 1], now) + (if t[|t| - 1].expiresAt <= now then [] else [t[|t| - 1]])
  }

  function Newest(t: seq<Marker>, cap: nat): seq<Marker> {
    if |t| > cap then t[|t| - cap..] else t
  }

  function Prune(t: seq<Marker>, now: Time): seq<Marker> { Newest(Live(t, now), MAX_ABORT_TOMBSTONES) }

  /** Writing a key that is present keeps its position. */
  function Put(t: seq<Marker>, k: Key, expiresAt: Time): seq<Marker> {
    if t == [] then [Marker(k, expiresAt)]
    else if t[0].key == k then [Marker(k, expiresAt)] + t[1..]
    else [t[0]] + Put(t[1..], k, expiresAt)
  }

  function Remember(t: seq<Marker>, k: Key, expiresAt: Time, now: Time): seq<Marker> {
    Prune(Put(Prune(t, now), k, expiresAt), now)
  }

  /** Whether a stage request for this CID, transaction and peer is rejected. */
  predicate WasAborted(t: seq<Marker>, cid: Cid, tx: TransactionId, origin: Option<PeerId>, now: Time) {
    var p := Prune(t, now);
    if origin.None? then exists i :: 0 <= i < |p| && p[i].key.cid == cid && p[i].key.tx == tx
    else Has(p, Key(cid, tx, None)) || Has(p, Key(cid, tx, origin))
  }

  // ---------------------------------------------------------------- the table in place

  class AbortTable {
    var markers: seq<Marker>

    constructor ()
      ensures markers == []
    {
      markers := [];
    }

    method PruneExpired(now: Time)
      modifies this
      ensures markers == Live(old(markers), now)
    {
      var all := markers;
      var kept := [];
      var i := 0;
      while i < |all|
        invariant 0 <= i <= |all| && all == old(markers)
        invariant kept == Live(all[..i], now)
      {
        assert all[..i + 1][..i] == all[..i];
        if all[i].expiresAt > now {
          kept := kept + [all[i]];
        }
        i := i + 1;
      }
      assert all[..i] == all;
      markers := kept;
    }

    method PruneAbortTombstones(now: Time)
      modifies this
      ensures markers == Prune(old(markers), now)
    {
      PruneExpired(now);
      ghost var live := markers;
      while |markers| > MAX_ABORT_TOMBSTONES
        invariant |markers| <= |live| && markers == live[|live| - |markers|..]
        invariant |live| > MAX_ABORT_TOMBSTONES ==> |markers| >= MAX_ABORT_TOMBSTONES
        invariant |live| <= MAX_ABORT_TOMBSTONES ==> markers == live
      {
        markers := markers[1..];
      }
    }

    method RememberAbort(k: Key, expiresAt: Time, now: Time)
      modifies this
      ensures markers == Remember(old(markers), k, expiresAt, now)
    {
      PruneAbortTombstones(now);
      markers := Put(markers, k, expiresAt);
      PruneAbortTombstones(now);
    }

    method CheckAborted(cid: Cid, tx: TransactionId, origin: Option<PeerId>, now: Time) returns (aborted: bool)
      modifies this
      ensures markers == Prune(old(markers), now)
      ensures aborted == WasAborted(old(markers), cid, tx, origin, now)
    {
      PruneAbortTombstones(now);
      if origin.None? {
        aborted := exists i :: 0 <= i < |markers| && markers[i].key.cid == cid && markers[i].key.tx == tx;
      } else {
        aborted := Has(markers, Key(cid, tx, None)) || Has(markers, Key(cid, tx, origin));
      }
    }
  }

  // ---------------------------------------------------------------- positions

  /** A marker that lives until `e` or longer, with at most `newer` markers inserted after it. */
  predicate Holds(t: seq<Marker>, k: Key, e: Time, newer: nat) {
    exists i :: 0 <= i < |t| && t[i].key == k && e <= t[i].expiresAt && |t| - 1 - i <= newer
  }

  lemma {:induction false} LiveKeeps(t: seq<Marker>, now: Time, k: Key, e: Time, newer: nat)
    requires Holds(t, k, e, newer) && now < e
    ensures Holds(Live(t, now), k, e, newer)
  {
    var i :| 0 <= i < |t| && t[i].key == k && e <= t[i].expiresAt && |t| - 1 - i <= newer;
    var init := t[..|t| - 1];
    if i < |t| - 1 {
      assert init[i] == t[i];
      LiveKeeps(init, now, k, e, newer - 1);
      var live := Live(init, now);
      var j :| 0 <= j < |live| && live[j].key == k && e <= live[j].expiresAt && |live| - 1 - j <= newer - 1;
      assert Live(t, now)[j] == live[j];
    } else {
      assert Live(t, now)[|Live(init, now)|] == t[i];
    }
  }

  lemma PruneKeeps(t: seq<Marker>, now: Time, k: Key, e: Time, newer: nat)
    requires Holds(t, k, e, newer) && now < e && newer < MAX_ABORT_TOMBSTONES
    ensures Holds(Prune(t, now), k, e, newer)
  {
    LiveKeeps(t, now, k, e, newer);
    var live := Live(t, now);
    var i :| 0 <= i < |live| && live[i].key == k && e <= live[i].expiresAt && |live| - 1 - i <= newer;
    if |live| > MAX_ABORT_TOMBSTONES {
      assert Prune(t, now)[i - (|live| - MAX_ABORT_TOMBSTONES)] == live[i];
    }
  }

  lemma {:induction false} PutShape(t: seq<Marker>, k: Key, until: Time)
    ensures |Put(t, k, until)| == (if Has(t, k) then |t| else |t| + 1)
    ensures forall i :: 0 <= i < |t| ==> Put(t, k, until)[i].key == t[i].key
    ensures forall i :: 0 <= i < |t| && t[i].key != k ==> Put(t, k, until)[i] == t[i]
    ensures !Has(t, k) ==> Put(t, k, until) == t + [Marker(k, until)]
    ensures exists i :: 0 <= i < |Put(t, k, until)| && Put(t, k, until)[i] == Marker(k, until)
  {
    if t == [] || t[0].key == k {
      assert Put(t, k, until)[0] == Marker(k, until);
      assert t != [] ==> Has(t, k);
    } else {
      PutShape(t[1..], k, until);
      var rest := Put(t[1..], k, until);
      var j :| 0 <= j < |rest| && rest[j] == Marker(k, until);
      assert Put(t, k, until)[j + 1] == Marker(k, until);
      if Has(t, k) {
        var i :| 0 <= i < |t| && t[i].key == k;
        assert t[1..][i - 1].key == k;
      } else {
        assert forall i :: 0 <= i < |t[1..]| ==> t[1..][i] == t[i + 1];
      }
    }
  }

  lemma {:induction false} LiveIsASelection(t: seq<Marker>, now: Time, m: Marker)
    requires m in Live(t, now)
    ensures m in t
  {
    if m != t[|t| - 1] {
      assert m in Live(t[..|t| - 1], now);
      LiveIsASelection(t[..|t| - 1], now, m);
    }
  }

  predicate AllLive(t: seq<Marker>, now: Time) {
    forall i :: 0 <= i < |t| ==> now < t[i].expiresAt
  }

  lemma {:induction false} AllLiveStay(t: seq<Marker>, now: Time)
    requires AllLive(t, now)
    ensures Live(t, now) == t
  {
    if t != [] {
      AllLiveStay(t[..|t| - 1], now);
      assert t == t[..|t| - 1] + [t[|t| - 1]];
    }
  }

  // ---------------------------------------------------------------- what the table promises

  /** The table never holds more markers than its cap. */
  lemma TableIsBounded(t: seq<Marker>, now: Time)
    ensures |Prune(t, now)| <= MAX_ABORT_TOMBSTONES
  {
  }

  /** A marker just written survives its own pruning; a first abort is the newest entry. */
  lemma WrittenMarkerSurvives(t: seq<Marker>, k: Key, e: Time, now: Time)
    requires now < e
    ensures Holds(Remember(t, k, e, now), k, e, MAX_ABORT_TOMBSTONES - 1)
    ensures !Has(Prune(t, now), k) ==> Holds(Remember(t, k, e, now), k, e, 0)
  {
    var p := Prune(t, now);
    TableIsBounded(t, now);
    PutShape(p, k, e);
    var put := Put(p, k, e);
    if Has(p, k) {
      var i :| 0 <= i < |put| && put[i] == Marker(k, e);
      assert put[i].key == k && e <= put[i].expiresAt && |put| - 1 - i <= MAX_ABORT_TOMBSTONES - 1;
      PruneKeeps(put, now, k, e, MAX_ABORT_TOMBSTONES - 1);
    } else {
      assert put[|p|].key == k && e <= put[|p|].expiresAt && |put| - 1 - |p| <= 0;
      PruneKeeps(put, now, k, e, 0);
      Weaken(Prune(put, now), k, e);
    }
  }

  lemma Weaken(t: seq<Marker>, k: Key, e: Time)
    requires Holds(t, k, e, 0)
    ensures Holds(t, k, e, MAX_ABORT_TOMBSTONES - 1)
  {
    var i :| 0 <= i < |t| && t[i].key == k && e <= t[i].expiresAt && |t| - 1 - i <= 0;
  }

  /** Table traffic: an abort that writes a marker, or a stage request that consults them. */
  datatype Event = Aborted(key: Key, expiresAt: Time, now: Time) | Asked(now: Time)

  function After(t: seq<Marker>, e: Event): seq<Marker> {
    match e
    case Aborted(k, expiresAt, now) => Remember(t, k, expiresAt, now)
    case Asked(now) => Prune(t, now)
  }

  function AfterAll(t: seq<Marker>, es: seq<Event>): seq<Marker> {
    if es == [] then t else After(AfterAll(t, es[..|es| - 1]), es[|es| - 1])
  }

  /** How many markers of other transactions a history writes. */
  function Others(es: seq<Event>, k: Key): nat {
    if es == [] then 0
    else Others(es[..|es| - 1], k) + (if es[|es| - 1].Aborted? && es[|es| - 1].key != k then 1 else 0)
  }

  lemma MarkerStep(t: seq<Marker>, ev: Event, k: Key, e: Time, newer: nat)
    requires Holds(t, k, e, newer) && ev.now < e
    requires ev.Aborted? && ev.key == k ==> e <= ev.expiresAt
    requires newer + (if ev.Aborted? && ev.key != k then 1 else 0) < MAX_ABORT_TOMBSTONES
    ensures Holds(After(t, ev), k, e, newer + (if ev.Aborted? && ev.key != k then 1 else 0))
  {
    PruneKeeps(t, ev.now, k, e, newer);
    if ev.Aborted? {
      var p := Prune(t, ev.now);
      var i :| 0 <= i < |p| && p[i].key == k && e <= p[i].expiresAt && |p| - 1 - i <= newer;
      PutShape(p, ev.key, ev.expiresAt);
      var put := Put(p, ev.key, ev.expiresAt);
      if ev.key == k {
        assert Has(p, k);
        PutAtFirst(p, k, ev.expiresAt, i);
        assert Holds(put, k, e, newer);
        PruneKeeps(put, ev.now, k, e, newer);
      } else {
        assert put[i] == p[i];
        assert Holds(put, k, e, newer + 1);
        PruneKeeps(put, ev.now, k, e, newer + 1);
      }
    }
  }

  /** Rewriting the marker of `k` leaves a live marker of `k` at every position that had one. */
  lemma {:induction false} PutAtFirst(t: seq<Marker>, k: Key, until: Time, i: nat)
    requires i < |t| && t[i].key == k
    ensures i < |Put(t, k, until)| && Put(t, k, until)[i].key == k
    ensures Put(t, k, until)[i].expiresAt == until || Put(t, k, until)[i] == t[i]
  {
    if t[0].key != k {
      PutAtFirst(t[1..], k, until, i - 1);
    }
  }

  /**
   * While a marker is unexpired and fewer markers were written after it than the table
   * holds, no stage request for its CID, transaction and peer succeeds, whatever slot it
   * finds: `newer` counts from the write that created the marker's entry.
   */
  lemma {:induction false} MarkerRejectsStage(t: seq<Marker>, es: seq<Event>, k: Key, e: Time, newer: nat,
                                              s: Slot, q: StageRequest, fault: Fault)
    requires Holds(t, k, e, newer) && newer + Others(es, k) < MAX_ABORT_TOMBSTONES
    requires forall i :: 0 <= i < |es| ==> es[i].now < e && (es[i].Aborted? && es[i].key == k ==> e <= es[i].expiresAt)
    requires q.tx == k.tx && q.origin == k.peer && q.now < e
    ensures Holds(AfterAll(t, es), k, e, newer + Others(es, k))
    ensures StageSlot(s, q, WasAborted(AfterAll(t, es), k.cid, q.tx, q.origin, q.now), fault) == Outcome(s, Error)
  {
    if es != [] {
      MarkerRejectsStage(t, es[..|es| - 1], k, e, newer, s, q, fault);
      MarkerStep(AfterAll(t, es[..|es| - 1]), es[|es| - 1], k, e, newer + Others(es[..|es| - 1], k));
    }
    PruneKeeps(AfterAll(t, es), q.now, k, e, newer + Others(es, k));
    var p := Prune(AfterAll(t, es), q.now);
    var i :| 0 <= i < |p| && p[i].key == k && e <= p[i].expiresAt && |p| - 1 - i <= newer + Others(es, k);
    assert Has(p, k);
  }

  /** Only a marker of the request's own peer, or of an unidentified caller, ever rejects it. */
  lemma {:induction false} OtherPeersNeverReject(t: seq<Marker>, es: seq<Event>, cid: Cid, tx: TransactionId,
                                                 peer: PeerId, now: Time)
    requires !Has(t, Key(cid, tx, None)) && !Has(t, Key(cid, tx, Some(peer)))
    requires forall i :: 0 <= i < |es| && es[i].Aborted? ==>
      es[i].key != Key(cid, tx, None) && es[i].key != Key(cid, tx, Some(peer))
    ensures !Has(AfterAll(t, es), Key(cid, tx, None)) && !Has(AfterAll(t, es), Key(cid, tx, Some(peer)))
    ensures !WasAborted(AfterAll(t, es), cid, tx, Some(peer), now)
  {
    if es != [] {
      var before := AfterAll(t, es[..|es| - 1]);
      OtherPeersNeverReject(t, es[..|es| - 1], cid, tx, peer, now);
      NoNewKey(before, es[|es| - 1], Key(cid, tx, None));
      NoNewKey(before, es[|es| - 1], Key(cid, tx, Some(peer)));
    }
    NoNewKey(AfterAll(t, es), Asked(now), Key(cid, tx, None));
    NoNewKey(AfterAll(t, es), Asked(now), Key(cid, tx, Some(peer)));
  }

  lemma NoNewKey(t: seq<Marker>, ev: Event, k: Key)
    requires !Has(t, k) && (ev.Aborted? ==> ev.key != k)
    ensures !Has(After(t, ev), k)
  {
    PruneAddsNothing(t, ev.now, k);
    if ev.Aborted? {
      var p := Prune(t, ev.now);
      PutShape(p, ev.key, ev.expiresAt);
      var put := Put(p, ev.key, ev.expiresAt);
      assert !Has(put, k);
      PruneAddsNothing(put, ev.now, k);
    }
  }

  lemma PruneAddsNothing(t: seq<Marker>, now: Time, k: Key)
    requires !Has(t, k)
    ensures !Has(Prune(t, now), k)
  {
    var live, p := Live(t, now), Prune(t, now);
    forall i | 0 <= i < |p| ensures p[i].key != k {
      assert p[i] in live;
      LiveIsASelection(t, now, p[i]);
    }
  }

  // ---------------------------------------------------------------- a repeated abort does not renew

  /**
   * Aborting again refreshes the expiry but not the position. When `k` is the oldest
   * marker of a full table, one further abort by anybody else displaces it, although
   * its own last abort is that recent.
   */
  lemma RepeatedAbortIsDisplacedByOne(t: seq<Marker>, k: Key, e: Time, other: Key, until: Time, now: Time)
    requires |t| == MAX_ABORT_TOMBSTONES && Distinct(t) && t[0].key == k && now < e && now < until
    requires AllLive(t, now) && !Has(t, other)
    ensures !Has(Remember(Remember(t, k, e, now), other, until, now), k)
  {
    var t1 := [Marker(k, e)] + t[1..];
    assert Remember(t, k, e, now) == t1 by {
      AllLiveStay(t, now);
      AllLiveStay(t1, now);
    }
    var t2 := t1 + [Marker(other, until)];
    assert Remember(t1, other, until, now) == t2[1..] by {
      AllLiveStay(t1, now);
      forall i | 0 <= i < |t1| ensures t1[i].key != other {
        assert t[i].key != other;
      }
      PutShape(t1, other, until);
      AllLiveStay(t2, now);
    }
    forall i | 0 <= i < |t2[1..]| ensures t2[1..][i].key != k {
      if i < |t| - 1 { assert t2[1..][i] == t[i + 1]; } else { assert t[0].key != other; }
    }
  }

  // ---------------------------------------------------------------- new transactions only

  /** The markers of a history of aborts. */
  function Marks(es: seq<Event>): seq<Marker>
    requires forall i :: 0 <= i < |es| ==> es[i].Aborted?
  {
    seq(|es|, i requires 0 <= i < |es| => Marker(es[i].key, es[i].expiresAt))
  }

  /** Aborts of transactions without a marker, each at its own time, that none of the markers outlives. */
  lemma {:induction false} NewMarkersPushOut(t: seq<Marker>, es: seq<Event>, end: Time)
    requires |t| <= MAX_ABORT_TOMBSTONES && forall i :: 0 <= i < |es| ==> es[i].Aborted? && es[i].now <= end
    requires AllLive(t + Marks(es), end) && Distinct(t + Marks(es))
    ensures AfterAll(t, es) == Newest(t + Marks(es), MAX_ABORT_TOMBSTONES)
  {
    if es == [] {
      assert t + Marks(es) == t;
    } else {
      var init, x := es[..|es| - 1], es[|es| - 1];
      var u, v := t + Marks(init), t + Marks(es);
      assert u + [Marker(x.key, x.expiresAt)] == v;
      assert forall i :: 0 <= i < |u| ==> u[i] == v[i];
      assert v[|u|] == Marker(x.key, x.expiresAt);
      NewMarkersPushOut(t, init, end);
      AppendMarker(u, x.key, x.expiresAt, x.now);
    }
  }

  lemma NewestAppend(u: seq<Marker>, m: Marker, cap: nat)
    requires cap > 0
    ensures Newest(Newest(u, cap) + [m], cap) == Newest(u + [m], cap)
  {
  }

  lemma AppendMarker(u: seq<Marker>, x: Key, e: Time, now: Time)
    requires AllLive(u, now) && now < e && Distinct(u + [Marker(x, e)])
    ensures Remember(Newest(u, MAX_ABORT_TOMBSTONES), x, e, now) == Newest(u + [Marker(x, e)], MAX_ABORT_TOMBSTONES)
  {
    var n := Newest(u, MAX_ABORT_TOMBSTONES);
    NewKeyIsMissing(u, Marker(x, e), MAX_ABORT_TOMBSTONES);
    RememberNew(n, x, e, now);
    NewestAppend(u, Marker(x, e), MAX_ABORT_TOMBSTONES);
  }

  lemma NewKeyIsMissing(u: seq<Marker>, m: Marker, cap: nat)
    requires Distinct(u + [m])
    ensures !Has(Newest(u, cap), m.key)
  {
    var n, v := Newest(u, cap), u + [m];
    forall i | 0 <= i < |n| ensures n[i].key != m.key {
      assert n[i] == v[i + |u| - |n|] && v[|u|] == m;
    }
  }

  lemma RememberNew(n: seq<Marker>, x: Key, e: Time, now: Time)
    requires |n| <= MAX_ABORT_TOMBSTONES && AllLive(n, now) && now < e && !Has(n, x)
    ensures Remember(n, x, e, now) == Newest(n + [Marker(x, e)], MAX_ABORT_TOMBSTONES)
  {
    AllLiveStay(n, now);
    PutShape(n, x, e);
    AllLiveStay(n + [Marker(x, e)], now);
  }

  /**
   * Exactly when aborts of new transactions, each at its own time and with its own expiry,
   * displace an unexpired marker: when the markers behind its entry, old and new together,
   * fill the table.
   */
  lemma DisplacedExactlyWhenFull(t: seq<Marker>, es: seq<Event>, end: Time, i: nat)
    requires |t| <= MAX_ABORT_TOMBSTONES && forall i :: 0 <= i < |es| ==> es[i].Aborted? && es[i].now <= end
    requires AllLive(t + Marks(es), end) && Distinct(t + Marks(es))
    requires i < |t|
    ensures Has(AfterAll(t, es), t[i].key) <==> |t| - 1 - i + |es| < MAX_ABORT_TOMBSTONES
  {
    NewMarkersPushOut(t, es, end);
    var v := t + Marks(es);
    assert v[i] == t[i];
    KeptWhenRecent(v, MAX_ABORT_TOMBSTONES, i);
  }

  lemma KeptWhenRecent(v: seq<Marker>, cap: nat, i: nat)
    requires Distinct(v) && i < |v|
    ensures Has(Newest(v, cap), v[i].key) <==> |v| - 1 - i < cap
  {
    var n := Newest(v, cap);
    var d := |v| - |n|;
    if d <= i {
      assert n[i - d].key == v[i].key;
    } else {
      forall j | 0 <= j < |n| ensures n[j].key != v[i].key {
        assert n[j] == v[j + d];
      }
    }
  }

  // ---------------------------------------------------------------- any traffic

  /** The markers behind the entry of `k`, followed without a cap: a key already there keeps its place. */
  function Rivals(b: seq<Marker>, ev: Event, k: Key): seq<Marker> {
    match ev
    case Asked(now) => Live(b, now)
    case Aborted(x, expiresAt, now) =>
      if x == k then Live(b, now) else Live(Put(Live(b, now), x, expiresAt), now)
  }

  function RivalsAfter(b: seq<Marker>, es: seq<Event>, k: Key): seq<Marker> {
    if es == [] then b else Rivals(RivalsAfter(b, es[..|es| - 1], k), es[|es| - 1], k)
  }

  lemma {:induction false} LiveConcat(a: seq<Marker>, b: seq<Marker>, now: Time)
    ensures Live(a + b, now) == Live(a, now) + Live(b, now)
  {
    if b == [] {
      assert a + b == a;
    } else {
      assert (a + b)[..|a + b| - 1] == a + b[..|b| - 1];
      LiveConcat(a, b[..|b| - 1], now);
    }
  }

  lemma {:induction false} LiveKeys(t: seq<Marker>, now: Time)
    requires Distinct(t)
    ensures Distinct(Live(t, now)) && |Live(t, now)| <= |t|
    ensures forall m :: m in Live(t, now) ==> m in t && m.expiresAt > now
  {
    if t != [] {
      var init, last := t[..|t| - 1], t[|t| - 1];
      LiveKeys(init, now);
      forall i | 0 <= i < |Live(init, now)| ensures Live(init, now)[i].key != last.key {
        assert Live(init, now)[i] in init;
      }
    }
  }

  /** Writing a key that is not ahead leaves what is ahead, and writes into the rest. */
  lemma {:induction false} PutBehind(a: seq<Marker>, b: seq<Marker>, x: Key, e: Time)
    requires !Has(a, x)
    ensures Put(a + b, x, e) == a + Put(b, x, e)
  {
    if a == [] {
      assert a + b == b && a + Put(b, x, e) == Put(b, x, e);
    } else {
      assert a[0].key != x;
      forall i | 0 <= i < |a[1..]| ensures a[1..][i].key != x {
        assert a[1..][i] == a[i + 1];
      }
      assert (a + b)[1..] == a[1..] + b;
      PutBehind(a[1..], b, x, e);
    }
  }

  lemma PutDistinct(t: seq<Marker>, x: Key, e: Time)
    requires Distinct(t)
    ensures Distinct(Put(t, x, e))
  {
    PutShape(t, x, e);
    var p := Put(t, x, e);
    forall i, j | 0 <= i < j < |p| ensures p[i].key != p[j].key {
      if j == |t| { assert t[i].key != x; }
    }
  }

  /** A table with the entry of `k` in the middle: `a` ahead of it, `b` behind. */
  predicate Around(t: seq<Marker>, a: seq<Marker>, m: Marker, b: seq<Marker>, k: Key, e: Time) {
    t == a + [m] + b && m.key == k && e <= m.expiresAt && Distinct(t) && |t| <= MAX_ABORT_TOMBSTONES
  }

  predicate Ahead(a: seq<Marker>, ahead: set<Key>) { forall i :: 0 <= i < |a| ==> a[i].key in ahead }

  lemma LiveAround(t: seq<Marker>, a: seq<Marker>, m: Marker, b: seq<Marker>, k: Key, e: Time, now: Time)
    requires Around(t, a, m, b, k, e) && now < e
    ensures Prune(t, now) == Live(t, now) && Around(Live(t, now), Live(a, now), m, Live(b, now), k, e)
  {
    LiveKeys(t, now);
    PruneWritten(a, m, b, k, e, now);
  }

  /** Cutting a table to its cap drops from the front: the middle entry goes exactly when too much is behind it. */
  lemma CutAround(a: seq<Marker>, m: Marker, b: seq<Marker>, cap: nat) returns (rest: seq<Marker>)
    requires Distinct(a + [m] + b)
    ensures |b| < cap ==> Newest(a + [m] + b, cap) == rest + [m] + b && |rest| <= |a| && rest == a[|a| - |rest|..]
    ensures |b| >= cap ==> !Has(Newest(a + [m] + b, cap), m.key)
  {
    var t := a + [m] + b;
    rest := if |t| > cap && |t| - cap <= |a| then a[|t| - cap..] else a;
    if |b| >= cap {
      forall i | 0 <= i < |Newest(t, cap)| ensures Newest(t, cap)[i].key != m.key {
        assert Newest(t, cap)[i] == t[i + |t| - cap] && t[|a|] == m;
      }
    }
  }

  /** What one event does to a table around the entry of `k`. */
  lemma AroundStep(t: seq<Marker>, a: seq<Marker>, m: Marker, b: seq<Marker>, k: Key, e: Time, ev: Event,
                   ahead: set<Key>)
    returns (a': seq<Marker>, m': Marker)
    requires Around(t, a, m, b, k, e) && Ahead(a, ahead) && ev.now < e
    requires ev.Aborted? && ev.key == k ==> e <= ev.expiresAt
    requires ev.Aborted? && ev.key != k ==> ev.key !in ahead
    ensures |Rivals(b, ev, k)| < MAX_ABORT_TOMBSTONES ==>
      Around(After(t, ev), a', m', Rivals(b, ev, k), k, e) && Ahead(a', ahead)
    ensures |Rivals(b, ev, k)| >= MAX_ABORT_TOMBSTONES ==> !Has(After(t, ev), k)
  {
    LiveAround(t, a, m, b, k, e, ev.now);
    AheadOfCut(a, Live(a, ev.now), Live(a, ev.now), ev.now, ahead);
    if ev.Asked? {
      a', m' := Live(a, ev.now), m;
    } else {
      LiveTwice(b, ev.now);
      a', m' := AbortStep(Live(t, ev.now), Live(a, ev.now), m, Live(b, ev.now), k, e, ev, ahead);
    }
  }

  /** An abort writes into a table without expired markers, and the result is cut to the cap. */
  lemma AbortStep(l: seq<Marker>, la: seq<Marker>, m: Marker, lb: seq<Marker>, k: Key, e: Time, ev: Event,
                  ahead: set<Key>)
    returns (a': seq<Marker>, m': Marker)
    requires Around(l, la, m, lb, k, e) && Ahead(la, ahead) && ev.Aborted? && ev.now < e
    requires if ev.key == k then e <= ev.expiresAt else ev.key !in ahead
    ensures var t' := Prune(Put(l, ev.key, ev.expiresAt), ev.now);
      var b' := Live(if ev.key == k then lb else Put(lb, ev.key, ev.expiresAt), ev.now);
      (|b'| < MAX_ABORT_TOMBSTONES ==> Around(t', a', m', b', k, e) && Ahead(a', ahead))
      && (|b'| >= MAX_ABORT_TOMBSTONES ==> !Has(t', k))
  {
    WriteAround(la, m, lb, k, e, ev, ahead);
    m' := if ev.key == k then Marker(k, ev.expiresAt) else m;
    var pb := if ev.key == k then lb else Put(lb, ev.key, ev.expiresAt);
    a' := PruneAround(la, m', pb, k, e, ev.now, ahead);
  }

  lemma PruneAround(a: seq<Marker>, m: Marker, b: seq<Marker>, k: Key, e: Time, now: Time, ahead: set<Key>)
    returns (a': seq<Marker>)
    requires Distinct(a + [m] + b) && m.key == k && now < e <= m.expiresAt && Ahead(a, ahead)
    ensures var t', b' := Prune(a + [m] + b, now), Live(b, now);
      (|b'| < MAX_ABORT_TOMBSTONES ==> Around(t', a', m, b', k, e) && Ahead(a', ahead))
      && (|b'| >= MAX_ABORT_TOMBSTONES ==> !Has(t', k))
  {
    PruneWritten(a, m, b, k, e, now);
    a' := CutAround(Live(a, now), m, Live(b, now), MAX_ABORT_TOMBSTONES);
    CutIsDistinct(Live(a + [m] + b, now), MAX_ABORT_TOMBSTONES);
    if |Live(b, now)| < MAX_ABORT_TOMBSTONES { AheadOfCut(a, Live(a, now), a', now, ahead); }
  }

  lemma Regroup(a: seq<Marker>, m: Marker, b: seq<Marker>)
    ensures a + ([m] + b) == a + [m] + b
  {
  }

  lemma PutAtHead(m: Marker, b: seq<Marker>, x: Key, e: Time)
    ensures Put([m] + b, x, e) == if m.key == x then [Marker(x, e)] + b else [m] + Put(b, x, e)
  {
    assert ([m] + b)[0] == m && ([m] + b)[1..] == b;
  }

  lemma WriteAround(la: seq<Marker>, m: Marker, lb: seq<Marker>, k: Key, e: Time, ev: Event, ahead: set<Key>)
    requires Distinct(la + [m] + lb) && m.key == k && Ahead(la, ahead) && ev.Aborted?
    requires ev.key != k ==> ev.key !in ahead
    ensures Put(la + [m] + lb, ev.key, ev.expiresAt) ==
      if ev.key == k then la + [Marker(k, ev.expiresAt)] + lb else la + [m] + Put(lb, ev.key, ev.expiresAt)
    ensures Distinct(Put(la + [m] + lb, ev.key, ev.expiresAt))
  {
    PutDistinct(la + [m] + lb, ev.key, ev.expiresAt);
    PartsAreDistinct(la, m, lb);
    assert !Has(la, ev.key);
    Regroup(la, m, lb);
    PutBehind(la, [m] + lb, ev.key, ev.expiresAt);
    PutAtHead(m, lb, ev.key, ev.expiresAt);
    Regroup(la, Marker(k, ev.expiresAt), lb);
    Regroup(la, m, Put(lb, ev.key, ev.expiresAt));
  }

  lemma PruneWritten(a: seq<Marker>, m: Marker, b: seq<Marker>, k: Key, e: Time, now: Time)
    requires Distinct(a + [m] + b) && m.key == k && now < e <= m.expiresAt
    ensures Live(a + [m] + b, now) == Live(a, now) + [m] + Live(b, now)
    ensures Distinct(Live(a + [m] + b, now))
  {
    LiveKeys(a + [m] + b, now);
    LiveConcat(a + [m], b, now);
    LiveConcat(a, [m], now);
    assert Live([m], now) == [m] by { assert [m][..0] == []; }
  }

  lemma {:induction false} LiveTwice(b: seq<Marker>, now: Time)
    ensures Live(Live(b, now), now) == Live(b, now)
  {
    if b != [] {
      var init := Live(b[..|b| - 1], now);
      LiveTwice(b[..|b| - 1], now);
      LiveConcat(init, Live(b, now)[|init|..], now);
      assert Live(b, now) == init + Live(b, now)[|init|..];
    }
  }

  lemma AheadOfCut(la: seq<Marker>, lla: seq<Marker>, rest: seq<Marker>, now: Time, ahead: set<Key>)
    requires Ahead(la, ahead) && lla == Live(la, now) && |rest| <= |lla| && rest == lla[|lla| - |rest|..]
    ensures Ahead(rest, ahead)
  {
    forall i | 0 <= i < |rest| ensures rest[i].key in ahead {
      assert rest[i] in lla;
      LiveIsASelection(la, now, rest[i]);
    }
  }

  lemma CutIsDistinct(t: seq<Marker>, cap: nat)
    requires Distinct(t)
    ensures Distinct(Newest(t, cap)) && |Newest(t, cap)| <= cap
  {
    var n := Newest(t, cap);
    forall i, j | 0 <= i < j < |n| ensures n[i].key != n[j].key {
      assert n[i] == t[i + |t| - |n|] && n[j] == t[j + |t| - |n|];
    }
  }

  /** The markers behind the first entry of `k`. */
  function BehindEntry(t: seq<Marker>, k: Key): seq<Marker> {
    if t == [] then [] else if t[0].key == k then t[1..] else BehindEntry(t[1..], k)
  }

  /** The event writes no new live marker, or the live markers behind the entry leave room for it. */
  predicate Room(t: seq<Marker>, ev: Event, k: Key) {
    ev.Aborted? && ev.key != k && ev.expiresAt > ev.now && !Has(Live(t, ev.now), ev.key) ==>
      |BehindEntry(Live(t, ev.now), k)| + 1 < MAX_ABORT_TOMBSTONES
  }

  lemma {:induction false} BehindIs(a: seq<Marker>, m: Marker, b: seq<Marker>)
    requires !Has(a, m.key)
    ensures BehindEntry(a + [m] + b, m.key) == b
  {
    var t := a + [m] + b;
    if a == [] {
      assert t[0] == m && t[1..] == b;
    } else {
      assert t[0] == a[0] && a[0].key != m.key;
      forall i | 0 <= i < |a[1..]| ensures a[1..][i].key != m.key {
        assert a[1..][i] == a[i + 1];
      }
      BehindIs(a[1..], m, b);
      assert t[1..] == a[1..] + [m] + b;
    }
  }

  /** Writing a key that is ahead stays ahead. */
  lemma {:induction false} PutAhead(a: seq<Marker>, b: seq<Marker>, x: Key, e: Time)
    requires Has(a, x)
    ensures Put(a + b, x, e) == Put(a, x, e) + b && |Put(a, x, e)| == |a|
  {
    if a[0].key == x {
      assert (a + b)[1..] == a[1..] + b;
    } else {
      var i :| 0 <= i < |a| && a[i].key == x;
      assert a[1..][i - 1].key == x;
      assert (a + b)[1..] == a[1..] + b;
      PutAhead(a[1..], b, x, e);
    }
  }

  lemma HasParts(a: seq<Marker>, m: Marker, b: seq<Marker>, x: Key)
    ensures Has(a + [m] + b, x) <==> Has(a, x) || m.key == x || Has(b, x)
  {
    var t := a + [m] + b;
    if Has(a, x) { var i :| 0 <= i < |a| && a[i].key == x; assert t[i] == a[i]; }
    if m.key == x { assert t[|a|] == m; }
    if Has(b, x) { var i :| 0 <= i < |b| && b[i].key == x; assert t[|a| + 1 + i] == b[i]; }
  }

  /** How many live markers a write behind the entry leaves there. */
  lemma WrittenBehind(lb: seq<Marker>, x: Key, e: Time, now: Time)
    requires Distinct(lb) && Live(lb, now) == lb
    ensures Has(lb, x) ==> |Live(Put(lb, x, e), now)| <= |lb|
    ensures !Has(lb, x) ==> |Live(Put(lb, x, e), now)| == |lb| + if e > now then 1 else 0
  {
    PutShape(lb, x, e);
    PutDistinct(lb, x, e);
    LiveKeys(Put(lb, x, e), now);
    if !Has(lb, x) {
      assert Put(lb, x, e)[..|lb|] == lb;
    }
  }

  lemma PartsAreDistinct(a: seq<Marker>, m: Marker, b: seq<Marker>)
    requires Distinct(a + [m] + b)
    ensures Distinct(a) && Distinct(b) && !Has(a, m.key)
  {
    var t := a + [m] + b;
    assert forall i :: 0 <= i < |a| ==> t[i] == a[i];
    assert forall i :: 0 <= i < |b| ==> t[|a| + 1 + i] == b[i];
    assert t[|a|] == m;
  }

  /** One event, whatever it writes: the entry stays exactly when there is room. */
  lemma AnyStep(t: seq<Marker>, a: seq<Marker>, m: Marker, b: seq<Marker>, k: Key, e: Time, ev: Event)
    returns (a': seq<Marker>, m': Marker, b': seq<Marker>)
    requires Around(t, a, m, b, k, e) && ev.now < e
    requires ev.Aborted? && ev.key == k ==> e <= ev.expiresAt
    ensures Room(t, ev, k) ==> Around(After(t, ev), a', m', b', k, e)
    ensures !Room(t, ev, k) ==> !Has(After(t, ev), k)
  {
    LiveAround(t, a, m, b, k, e, ev.now);
    var l, la, lb := Live(t, ev.now), Live(a, ev.now), Live(b, ev.now);
    PartsAreDistinct(la, m, lb);
    BehindIs(la, m, lb);
    a', m', b' := la, m, lb;
    if ev.Aborted? {
      HasParts(la, m, lb, ev.key);
      LiveTwice(b, ev.now);
      if ev.key != k && Has(la, ev.key) {
        a' := RewriteAhead(l, la, m, lb, k, e, ev);
      } else {
        a', m' := AbortStep(l, la, m, lb, k, e, ev, KeysOf(la));
        b' := Live(if ev.key == k then lb else Put(lb, ev.key, ev.expiresAt), ev.now);
        if ev.key != k { WrittenBehind(lb, ev.key, ev.expiresAt, ev.now); }
      }
    }
  }

  lemma RewriteAhead(l: seq<Marker>, la: seq<Marker>, m: Marker, lb: seq<Marker>, k: Key, e: Time, ev: Event)
    returns (a': seq<Marker>)
    requires Around(l, la, m, lb, k, e) && ev.Aborted? && ev.now < e && ev.key != k && Has(la, ev.key)
    requires Live(lb, ev.now) == lb
    ensures Around(Prune(Put(l, ev.key, ev.expiresAt), ev.now), a', m, lb, k, e)
  {
    var pa := Put(la, ev.key, ev.expiresAt);
    assert l == la + ([m] + lb);
    PutAhead(la, [m] + lb, ev.key, ev.expiresAt);
    PutDistinct(l, ev.key, ev.expiresAt);
    assert Put(l, ev.key, ev.expiresAt) == pa + [m] + lb;
    a' := PruneAround(pa, m, lb, k, e, ev.now, KeysOf(pa));
  }

  function KeysOf(t: seq<Marker>): set<Key> { set m | m in t :: m.key }

  /** Events during which the marker of `k` is alive; anybody may abort anything. */
  predicate KeepsAlive(es: seq<Event>, k: Key, e: Time) {
    forall i :: 0 <= i < |es| ==> es[i].now < e && (es[i].Aborted? && es[i].key == k ==> e <= es[i].expiresAt)
  }

  lemma {:induction false} EntryStays(t: seq<Marker>, i: nat, es: seq<Event>, e: Time)
    returns (a: seq<Marker>, m: Marker, b: seq<Marker>)
    requires Distinct(t) && |t| <= MAX_ABORT_TOMBSTONES && i < |t| && e <= t[i].expiresAt && KeepsAlive(es, t[i].key, e)
    requires forall j :: 0 <= j < |es| ==> Room(AfterAll(t, es[..j]), es[j], t[i].key)
    ensures Around(AfterAll(t, es), a, m, b, t[i].key, e)
  {
    if es == [] {
      a, m, b := t[..i], t[i], t[i + 1..];
      assert t == a + [m] + b;
    } else {
      var n := |es| - 1;
      var init := es[..n];
      forall j | 0 <= j < n ensures Room(AfterAll(t, init[..j]), init[j], t[i].key) {
        assert init[..j] == es[..j];
      }
      var a0, m0, b0 := EntryStays(t, i, init, e);
      a, m, b := AnyStep(AfterAll(t, init), a0, m0, b0, t[i].key, e, es[n]);
    }
  }

  predicate HasAt(t: seq<Marker>, es: seq<Event>, j: nat, k: Key) { j <= |es| && Has(AfterAll(t, es[..j]), k) }

  predicate RoomAt(t: seq<Marker>, es: seq<Event>, j: nat, k: Key) { j < |es| && Room(AfterAll(t, es[..j]), es[j], k) }

  lemma EntryStaysUntil(t: seq<Marker>, i: nat, es: seq<Event>, e: Time, j: nat)
    returns (a: seq<Marker>, m: Marker, b: seq<Marker>)
    requires Distinct(t) && |t| <= MAX_ABORT_TOMBSTONES && i < |t| && e <= t[i].expiresAt && KeepsAlive(es, t[i].key, e)
    requires j <= |es| && forall l :: 0 <= l < j ==> RoomAt(t, es, l, t[i].key)
    ensures Around(AfterAll(t, es[..j]), a, m, b, t[i].key, e) && HasAt(t, es, j, t[i].key)
  {
    forall l | 0 <= l < j ensures Room(AfterAll(t, es[..j][..l]), es[..j][l], t[i].key) {
      assert RoomAt(t, es, l, t[i].key) && es[..j][..l] == es[..l];
    }
    a, m, b := EntryStays(t, i, es[..j], e);
    assert AfterAll(t, es[..j])[|a|] == m;
  }

  lemma EntryGoesWithoutRoom(t: seq<Marker>, i: nat, es: seq<Event>, e: Time, j: nat)
    requires Distinct(t) && |t| <= MAX_ABORT_TOMBSTONES && i < |t| && e <= t[i].expiresAt && KeepsAlive(es, t[i].key, e)
    requires j < |es| && (forall l :: 0 <= l < j ==> RoomAt(t, es, l, t[i].key)) && !RoomAt(t, es, j, t[i].key)
    ensures !HasAt(t, es, j + 1, t[i].key)
  {
    var a, m, b := EntryStaysUntil(t, i, es, e, j);
    assert es[..j + 1][..j] == es[..j] && es[..j + 1][j] == es[j];
    var _, _, _ := AnyStep(AfterAll(t, es[..j]), a, m, b, t[i].key, e, es[j]);
  }

  lemma {:induction false} FirstWithoutRoom(t: seq<Marker>, es: seq<Event>, k: Key, l: nat) returns (j: nat)
    requires l < |es| && !RoomAt(t, es, l, k)
    ensures j < |es| && !RoomAt(t, es, j, k) && forall i :: 0 <= i < j ==> RoomAt(t, es, i, k)
  {
    if i: nat :| i < l && !RoomAt(t, es, i, k) { j := FirstWithoutRoom(t, es, k, i); } else { j := l; }
  }

  /**
   * Exactly when an unexpired marker keeps its entry through any traffic of aborts and checks,
   * repeated keys and expiring markers included: when every abort that adds a live marker finds
   * fewer live markers behind the entry than the cap has room for.
   */
  lemma KeptExactlyWithRoom(t: seq<Marker>, i: nat, es: seq<Event>, e: Time)
    requires Distinct(t) && |t| <= MAX_ABORT_TOMBSTONES && i < |t| && e <= t[i].expiresAt && KeepsAlive(es, t[i].key, e)
    ensures (forall j :: 0 <= j <= |es| ==> HasAt(t, es, j, t[i].key))
      <==> (forall j :: 0 <= j < |es| ==> RoomAt(t, es, j, t[i].key))
  {
    if j: nat :| j < |es| && !RoomAt(t, es, j, t[i].key) {
      var l := FirstWithoutRoom(t, es, t[i].key, j);
      EntryGoesWithoutRoom(t, i, es, e, l);
    } else {
      forall j | 0 <= j <= |es| ensures HasAt(t, es, j, t[i].key) {
        var _, _, _ := EntryStaysUntil(t, i, es, e, j);
      }
    }
  }

  /** Events during which the entry of `k` is alive and no key ahead of it is written again. */
  predicate Follows(es: seq<Event>, k: Key, e: Time, ahead: set<Key>) {
    forall i :: 0 <= i < |es| ==>
      && es[i].now < e
      && (es[i].Aborted? ==> if es[i].key == k then e <= es[i].expiresAt else es[i].key !in ahead)
  }

  /** While there was room at every event so far, the table is still around the entry of `k`. */
  lemma {:induction false} FollowEntry(t: seq<Marker>, i: nat, es: seq<Event>, e: Time)
    returns (a: seq<Marker>, m: Marker)
    requires Distinct(t) && |t| <= MAX_ABORT_TOMBSTONES && i < |t| && e <= t[i].expiresAt
    requires Follows(es, t[i].key, e, KeysOf(t[..i]))
    requires forall j :: 0 < j <= |es| ==> |RivalsAfter(t[i + 1..], es[..j], t[i].key)| < MAX_ABORT_TOMBSTONES
    ensures Around(AfterAll(t, es), a, m, RivalsAfter(t[i + 1..], es, t[i].key), t[i].key, e)
    ensures Ahead(a, KeysOf(t[..i]))
  {
    var k := t[i].key;
    if es == [] {
      a, m := t[..i], t[i];
      assert t == a + [m] + t[i + 1..];
    } else {
      var n := |es| - 1;
      var init := es[..n];
      forall j | 0 < j <= n ensures |RivalsAfter(t[i + 1..], init[..j], k)| < MAX_ABORT_TOMBSTONES {
        assert init[..j] == es[..j];
      }
      var a0, m0 := FollowEntry(t, i, init, e);
      assert es[..|es|] == es;
      a, m := AroundStep(AfterAll(t, init), a0, m0, RivalsAfter(t[i + 1..], init, k), k, e, es[n], KeysOf(t[..i]));
    }
  }

  /**
   * The same by a count that never looks at the table: as long as no marker ahead of the entry
   * is written again, the live markers behind it are those of an uncapped table that starts
   * behind the entry, and the marker stays exactly while they are fewer than the cap.
   */
  lemma KeptExactlyWhileRoom(t: seq<Marker>, i: nat, es: seq<Event>, e: Time)
    requires Distinct(t) && |t| <= MAX_ABORT_TOMBSTONES && i < |t| && e <= t[i].expiresAt
    requires Follows(es, t[i].key, e, KeysOf(t[..i]))
    ensures (forall j :: 0 < j <= |es| ==> Has(AfterAll(t, es[..j]), t[i].key))
      <==> (forall j :: 0 < j <= |es| ==> |RivalsAfter(t[i + 1..], es[..j], t[i].key)| < MAX_ABORT_TOMBSTONES)
  {
    var k, rest := t[i].key, t[i + 1..];
    if forall j :: 0 < j <= |es| ==> |RivalsAfter(rest, es[..j], k)| < MAX_ABORT_TOMBSTONES {
      forall j | 0 < j <= |es| ensures Has(AfterAll(t, es[..j]), k) {
        StillThere(t, i, es, e, j);
      }
    } else {
      var l :| 0 < l <= |es| && |RivalsAfter(rest, es[..l], k)| >= MAX_ABORT_TOMBSTONES;
      var j := FirstFull(rest, es, k, l);
      GoneWhenFull(t, i, es, e, j);
    }
  }

  lemma StillThere(t: seq<Marker>, i: nat, es: seq<Event>, e: Time, j: nat)
    requires Distinct(t) && |t| <= MAX_ABORT_TOMBSTONES && i < |t| && e <= t[i].expiresAt && j <= |es|
    requires Follows(es, t[i].key, e, KeysOf(t[..i]))
    requires forall l :: 0 < l <= j ==> |RivalsAfter(t[i + 1..], es[..l], t[i].key)| < MAX_ABORT_TOMBSTONES
    ensures Has(AfterAll(t, es[..j]), t[i].key)
  {
    forall l | 0 < l <= j ensures |RivalsAfter(t[i + 1..], es[..j][..l], t[i].key)| < MAX_ABORT_TOMBSTONES {
      assert es[..j][..l] == es[..l];
    }
    var a, m := FollowEntry(t, i, es[..j], e);
    assert AfterAll(t, es[..j])[|a|] == m;
  }

  lemma GoneWhenFull(t: seq<Marker>, i: nat, es: seq<Event>, e: Time, j: nat)
    requires Distinct(t) && |t| <= MAX_ABORT_TOMBSTONES && i < |t| && e <= t[i].expiresAt && 0 < j <= |es|
    requires Follows(es, t[i].key, e, KeysOf(t[..i]))
    requires forall l :: 0 < l < j ==> |RivalsAfter(t[i + 1..], es[..l], t[i].key)| < MAX_ABORT_TOMBSTONES
    requires |RivalsAfter(t[i + 1..], es[..j], t[i].key)| >= MAX_ABORT_TOMBSTONES
    ensures !Has(AfterAll(t, es[..j]), t[i].key)
  {
    var k, init := t[i].key, es[..j - 1];
    forall l | 0 < l <= j - 1 ensures |RivalsAfter(t[i + 1..], init[..l], k)| < MAX_ABORT_TOMBSTONES {
      assert init[..l] == es[..l];
    }
    var a, m := FollowEntry(t, i, init, e);
    assert es[..j][..j - 1] == init && es[..j][j - 1] == es[j - 1];
    var b := RivalsAfter(t[i + 1..], init, k);
    assert RivalsAfter(t[i + 1..], es[..j], k) == Rivals(b, es[j - 1], k);
    assert AfterAll(t, es[..j]) == After(AfterAll(t, init), es[j - 1]);
    var _, _ := AroundStep(AfterAll(t, init), a, m, b, k, e, es[j - 1], KeysOf(t[..i]));
  }

  lemma {:induction false} FirstFull(b: seq<Marker>, es: seq<Event>, k: Key, l: nat) returns (j: nat)
    requires 0 < l <= |es| && |RivalsAfter(b, es[..l], k)| >= MAX_ABORT_TOMBSTONES
    ensures 0 < j <= |es| && |RivalsAfter(b, es[..j], k)| >= MAX_ABORT_TOMBSTONES
    ensures forall i :: 0 < i < j ==> |RivalsAfter(b, es[..i], k)| < MAX_ABORT_TOMBSTONES
  {
    if i: nat :| 0 < i < l && |RivalsAfter(b, es[..i], k)| >= MAX_ABORT_TOMBSTONES {
      j := FirstFull(b, es, k, i);
    } else {
      j := l;
    }
  }

  // ---------------------------------------------------------------- who is rejected, exactly

  /** An unexpired marker of this CID and transaction that is for this peer, or for no peer in particular. */
  predicate Rejects(m: Marker, cid: Cid, tx: TransactionId, origin: Option<PeerId>, now: Time) {
    && m.key.cid == cid && m.key.tx == tx && now < m.expiresAt
    && (origin.None? || m.key.peer.None? || m.key.peer == origin)
  }

  /** Where the `q`-th unexpired marker stood, and how many unexpired ones followed it. */
  lemma {:induction false} LiveCameFrom(t: seq<Marker>, now: Time, q: nat) returns (i: nat)
    requires q < |Live(t, now)|
    ensures i < |t| && Live(t, now)[q] == t[i] && now < t[i].expiresAt
    ensures |Live(t[i + 1..], now)| == |Live(t, now)| - 1 - q
  {
    var n := |t| - 1;
    var init := Live(t[..n], now);
    if q < |init| {
      i := LiveCameFrom(t[..n], now, q);
      assert t[i + 1..] == t[..n][i + 1..] + [t[n]];
      LiveConcat(t[..n][i + 1..], [t[n]], now);
      assert Live([t[n]], now) == if t[n].expiresAt <= now then [] else [t[n]];
    } else {
      i := n;
      assert t[i + 1..] == [];
    }
  }

  lemma LiveGoesTo(t: seq<Marker>, now: Time, i: nat)
    requires i < |t| && now < t[i].expiresAt && |Live(t[i + 1..], now)| < MAX_ABORT_TOMBSTONES
    ensures t[i] in Prune(t, now)
  {
    var l := Live(t, now);
    assert t == (t[..i] + [t[i]]) + t[i + 1..];
    LiveConcat(t[..i] + [t[i]], t[i + 1..], now);
    LiveConcat(t[..i], [t[i]], now);
    var at := |Live(t[..i], now)|;
    assert Live([t[i]], now) == [t[i]];
    assert l[at] == t[i];
    assert Prune(t, now)[at - (|l| - |Prune(t, now)|)] == t[i];
  }

  /**
   * A stage is rejected exactly when the table has such a marker with fewer than the maximal
   * number of unexpired markers behind it.
   */
  lemma WasAbortedExactly(t: seq<Marker>, cid: Cid, tx: TransactionId, origin: Option<PeerId>, now: Time)
    ensures WasAborted(t, cid, tx, origin, now) <==>
      exists i :: 0 <= i < |t| && Rejects(t[i], cid, tx, origin, now) && |Live(t[i + 1..], now)| < 10_000
  {
    var p := Prune(t, now);
    if WasAborted(t, cid, tx, origin, now) {
      var q :| 0 <= q < |p| && p[q].key.cid == cid && p[q].key.tx == tx
        && (origin.None? || p[q].key.peer.None? || p[q].key.peer == origin);
      var i := LiveCameFrom(t, now, q + |Live(t, now)| - |p|);
      assert Rejects(t[i], cid, tx, origin, now);
    }
    if i :| 0 <= i < |t| && Rejects(t[i], cid, tx, origin, now) && |Live(t[i + 1..], now)| < 10_000 {
      LiveGoesTo(t, now, i);
      var q :| 0 <= q < |p| && p[q] == t[i];
      assert p[q].key == Key(cid, tx, p[q].key.peer);
    }
  }

  /** The unexpired markers of a table, in its order. */
  lemma {:induction false} LiveMeans(t: seq<Marker>, now: Time, m: Marker)
    ensures m in Live(t, now) <==> m in t && now < m.expiresAt
  {
    if t != [] {
      LiveMeans(t[..|t| - 1], now, m);
      assert m in t <==> m in t[..|t| - 1] || m == t[|t| - 1];
    }
  }
}
