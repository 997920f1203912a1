/**
 * The repair cycle: a walk over a committed list of candidates in bounded passes
 * (src/storage/repairCycle.ts), and the evidence published when a walk covered
 * everything (src/replication.cron.ts).
 */
module RepairCycle {
  import opened Common
  import opened Records
  import opened NodeState

  const BATCH: nat := 50
  const MAX_CATCH_UP_ROUNDS: nat := 3

  /** `index` CIDs of the list were handed out; a resumed list was rebuilt from a cursor. */
  datatype Cycle = Cycle(cids: seq<Cid>, index: nat, refreshes: nat, resumed: bool)

  datatype Batch = Batch(
    cids: seq<Cid>, completed: bool, nextCursor: Option<Cid>, uncovered: nat, coverageProven: bool)

  datatype Pass = Pass(cycle: Option<Cycle>, batch: Batch)

  // ---------------------------------------------------------------- scans

  predicate IsCandidate(n: Node, c: Cid) {
    && Entry(n, c).Some? && Entry(n, c).value.file.state == Confirmed
    && !IsLifecycleBusy(Entry(n, c).value.file, c, n.owners)
  }

  predicate Sorted(s: seq<Cid>) { forall i, j :: 0 <= i < j < |s| ==> s[i] < s[j] }

  /** The sorted list of the candidates of a registry. */
  ghost predicate IsScan(s: seq<Cid>, n: Node) { Sorted(s) && forall c :: c in s <==> IsCandidate(n, c) }

  function IndexOf(s: seq<Cid>, c: Cid): (i: nat)
    ensures i <= |s| && (i < |s| <==> c in s) && (i < |s| ==> s[i] == c)
  {
    if s == [] then 0 else if s[0] == c then 0 else 1 + IndexOf(s[1..], c)
  }

  function FirstAbove(s: seq<Cid>, c: Cid): (i: nat)
    ensures i <= |s| && (forall j :: 0 <= j < i ==> s[j] <= c) && (i < |s| ==> s[i] > c)
  {
    if s == [] then 0 else if s[0] > c then 0 else 1 + FirstAbove(s[1..], c)
  }

  function ResumeIndex(cids: seq<Cid>, cursor: Option<Cid>): (r: nat)
    ensures r <= |cids|
  {
    if cursor.None? then 0
    else if IndexOf(cids, cursor.value) < |cids| then IndexOf(cids, cursor.value) + 1
    else FirstAbove(cids, cursor.value)
  }

  /** Whether or not the cursor is still a candidate, a rebuilt list resumes right above it. */
  lemma ResumeSplitsAtCursor(cids: seq<Cid>, cursor: Cid, i: nat)
    requires Sorted(cids) && i < |cids|
    ensures i < ResumeIndex(cids, Some(cursor)) <==> cids[i] <= cursor
  {
  }

  /** The CIDs of a scan that a cycle had not committed to. */
  function Arrivals(scan: seq<Cid>, committed: seq<Cid>): (r: seq<Cid>)
    ensures forall c :: c in r <==> c in scan && c !in committed
    ensures Sorted(scan) ==> Sorted(r)
  {
    if scan == [] then []
    else
      var init := Arrivals(scan[..|scan| - 1], committed);
      assert forall k :: 0 <= k < |init| ==> init[k] in init && init[k] in scan[..|scan| - 1];
      if scan[|scan| - 1] in committed then init else init + [scan[|scan| - 1]]
  }

  // ---------------------------------------------------------------- one pass

  /** The list a pass walks: the one in memory, or a new one built from the scan. */
  function Walked(cycle: Option<Cycle>, cursor: Option<Cid>, scan: seq<Cid>): Cycle {
    if cycle.None? || cursor.None? then Cycle(scan, ResumeIndex(scan, cursor), 0, cursor.Some?) else cycle.value
  }

  function Taken(y: Cycle): (r: seq<Cid>) {
    y.cids[Min(y.index, |y.cids|)..Min(y.index + BATCH, |y.cids|)]
  }

  function LastOf(s: seq<Cid>, otherwise: Option<Cid>): Option<Cid> {
    if s == [] then otherwise else Some(s[|s| - 1])
  }

  function NextPass(y: Cycle, cursor: Option<Cid>, closing: seq<Cid>): (p: Pass) {
    var batch := Taken(y);
    var next, late := y.index + |batch|, Arrivals(closing, y.cids);
    if next < |y.cids| then
      Pass(Some(y.(index := next)), Batch(batch, false, LastOf(batch, cursor), 0, !y.resumed))
    else if late == [] then Pass(None, Batch(batch, true, None, 0, !y.resumed))
    else if y.refreshes < MAX_CATCH_UP_ROUNDS then
      Pass(Some(y.(cids := y.cids + late, index := next, refreshes := y.refreshes + 1)),
           Batch(batch, false, LastOf(batch, cursor), 0, !y.resumed))
    else Pass(None, Batch(batch, true, None, |late|, !y.resumed))
  }

  /** Between passes a cycle has something left to hand out, and lists no CID twice. */
  predicate CycleInv(y: Cycle) {
    NoDuplicates(y.cids) && y.index < |y.cids| && y.refreshes <= MAX_CATCH_UP_ROUNDS
  }

  lemma NextPassKeepsInv(y: Cycle, cursor: Option<Cid>, closing: seq<Cid>)
    requires NoDuplicates(y.cids) && y.index <= |y.cids| && y.refreshes <= MAX_CATCH_UP_ROUNDS && Sorted(closing)
    ensures NextPass(y, cursor, closing).cycle.Some? ==> CycleInv(NextPass(y, cursor, closing).cycle.value)
  {
    var late := Arrivals(closing, y.cids);
    forall k | 0 <= k < |late| ensures late[k] !in y.cids {
      assert late[k] in late;
    }
  }

  // ---------------------------------------------------------------- what a pass does, exactly

  /** Durable files nobody works on. */
  lemma CandidatesExactly(n: Node, c: Cid)
    ensures IsCandidate(n, c) <==>
      && c in n.store && c !in n.owners.repairs
      && var r := n.store[c].file;
      && r.state == Confirmed && r.stage.None?
      && (r.admissionId.Some? ==> r.admissionSettledAt.Some? && r.admissionId.value !in n.owners.admissions)
  {
  }

  /**
   * A pass walks the list in memory while there is one and a cursor, and otherwise a new list
   * from right above the cursor.
   */
  lemma WalkExactly(cycle: Option<Cycle>, cursor: Option<Cid>, scan: seq<Cid>)
    requires Sorted(scan)
    ensures var y := Walked(cycle, cursor, scan);
      if cycle.Some? && cursor.Some? then y == cycle.value
      else
        && y.cids == scan && y.refreshes == 0 && (y.resumed <==> cursor.Some?) && y.index <= |scan|
        && forall i :: 0 <= i < |scan| ==> (i < y.index <==> cursor.Some? && scan[i] <= cursor.value)
  {
    if cursor.Some? {
      forall i | 0 <= i < |scan| ensures i < ResumeIndex(scan, cursor) <==> scan[i] <= cursor.value {
        ResumeSplitsAtCursor(scan, cursor.value, i);
      }
    }
  }

  /** The next fifty CIDs of the list, or what is left of it. */
  lemma BatchExactly(y: Cycle, cursor: Option<Cid>, closing: seq<Cid>)
    requires y.index <= |y.cids|
    ensures var b := NextPass(y, cursor, closing).batch.cids;
      && (if |y.cids| - y.index < 50 then |b| == |y.cids| - y.index else |b| == 50)
      && b == y.cids[y.index..y.index + |b|]
  {
  }

  /**
   * A pass ends its cycle exactly when the list is exhausted and nothing arrived meanwhile, or
   * three rounds of arrivals were appended already; what then arrived is counted as uncovered.
   */
  lemma PassEndsExactly(y: Cycle, cursor: Option<Cid>, closing: seq<Cid>)
    requires y.index <= |y.cids| && Sorted(closing)
    ensures var p := NextPass(y, cursor, closing); var late := set c | c in closing && c !in y.cids;
      && (p.batch.completed <==> |y.cids| <= y.index + 50 && (late == {} || y.refreshes >= 3))
      && (p.cycle.None? <==> p.batch.completed)
      && p.batch.uncovered == (if p.batch.completed then |late| else 0)
      && (p.batch.coverageProven <==> !y.resumed)
  {
    var late := Arrivals(closing, y.cids);
    assert Elements(late) == set c | c in closing && c !in y.cids;
    NoDuplicatesSize(late);
    if late != [] { assert late[0] in Elements(late); }
  }

  /** A pass that does not end its cycle moves on by what it took, and may append what arrived. */
  lemma PassGoesOnExactly(y: Cycle, cursor: Option<Cid>, closing: seq<Cid>)
    requires y.index <= |y.cids| && Sorted(closing) && !NextPass(y, cursor, closing).batch.completed
    ensures var p := NextPass(y, cursor, closing);
      && p.cycle.Some? && p.cycle.value.resumed == y.resumed && y.cids <= p.cycle.value.cids
      && p.cycle.value.index == y.index + |p.batch.cids|
      && p.batch.nextCursor == (if p.batch.cids != [] then Some(p.batch.cids[|p.batch.cids| - 1]) else cursor)
    ensures var p := NextPass(y, cursor, closing); var more := p.cycle.value.cids[|y.cids|..];
      if y.index + 50 < |y.cids| then more == [] && p.cycle.value.refreshes == y.refreshes
      else
        && p.cycle.value.refreshes == y.refreshes + 1 && Sorted(more)
        && forall c :: c in more <==> c in closing && c !in y.cids
  {
  }

  // ---------------------------------------------------------------- the cycle in memory

  class RepairCycles {
    var cycle: Option<Cycle>

    predicate Valid()
      reads this
    {
      cycle.Some? ==> CycleInv(cycle.value)
    }

    constructor ()
      ensures Valid() && cycle == None
    {
      cycle := None;
    }

    method Reset()
      modifies this
      ensures Valid() && cycle == None
    {
      cycle := None;
    }

    /** `scan` is read only when a list is built and `closing` only when one is exhausted. */
    method NextBatch(cursor: Option<Cid>, scan: seq<Cid>, closing: seq<Cid>) returns (batch: Batch)
      requires Valid() && Sorted(scan) && Sorted(closing)
      modifies this
      ensures Valid()
      ensures Pass(cycle, batch) == NextPass(Walked(old(cycle), cursor, scan), cursor, closing)
    {
      if cycle.None? || cursor.None? {
        cycle := Some(Cycle(scan, ResumeIndex(scan, cursor), 0, cursor.Some?));
      }
      batch := TakeBatch(cursor, closing);
    }

    predicate Walking()
      reads this
    {
      cycle.Some? && NoDuplicates(cycle.value.cids) && cycle.value.index <= |cycle.value.cids|
      && cycle.value.refreshes <= MAX_CATCH_UP_ROUNDS
    }

    /** Hand out the next batch of the list in memory and decide whether the cycle goes on. */
    method TakeBatch(cursor: Option<Cid>, closing: seq<Cid>) returns (batch: Batch)
      requires Walking() && Sorted(closing)
      modifies this
      ensures Valid()
      ensures Pass(cycle, batch) == NextPass(old(cycle.value), cursor, closing)
    {
      NextPassKeepsInv(cycle.value, cursor, closing);
      var coverageProven := !cycle.value.resumed;
      var cids := Taken(cycle.value);
      cycle := Some(cycle.value.(index := cycle.value.index + |cids|));
      if cycle.value.index < |cycle.value.cids| {
        return Batch(cids, false, LastOf(cids, cursor), 0, coverageProven);
      }
      var late := Arrivals(closing, cycle.value.cids);
      if late == [] {
        cycle := None;
        return Batch(cids, true, None, 0, coverageProven);
      }
      if cycle.value.refreshes < MAX_CATCH_UP_ROUNDS {
        cycle := Some(cycle.value.(cids := cycle.value.cids + late, refreshes := cycle.value.refreshes + 1));
        return Batch(cids, false, LastOf(cids, cursor), 0, coverageProven);
      }
      cycle := None;
      return Batch(cids, true, None, |late|, coverageProven);
    }
  }

  // ---------------------------------------------------------------- every cycle ends

  /** A pass of a cycle in memory that does not end it uses up a round, or hands something out. */
  lemma PassMakesProgress(y: Cycle, cursor: Option<Cid>, closing: seq<Cid>)
    requires CycleInv(y) && Sorted(closing) && !NextPass(y, cursor, closing).batch.completed
    ensures var p := NextPass(y, cursor, closing);
      p.cycle.Some? && CycleInv(p.cycle.value) && p.batch.cids != []
      && p.batch.nextCursor.Some? && p.cycle.value.resumed == y.resumed
      && (p.cycle.value.refreshes > y.refreshes
          || (p.cycle.value.refreshes == y.refreshes
              && |p.cycle.value.cids| - p.cycle.value.index < |y.cids| - y.index))
  {
    NextPassKeepsInv(y, cursor, closing);
  }

  /** One pass in an endless sequence: the cycle and cursor it finds and the scans it makes. */
  datatype Moment = Moment(cycle: Option<Cycle>, cursor: Option<Cid>, scan: seq<Cid>, closing: seq<Cid>)

  predicate Possible(m: Moment) {
    (m.cycle.Some? ==> CycleInv(m.cycle.value)) && Sorted(m.scan) && Sorted(m.closing)
  }

  function PassAt(m: Moment): Pass { NextPass(Walked(m.cycle, m.cursor, m.scan), m.cursor, m.closing) }

  /** The next pass finds what this one left: the cycle in memory and the cursor it returned. */
  predicate Threaded(m: Moment, m': Moment) {
    Possible(m) && Possible(m') && m'.cycle == PassAt(m).cycle && m'.cursor == PassAt(m).batch.nextCursor
  }

  /** However many records arrive between passes, a cycle whose cursor is threaded through ends. */
  lemma {:induction false} CycleEnds(t: nat -> Moment, k: nat)
    requires t(k).cycle.Some? && t(k).cursor.Some?
    requires forall i: nat :: Threaded(t(i), t(i + 1))
    ensures exists j: nat :: j >= k && PassAt(t(j)).batch.completed
    decreases MAX_CATCH_UP_ROUNDS - t(k).cycle.value.refreshes, |t(k).cycle.value.cids| - t(k).cycle.value.index
  {
    assert Threaded(t(k), t(k + 1));
    if !PassAt(t(k)).batch.completed {
      PassMakesProgress(t(k).cycle.value, t(k).cursor, t(k).closing);
      CycleEnds(t, k + 1);
    }
  }

  /** A pass that does not end its cycle returns no cursor exactly when it began with an empty list. */
  lemma CursorIsLostOnlyAtAnEmptyStart(m: Moment)
    requires Possible(m)
    ensures (!PassAt(m).batch.completed && PassAt(m).batch.nextCursor.None?)
      <==> (m.cursor.None? && m.scan == [] && m.closing != [])
  {
    if m.closing != [] && m.scan == [] {
      assert m.closing[0] in Arrivals(m.closing, []);
    }
  }

  predicate StartsEmpty(m: Moment) { m.cursor.None? && m.scan == [] && m.closing != [] }

  predicate Completes(m: Moment) { PassAt(m).batch.completed }

  /**
   * A sequence of passes, each finding what the one before left, ends a cycle exactly when some
   * pass does not start with an empty list that fills before its closing scan.
   */
  lemma EndsUnlessEveryStartIsEmpty(t: nat -> Moment)
    requires forall i: nat :: Threaded(t(i), t(i + 1))
    ensures (exists j: nat :: Completes(t(j))) <==> (exists j: nat :: !StartsEmpty(t(j)))
  {
    if j: nat :| Completes(t(j)) {
      assert Threaded(t(j), t(j + 1));
      CursorIsLostOnlyAtAnEmptyStart(t(j));
      assert !StartsEmpty(t(j));
    }
    if j: nat :| !StartsEmpty(t(j)) {
      assert Threaded(t(j), t(j + 1));
      CursorIsLostOnlyAtAnEmptyStart(t(j));
      if !Completes(t(j)) {
        NextPassKeepsInv(Walked(t(j).cycle, t(j).cursor, t(j).scan), t(j).cursor, t(j).closing);
        CycleEnds(t, j + 1);
        var l: nat :| l >= j + 1 && PassAt(t(l)).batch.completed;
        assert Completes(t(l));
      } else {
        assert Completes(t(j));
      }
    }
  }

  /** Then the next pass starts over, so records that come and go can keep a cycle from ever ending. */
  lemma EmptyStartsNeverEnd(k: nat)
    ensures Threaded(ComingAndGoing(k), ComingAndGoing(k + 1)) && !PassAt(ComingAndGoing(k)).batch.completed
  {
    assert [5][..0] == [];
    assert Arrivals([5], []) == [5];
  }

  function ComingAndGoing(i: nat): Moment {
    Moment(if i == 0 then None else Some(Cycle([5], 0, 1, false)), None, [], [5])
  }

  // ---------------------------------------------------------------- evidence

  datatype Completed = Completed(at: Time, successful: bool, examined: nat, stillMissing: nat, unrecoverable: nat)

  datatype Evidence = Evidence(
    cursor: Option<Cid>, superseded: bool, examined: nat, stillMissing: nat, unrecoverable: nat,
    last: Option<Completed>, unsuccessful: nat)

  /** What a pass found about the CIDs it was handed. */
  datatype Findings = Findings(examined: nat, stillMissing: nat, unrecoverable: nat)

  predicate Superseded(e: Evidence, b: Batch) { e.superseded || b.uncovered > 0 || !b.coverageProven }

  predicate Publishes(e: Evidence, b: Batch) { b.completed && !Superseded(e, b) }

  function Updated(e: Evidence, b: Batch, f: Findings, now: Time): Evidence {
    var examined, missing, lost :=
      e.examined + f.examined, e.stillMissing + f.stillMissing, e.unrecoverable + f.unrecoverable;
    var successful := missing == 0 && lost == 0;
    if b.completed then
      Evidence(None, false, 0, 0, 0,
        if Publishes(e, b) then Some(Completed(now, successful, examined, missing, lost)) else e.last,
        if !Publishes(e, b) then e.unsuccessful else if successful then 0 else e.unsuccessful + 1)
    else e.(cursor := b.nextCursor, superseded := Superseded(e, b),
            examined := examined, stillMissing := missing, unrecoverable := lost)
  }

  const NO_EVIDENCE := Evidence(None, false, 0, 0, 0, None, 0)

  /** The next pass resumes where this one stopped, or from the start when it ended its cycle. */
  lemma CursorFollowsPass(e: Evidence, b: Batch, f: Findings, now: Time)
    ensures Updated(e, b, f, now).cursor == if b.completed then None else b.nextCursor
    ensures !b.completed ==> Updated(e, b, f, now).last == e.last
    ensures Updated(e, b, f, now).last != e.last ==> Updated(e, b, f, now).last.value.at == now
  {
  }

  /** One repair job at a time; a pass that throws leaves the evidence as it was. */
  class RepairJob {
    var running: bool
    var evidence: Evidence

    constructor ()
      ensures !running && evidence == NO_EVIDENCE
    {
      running, evidence := false, NO_EVIDENCE;
    }

    method Begin() returns (accepted: bool)
      modifies this`running
      ensures accepted == !old(running) && running
    {
      accepted := !running;
      running := true;
    }

    method Finish(b: Batch, f: Findings, now: Time, saved: bool)
      requires running
      modifies this
      ensures !running
      ensures evidence == if saved then Updated(old(evidence), b, f, now) else old(evidence)
    {
      var current := evidence;
      var examined := current.examined + f.examined;
      var stillMissing := current.stillMissing + f.stillMissing;
      var unrecoverable := current.unrecoverable + f.unrecoverable;
      var superseded := current.superseded || b.uncovered > 0 || !b.coverageProven;
      var publishes := b.completed && !superseded;
      var successful := stillMissing == 0 && unrecoverable == 0;
      var unsuccessful := current.unsuccessful;
      if publishes {
        unsuccessful := if successful then 0 else unsuccessful + 1;
      }
      if saved {
        if b.completed {
          var last := if publishes then Some(Completed(now, successful, examined, stillMissing, unrecoverable))
            else current.last;
          evidence := NO_EVIDENCE.(last := last, unsuccessful := unsuccessful);
        } else {
          evidence := current.(cursor := b.nextCursor, superseded := superseded,
            examined := examined, stillMissing := stillMissing, unrecoverable := unrecoverable);
        }
      }
      running := false;
    }
  }

  // What the evidence says about the passes that were saved, counted without it.

  datatype SavedPass = SavedPass(batch: Batch, f: Findings, now: Time)

  function EvidenceAfter(ps: seq<SavedPass>): Evidence {
    if ps == [] then NO_EVIDENCE
    else
      var p := ps[|ps| - 1];
      Updated(EvidenceAfter(ps[..|ps| - 1]), p.batch, p.f, p.now)
  }

  /** The passes of the cycle that is still going on. */
  function OpenCycle(ps: seq<SavedPass>): seq<SavedPass> {
    if ps == [] || ps[|ps| - 1].batch.completed then [] else OpenCycle(ps[..|ps| - 1]) + [ps[|ps| - 1]]
  }

  function Found(ps: seq<SavedPass>): Findings {
    if ps == [] then Findings(0, 0, 0)
    else
      var (r, f) := (Found(ps[..|ps| - 1]), ps[|ps| - 1].f);
      Findings(r.examined + f.examined, r.stillMissing + f.stillMissing, r.unrecoverable + f.unrecoverable)
  }

  /** Findings of every cycle that was published, in order: each pass of it proved its coverage. */
  function PublishedCycles(ps: seq<SavedPass>): seq<Findings> {
    if ps == [] then []
    else
      var init, p := ps[..|ps| - 1], ps[|ps| - 1];
      if p.batch.completed && Clean(OpenCycle(init)) && Proven(p.batch)
      then PublishedCycles(init) + [Found(OpenCycle(init) + [p])] else PublishedCycles(init)
  }

  predicate Proven(b: Batch) { b.uncovered == 0 && b.coverageProven }

  predicate Clean(ps: seq<SavedPass>) { forall i :: 0 <= i < |ps| ==> Proven(ps[i].batch) }

  predicate Spotless(f: Findings) { f.stillMissing == 0 && f.unrecoverable == 0 }

  function TrailingBacklogs(fs: seq<Findings>): nat {
    if fs == [] || Spotless(fs[|fs| - 1]) then 0 else TrailingBacklogs(fs[..|fs| - 1]) + 1
  }

  /** What evidence has to say about an open cycle and the cycles published before it. */
  predicate Tallies(e: Evidence, open: seq<SavedPass>, cycles: seq<Findings>) {
    && Findings(e.examined, e.stillMissing, e.unrecoverable) == Found(open)
    && (e.superseded <==> !Clean(open))
    && e.unsuccessful == TrailingBacklogs(cycles)
    && (e.last.Some? <==> cycles != [])
    && (e.last.Some? ==> Reports(e.last.value, cycles[|cycles| - 1]))
  }

  lemma OneMorePass(open: seq<SavedPass>, p: SavedPass)
    ensures Found(open + [p]) == Findings(Found(open).examined + p.f.examined,
      Found(open).stillMissing + p.f.stillMissing, Found(open).unrecoverable + p.f.unrecoverable)
    ensures Clean(open + [p]) <==> Clean(open) && Proven(p.batch)
  {
    assert (open + [p])[..|open|] == open && (open + [p])[|open|] == p;
    assert forall i :: 0 <= i < |open| ==> (open + [p])[i] == open[i];
  }

  lemma OneMoreCycle(cycles: seq<Findings>, f: Findings)
    ensures TrailingBacklogs(cycles + [f]) == if Spotless(f) then 0 else TrailingBacklogs(cycles) + 1
  {
    assert (cycles + [f])[..|cycles|] == cycles;
  }

  lemma TallyOpen(e: Evidence, open: seq<SavedPass>, cycles: seq<Findings>, p: SavedPass)
    requires Tallies(e, open, cycles) && !p.batch.completed
    ensures Tallies(Updated(e, p.batch, p.f, p.now), open + [p], cycles)
  {
    OneMorePass(open, p);
  }

  /** What a completed pass does to the evidence, given the findings of its whole cycle. */
  lemma CompletedEvidence(e: Evidence, p: SavedPass, all: Findings)
    requires p.batch.completed
    requires all == Findings(e.examined + p.f.examined, e.stillMissing + p.f.stillMissing,
        e.unrecoverable + p.f.unrecoverable)
    ensures var e' := Updated(e, p.batch, p.f, p.now);
      && e' == NO_EVIDENCE.(last := e'.last, unsuccessful := e'.unsuccessful)
      && (if !e.superseded && Proven(p.batch)
          then e'.last.Some? && Reports(e'.last.value, all)
               && e'.unsuccessful == (if Spotless(all) then 0 else e.unsuccessful + 1)
          else e'.last == e.last && e'.unsuccessful == e.unsuccessful)
  {
  }

  lemma TallyCompleted(e: Evidence, open: seq<SavedPass>, cycles: seq<Findings>, p: SavedPass)
    requires Tallies(e, open, cycles) && p.batch.completed
    ensures Clean(open) && Proven(p.batch) ==>
      Tallies(Updated(e, p.batch, p.f, p.now), [], cycles + [Found(open + [p])])
    ensures !(Clean(open) && Proven(p.batch)) ==> Tallies(Updated(e, p.batch, p.f, p.now), [], cycles)
  {
    OneMorePass(open, p);
    var all := Found(open + [p]);
    CompletedEvidence(e, p, all);
    OneMoreCycle(cycles, all);
    NoPasses();
  }

  lemma NoPasses()
    ensures Found([]) == Findings(0, 0, 0) && Clean([])
  {
  }

  /**
   * The counters are sums over the passes of the cycle in progress, the last completed cycle
   * is the last published one with the sums over all its passes, and the number of
   * unsuccessful cycles counts the published ones with a backlog at the end of the history.
   */
  lemma {:induction false} EvidenceCountsPasses(ps: seq<SavedPass>)
    ensures Tallies(EvidenceAfter(ps), OpenCycle(ps), PublishedCycles(ps))
  {
    if ps != [] {
      var init := ps[..|ps| - 1];
      EvidenceCountsPasses(init);
      if ps[|ps| - 1].batch.completed {
        TallyCompleted(EvidenceAfter(init), OpenCycle(init), PublishedCycles(init), ps[|ps| - 1]);
      } else {
        TallyOpen(EvidenceAfter(init), OpenCycle(init), PublishedCycles(init), ps[|ps| - 1]);
      }
    }
  }

  predicate Reports(c: Completed, f: Findings) {
    Findings(c.examined, c.stillMissing, c.unrecoverable) == f && (c.successful <==> Spotless(f))
  }

  /** `handed` are the CIDs handed out since the list of the cycle was built. */
  datatype World = World(cycle: Option<Cycle>, evidence: Evidence, handed: set<Cid>)

  /**
   * A pass scans whatever the registry holds at its start and at its end. One that fails
   * after taking its batch leaves the evidence as it was. A restart loses the list.
   */
  datatype Step =
    | Works(atStart: Node, scan: seq<Cid>, atEnd: Node, closing: seq<Cid>, saved: bool, f: Findings, now: Time)
    | Restart
    | NewMembership

  ghost predicate Scans(t: Step)
    requires t.Works?
  {
    IsScan(t.scan, t.atStart) && IsScan(t.closing, t.atEnd)
  }

  function WalkOf(w: World, t: Step): Cycle
    requires t.Works?
  {
    Walked(w.cycle, w.evidence.cursor, t.scan)
  }

  predicate WorldInv(w: World) {
    && (w.cycle.Some? ==> CycleInv(w.cycle.value))
    && (w.cycle.Some? && !w.cycle.value.resumed ==> w.handed == Elements(w.cycle.value.cids[..w.cycle.value.index]))
    && (w.evidence.superseded ==> w.evidence.cursor.Some? && (w.cycle.Some? ==> w.cycle.value.resumed))
  }

  function PassOf(w: World, t: Step): Pass
    requires t.Works?
  {
    NextPass(WalkOf(w, t), w.evidence.cursor, t.closing)
  }

  function HandedAfter(w: World, t: Step): set<Cid>
    requires t.Works?
  {
    (if w.cycle.None? || w.evidence.cursor.None? then {} else w.handed) + Elements(PassOf(w, t).batch.cids)
  }

  ghost predicate Next(w: World, t: Step, w': World) {
    match t
    case Works(_, _, _, _, saved, f, now) =>
      && Scans(t)
      && w'.cycle == PassOf(w, t).cycle && w'.handed == HandedAfter(w, t)
      && w'.evidence == (if saved then Updated(w.evidence, PassOf(w, t).batch, f, now) else w.evidence)
    case Restart => w' == w.(cycle := None)
    case NewMembership => w' == w.(cycle := None, evidence := NO_EVIDENCE)
  }

  /** What a list built without a cursor handed out is its own prefix. */
  lemma HandedIsPrefix(w: World, t: Step)
    requires WorldInv(w) && t.Works? && Scans(t) && !WalkOf(w, t).resumed
    ensures var y := WalkOf(w, t); HandedAfter(w, t) == Elements(y.cids[..y.index + |Taken(y)|])
  {
    var y := WalkOf(w, t);
    assert y.cids[..y.index + |Taken(y)|] == y.cids[..y.index] + Taken(y);
  }

  lemma StepKeepsInv(w: World, t: Step, w': World)
    requires WorldInv(w) && Next(w, t, w')
    ensures WorldInv(w')
  {
    if t.Works? {
      var y := WalkOf(w, t);
      var p := PassOf(w, t);
      NextPassKeepsInv(y, w.evidence.cursor, t.closing);
      if p.cycle.Some? {
        assert p.cycle.value.cids[..p.cycle.value.index] == y.cids[..y.index + |Taken(y)|];
        if !y.resumed { HandedIsPrefix(w, t); }
      }
    }
  }

  /**
   * A pass publishes evidence exactly when it ends a cycle that was never rebuilt from a
   * cursor and that handed out every candidate of its closing scan.
   */
  lemma PublishedMeansCovered(w: World, t: Step)
    requires WorldInv(w) && t.Works? && Scans(t)
    ensures Publishes(w.evidence, PassOf(w, t).batch) <==>
      (PassOf(w, t).batch.completed && !WalkOf(w, t).resumed
       && forall c :: IsCandidate(t.atEnd, c) ==> c in HandedAfter(w, t))
  {
    var y := WalkOf(w, t);
    var p := PassOf(w, t);
    if p.batch.completed && !y.resumed {
      HandedIsPrefix(w, t);
      assert y.cids[..y.index + |Taken(y)|] == y.cids;
      var late := Arrivals(t.closing, y.cids);
      if late != [] {
        assert late[0] in late;
        assert IsCandidate(t.atEnd, late[0]) && late[0] !in HandedAfter(w, t);
      }
    }
  }

  ghost predicate Run(ws: seq<World>, ts: seq<Step>) {
    |ws| == |ts| + 1 && forall i :: 0 <= i < |ts| ==> Next(ws[i], ts[i], ws[i + 1])
  }

  lemma {:induction false} RunsKeepInv(ws: seq<World>, ts: seq<Step>, k: nat)
    requires Run(ws, ts) && WorldInv(ws[0]) && k <= |ts|
    ensures WorldInv(ws[k])
  {
    if k > 0 {
      RunsKeepInv(ws, ts, k - 1);
      StepKeepsInv(ws[k - 1], ts[k - 1], ws[k]);
    }
  }

  /** Evidence of a completed cycle changes only when a pass covered its candidates. */
  lemma {:induction false} EvidenceIsCoverage(ws: seq<World>, ts: seq<Step>)
    requires Run(ws, ts) && WorldInv(ws[0])
    requires ws[|ts|].evidence.last != ws[0].evidence.last && ws[|ts|].evidence.last.Some?
    ensures exists i :: 0 <= i < |ts| && Covers(ws[i], ts[i]) && ws[|ts|].evidence.last.value.at == ts[i].now
  {
    var n := |ts| - 1;
    RunsKeepInv(ws, ts, n);
    assert Next(ws[n], ts[n], ws[n + 1]);
    if ws[n + 1].evidence.last == ws[n].evidence.last {
      EvidenceIsCoverage(ws[..n + 1], ts[..n]);
      var i :| 0 <= i < n && Covers(ws[..n + 1][i], ts[..n][i])
               && ws[..n + 1][n].evidence.last.value.at == ts[..n][i].now;
      assert Covers(ws[i], ts[i]);
    } else {
      PublishedMeansCovered(ws[n], ts[n]);
      assert Covers(ws[n], ts[n]);
    }
  }

  /** A pass that ended a cycle which handed out every candidate of the closing scan. */
  ghost predicate Covers(w: World, t: Step) {
    && t.Works? && PassOf(w, t).batch.completed
    && forall c :: IsCandidate(t.atEnd, c) ==> c in HandedAfter(w, t)
  }
}
