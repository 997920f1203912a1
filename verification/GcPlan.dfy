/** What a collection run may release (src/storage/gc.ts:75-162). */
module GcPlan {
  import opened Common
  import opened Records

  datatype Item = Item(cid: Cid, revision: nat, file: FileRecord)

  datatype Input = Input(
    blockstoreBytes: nat, reclaimableBytes: int, high: nat, low: nat,
    available: Option<nat>, reserve: Option<nat>, records: seq<Item>, now: Time, owners: Owners)

  datatype Trigger = NoTrigger | Watermark | DiskReserve

  datatype Plan = Plan(
    shouldCollect: bool, trigger: Trigger, expired: seq<Item>, evicted: seq<Item>, retained: seq<Item>,
    estimatedBytesAfter: nat)

  // ---------------------------------------------------------------- selection

  function Filter(s: seq<Item>, keep: Item -> bool): (t: seq<Item>)
    ensures forall x :: x in t <==> x in s && keep(x)
    ensures |t| <= |s|
  {
    if s == [] then []
    else (if keep(s[0]) then [s[0]] else []) + Filter(s[1..], keep)
  }

  /** Abandoned: released by TTL whatever the blockstore size is. */
  predicate IsAbandoned(i: Item, p: Input) {
    i.file.state != Confirmed && IsExpired(i.file, p.now) && !IsAdmissionInFlight(i.file, p.owners)
  }

  /** Alive but unconfirmed and in nobody's transaction: may be evicted for space. */
  predicate IsEvictable(i: Item, p: Input) {
    && i.file.state != Confirmed && i.file.stage.None?
    && !IsExpired(i.file, p.now) && !IsAdmissionInFlight(i.file, p.owners)
  }

  function InsertByAge(x: Item, s: seq<Item>): (t: seq<Item>)
    ensures multiset(t) == multiset(s) + multiset{x}
  {
    if s == [] || x.file.createdAt <= s[0].file.createdAt then
      [x] + s
    else
      assert s == [s[0]] + s[1..];
      [s[0]] + InsertByAge(x, s[1..])
  }

  /** Oldest first; the order of equally old records is kept. */
  function ByAge(s: seq<Item>): (t: seq<Item>)
    ensures multiset(t) == multiset(s)
  {
    if s == [] then [] else
      assert s == [s[0]] + s[1..];
      InsertByAge(s[0], ByAge(s[1..]))
  }

  /** What may be evicted, in the order it would be. */
  function Candidates(p: Input): seq<Item> { ByAge(Filter(p.records, i => IsEvictable(i, p))) }

  predicate OldestFirst(s: seq<Item>) {
    forall i, j :: 0 <= i < j < |s| ==> s[i].file.createdAt <= s[j].file.createdAt
  }

  lemma {:induction false} InsertKeepsAge(x: Item, s: seq<Item>)
    requires OldestFirst(s)
    ensures OldestFirst(InsertByAge(x, s))
  {
    if s != [] && s[0].file.createdAt < x.file.createdAt {
      InsertKeepsAge(x, s[1..]);
      var t := InsertByAge(x, s[1..]);
      forall i | 0 <= i < |t| ensures s[0].file.createdAt <= t[i].file.createdAt {
        assert t[i] in multiset(t);
        assert t[i] == x || t[i] in s[1..];
      }
    }
  }

  lemma {:induction false} ByAgeIsOldestFirst(s: seq<Item>)
    ensures OldestFirst(ByAge(s))
  {
    if s != [] {
      ByAgeIsOldestFirst(s[1..]);
      InsertKeepsAge(s[0], ByAge(s[1..]));
    }
  }

  lemma CandidatesAre(p: Input, i: Item)
    ensures i in Candidates(p) <==> i in p.records && IsEvictable(i, p)
    ensures OldestFirst(Candidates(p))
  {
    var eligible := Filter(p.records, j => IsEvictable(j, p));
    ByAgeIsOldestFirst(eligible);
    assert i in ByAge(eligible) <==> i in multiset(ByAge(eligible));
    assert i in eligible <==> i in multiset(eligible);
  }

  // ---------------------------------------------------------------- space

  function Bytes(s: seq<Item>): nat {
    if s == [] then 0 else Bytes(s[..|s| - 1]) + ProtectedStorageBytes(s[|s| - 1].file)
  }

  function PinnedBytes(s: seq<Item>): nat {
    if s == [] then 0
    else PinnedBytes(s[..|s| - 1]) + (if s[|s| - 1].file.pinned then ProtectedStorageBytes(s[|s| - 1].file) else 0)
  }

  predicate OverWatermark(p: Input) { p.blockstoreBytes > p.high }

  predicate UnderReserve(p: Input) { p.available.Some? && p.reserve.Some? && p.available.value < p.reserve.value }

  /** Bytes that must come back: the reserve plus a quarter, rounded up, minus what is free. */
  function ReserveTarget(p: Input): int {
    if UnderReserve(p) then (5 * p.reserve.value + 3) / 4 - p.available.value else 0
  }

  /** Blockstore size once what is reclaimable and what expired is gone. */
  function BytesAfterExpiry(p: Input, expired: seq<Item>): int {
    p.blockstoreBytes - Min(p.blockstoreBytes, Max(0, p.reclaimableBytes)) - PinnedBytes(expired)
  }

  predicate StillShort(p: Input, estimate: int) {
    (OverWatermark(p) && estimate > p.low) || p.blockstoreBytes - estimate < ReserveTarget(p)
  }

  /** The estimate when the `k` oldest evictable records are released as well. */
  function EstimateAfter(p: Input, expired: seq<Item>, byAge: seq<Item>, k: nat): int
    requires k <= |byAge|
  {
    BytesAfterExpiry(p, expired) - Bytes(byAge[..k])
  }

  // ---------------------------------------------------------------- the planner

  ghost predicate IsPlan(p: Input, plan: Plan) {
    var byAge := Candidates(p);
    && plan.shouldCollect == (OverWatermark(p) || UnderReserve(p))
    && plan.trigger == (if OverWatermark(p) then Watermark else if UnderReserve(p) then DiskReserve else NoTrigger)
    && plan.expired == Filter(p.records, i => IsAbandoned(i, p))
    // the shortest oldest-first prefix that clears every deficit, or all of it
    && plan.evicted <= byAge
    && (!plan.shouldCollect ==> plan.evicted == [])
    && (forall k :: 0 <= k < |plan.evicted| ==> StillShort(p, EstimateAfter(p, plan.expired, byAge, k)))
    && (plan.shouldCollect && |plan.evicted| < |byAge| ==>
          !StillShort(p, EstimateAfter(p, plan.expired, byAge, |plan.evicted|)))
    && plan.estimatedBytesAfter == Max(0, EstimateAfter(p, plan.expired, byAge, |plan.evicted|))
    && (forall i :: i in plan.retained <==>
          i in p.records && (forall r :: r in plan.expired + plan.evicted ==> r.cid != i.cid))
  }

  method PlanGarbageCollection(p: Input) returns (plan: Plan)
    ensures IsPlan(p, plan)
  {
    var expired := Filter(p.records, i => IsAbandoned(i, p));
    var byAge := Candidates(p);
    var estimate := DiscountExpired(p, expired);
    var over := OverWatermark(p);
    var under := UnderReserve(p);
    var evicted: seq<Item> := [];
    if over || under {
      evicted, estimate := Evict(p, expired, byAge, estimate);
    }
    var releasedCids := set r | r in expired + evicted :: r.cid;
    plan := Plan(over || under, if over then Watermark else if under then DiskReserve else NoTrigger,
      expired, evicted, Filter(p.records, (i: Item) => i.cid !in releasedCids), Max(0, estimate));
  }

  /** What is reclaimable already and what expired counts before anything is evicted. */
  method DiscountExpired(p: Input, expired: seq<Item>) returns (estimate: int)
    ensures estimate == BytesAfterExpiry(p, expired)
  {
    var start := p.blockstoreBytes - Min(p.blockstoreBytes, Max(0, p.reclaimableBytes));
    estimate := start;
    for k := 0 to |expired|
      invariant estimate == start - PinnedBytes(expired[..k])
    {
      assert expired[..k + 1][..k] == expired[..k];
      if expired[k].file.pinned {
        estimate := estimate - ProtectedStorageBytes(expired[k].file);
      }
    }
    assert expired[..|expired|] == expired;
  }

  /** Evict the oldest until no deficit is left, or nothing is. */
  method Evict(p: Input, ghost expired: seq<Item>, byAge: seq<Item>, start: int)
    returns (evicted: seq<Item>, estimate: int)
    requires start == BytesAfterExpiry(p, expired)
    ensures evicted <= byAge && estimate == EstimateAfter(p, expired, byAge, |evicted|)
    ensures forall k :: 0 <= k < |evicted| ==> StillShort(p, EstimateAfter(p, expired, byAge, k))
    ensures |evicted| < |byAge| ==> !StillShort(p, estimate)
  {
    evicted, estimate := [], start;
    while |evicted| < |byAge| && StillShort(p, estimate)
      invariant evicted <= byAge && estimate == EstimateAfter(p, expired, byAge, |evicted|)
      invariant forall k :: 0 <= k < |evicted| ==> StillShort(p, EstimateAfter(p, expired, byAge, k))
      decreases |byAge| - |evicted|
    {
      var next := byAge[|evicted|];
      assert byAge[..|evicted| + 1][..|evicted|] == byAge[..|evicted|];
      evicted := evicted + [next];
      estimate := estimate - ProtectedStorageBytes(next.file);
    }
  }

  // ---------------------------------------------------------------- what a plan guarantees

  ghost predicate DistinctCids(s: seq<Item>) {
    forall a, b :: a in s && b in s && a.cid == b.cid ==> a == b
  }

  /** Durable files, in-flight uploads and live stages are never selected. */
  lemma SelectionIsSafe(p: Input, plan: Plan, i: Item)
    requires IsPlan(p, plan) && (i in plan.expired || i in plan.evicted)
    ensures i in p.records && i.file.state != Confirmed && !IsAdmissionInFlight(i.file, p.owners)
    ensures i.file.stage.Some? ==> IsExpired(i.file, p.now)
  {
    if i in plan.evicted { EvictedAreEligible(p, plan, i); }
  }

  /** Each record is either released by exactly one rule or retained. */
  lemma PlanIsAPartition(p: Input, plan: Plan, i: Item)
    requires IsPlan(p, plan) && DistinctCids(p.records) && i in p.records
    ensures !(i in plan.expired && i in plan.evicted)
    ensures i in plan.retained <==> !(i in plan.expired || i in plan.evicted)
  {
    if i in plan.evicted {
      EvictedAreEligible(p, plan, i);
    }
    if i !in plan.retained {
      var r :| r in plan.expired + plan.evicted && r.cid == i.cid;
      if r in plan.evicted { SelectionIsSafe(p, plan, r); }
    }
  }

  lemma EvictedAreEligible(p: Input, plan: Plan, i: Item)
    requires IsPlan(p, plan) && i in plan.evicted
    ensures IsEvictable(i, p) && i in p.records
  {
    assert i in Candidates(p);
    CandidatesAre(p, i);
  }

  /** Nothing older that could have been evicted survives something younger that was. */
  lemma EvictionIsOldestFirst(p: Input, plan: Plan, elder: Item, younger: Item)
    requires IsPlan(p, plan) && younger in plan.evicted && MayGo(elder, p)
    requires elder.file.createdAt < younger.file.createdAt
    ensures elder in plan.evicted
  {
    ElderGoesFirst(p, plan.evicted, elder, younger);
  }

  lemma ElderGoesFirst(p: Input, evicted: seq<Item>, elder: Item, younger: Item)
    requires evicted <= Candidates(p) && younger in evicted && MayGo(elder, p)
    requires elder.file.createdAt < younger.file.createdAt
    ensures elder in evicted
  {
    CandidatesAre(p, elder);
    PrefixIsOldest(Candidates(p), evicted, elder, younger);
  }

  lemma PrefixIsOldest(byAge: seq<Item>, prefix: seq<Item>, elder: Item, younger: Item)
    requires OldestFirst(byAge) && prefix <= byAge && elder in byAge && younger in prefix
    requires elder.file.createdAt < younger.file.createdAt
    ensures elder in prefix
  {
    var a :| 0 <= a < |byAge| && byAge[a] == elder;
    var b :| 0 <= b < |prefix| && prefix[b] == younger;
    assert byAge[b] == younger;
    assert prefix[a] == elder;
  }

  // ---------------------------------------------------------------- what a plan selects, exactly

  /** An upload whose token is unsettled, or whose request still runs. */
  predicate HasUploader(i: Item, p: Input) {
    && i.file.admissionId.Some?
    && (i.file.admissionSettledAt.None? || i.file.admissionId.value in p.owners.admissions)
  }

  lemma ExpiredAreAbandoned(p: Input, plan: Plan, i: Item)
    requires IsPlan(p, plan)
    ensures i in plan.expired <==> i in p.records && IsAbandoned(i, p)
  {
  }

  /**
   * Whatever the watermarks say, the records released by age are exactly those that are not
   * durable, have expired or reached their time, and are in no upload's hands.
   */
  lemma ExpiredExactly(p: Input, plan: Plan, i: Item)
    requires IsPlan(p, plan)
    ensures i in plan.expired <==>
      && i in p.records && !HasUploader(i, p)
      && (i.file.state == Expired
          || (i.file.state == Temporary && i.file.expiresAt.Some? && i.file.expiresAt.value <= p.now))
  {
    ExpiredAreAbandoned(p, plan, i);
  }

  /** The records that may be evicted for space: temporary, unexpired, and in nobody's transaction. */
  predicate MayGo(i: Item, p: Input) {
    && i in p.records && !HasUploader(i, p)
    && i.file.state == Temporary && i.file.stage.None?
    && (i.file.expiresAt.None? || p.now < i.file.expiresAt.value)
  }

  /** Space is short when the blockstore is above the high mark, or the volume below the reserve. */
  lemma CollectsExactly(p: Input, plan: Plan)
    requires IsPlan(p, plan)
    ensures plan.trigger.Watermark? <==> p.high < p.blockstoreBytes
    ensures plan.trigger.DiskReserve? <==>
      p.blockstoreBytes <= p.high && p.available.Some? && p.reserve.Some? && p.available.value < p.reserve.value
    ensures plan.shouldCollect <==> !plan.trigger.NoTrigger?
  {
  }

  /** Bytes that come back: what is reclaimable already, what expired with its pin, and what is evicted. */
  function Freed(p: Input, expired: seq<Item>, evicted: seq<Item>): int {
    Min(p.blockstoreBytes, Max(0, p.reclaimableBytes)) + PinnedBytes(expired) + Bytes(evicted)
  }

  /** Back under the low mark when above the high one, and a quarter above the reserve when below it. */
  predicate Relieved(p: Input, freed: int) {
    && (p.high < p.blockstoreBytes ==> p.blockstoreBytes - freed <= p.low)
    && (p.available.Some? && p.reserve.Some? && p.available.value < p.reserve.value ==>
          5 * p.reserve.value <= 4 * (p.available.value + freed))
  }

  lemma ShortExactly(p: Input, expired: seq<Item>, byAge: seq<Item>, evicted: seq<Item>)
    requires evicted <= byAge
    ensures EstimateAfter(p, expired, byAge, |evicted|) == p.blockstoreBytes - Freed(p, expired, evicted)
    ensures StillShort(p, EstimateAfter(p, expired, byAge, |evicted|)) <==> !Relieved(p, Freed(p, expired, evicted))
  {
    assert byAge[..|evicted|] == evicted;
  }

  lemma StopsRelieved(p: Input, plan: Plan)
    requires IsPlan(p, plan) && plan.shouldCollect && |plan.evicted| < |Candidates(p)|
    ensures Relieved(p, Freed(p, plan.expired, plan.evicted))
  {
    ShortExactly(p, plan.expired, Candidates(p), plan.evicted);
  }

  /** Eviction leaves a record it may take only when space is no longer short. */
  lemma EvictsUntilRelieved(p: Input, plan: Plan, i: Item)
    requires IsPlan(p, plan) && plan.shouldCollect && MayGo(i, p) && i !in plan.evicted
    ensures Relieved(p, Freed(p, plan.expired, plan.evicted))
  {
    CandidatesAre(p, i);
    assert plan.evicted != Candidates(p);
    StopsRelieved(p, plan);
  }

  /** It takes only such records, only while space is short, and never one more than it needs. */
  lemma EvictsNoMore(p: Input, plan: Plan, k: nat)
    requires IsPlan(p, plan) && k < |plan.evicted|
    ensures plan.shouldCollect && MayGo(plan.evicted[k], p)
    ensures !Relieved(p, Freed(p, plan.expired, plan.evicted[..k]))
  {
    EvictedAreEligible(p, plan, plan.evicted[k]);
    EvictedWhileShort(p, plan, k);
    ShortExactly(p, plan.expired, Candidates(p), plan.evicted[..k]);
  }

  lemma EvictedWhileShort(p: Input, plan: Plan, k: nat)
    requires IsPlan(p, plan) && k < |plan.evicted|
    ensures plan.shouldCollect && plan.evicted[..k] <= Candidates(p)
    ensures StillShort(p, EstimateAfter(p, plan.expired, Candidates(p), k))
  {
  }

  /** The size a plan announces. */
  lemma EstimateIsFreed(p: Input, plan: Plan)
    requires IsPlan(p, plan)
    ensures plan.estimatedBytesAfter == Max(0, p.blockstoreBytes - Freed(p, plan.expired, plan.evicted))
  {
    ShortExactly(p, plan.expired, Candidates(p), plan.evicted);
  }

  /** Releasing one more file frees the bytes it protects, the larger of its sizes where none were measured. */
  lemma BytesAdd(s: seq<Item>, i: Item)
    ensures Bytes([]) == 0 && PinnedBytes([]) == 0
    ensures Bytes(s + [i]) == Bytes(s) + ProtectedStorageBytes(i.file)
    ensures PinnedBytes(s + [i]) == PinnedBytes(s) + if i.file.pinned then ProtectedStorageBytes(i.file) else 0
    ensures ProtectedStorageBytes(i.file) ==
      if i.file.protectedBytes.Some? then i.file.protectedBytes.value else Max(i.file.storedBytes, i.file.fileSize)
  {
    assert (s + [i])[..|s|] == s;
  }

  /** Durable records alone, with space to spare, are all retained. */
  lemma DurableAreRetained(p: Input)
    requires p.blockstoreBytes <= p.high && p.available.None?
    requires forall i :: i in p.records ==> i.file.state == Confirmed
    ensures IsPlan(p, Plan(false, NoTrigger, [], [], p.records, Max(0, BytesAfterExpiry(p, []))))
  {
    NothingToKeep(p.records, i => IsAbandoned(i, p));
    NothingToKeep(p.records, i => IsEvictable(i, p));
    assert Bytes([]) == 0;
  }

  lemma {:induction false} NothingToKeep(s: seq<Item>, keep: Item -> bool)
    requires forall x :: x in s ==> !keep(x)
    ensures Filter(s, keep) == []
  {
    if s != [] { NothingToKeep(s[1..], keep); }
  }
}
