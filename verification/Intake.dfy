/**
 * The rolling intake budget (src/storage/intakeBudget.ts): buckets of ten minutes per
 * peer and for the whole node, charged with the most a copy could cost and corrected
 * when the transfer settles. The history of charges is what the limits are about; the
 * buckets are proved to account for it.
 */
module Intake {
  import opened Common
  import opened Records

  const WINDOW: nat := 60 * 60 * 1000
  const BUCKETS: nat := 6
  const BUCKET: nat := 600_000
  const PER_PEER_BYTES: nat := 4 * 0x4000_0000
  const PER_PEER_REQUESTS: nat := 500
  const TOTAL_BYTES: nat := 16 * 0x4000_0000
  const TOTAL_REQUESTS: nat := 5000

  datatype Bucket = Bucket(startedAt: Time, bytes: nat, requests: nat)

  /** One granted reservation; `bytes` is what it is charged with now. */
  datatype Charge = Charge(peer: PeerId, at: Time, reserved: nat, bytes: nat, settled: bool)

  datatype Spender = Peer(id: PeerId) | Everyone

  datatype Measure = InBytes | InRequests

  function Limit(s: Spender, u: Measure): nat {
    match (s, u)
    case (Peer(_), InBytes) => PER_PEER_BYTES
    case (Peer(_), InRequests) => PER_PEER_REQUESTS
    case (Everyone, InBytes) => TOTAL_BYTES
    case (Everyone, InRequests) => TOTAL_REQUESTS
  }

  function Weight(c: Charge, u: Measure): nat { if u == InBytes then c.bytes else 1 }

  function Amount(b: Bucket, u: Measure): nat { if u == InBytes then b.bytes else b.requests }

  predicate Spends(s: Spender, c: Charge) { s == Everyone || s == Peer(c.peer) }

  function StartOf(at: Time): Time { at / BUCKET * BUCKET }

  /** A bucket counts until its end is a window old. */
  predicate Live(startedAt: Time, now: Time) { startedAt + BUCKET + WINDOW > now }

  // ---------------------------------------------------------------- sums over the history

  function Sum(cs: seq<Charge>, f: Charge -> bool, u: Measure): nat {
    if cs == [] then 0
    else Sum(cs[..|cs| - 1], f, u) + if f(cs[|cs| - 1]) then Weight(cs[|cs| - 1], u) else 0
  }

  /** Charges of a spender in the bucket that starts at `start`. */
  function InBucket(s: Spender, start: Time): Charge -> bool { c => Spends(s, c) && StartOf(c.at) == start }

  function InBuckets(s: Spender, bs: seq<Bucket>): Charge -> bool {
    c => Spends(s, c) && HasStart(bs, StartOf(c.at))
  }

  /** Charges of a spender that the budget still counts at `now`. */
  function Counted(s: Spender, now: Time): Charge -> bool { c => Spends(s, c) && Live(StartOf(c.at), now) }

  /** Charges of a spender made in the hour that ends at `now`. */
  function Trailing(s: Spender, now: Time): Charge -> bool { c => Spends(s, c) && c.at <= now <= c.at + WINDOW }

  lemma {:induction false} SumSplits(cs: seq<Charge>, f: Charge -> bool, g: Charge -> bool, h: Charge -> bool,
                          u: Measure)
    requires forall c :: c in cs ==> (f(c) <==> g(c) || h(c)) && !(g(c) && h(c))
    ensures Sum(cs, f, u) == Sum(cs, g, u) + Sum(cs, h, u)
  {
    if cs != [] {
      assert cs[|cs| - 1] in cs;
      SumSplits(cs[..|cs| - 1], f, g, h, u);
    }
  }

  lemma {:induction false} SumGrows(cs: seq<Charge>, f: Charge -> bool, g: Charge -> bool, u: Measure)
    requires forall c :: c in cs && f(c) ==> g(c)
    ensures Sum(cs, f, u) <= Sum(cs, g, u)
  {
    if cs != [] {
      assert cs[|cs| - 1] in cs;
      SumGrows(cs[..|cs| - 1], f, g, u);
    }
  }

  lemma SumSame(cs: seq<Charge>, f: Charge -> bool, g: Charge -> bool, u: Measure)
    requires forall c :: c in cs ==> (f(c) <==> g(c))
    ensures Sum(cs, f, u) == Sum(cs, g, u)
  {
    SumGrows(cs, f, g, u);
    SumGrows(cs, g, f, u);
  }

  lemma SumAppend(cs: seq<Charge>, c: Charge, f: Charge -> bool, u: Measure)
    ensures Sum(cs + [c], f, u) == Sum(cs, f, u) + if f(c) then Weight(c, u) else 0
  {
    assert (cs + [c])[..|cs|] == cs;
  }

  /** Replacing a charge by one of the same peer and time moves every sum it is in by the difference. */
  lemma {:induction false} SumUpdate(cs: seq<Charge>, i: nat, c: Charge, f: Charge -> bool, u: Measure)
    requires i < |cs| && (f(c) <==> f(cs[i]))
    ensures Sum(cs[i := c], f, u) == Sum(cs, f, u) + (if f(c) then Weight(c, u) - Weight(cs[i], u) else 0)
    ensures f(cs[i]) ==> Sum(cs, f, u) >= Weight(cs[i], u)
  {
    var n := |cs| - 1;
    if i < n {
      SumUpdate(cs[..n], i, c, f, u);
      assert cs[i := c][..n] == cs[..n][i := c];
    } else {
      assert cs[i := c][..n] == cs[..n];
    }
  }

  // ---------------------------------------------------------------- buckets account for the history

  predicate Increasing(bs: seq<Bucket>) {
    forall i, j :: 0 <= i < j < |bs| ==> bs[i].startedAt < bs[j].startedAt
  }

  /** A bucket holds exactly the charges of its ten minutes. */
  ghost predicate Filed(b: Bucket, cs: seq<Charge>, s: Spender, clock: Time) {
    && b.startedAt <= clock && StartOf(b.startedAt) == b.startedAt && b.requests > 0
    && b.bytes == Sum(cs, InBucket(s, b.startedAt), InBytes)
    && b.requests == Sum(cs, InBucket(s, b.startedAt), InRequests)
  }

  /** No charge that still counts is missing from the buckets. */
  ghost predicate Complete(bs: seq<Bucket>, cs: seq<Charge>, s: Spender, clock: Time) {
    forall c :: c in cs && Counted(s, clock)(c) ==> HasStart(bs, StartOf(c.at))
  }

  predicate HasStart(bs: seq<Bucket>, start: Time) { exists b :: b in bs && b.startedAt == start }

  /** The buckets of a spender account for its charges. */
  ghost predicate Accounts(bs: seq<Bucket>, cs: seq<Charge>, s: Spender, clock: Time) {
    && Increasing(bs)
    && (forall b :: b in bs ==> Filed(b, cs, s, clock))
    && Complete(bs, cs, s, clock)
  }

  function LiveBuckets(bs: seq<Bucket>, now: Time): (r: seq<Bucket>)
    ensures forall b :: b in r <==> b in bs && Live(b.startedAt, now)
    ensures Increasing(bs) ==> Increasing(r)
  {
    if bs == [] then [] else
      var init := LiveBuckets(bs[..|bs| - 1], now);
      if Live(bs[|bs| - 1].startedAt, now) then init + [bs[|bs| - 1]] else init
  }

  function BucketSum(bs: seq<Bucket>, u: Measure): nat {
    if bs == [] then 0 else BucketSum(bs[..|bs| - 1], u) + Amount(bs[|bs| - 1], u)
  }

  lemma {:induction false} BucketsSumCharges(bs: seq<Bucket>, cs: seq<Charge>, s: Spender, u: Measure)
    requires Increasing(bs)
    requires forall b :: b in bs ==> Amount(b, u) == Sum(cs, InBucket(s, b.startedAt), u)
    ensures BucketSum(bs, u) == Sum(cs, InBuckets(s, bs), u)
  {
    if bs == [] {
      SumGrows(cs, InBuckets(s, bs), c => false, u);
      SumNone(cs, u);
    } else {
      var init, b := bs[..|bs| - 1], bs[|bs| - 1];
      assert b in bs;
      BucketsSumCharges(init, cs, s, u);
      forall c | c in cs
        ensures InBuckets(s, bs)(c) <==> InBuckets(s, init)(c) || InBucket(s, b.startedAt)(c)
        ensures !(InBuckets(s, init)(c) && InBucket(s, b.startedAt)(c))
      {
        assert forall d :: d in bs <==> d in init || d == b;
      }
      SumSplits(cs, InBuckets(s, bs), InBuckets(s, init), InBucket(s, b.startedAt), u);
    }
  }

  lemma {:induction false} SumNone(cs: seq<Charge>, u: Measure)
    ensures Sum(cs, c => false, u) == 0
  {
    if cs != [] { SumNone(cs[..|cs| - 1], u); }
  }

  lemma LiveKeepsAccounts(bs: seq<Bucket>, cs: seq<Charge>, s: Spender, clock: Time, now: Time)
    requires Accounts(bs, cs, s, clock) && clock <= now
    ensures Accounts(LiveBuckets(bs, now), cs, s, now) && Accounts(bs, cs, s, now)
    ensures forall c :: c in cs ==> (Counted(s, now)(c) <==> InBuckets(s, LiveBuckets(bs, now))(c))
    ensures forall u :: BucketSum(LiveBuckets(bs, now), u) == Sum(cs, Counted(s, now), u)
  {
    var live := LiveBuckets(bs, now);
    forall b | b in bs ensures Filed(b, cs, s, now) {
      assert Filed(b, cs, s, clock);
    }
    forall c | c in cs && Counted(s, now)(c) ensures HasStart(bs, StartOf(c.at)) && HasStart(live, StartOf(c.at)) {
      assert Counted(s, clock)(c);
      var b :| b in bs && b.startedAt == StartOf(c.at);
      assert b in live;
    }
    forall u ensures BucketSum(live, u) == Sum(cs, Counted(s, now), u) {
      BucketsSumCharges(live, cs, s, u);
      SumSame(cs, Counted(s, now), InBuckets(s, live), u);
    }
  }

  /** At most seven buckets of a spender are live at any time. */
  lemma {:induction false} AtMostSevenLive(bs: seq<Bucket>, cs: seq<Charge>, s: Spender, now: Time)
    requires Accounts(bs, cs, s, now)
    ensures |LiveBuckets(bs, now)| <= BUCKETS + 1
  {
    var live := LiveBuckets(bs, now);
    if live != [] {
      SpacedOut(live, |live| - 1);
      assert live[0] in live && live[|live| - 1] in live;
    }
  }

  lemma {:induction false} SpacedOut(bs: seq<Bucket>, k: nat)
    requires Increasing(bs) && k < |bs|
    requires forall b :: b in bs ==> StartOf(b.startedAt) == b.startedAt
    ensures bs[0].startedAt + k * BUCKET <= bs[k].startedAt
  {
    if k > 0 {
      SpacedOut(bs, k - 1);
      assert bs[k] in bs && bs[k - 1] in bs;
      assert bs[k - 1].startedAt / BUCKET < bs[k].startedAt / BUCKET;
    }
  }

  // ---------------------------------------------------------------- one charge, one settlement

  /** The buckets after charging the one that starts at `start`, created last if it is missing. */
  function Charged(bs: seq<Bucket>, start: Time, bytes: nat): (r: seq<Bucket>) {
    if bs != [] && bs[|bs| - 1].startedAt == start then
      bs[|bs| - 1 := Bucket(start, bs[|bs| - 1].bytes + bytes, bs[|bs| - 1].requests + 1)]
    else bs + [Bucket(start, bytes, 1)]
  }

  lemma ChargeKeepsAccounts(bs: seq<Bucket>, cs: seq<Charge>, s: Spender, now: Time, c: Charge)
    requires Accounts(bs, cs, s, now) && c.at == now && Spends(s, c)
    ensures Accounts(Charged(bs, StartOf(now), c.bytes), cs + [c], s, now)
  {
    var r := Charged(bs, StartOf(now), c.bytes);
    StartsAreEarlier(bs, cs, s, now);
    forall b | b in r ensures Filed(b, cs + [c], s, now) {
      SumAppend(cs, c, InBucket(s, b.startedAt), InBytes);
      SumAppend(cs, c, InBucket(s, b.startedAt), InRequests);
      if b.startedAt != StartOf(now) {
        assert Filed(b, cs, s, now);
      } else if bs != [] && bs[|bs| - 1].startedAt == StartOf(now) {
        assert Filed(bs[|bs| - 1], cs, s, now);
      } else {
        NothingYet(bs, cs, s, now);
      }
    }
    ChargeKeepsComplete(bs, cs, s, now, c);
  }

  lemma ChargeKeepsComplete(bs: seq<Bucket>, cs: seq<Charge>, s: Spender, now: Time, c: Charge)
    requires Complete(bs, cs, s, now) && c.at == now
    ensures Complete(Charged(bs, StartOf(now), c.bytes), cs + [c], s, now)
  {
    var r := Charged(bs, StartOf(now), c.bytes);
    forall d | d in cs + [c] && Counted(s, now)(d) ensures HasStart(r, StartOf(d.at)) {
      if d in cs {
        var b :| b in bs && b.startedAt == StartOf(d.at);
        var k :| 0 <= k < |bs| && bs[k] == b;
        assert r[k] in r && r[k].startedAt == b.startedAt;
      } else {
        assert r[|r| - 1] in r && r[|r| - 1].startedAt == StartOf(d.at);
      }
    }
  }

  lemma StartsAreEarlier(bs: seq<Bucket>, cs: seq<Charge>, s: Spender, now: Time)
    requires Accounts(bs, cs, s, now)
    ensures forall b :: b in bs ==> b.startedAt <= StartOf(now)
    ensures forall i :: 0 <= i < |bs| - 1 ==> bs[i].startedAt < StartOf(now)
  {
    forall b | b in bs ensures b.startedAt <= StartOf(now) {
      assert Filed(b, cs, s, now);
    }
    if bs != [] { assert bs[|bs| - 1] in bs; }
  }

  /** A missing bucket means no charge fell in it. */
  lemma NothingYet(bs: seq<Bucket>, cs: seq<Charge>, s: Spender, now: Time)
    requires Accounts(bs, cs, s, now)
    requires bs == [] || bs[|bs| - 1].startedAt != StartOf(now)
    ensures forall u :: Sum(cs, InBucket(s, StartOf(now)), u) == 0
  {
    StartsAreEarlier(bs, cs, s, now);
    forall c | c in cs ensures !InBucket(s, StartOf(now))(c) {
      assert InBucket(s, StartOf(now))(c) ==> Counted(s, now)(c);
    }
    forall u ensures Sum(cs, InBucket(s, StartOf(now)), u) == 0 {
      SumSame(cs, InBucket(s, StartOf(now)), c => false, u);
      SumNone(cs, u);
    }
  }

  /** A charge of somebody else leaves the accounts of a spender correct. */
  lemma OthersKeepAccounts(bs: seq<Bucket>, cs: seq<Charge>, s: Spender, now: Time, c: Charge)
    requires Accounts(bs, cs, s, now) && !Spends(s, c)
    ensures Accounts(bs, cs + [c], s, now)
  {
    forall b | b in bs ensures Filed(b, cs + [c], s, now) {
      assert Filed(b, cs, s, now);
      SumAppend(cs, c, InBucket(s, b.startedAt), InBytes);
      SumAppend(cs, c, InBucket(s, b.startedAt), InRequests);
    }
  }

  function CorrectedBucket(b: Bucket, start: Time, difference: int): Bucket {
    if b.startedAt == start then b.(bytes := Max(0, b.bytes + difference)) else b
  }

  /** Correct the bucket that starts at `start`; one that is gone stays gone. */
  function Corrected(bs: seq<Bucket>, start: Time, difference: int): (r: seq<Bucket>)
    ensures |r| == |bs| && forall i :: 0 <= i < |r| ==> r[i] == CorrectedBucket(bs[i], start, difference)
  {
    if bs == [] then [] else [CorrectedBucket(bs[0], start, difference)] + Corrected(bs[1..], start, difference)
  }

  function SettledCharge(c: Charge, actual: int): Charge { c.(bytes := Max(0, actual), settled := true) }

  /** The correction of a bucket is exact: the clamp at zero never changes it. */
  lemma ClampIsIdle(b: Bucket, cs: seq<Charge>, s: Spender, now: Time, i: nat, actual: int)
    requires i < |cs| && Filed(b, cs, s, now) && cs[i].bytes == cs[i].reserved && Spends(s, cs[i])
    ensures b.startedAt == StartOf(cs[i].at) ==> b.bytes + Max(0, actual) - cs[i].reserved >= 0
    ensures Filed(CorrectedBucket(b, StartOf(cs[i].at), Max(0, actual) - cs[i].reserved),
                  cs[i := SettledCharge(cs[i], actual)], s, now)
  {
    SumUpdate(cs, i, SettledCharge(cs[i], actual), InBucket(s, b.startedAt), InBytes);
    SumUpdate(cs, i, SettledCharge(cs[i], actual), InBucket(s, b.startedAt), InRequests);
  }

  lemma SettleKeepsComplete(bs: seq<Bucket>, r: seq<Bucket>, cs: seq<Charge>, s: Spender, now: Time, i: nat,
                          actual: int)
    requires i < |cs| && Complete(bs, cs, s, now)
    requires |r| == |bs| && forall k :: 0 <= k < |r| ==> r[k].startedAt == bs[k].startedAt
    ensures Complete(r, cs[i := SettledCharge(cs[i], actual)], s, now)
  {
    var cs' := cs[i := SettledCharge(cs[i], actual)];
    forall d | d in cs' && Counted(s, now)(d) ensures HasStart(r, StartOf(d.at)) {
      var j :| 0 <= j < |cs'| && cs'[j] == d;
      assert cs[j] in cs && Counted(s, now)(cs[j]);
      var b :| b in bs && b.startedAt == StartOf(d.at);
      var k :| 0 <= k < |bs| && bs[k] == b;
      assert r[k] in r;
    }
  }

  lemma SettleKeepsAccounts(bs: seq<Bucket>, cs: seq<Charge>, s: Spender, now: Time, i: nat, actual: int)
    requires i < |cs| && Accounts(bs, cs, s, now) && cs[i].bytes == cs[i].reserved && Spends(s, cs[i])
    ensures Accounts(Corrected(bs, StartOf(cs[i].at), Max(0, actual) - cs[i].reserved),
        cs[i := SettledCharge(cs[i], actual)], s, now)
  {
    var r := Corrected(bs, StartOf(cs[i].at), Max(0, actual) - cs[i].reserved);
    forall b | b in r ensures Filed(b, cs[i := SettledCharge(cs[i], actual)], s, now) {
      var k :| 0 <= k < |r| && r[k] == b;
      assert bs[k] in bs;
      ClampIsIdle(bs[k], cs, s, now, i, actual);
    }
    SettleKeepsComplete(bs, r, cs, s, now, i, actual);
  }

  lemma OthersSettleKeepsAccounts(bs: seq<Bucket>, cs: seq<Charge>, s: Spender, now: Time, i: nat, actual: int)
    requires i < |cs| && Accounts(bs, cs, s, now) && !Spends(s, cs[i])
    ensures Accounts(bs, cs[i := SettledCharge(cs[i], actual)], s, now)
  {
    var c := SettledCharge(cs[i], actual);
    forall b | b in bs ensures Filed(b, cs[i := c], s, now) {
      assert Filed(b, cs, s, now);
      SumUpdate(cs, i, c, InBucket(s, b.startedAt), InBytes);
      SumUpdate(cs, i, c, InBucket(s, b.startedAt), InRequests);
    }
    SettleKeepsComplete(bs, bs, cs, s, now, i, actual);
  }

  // ---------------------------------------------------------------- the limits

  predicate InOrder(cs: seq<Charge>, clock: Time) {
    && (forall c :: c in cs ==> c.at <= clock)
    && (forall i, j :: 0 <= i < j < |cs| ==> cs[i].at <= cs[j].at)
  }

  ghost predicate FitsAt(cs: seq<Charge>, k: nat)
    requires k < |cs|
  {
    forall s, u :: Spends(s, cs[k]) ==> Sum(cs[..k + 1], Counted(s, cs[k].at), u) <= Limit(s, u)
  }

  /** When each charge was made, everything then counted against its spenders was within their limits. */
  ghost predicate WithinLimits(cs: seq<Charge>) {
    forall k: nat | k < |cs| :: FitsAt(cs, k)
  }

  /** What a reservation of `max` bytes needs: room for it in both budgets and in both measures. */
  ghost predicate Fits(cs: seq<Charge>, p: PeerId, max: nat, now: Time) {
    forall s, u :: s == Peer(p) || s == Everyone ==> HasRoom(cs, s, u, max, now)
  }

  ghost predicate HasRoom(cs: seq<Charge>, s: Spender, u: Measure, max: nat, now: Time) {
    Sum(cs, Counted(s, now), u) + (if u == InBytes then max else 1) <= Limit(s, u)
  }

  lemma ReserveKeepsLimits(cs: seq<Charge>, c: Charge)
    requires WithinLimits(cs) && Fits(cs, c.peer, c.reserved, c.at) && c.bytes == c.reserved
    ensures WithinLimits(cs + [c])
  {
    forall k: nat | k < |cs + [c]| ensures FitsAt(cs + [c], k) {
      if k < |cs| {
        assert (cs + [c])[..k + 1] == cs[..k + 1];
        assert FitsAt(cs, k);
      } else {
        assert (cs + [c])[..k + 1] == cs + [c];
        forall s, u | Spends(s, c) ensures Sum(cs + [c], Counted(s, c.at), u) <= Limit(s, u) {
          SumAppend(cs, c, Counted(s, c.at), u);
          assert HasRoom(cs, s, u, c.reserved, c.at);
        }
      }
    }
  }

  /** Giving part of a reservation back keeps every past decision within the limits. */
  lemma SettleKeepsLimits(cs: seq<Charge>, i: nat, actual: int)
    requires i < |cs| && WithinLimits(cs) && cs[i].bytes == cs[i].reserved && actual <= cs[i].reserved
    ensures WithinLimits(cs[i := SettledCharge(cs[i], actual)])
  {
    var c := SettledCharge(cs[i], actual);
    var after := cs[i := c];
    forall k: nat | k < |after| ensures FitsAt(after, k) {
      assert FitsAt(cs, k);
      if i <= k {
        assert after[..k + 1] == cs[..k + 1][i := c];
        forall s, u | Spends(s, after[k]) ensures Sum(after[..k + 1], Counted(s, after[k].at), u) <= Limit(s, u) {
          SumUpdate(cs[..k + 1], i, c, Counted(s, cs[k].at), u);
        }
      } else {
        assert after[..k + 1] == cs[..k + 1];
      }
    }
  }

  /** A charge is counted for at least an hour and for at most seventy minutes. */
  lemma CountedForAnHour(at: Time, now: Time)
    requires at <= now
    ensures now <= at + WINDOW ==> Live(StartOf(at), now)
    ensures Live(StartOf(at), now) ==> now < at + WINDOW + BUCKET
  {
  }

  /**
   * In every trailing hour, whenever it ends, each peer and the whole node stay within
   * their byte and request limits.
   */
  lemma {:induction false} TrailingHourIsBounded(cs: seq<Charge>, clock: Time, s: Spender, now: Time, u: Measure)
    requires InOrder(cs, clock) && WithinLimits(cs)
    ensures Sum(cs, Trailing(s, now), u) <= Limit(s, u)
  {
    if cs != [] {
      var n := |cs| - 1;
      var last := cs[n];
      if Trailing(s, now)(last) {
        forall c | c in cs && Trailing(s, now)(c) ensures Counted(s, last.at)(c) {
          var i :| 0 <= i < |cs| && cs[i] == c;
          CountedForAnHour(c.at, last.at);
        }
        SumGrows(cs, Trailing(s, now), Counted(s, last.at), u);
        assert FitsAt(cs, n) && cs[..n + 1] == cs;
      } else {
        forall k: nat | k < n ensures FitsAt(cs[..n], k) {
          assert FitsAt(cs, k) && cs[..n][..k + 1] == cs[..k + 1];
        }
        TrailingHourIsBounded(cs[..n], clock, s, now, u);
      }
    }
  }

  // ---------------------------------------------------------------- the limits in figures

  /** Whether the ten minutes a charge fell in ended less than an hour before `now`. */
  predicate Recent(at: Time, now: Time) { now < (at / 600_000 + 7) * 600_000 }

  function RecentOf(p: PeerId, now: Time): Charge -> bool { (c: Charge) => c.peer == p && Recent(c.at, now) }

  function RecentOfAll(now: Time): Charge -> bool { (c: Charge) => Recent(c.at, now) }

  /**
   * A reservation is granted exactly when the recent charges leave 4 GiB and 500 requests to
   * the peer, 16 GiB and 5000 requests to everybody.
   */
  lemma FitsExactly(cs: seq<Charge>, p: PeerId, max: nat, now: Time)
    ensures Fits(cs, p, max, now) <==>
      && Sum(cs, RecentOf(p, now), InBytes) + max <= 4_294_967_296
      && Sum(cs, RecentOf(p, now), InRequests) < 500
      && Sum(cs, RecentOfAll(now), InBytes) + max <= 17_179_869_184
      && Sum(cs, RecentOfAll(now), InRequests) < 5000
  {
    forall u
      ensures Sum(cs, RecentOf(p, now), u) == Sum(cs, Counted(Peer(p), now), u)
      ensures Sum(cs, RecentOfAll(now), u) == Sum(cs, Counted(Everyone, now), u)
    {
      SumSame(cs, RecentOf(p, now), Counted(Peer(p), now), u);
      SumSame(cs, RecentOfAll(now), Counted(Everyone, now), u);
    }
    assert Fits(cs, p, max, now) <==>
      HasRoom(cs, Peer(p), InBytes, max, now) && HasRoom(cs, Peer(p), InRequests, max, now)
      && HasRoom(cs, Everyone, InBytes, max, now) && HasRoom(cs, Everyone, InRequests, max, now);
  }

  function HourOf(p: PeerId, now: Time): Charge -> bool {
    (c: Charge) => c.peer == p && c.at <= now <= c.at + 3_600_000
  }

  function HourOfAll(now: Time): Charge -> bool { (c: Charge) => c.at <= now <= c.at + 3_600_000 }

  /** No hour brings more than 4 GiB or 500 requests from a peer, or 16 GiB or 5000 requests in all. */
  lemma HourInFigures(cs: seq<Charge>, clock: Time, p: PeerId, now: Time)
    requires InOrder(cs, clock) && WithinLimits(cs)
    ensures Sum(cs, HourOf(p, now), InBytes) <= 4_294_967_296 && Sum(cs, HourOf(p, now), InRequests) <= 500
    ensures Sum(cs, HourOfAll(now), InBytes) <= 17_179_869_184 && Sum(cs, HourOfAll(now), InRequests) <= 5000
  {
    forall u
      ensures Sum(cs, HourOf(p, now), u) <= Limit(Peer(p), u)
      ensures Sum(cs, HourOfAll(now), u) <= Limit(Everyone, u)
    {
      SumSame(cs, HourOf(p, now), Trailing(Peer(p), now), u);
      SumSame(cs, HourOfAll(now), Trailing(Everyone, now), u);
      TrailingHourIsBounded(cs, clock, Peer(p), now, u);
      TrailingHourIsBounded(cs, clock, Everyone, now, u);
    }
  }

  /** What a sum adds up: the bytes of the charges it covers, or their number. */
  lemma SumMeans(cs: seq<Charge>, c: Charge, f: Charge -> bool)
    ensures Sum([], f, InBytes) == 0 && Sum([], f, InRequests) == 0
    ensures Sum(cs + [c], f, InBytes) == Sum(cs, f, InBytes) + if f(c) then c.bytes else 0
    ensures Sum(cs + [c], f, InRequests) == Sum(cs, f, InRequests) + if f(c) then 1 else 0
  {
    SumAppend(cs, c, f, InBytes);
    SumAppend(cs, c, f, InRequests);
  }

  // ---------------------------------------------------------------- peers

  /** Peers with something counted are at most as many as the requests counted. */
  lemma {:induction false} PeersAreFewerThanRequests(ps: set<PeerId>, cs: seq<Charge>, now: Time)
    requires forall p :: p in ps ==> exists c :: c in cs && Counted(Peer(p), now)(c)
    ensures |ps| <= Sum(cs, Counted(Everyone, now), InRequests)
  {
    if cs == [] {
      assert ps == {};
    } else {
      var init, last := cs[..|cs| - 1], cs[|cs| - 1];
      var rest := if Counted(Everyone, now)(last) then ps - {last.peer} else ps;
      forall p | p in rest ensures exists c :: c in init && Counted(Peer(p), now)(c) {
        var c :| c in cs && Counted(Peer(p), now)(c);
        assert c in init;
      }
      PeersAreFewerThanRequests(rest, init, now);
      assert |ps| <= |rest| + if Counted(Everyone, now)(last) then 1 else 0 by {
        SubsetSize(ps, rest + {last.peer});
      }
    }
  }

  // ---------------------------------------------------------------- the books as a whole

  datatype Ledger = Ledger(perPeer: map<PeerId, seq<Bucket>>, total: seq<Bucket>)

  function BucketsOf(l: Ledger, s: Spender): seq<Bucket> {
    match s
    case Everyone => l.total
    case Peer(p) => if p in l.perPeer then l.perPeer[p] else []
  }

  /** Every spender is accounted for, peers the map has forgotten included. */
  ghost predicate Books(l: Ledger, cs: seq<Charge>, clock: Time) {
    forall s :: AccountOf(l, s, cs, clock)
  }

  ghost predicate AccountOf(l: Ledger, s: Spender, cs: seq<Charge>, clock: Time) {
    Accounts(BucketsOf(l, s), cs, s, clock)
  }

  lemma BooksAdvance(l: Ledger, cs: seq<Charge>, clock: Time, now: Time)
    requires Books(l, cs, clock) && clock <= now
    ensures Books(l, cs, now)
  {
    forall s ensures AccountOf(l, s, cs, now) {
      assert AccountOf(l, s, cs, clock);
      LiveKeepsAccounts(BucketsOf(l, s), cs, s, clock, now);
    }
  }

  /** A ledger that only lost buckets out of the window still accounts for everything. */
  lemma BooksPrune(l: Ledger, l': Ledger, cs: seq<Charge>, now: Time)
    requires Books(l, cs, now)
    requires forall s :: BucketsOf(l', s) == BucketsOf(l, s) || BucketsOf(l', s) == LiveBuckets(BucketsOf(l, s), now)
    ensures Books(l', cs, now)
  {
    forall s ensures AccountOf(l', s, cs, now) {
      assert AccountOf(l, s, cs, now);
      LiveKeepsAccounts(BucketsOf(l, s), cs, s, now, now);
    }
  }

  function WithCharge(l: Ledger, c: Charge): Ledger {
    Ledger(l.perPeer[c.peer := Charged(BucketsOf(l, Peer(c.peer)), StartOf(c.at), c.bytes)],
           Charged(l.total, StartOf(c.at), c.bytes))
  }

  lemma BooksCharge(l: Ledger, cs: seq<Charge>, c: Charge)
    requires Books(l, cs, c.at)
    ensures Books(WithCharge(l, c), cs + [c], c.at)
  {
    forall s ensures AccountOf(WithCharge(l, c), s, cs + [c], c.at) {
      assert AccountOf(l, s, cs, c.at);
      if Spends(s, c) {
        ChargeKeepsAccounts(BucketsOf(l, s), cs, s, c.at, c);
      } else {
        OthersKeepAccounts(BucketsOf(l, s), cs, s, c.at, c);
      }
    }
  }

  function WithCorrection(l: Ledger, c: Charge, actual: int): Ledger {
    var start, difference := StartOf(c.at), Max(0, actual) - c.reserved;
    Ledger(if c.peer in l.perPeer
           then l.perPeer[c.peer := Corrected(l.perPeer[c.peer], start, difference)] else l.perPeer,
           Corrected(l.total, start, difference))
  }

  lemma BooksSettle(l: Ledger, cs: seq<Charge>, now: Time, i: nat, actual: int)
    requires Books(l, cs, now) && i < |cs| && cs[i].bytes == cs[i].reserved
    ensures Books(WithCorrection(l, cs[i], actual), cs[i := SettledCharge(cs[i], actual)], now)
  {
    var l' := WithCorrection(l, cs[i], actual);
    var after := cs[i := SettledCharge(cs[i], actual)];
    forall s ensures AccountOf(l', s, after, now) {
      assert AccountOf(l, s, cs, now);
      if Spends(s, cs[i]) {
        SettleKeepsAccounts(BucketsOf(l, s), cs, s, now, i, actual);
        assert BucketsOf(l', s) == Corrected(BucketsOf(l, s), StartOf(cs[i].at), Max(0, actual) - cs[i].reserved);
      } else {
        OthersSettleKeepsAccounts(BucketsOf(l, s), cs, s, now, i, actual);
      }
    }
  }

  function PeerSum(ps: seq<PeerId>, l: Ledger, now: Time, u: Measure): nat {
    if ps == [] then 0 else PeerSum(ps[1..], l, now, u) + BucketSum(LiveBuckets(BucketsOf(l, Peer(ps[0])), now), u)
  }

  function OfPeers(ps: seq<PeerId>, now: Time): Charge -> bool {
    (c: Charge) => c.peer in ps && Live(StartOf(c.at), now)
  }

  lemma {:induction false} PeersSumCharges(ps: seq<PeerId>, l: Ledger, cs: seq<Charge>, now: Time, u: Measure)
    requires NoDuplicates(ps) && Books(l, cs, now)
    ensures PeerSum(ps, l, now, u) == Sum(cs, OfPeers(ps, now), u)
  {
    if ps == [] {
      SumSame(cs, OfPeers(ps, now), c => false, u);
      SumNone(cs, u);
    } else {
      var p, rest := ps[0], ps[1..];
      PeersSumCharges(rest, l, cs, now, u);
      assert AccountOf(l, Peer(p), cs, now);
      LiveKeepsAccounts(BucketsOf(l, Peer(p)), cs, Peer(p), now, now);
      SumSplits(cs, OfPeers(ps, now), OfPeers(rest, now), Counted(Peer(p), now), u);
    }
  }

  /** The live total is the sum over the peers of the map, however they are enumerated. */
  lemma TotalIsSumOverPeers(l: Ledger, cs: seq<Charge>, now: Time, ps: seq<PeerId>, u: Measure)
    requires Books(l, cs, now) && NoDuplicates(ps) && forall p :: p in ps <==> p in l.perPeer
    ensures PeerSum(ps, l, now, u) == BucketSum(LiveBuckets(l.total, now), u)
  {
    PeersSumCharges(ps, l, cs, now, u);
    assert AccountOf(l, Everyone, cs, now);
    LiveKeepsAccounts(BucketsOf(l, Everyone), cs, Everyone, now, now);
    forall c | c in cs ensures OfPeers(ps, now)(c) <==> Counted(Everyone, now)(c) {
      assert AccountOf(l, Peer(c.peer), cs, now);
      assert Counted(Everyone, now)(c) ==> Counted(Peer(c.peer), now)(c);
    }
    SumSame(cs, OfPeers(ps, now), Counted(Everyone, now), u);
  }

  // ---------------------------------------------------------------- the loops

  /** Sum the buckets the window still covers. */
  method Totals(bs: seq<Bucket>, now: Time) returns (live: seq<Bucket>, bytes: nat, requests: nat)
    ensures live == LiveBuckets(bs, now)
    ensures bytes == BucketSum(live, InBytes) && requests == BucketSum(live, InRequests)
  {
    live := LiveBuckets(bs, now);
    bytes, requests := 0, 0;
    for i := 0 to |live|
      invariant bytes == BucketSum(live[..i], InBytes) && requests == BucketSum(live[..i], InRequests)
    {
      assert live[..i + 1][..i] == live[..i];
      bytes, requests := bytes + live[i].bytes, requests + live[i].requests;
    }
    assert live[..|live|] == live;
  }

  /** Charge the bucket `now` falls in, creating it when it is missing. */
  method ChargeBucket(bs: seq<Bucket>, now: Time, bytes: nat) returns (r: seq<Bucket>)
    requires Increasing(bs) && forall b :: b in bs ==> b.startedAt <= StartOf(now)
    ensures r == Charged(bs, StartOf(now), bytes)
  {
    var start := now / BUCKET * BUCKET;
    var i := 0;
    while i < |bs| && bs[i].startedAt != start
      invariant 0 <= i <= |bs|
      invariant forall j :: 0 <= j < i ==> bs[j].startedAt != start
    {
      i := i + 1;
    }
    if i == |bs| {
      r := bs + [Bucket(start, 0, 0)];
    } else {
      assert bs[|bs| - 1] in bs;
      r := bs;
    }
    r := r[i := Bucket(start, r[i].bytes + bytes, r[i].requests + 1)];
  }

  /** Forget every peer with nothing left in the window. */
  method DropIdlePeers(perPeer: map<PeerId, seq<Bucket>>, now: Time) returns (kept: map<PeerId, seq<Bucket>>)
    ensures forall p ::
      BucketsOf(Ledger(kept, []), Peer(p)) == LiveBuckets(BucketsOf(Ledger(perPeer, []), Peer(p)), now)
    ensures forall p :: p in kept ==> kept[p] != [] && forall b :: b in kept[p] ==> Live(b.startedAt, now)
  {
    kept := map[];
    var todo := perPeer.Keys;
    while todo != {}
      invariant kept.Keys !! todo && kept.Keys + todo <= perPeer.Keys
      invariant forall p :: p in kept ==> kept[p] == LiveBuckets(perPeer[p], now) && kept[p] != []
      invariant forall p :: p in perPeer && p !in todo && p !in kept ==> LiveBuckets(perPeer[p], now) == []
    {
      var id :| id in todo;
      todo := todo - {id};
      var live := LiveBuckets(perPeer[id], now);
      if live != [] {
        kept := kept[id := live];
      }
    }
  }

  lemma KeptPeersAreFew(l: Ledger, cs: seq<Charge>, now: Time)
    requires Books(l, cs, now)
    requires forall p :: p in l.perPeer ==>
      l.perPeer[p] != [] && forall b :: b in l.perPeer[p] ==> Live(b.startedAt, now)
    ensures |l.perPeer| <= Sum(cs, Counted(Everyone, now), InRequests)
  {
    forall p | p in l.perPeer ensures exists c :: c in cs && Counted(Peer(p), now)(c) {
      assert AccountOf(l, Peer(p), cs, now);
      var b := BucketsOf(l, Peer(p))[0];
      assert b in l.perPeer[p] && Filed(b, cs, Peer(p), now);
      var c := Witness(cs, InBucket(Peer(p), b.startedAt));
      assert Counted(Peer(p), now)(c);
    }
    PeersAreFewerThanRequests(l.perPeer.Keys, cs, now);
    assert |l.perPeer| == |l.perPeer.Keys|;
  }

  ghost function Witness(cs: seq<Charge>, f: Charge -> bool): (c: Charge)
    requires Sum(cs, f, InRequests) > 0
    ensures c in cs && f(c)
  {
    if f(cs[|cs| - 1]) then cs[|cs| - 1] else Witness(cs[..|cs| - 1], f)
  }

  /** The four comparisons of a reservation decide room in the history. */
  lemma RoomDecided(l: Ledger, cs: seq<Charge>, p: PeerId, max: nat, now: Time, live: seq<Bucket>, all: seq<Bucket>)
    requires Books(l, cs, now)
    requires live == LiveBuckets(BucketsOf(l, Peer(p)), now) && all == LiveBuckets(l.total, now)
    ensures Fits(cs, p, max, now) <==>
      (BucketSum(live, InBytes) + max <= PER_PEER_BYTES && BucketSum(live, InRequests) < PER_PEER_REQUESTS
       && BucketSum(all, InBytes) + max <= TOTAL_BYTES && BucketSum(all, InRequests) < TOTAL_REQUESTS)
  {
    assert AccountOf(l, Peer(p), cs, now) && AccountOf(l, Everyone, cs, now);
    LiveKeepsAccounts(BucketsOf(l, Peer(p)), cs, Peer(p), now, now);
    LiveKeepsAccounts(BucketsOf(l, Everyone), cs, Everyone, now, now);
    assert Fits(cs, p, max, now) <==>
      HasRoom(cs, Peer(p), InBytes, max, now) && HasRoom(cs, Peer(p), InRequests, max, now)
      && HasRoom(cs, Everyone, InBytes, max, now) && HasRoom(cs, Everyone, InRequests, max, now);
  }

  // ---------------------------------------------------------------- the budget

  /** Both budgets a reservation looks at, reduced to the buckets still live. */
  function Pruned(l: Ledger, peer: PeerId, now: Time): Ledger {
    Ledger(if peer in l.perPeer then l.perPeer[peer := LiveBuckets(l.perPeer[peer], now)] else l.perPeer,
           LiveBuckets(l.total, now))
  }

  lemma BooksPruned(l: Ledger, cs: seq<Charge>, now: Time, peer: PeerId)
    requires Books(l, cs, now)
    ensures Books(Pruned(l, peer, now), cs, now)
    ensures BucketsOf(Pruned(l, peer, now), Peer(peer)) == LiveBuckets(BucketsOf(l, Peer(peer)), now)
  {
    BooksPrune(l, Pruned(l, peer, now), cs, now);
  }

  lemma GrantKeepsHistory(cs: seq<Charge>, c: Charge)
    requires InOrder(cs, c.at) && Unsettled(cs) && Fits(cs, c.peer, c.reserved, c.at) && c.bytes == c.reserved
    ensures InOrder(cs + [c], c.at) && Unsettled(cs + [c])
    ensures WithinLimits(cs) ==> WithinLimits(cs + [c])
    ensures Sum(cs + [c], Counted(Everyone, c.at), InRequests) <= TOTAL_REQUESTS
  {
    if WithinLimits(cs) { ReserveKeepsLimits(cs, c); }
    assert HasRoom(cs, Everyone, InRequests, c.reserved, c.at);
    SumAppend(cs, c, Counted(Everyone, c.at), InRequests);
  }

  lemma LastBucketsAreRecent(l: Ledger, cs: seq<Charge>, now: Time, s: Spender)
    requires Books(l, cs, now)
    ensures Increasing(BucketsOf(l, s)) && forall b :: b in BucketsOf(l, s) ==> b.startedAt <= StartOf(now)
  {
    assert AccountOf(l, s, cs, now);
    StartsAreEarlier(BucketsOf(l, s), cs, s, now);
  }

  predicate Unsettled(cs: seq<Charge>) {
    forall i :: 0 <= i < |cs| && !cs[i].settled ==> cs[i].bytes == cs[i].reserved
  }

  class IntakeBudget {
    var perPeer: map<PeerId, seq<Bucket>>
    var total: seq<Bucket>
    /** The reservations handed out, oldest first; a reservation is settled by its position. */
    var charges: seq<Charge>
    ghost var clock: Time

    ghost function Ledgers(): Ledger
      reads this
    {
      Ledger(perPeer, total)
    }

    ghost predicate Valid()
      reads this
    {
      Books(Ledgers(), charges, clock) && InOrder(charges, clock) && Unsettled(charges) && |perPeer| <= TOTAL_REQUESTS
    }

    constructor ()
      ensures Valid() && charges == [] && WithinLimits(charges) && clock == 0
    {
      perPeer, total, charges, clock := map[], [], [], 0;
    }

    /**
     * Reserve the most a copy could cost. Granted exactly when the history leaves room for
     * it in the budget of the peer and of the node, in bytes and in requests.
     */
    method Reserve(peer: PeerId, maxBytes: nat, now: Time) returns (granted: bool)
      requires Valid() && clock <= now
      modifies this
      ensures Valid() && clock == now
      ensures granted <==> Fits(old(charges), peer, maxBytes, now)
      ensures charges == old(charges) + if granted then [Charge(peer, now, maxBytes, maxBytes, false)] else []
      ensures old(WithinLimits(charges)) ==> WithinLimits(charges)
    {
      var fits, live := Look(peer, maxBytes, now);
      if !fits { return false; }
      var c := Charge(peer, now, maxBytes, maxBytes, false);
      GrantKeepsHistory(charges, c);
      AddCharge(c, live);
      BoundPeers(now);
      return true;
    }

    /** Drop what left the window from both budgets, and compare the rest with the limits. */
    method Look(peer: PeerId, maxBytes: nat, now: Time) returns (fits: bool, live: seq<Bucket>)
      requires Valid() && clock <= now
      modifies this`perPeer, this`total, this`clock
      ensures Valid() && clock == now
      ensures fits <==> Fits(charges, peer, maxBytes, now)
      ensures live == BucketsOf(Ledgers(), Peer(peer))
    {
      ghost var l := Ledgers();
      BooksAdvance(l, charges, clock, now);
      BooksPruned(l, charges, now, peer);
      clock := now;
      var bytes, requests, all, allBytes, allRequests;
      live, bytes, requests := Totals(if peer in perPeer then perPeer[peer] else [], now);
      all, allBytes, allRequests := Totals(total, now);
      RoomDecided(l, charges, peer, maxBytes, now, live, all);
      total := all;
      if peer in perPeer { perPeer := perPeer[peer := live]; }
      assert Ledgers() == Pruned(l, peer, now);
      fits := bytes + maxBytes <= PER_PEER_BYTES && requests < PER_PEER_REQUESTS
              && allBytes + maxBytes <= TOTAL_BYTES && allRequests < TOTAL_REQUESTS;
    }

    /** The bucket of now is charged in both budgets. */
    method AddCharge(c: Charge, live: seq<Bucket>)
      requires Books(Ledgers(), charges, c.at) && live == BucketsOf(Ledgers(), Peer(c.peer))
      modifies this`perPeer, this`total, this`charges
      ensures charges == old(charges) + [c] && Books(Ledgers(), charges, c.at)
    {
      ghost var l := WithCharge(Ledgers(), c);
      BooksCharge(Ledgers(), charges, c);
      LastBucketsAreRecent(Ledgers(), charges, c.at, Peer(c.peer));
      LastBucketsAreRecent(Ledgers(), charges, c.at, Everyone);
      var mine := ChargeBucket(live, c.at, c.bytes);
      var all := ChargeBucket(total, c.at, c.bytes);
      perPeer, total, charges := perPeer[c.peer := mine], all, charges + [c];
      assert Ledgers() == l;
    }

    /** Peers out of the window are forgotten when the map outgrows the request limit. */
    method BoundPeers(now: Time)
      requires Books(Ledgers(), charges, now) && Sum(charges, Counted(Everyone, now), InRequests) <= TOTAL_REQUESTS
      modifies this`perPeer
      ensures Books(Ledgers(), charges, now) && |perPeer| <= TOTAL_REQUESTS
    {
      if |perPeer| > TOTAL_REQUESTS {
        ghost var l := Ledgers();
        perPeer := DropIdlePeers(perPeer, now);
        forall s
          ensures
            || BucketsOf(Ledgers(), s) == BucketsOf(l, s)
            || BucketsOf(Ledgers(), s) == LiveBuckets(BucketsOf(l, s), now)
        {
          if s.Peer? { assert BucketsOf(Ledger(perPeer, []), Peer(s.id)) == BucketsOf(Ledgers(), s); }
        }
        BooksPrune(l, Ledgers(), charges, now);
        KeptPeersAreFew(Ledgers(), charges, now);
      }
    }

    /**
     * Correct reservation `i` to what the transfer cost; a second call does nothing. The
     * limits survive every transfer that cost no more than it reserved.
     */
    method Settle(i: nat, actual: int)
      requires Valid() && i < |charges|
      modifies this
      ensures Valid() && clock == old(clock)
      ensures charges == if old(charges[i].settled) then old(charges)
                         else old(charges)[i := SettledCharge(old(charges[i]), actual)]
      ensures old(WithinLimits(charges)) && actual <= charges[i].reserved ==> WithinLimits(charges)
    {
      var c := charges[i];
      if c.settled { return; }
      BooksSettle(Ledgers(), charges, clock, i, actual);
      assert Ledgers() == Ledger(perPeer, total);
      if WithinLimits(charges) && actual <= c.reserved { SettleKeepsLimits(charges, i, actual); }
      ghost var l := WithCorrection(Ledgers(), c, actual);
      var difference := Max(0, actual) - c.reserved;
      if c.peer in perPeer {
        perPeer := perPeer[c.peer := Corrected(perPeer[c.peer], StartOf(c.at), difference)];
      }
      total := Corrected(total, StartOf(c.at), difference);
      charges := charges[i := SettledCharge(c, actual)];
      assert Ledgers() == l;
    }
  }
}
