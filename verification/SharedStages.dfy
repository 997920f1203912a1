/**
 * A prepared copy shared by any number of strict-upload transactions
 * (src/storage/replicaStage.ts): what a whole history of stage, commit, abort and
 * expiry steps guarantees to each of them.
 */
module SharedStages {
  import opened Common
  import opened Records
  import opened Lifecycle
  import opened NodeMachine
  import EffectLaws

  /**
   * Steps peers and background jobs take on one CID; the save of each can work, fail without
   * effect, or fail after it landed. Expiry is a collection planned at `now`; `o` are the uploads and repairs
   * running at that moment.
   */
  datatype Event =
    | Staging(q: StageRequest, aborted: bool, fault: Fault)
    | Committing(tx: TransactionId, peer: Option<PeerId>, now: Time, fault: Fault)
    | Aborting(tx: TransactionId, peer: Option<PeerId>, fault: Fault)
    | Expiring(now: Time, o: Owners, fault: Fault)
    | Storing(file: NewFile, now: Time, ttl: nat, o: Owners, fault: Fault)
    | Confirming(now: Time, o: Owners, fault: Fault)
    | RepairingPin(indirect: bool, localDag: bool, fault: Fault)
    | Rescuing(fault: Fault)

  function After(s: Slot, e: Event, cid: Cid): Slot {
    match e
    case Staging(q, aborted, fault) => StageSlot(s, q, aborted, fault).slot
    case Committing(tx, peer, now, fault) => CommitSlot(s, tx, peer, now, fault).slot
    case Aborting(tx, peer, fault) => AbortSlot(s, tx, peer, fault).slot
    case Expiring(now, o, fault) => GcReleaseSlot(s, s.rec.Some? && IsExpired(s.rec.value, now), o, fault).slot
    case Storing(file, now, ttl, o, fault) => RegisterPinnedSlot(s, cid, o, file, now, ttl, fault).slot
    case Confirming(now, o, fault) => ConfirmSlot(s, cid, o, None, now, 0, fault).slot
    case RepairingPin(indirect, dag, fault) => GcRepairPinSlot(s, indirect, dag, fault).slot
    case Rescuing(fault) => RescueSlot(s, true, fault).slot
  }

  function AfterAll(s: Slot, es: seq<Event>, cid: Cid): Slot {
    if es == [] then s else After(AfterAll(s, es[..|es| - 1], cid), es[|es| - 1], cid)
  }

  // ---------------------------------------------------------------- a live claim protects the copy

  /** The claim of `tx`, recorded for `origin`, alive at least until `deadline`. */
  predicate Claims(s: Slot, tx: TransactionId, origin: Option<PeerId>, deadline: Time) {
    && HasClaim(s, tx) && OriginOf(s.rec.value.stage.value, tx) == origin
    && s.rec.value.expiresAt.Some? && deadline <= s.rec.value.expiresAt.value
  }

  /** An event that could end the claim before it is committed: its own abort, or expiry. */
  predicate EndsClaim(e: Event, tx: TransactionId, origin: Option<PeerId>, deadline: Time) {
    || (e.Aborting? && e.tx == tx && MaySettle(origin, e.peer))
    || (e.Expiring? && deadline <= e.now)
  }

  lemma ClaimStep(s: Slot, e: Event, cid: Cid, tx: TransactionId, origin: Option<PeerId>, deadline: Time)
    requires SlotInv(s) && Claims(s, tx, origin, deadline) && !EndsClaim(e, tx, origin, deadline)
    ensures SlotInv(After(s, e, cid))
    ensures Claims(After(s, e, cid), tx, origin, deadline) || HasDurable(After(s, e, cid))
  {
    var stage := s.rec.value.stage.value;
    match e
    case Staging(q, aborted, fault) => JoinedStageIsValid(s.rec.value, q.tx, q.origin, q.now + q.ttl);
    case Aborting(other, peer, fault) =>
      if HasClaim(s, other) && MaySettle(OriginOf(stage, other), peer) {
        WithoutProperties(stage.transactionIds, other);
        assert tx in Elements(stage.transactionIds) - {other};
        assert tx in Without(stage.transactionIds, other);
        OneClaimLessIsValid(s.rec.value, other);
      }
    case _ =>
  }

  /** The first commit is final: no later event of any transaction undoes it. */
  lemma DurableStep(s: Slot, e: Event, cid: Cid)
    requires SlotInv(s) && HasDurable(s)
    ensures SlotInv(After(s, e, cid)) && HasDurable(After(s, e, cid))
  {
  }

  /**
   * Whatever other transactions and background jobs do, a claim that is neither aborted by
   * its own peer nor expired keeps the copy: the claim is still recorded for the same
   * peer, or some transaction already made the copy durable. Either way it is pinned.
   */
  lemma {:induction false} ClaimProtectsCopy(s: Slot, es: seq<Event>, cid: Cid,
                                             tx: TransactionId, origin: Option<PeerId>, deadline: Time)
    requires SlotInv(s) && Claims(s, tx, origin, deadline)
    requires forall i :: 0 <= i < |es| ==> !EndsClaim(es[i], tx, origin, deadline)
    ensures var t := AfterAll(s, es, cid);
      SlotInv(t) && t.pin && t.rec.Some? && t.rec.value.pinned
      && (Claims(t, tx, origin, deadline) || HasDurable(t))
  {
    if es != [] {
      var init := es[..|es| - 1];
      ClaimProtectsCopy(s, init, cid, tx, origin, deadline);
      var t := AfterAll(s, init, cid);
      if Claims(t, tx, origin, deadline) {
        ClaimStep(t, es[|es| - 1], cid, tx, origin, deadline);
      } else {
        DurableStep(t, es[|es| - 1], cid);
      }
    }
  }

  /**
   * From the stage call on: a transaction told that its copy is prepared, by a first, a joined
   * or a repeated stage, keeps it for the whole lifetime it asked for. Unless its own peer
   * aborts or a collection is planned after that time, the copy stays pinned and claimed for
   * that transaction, or is durable.
   */
  lemma PreparedCopyIsProtected(s: Slot, q: StageRequest, marked: bool, fault: Fault, es: seq<Event>, cid: Cid)
    requires SoundRecord(s) && StageSlot(s, q, marked, fault).reply.Ok? && StageSlot(s, q, marked, fault).reply.staged
    requires forall i :: 0 <= i < |es| && es[i].Aborting? && es[i].tx == q.tx ==>
      var origin := if HasClaim(s, q.tx) then OriginOf(s.rec.value.stage.value, q.tx) else q.origin;
      origin.Some? && es[i].peer.Some? && es[i].peer != origin
    requires forall i :: 0 <= i < |es| && es[i].Expiring? ==> es[i].now < q.now + q.ttl
    ensures var t := AfterAll(StageSlot(s, q, marked, fault).slot, es, cid);
      && t.pin && t.rec.Some? && t.rec.value.pinned && t.rec.value.heldLocally
      && (HasClaim(t, q.tx) || HasDurable(t))
  {
    EffectLaws.StageGivesClaim(s, q, marked, fault);
    ClaimProtectsCopy(StageSlot(s, q, marked, fault).slot, es, cid, q.tx, EffectLaws.RecordedOrigin(s, q),
                      q.now + q.ttl);
  }

  /**
   * One commit that was written, even one reported as failed, settles every transaction sharing
   * the stage: whatever happens afterwards, including aborts by the other claimants and failing
   * saves, the copy stays durable and every later commit is answered with success.
   */
  lemma {:induction false} CommitIsFinal(s: Slot, tx: TransactionId, peer: Option<PeerId>, now: Time, fault: Fault,
                                         es: seq<Event>, cid: Cid)
    requires SlotInv(s) && HasClaim(s, tx) && MaySettle(OriginOf(s.rec.value.stage.value, tx), peer)
    requires fault != FailsBeforeWrite
    ensures var t := AfterAll(CommitSlot(s, tx, peer, now, fault).slot, es, cid);
      SlotInv(t) && HasDurable(t)
      && forall tx', peer', now', fault' :: CommitSlot(t, tx', peer', now', fault').reply.Ok?
  {
    if es != [] {
      CommitIsFinal(s, tx, peer, now, fault, es[..|es| - 1], cid);
      DurableStep(AfterAll(CommitSlot(s, tx, peer, now, fault).slot, es[..|es| - 1], cid), es[|es| - 1], cid);
    }
  }

  // ---------------------------------------------------------------- the last abort restores

  /** A slot a first stage can start from: unknown, or expired, and not pinned. */
  predicate Stageable(b: Slot) {
    !b.pin && SlotInv(b) && (b.rec.Some? ==> b.rec.value.state == Expired)
  }

  /** The slot `b`, up to the sizes a stage measured. */
  predicate BackAt(b: Slot, t: Slot) {
    && !t.pin && (t.rec.None? <==> b.rec.None?)
    && (b.rec.Some? ==> t.rec.value.(
          fileSize := b.rec.value.fileSize, storedBytes := b.rec.value.storedBytes,
          protectedBytes := b.rec.value.protectedBytes) == b.rec.value)
  }

  /** A stage on top of `b` that still remembers `b`, whether or not its pin is there. */
  predicate StagedOver(b: Slot, s: Slot) {
    && s.rec.Some? && s.rec.value.stage.Some?
    && (s.rec.value.stage.value.previous.None? <==> b.rec.None?)
    && (b.rec.Some? ==> Unstaged(s.rec.value).(
          fileSize := b.rec.value.fileSize, storedBytes := b.rec.value.storedBytes,
          protectedBytes := b.rec.value.protectedBytes) == b.rec.value)
  }

  /** The abort of the last claim whose fallback record was not written: the uncovered write. */
  predicate LosesPin(s: Slot, e: Event) {
    && e.Aborting? && e.fault == FailsBeforeWrite && HasClaim(s, e.tx)
    && MaySettle(OriginOf(s.rec.value.stage.value, e.tx), e.peer)
    && Without(s.rec.value.stage.value.transactionIds, e.tx) == [] && s.rec.value.stage.value.previous.Some?
  }

  lemma RemembersBaseline(b: Slot, s: Slot, e: Event, cid: Cid)
    requires Stageable(b) && SoundRecord(s) && (BackAt(b, s) || StagedOver(b, s))
    requires e.Staging? || e.Aborting?
    ensures var t := After(s, e, cid); SoundRecord(t) && (BackAt(b, t) || StagedOver(b, t))
    ensures PinReal(s) ==> (PinReal(After(s, e, cid)) <==> !LosesPin(s, e))
  {
    if e.Staging? && StagedOver(b, s) {
      JoinedStageIsValid(s.rec.value, e.q.tx, e.q.origin, e.q.now + e.q.ttl);
    }
    if e.Aborting? && HasClaim(s, e.tx) && |Without(s.rec.value.stage.value.transactionIds, e.tx)| > 0 {
      OneClaimLessIsValid(s.rec.value, e.tx);
    }
  }

  /**
   * Any history of stages and aborts, with saves failing in any way, that ends without a claim
   * ends where it began: the record a stage created is gone, or the expired baseline has its
   * state, expiry, confirmation time, name, age, replicas and absence of a pin back. A history
   * that ends with a claim still has the pin unless the fallback write of a last abort failed.
   */
  lemma {:induction false} LastAbortRestores(b: Slot, es: seq<Event>, cid: Cid)
    requires Stageable(b)
    requires forall i :: 0 <= i < |es| ==> es[i].Staging? || es[i].Aborting?
    ensures var t := AfterAll(b, es, cid);
      SoundRecord(t) && (BackAt(b, t) || StagedOver(b, t))
      && ((t.rec.None? || t.rec.value.stage.None?) <==> BackAt(b, t))
    ensures !PinReal(AfterAll(b, es, cid)) ==> exists i :: 0 <= i < |es| && LosesPin(AfterAll(b, es[..i], cid), es[i])
  {
    if es != [] {
      var n := |es| - 1;
      var init := es[..n];
      LastAbortRestores(b, init, cid);
      var s := AfterAll(b, init, cid);
      RemembersBaseline(b, s, es[n], cid);
      if !PinReal(AfterAll(b, es, cid)) {
        if PinReal(s) {
          assert LosesPin(AfterAll(b, es[..n], cid), es[n]);
        } else {
          var i :| 0 <= i < n && LosesPin(AfterAll(b, init[..i], cid), init[i]);
          assert init[..i] == es[..i];
        }
      }
    }
  }

  /** A staged copy without its pin gets it back when any transaction joins or repeats its stage. */
  lemma JoiningRestoresPin(s: Slot, q: StageRequest, fault: Fault)
    requires SoundRecord(s) && s.rec.Some? && s.rec.value.stage.Some?
    requires q.tx !in s.rec.value.stage.value.transactionIds
    ensures StageSlot(s, q, false, fault).slot.pin && SlotInv(StageSlot(s, q, false, fault).slot)
  {
    JoinedStageIsValid(s.rec.value, q.tx, q.origin, q.now + q.ttl);
  }

  /** Another peer's commit or abort of a recorded claim is refused and changes nothing. */
  lemma OnlyTheOriginSettles(s: Slot, tx: TransactionId, peer: PeerId, now: Time, fault: Fault)
    requires HasClaim(s, tx) && tx in s.rec.value.stage.value.origins
    requires s.rec.value.stage.value.origins[tx] != peer
    ensures CommitSlot(s, tx, Some(peer), now, fault) == Outcome(s, Error)
    ensures AbortSlot(s, tx, Some(peer), fault) == Outcome(s, Error)
  {
  }

  /**
   * A permanent store requested by a peer: it is acknowledged only for a durable copy that
   * no transaction can withdraw, and a stage that is in the way is kept, claim by claim.
   */
  lemma StoreAckIsDurable(s: Slot, cid: Cid, o: Owners, file: NewFile, now: Time, ttl: nat, fault: Fault)
    requires SlotInv(s)
    ensures var out := RegisterPinnedSlot(s, cid, o, file, now, ttl, fault);
      && (out.reply.Ok? ==> HasDurable(out.slot) && (s.rec.Some? ==> s.rec.value.stage.None?))
      && (s.rec.Some? && s.rec.value.stage.Some? ==> !out.reply.Ok? && out.slot == s)
  {
  }
}
