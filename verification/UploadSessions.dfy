/**
 * Upload sessions and the in-flight block counts they share
 * (src/storage/uploadSession.ts): a failing upload never deletes a block that a
 * concurrent one is still writing.
 */
module UploadSessions {
  import opened Common

  type SessionId = nat
  type Block = nat

  /** `touched` are the references still held; `created` the blocks this session wrote first. */
  datatype Session = Session(touched: set<Block>, created: set<Block>, settled: bool, claimed: bool)

  /** The sessions that hold a reference to a block. */
  ghost function Users(sessions: map<SessionId, Session>, b: Block): set<SessionId> {
    set s | s in sessions && b in sessions[s].touched
  }

  ghost predicate CountIs(inFlight: map<Block, nat>, b: Block, users: set<SessionId>) {
    if users == {} then b !in inFlight else b in inFlight && inFlight[b] == |users|
  }

  /** Every block is counted once for each session that references it, and not at all otherwise. */
  ghost predicate Counted(sessions: map<SessionId, Session>, inFlight: map<Block, nat>) {
    forall b :: CountIs(inFlight, b, Users(sessions, b))
  }

  /** Only the references of `s` to `b` differ. */
  ghost predicate DiffersAt(before: map<SessionId, Session>, after: map<SessionId, Session>, s: SessionId, b: Block) {
    && s in before && after.Keys == before.Keys
    && (forall x :: x in before && x != s ==> after[x].touched == before[x].touched)
    && after[s].touched - {b} == before[s].touched - {b}
  }

  lemma UsersChange(before: map<SessionId, Session>, after: map<SessionId, Session>, s: SessionId, b: Block)
    requires DiffersAt(before, after, s, b)
    ensures Users(after, b) == if b in after[s].touched then Users(before, b) + {s} else Users(before, b) - {s}
    ensures forall d :: d != b ==> Users(after, d) == Users(before, d)
  {
    forall d | d != b ensures Users(after, d) == Users(before, d) {
      assert d in after[s].touched <==> d in after[s].touched - {b};
      assert d in before[s].touched <==> d in before[s].touched - {b};
    }
  }

  /** Retaining or releasing one reference keeps the counts right. */
  lemma CountsFollow(before: map<SessionId, Session>, after: map<SessionId, Session>, s: SessionId, b: Block,
                     inFlight: map<Block, nat>, next: map<Block, nat>)
    requires Counted(before, inFlight) && DiffersAt(before, after, s, b)
    requires forall d :: d != b ==> (d in next <==> d in inFlight) && (d in next ==> next[d] == inFlight[d])
    requires CountIs(next, b, Users(after, b))
    ensures Counted(after, next)
  {
    UsersChange(before, after, s, b);
    forall d | d != b ensures CountIs(next, d, Users(after, d)) {
      assert CountIs(inFlight, d, Users(before, d));
    }
  }

  /** The session is settled, and `candidates` are the blocks it created that nobody references any more. */
  ghost predicate CleanedUp(before: map<SessionId, Session>, after: map<SessionId, Session>, s: SessionId,
                          candidates: set<Block>)
    requires s in before
  {
    && after == before[s := before[s].(touched := {}, settled := true, claimed := false)]
    && forall b :: b in candidates <==> b in before[s].created && b in before[s].touched && Users(after, b) == {}
  }

  lemma UpdateTwice(m: map<SessionId, Session>, s: SessionId, a: Session, b: Session)
    ensures m[s := a][s := b] == m[s := b]
  {
  }

  class UploadSessions {
    var sessions: map<SessionId, Session>
    var inFlight: map<Block, nat>

    ghost predicate Valid()
      reads this
    {
      Counted(sessions, inFlight)
    }

    constructor ()
      ensures Valid() && sessions == map[]
    {
      sessions, inFlight := map[], map[];
      new;
      assert forall b :: Users(sessions, b) == {};
    }

    method Open(s: SessionId)
      requires Valid() && s !in sessions
      modifies this`sessions
      ensures Valid() && sessions == old(sessions)[s := Session({}, {}, false, false)]
    {
      sessions := sessions[s := Session({}, {}, false, false)];
      assert forall b :: Users(sessions, b) == Users(old(sessions), b);
    }

    /**
     * The synchronous part of a `put`, between asking whether the block existed and storing it:
     * the block is referenced before it is written.
     */
    method Retain(s: SessionId, b: Block)
      requires Valid() && s in sessions
      modifies this
      ensures Valid()
      ensures sessions == old(sessions)[s := old(sessions[s]).(touched := old(sessions[s]).touched + {b})]
    {
      var q := sessions[s];
      assert CountIs(inFlight, b, Users(sessions, b));
      if b !in q.touched {
        inFlight := inFlight[b := (if b in inFlight then inFlight[b] else 0) + 1];
      }
      sessions := sessions[s := q.(touched := q.touched + {b})];
      UsersChange(old(sessions), sessions, s, b);
      CountsFollow(old(sessions), sessions, s, b, old(inFlight), inFlight);
    }

    /** Once the block is stored, the session remembers the ones that did not exist when it asked. */
    method RecordStored(s: SessionId, b: Block, existed: bool)
      requires Valid() && s in sessions
      modifies this`sessions
      ensures Valid()
      ensures sessions == if existed then old(sessions)
                          else old(sessions)[s := old(sessions[s]).(created := old(sessions[s]).created + {b})]
    {
      if !existed {
        sessions := sessions[s := sessions[s].(created := sessions[s].created + {b})];
        assert forall d :: Users(sessions, d) == Users(old(sessions), d);
      }
    }

    /** @returns false when cleanup or commit already ran */
    method Claim(s: SessionId) returns (ok: bool)
      requires Valid() && s in sessions
      modifies this`sessions
      ensures Valid() && ok == !old(sessions[s]).settled
      ensures sessions == if ok then old(sessions)[s := old(sessions[s]).(claimed := true)] else old(sessions)
    {
      ok := !sessions[s].settled;
      if ok {
        sessions := sessions[s := sessions[s].(claimed := true)];
        assert forall b :: Users(sessions, b) == Users(old(sessions), b);
      }
    }

    /** Drop every reference of a session; `zeroed` are the blocks nobody references any more. */
    method ReleaseAll(s: SessionId) returns (zeroed: set<Block>)
      requires Valid() && s in sessions
      modifies this
      ensures Valid()
      ensures sessions == old(sessions)[s := old(sessions[s]).(touched := {})]
      ensures forall b :: b in zeroed <==> b in old(sessions[s]).touched && Users(sessions, b) == {}
    {
      zeroed := {};
      ghost var all := sessions[s].touched;
      while sessions[s].touched != {}
        invariant Valid() && s in sessions && sessions[s].touched <= all
        invariant sessions == old(sessions)[s := old(sessions[s]).(touched := sessions[s].touched)]
        invariant forall b :: b in zeroed <==> b in all - sessions[s].touched && Users(sessions, b) == {}
        decreases |sessions[s].touched|
      {
        var b :| b in sessions[s].touched;
        UpdateTwice(old(sessions), s, sessions[s], sessions[s].(touched := sessions[s].touched - {b}));
        var last := ReleaseOne(s, b);
        if last {
          zeroed := zeroed + {b};
        }
      }
    }

    method ReleaseOne(s: SessionId, b: Block) returns (last: bool)
      requires Valid() && s in sessions && b in sessions[s].touched
      modifies this
      ensures Valid()
      ensures sessions == old(sessions)[s := old(sessions[s]).(touched := old(sessions[s]).touched - {b})]
      ensures last <==> Users(sessions, b) == {}
      ensures forall d :: d != b ==> Users(sessions, d) == Users(old(sessions), d)
    {
      assert CountIs(inFlight, b, Users(sessions, b)) && s in Users(sessions, b);
      var next := inFlight[b] - 1;
      last := next == 0;
      inFlight := if next == 0 then inFlight - {b} else inFlight[b := next];
      sessions := sessions[s := sessions[s].(touched := sessions[s].touched - {b})];
      UsersChange(old(sessions), sessions, s, b);
      assert |Users(sessions, b)| == next;
      CountsFollow(old(sessions), sessions, s, b, old(inFlight), inFlight);
    }

    /** Keep everything the session wrote. */
    method Commit(s: SessionId) returns (settledNow: bool)
      requires Valid() && s in sessions
      modifies this
      ensures Valid() && settledNow == !old(sessions[s]).settled
      ensures sessions == if !settledNow then old(sessions)
                          else old(sessions)[s := old(sessions[s]).(touched := {}, settled := true, claimed := false)]
    {
      settledNow := !sessions[s].settled;
      if settledNow {
        var _ := ReleaseAll(s);
        Settle(s);
      }
    }

    method Settle(s: SessionId)
      requires Valid() && s in sessions
      modifies this`sessions
      ensures Valid() && sessions == old(sessions)[s := old(sessions[s]).(settled := true, claimed := false)]
      ensures forall b :: Users(sessions, b) == Users(old(sessions), b)
    {
      sessions := sessions[s := sessions[s].(settled := true, claimed := false)];
      assert forall b :: Users(sessions, b) == Users(old(sessions), b);
    }

    /** The synchronous half of a cleanup: which blocks it may try to delete. */
    method BeginCleanup(s: SessionId) returns (candidates: set<Block>)
      requires Valid() && s in sessions
      modifies this
      ensures Valid()
      ensures old(sessions[s]).settled ==> candidates == {} && sessions == old(sessions)
      ensures !old(sessions[s]).settled ==> CleanedUp(old(sessions), sessions, s, candidates)
    {
      candidates := {};
      if !sessions[s].settled {
        var zeroed := ReleaseAll(s);
        Settle(s);
        candidates := set b | b in sessions[s].created && b in zeroed;
      }
    }

    /** A disconnect cleans up only what no handler has claimed. */
    method CleanupIfUnclaimed(s: SessionId) returns (candidates: set<Block>)
      requires Valid() && s in sessions
      modifies this
      ensures Valid()
      ensures old(sessions[s]).settled || old(sessions[s]).claimed ==> candidates == {} && sessions == old(sessions)
      ensures !old(sessions[s]).settled && !old(sessions[s]).claimed ==>
        CleanedUp(old(sessions), sessions, s, candidates)
    {
      candidates := {};
      if !sessions[s].settled && !sessions[s].claimed {
        candidates := BeginCleanup(s);
      }
    }

    /**
     * The asynchronous half, one block at a time, with other sessions running in between: a
     * block is deleted only if an earlier answer said it is unpinned and, at this moment, it is
     * in nobody's upload.
     */
    method DeleteIfUnused(b: Block, isPinned: bool) returns (deleted: bool)
      requires Valid()
      ensures deleted <==> !isPinned && Users(sessions, b) == {}
    {
      assert CountIs(inFlight, b, Users(sessions, b));
      deleted := !isPinned && b !in inFlight;
    }
  }
}
