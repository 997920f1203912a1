/** State of one node: the datastore of records, the Helia pinset and process-local ownership. */
module NodeState {
  import opened Common
  import opened Records

  datatype Node = Node(store: map<Cid, Stored>, pins: set<Cid>, owners: Owners, nextRevision: nat)

  function Entry(n: Node, c: Cid): Option<Stored> {
    if c in n.store then Some(n.store[c]) else None
  }

  function SlotAt(n: Node, c: Cid): Slot {
    Slot(if Entry(n, c).Some? then Some(Entry(n, c).value.file) else None, c in n.pins)
  }

  predicate HasRevision(n: Node, c: Cid, revision: nat) {
    Entry(n, c).Some? && Entry(n, c).value.revision == revision
  }

  /** Every stored record has the durable shape, and stamps still to be issued are unused. */
  ghost predicate WellStored(n: Node) {
    forall c :: Entry(n, c).Some? ==>
      IsFileRecord(Entry(n, c).value.file) && Entry(n, c).value.revision < n.nextRevision
  }

  /** A stored entry that was not written since `a` is the entry of `a`. */
  ghost predicate Stamped(a: Node, b: Node, c: Cid) {
    Entry(b, c).Some? ==>
      Entry(b, c) == Entry(a, c) || a.nextRevision <= Entry(b, c).value.revision < b.nextRevision
  }

  /** One atomic step under the lock of `c`: that slot becomes `s`, every other CID is untouched. */
  ghost predicate Moves(a: Node, b: Node, c: Cid, s: Slot) {
    && SlotAt(b, c) == s
    && Stamped(a, b, c)
    && b.owners == a.owners
    && a.nextRevision <= b.nextRevision
    && forall d :: d != c ==> Entry(b, d) == Entry(a, d) && (d in b.pins <==> d in a.pins)
  }

  lemma MovesKeepsWellStored(a: Node, b: Node, c: Cid, s: Slot)
    requires WellStored(a) && Moves(a, b, c, s)
    requires s.rec.Some? ==> IsFileRecord(s.rec.value)
    ensures WellStored(b)
  {
    forall d | Entry(b, d).Some?
      ensures IsFileRecord(Entry(b, d).value.file) && Entry(b, d).value.revision < b.nextRevision
    {
      if d == c { assert SlotAt(b, c).rec == s.rec; }
    }
  }
}
