/**
 * Length-prefixed messages of the replication protocol
 * (src/storage/replicationProtocol.ts). A message is the byte string its JSON form
 * encodes to; a stream is the sequence of chunks that arrive before it ends.
 */
module Framing {
  type Byte = b: nat | b < 256

  const PREFIX: nat := 4
  const MAX_MESSAGE: nat := 4096

  datatype Received = Message(body: seq<Byte>) | TooLarge | Incomplete

  // ---------------------------------------------------------------- frames

  function BigEndian(n: nat): (r: seq<Byte>) {
    [n / 0x100_0000 % 256, n / 0x1_0000 % 256, n / 0x100 % 256, n % 256]
  }

  function ReadUint32(s: seq<Byte>): nat
    requires |s| >= PREFIX
  {
    var (a: nat, b: nat, c: nat, d: nat) := (s[0], s[1], s[2], s[3]);
    a * 0x100_0000 + b * 0x1_0000 + c * 0x100 + d
  }

  lemma Uint32RoundTrip(n: nat, rest: seq<Byte>)
    requires n < 0x1_0000_0000
    ensures ReadUint32(BigEndian(n) + rest) == n
  {
    var a := n / 0x100;
    var b := a / 0x100;
    var c := b / 0x100;
    assert n == a * 0x100 + n % 0x100 && a == b * 0x100 + a % 0x100 && b == c * 0x100 + b % 0x100;
    assert b == n / 0x1_0000 && c == n / 0x100_0000 && c < 256;
  }

  method EncodeMessage(body: seq<Byte>) returns (frame: seq<Byte>)
    ensures frame == Frame(body)
  {
    var bytes := new Byte[PREFIX + |body|];
    var prefix := BigEndian(|body|);
    for i := 0 to PREFIX
      invariant forall j :: 0 <= j < i ==> bytes[j] == prefix[j]
    {
      bytes[i] := prefix[i];
    }
    for i := 0 to |body|
      invariant forall j :: 0 <= j < PREFIX ==> bytes[j] == prefix[j]
      invariant forall j :: 0 <= j < i ==> bytes[PREFIX + j] == body[j]
    {
      bytes[PREFIX + i] := body[i];
    }
    frame := bytes[..];
    assert frame == prefix + body;
  }

  function Frame(body: seq<Byte>): seq<Byte> { BigEndian(|body|) + body }

  // ---------------------------------------------------------------- reading

  function Flatten(chunks: seq<seq<Byte>>): seq<Byte> {
    if chunks == [] then [] else chunks[0] + Flatten(chunks[1..])
  }

  predicate Oversized(s: seq<Byte>) {
    |s| > MAX_MESSAGE + PREFIX || (|s| >= PREFIX && ReadUint32(s) > MAX_MESSAGE)
  }

  predicate HoldsMessage(s: seq<Byte>) { |s| >= PREFIX && |s| >= PREFIX + ReadUint32(s) }

  /** What the bytes of a stream amount to. */
  function Meaning(s: seq<Byte>): Received {
    if Oversized(s) then TooLarge
    else if HoldsMessage(s) then Message(s[PREFIX..PREFIX + ReadUint32(s)])
    else Incomplete
  }

  /** Chunks are looked at one by one, and the first ones that mean something decide. */
  function Read(seen: seq<Byte>, chunks: seq<seq<Byte>>): Received
    decreases chunks
  {
    if chunks == [] then Incomplete
    else if Meaning(seen + chunks[0]) != Incomplete then Meaning(seen + chunks[0])
    else Read(seen + chunks[0], chunks[1..])
  }

  method ReadMessage(chunks: seq<seq<Byte>>) returns (r: Received)
    ensures r == Read([], chunks)
  {
    var buffer, received := [], 0;
    for i := 0 to |chunks|
      invariant received == |buffer|
      invariant Read([], chunks) == Read(buffer, chunks[i..])
    {
      buffer := buffer + chunks[i];
      received := received + |chunks[i]|;
      assert chunks[i..][1..] == chunks[i + 1..];
      if received > MAX_MESSAGE + PREFIX { return TooLarge; }
      if received < PREFIX { continue; }
      var length := ReadUint32(buffer);
      if length > MAX_MESSAGE { return TooLarge; }
      if |buffer| >= PREFIX + length {
        return Message(buffer[PREFIX..PREFIX + length]);
      }
    }
    return Incomplete;
  }

  /** What a stream means does not change when more bytes of at most one full frame follow. */
  lemma MeaningIsStable(s: seq<Byte>, more: seq<Byte>)
    requires |s + more| <= MAX_MESSAGE + PREFIX && Meaning(s) != Incomplete
    ensures Meaning(s + more) == Meaning(s)
  {
    assert (s + more)[..|s|] == s;
  }

  /** However a stream of at most one full frame is split, empty chunks included, it reads as what it means. */
  lemma {:induction false} SplitsDoNotMatter(seen: seq<Byte>, chunks: seq<seq<Byte>>)
    requires |seen + Flatten(chunks)| <= MAX_MESSAGE + PREFIX && Meaning(seen) == Incomplete
    ensures Read(seen, chunks) == Meaning(seen + Flatten(chunks))
    decreases chunks
  {
    if chunks == [] {
      assert seen + [] == seen;
    } else {
      var s := seen + chunks[0];
      assert seen + Flatten(chunks) == s + Flatten(chunks[1..]);
      if Meaning(s) == Incomplete {
        SplitsDoNotMatter(s, chunks[1..]);
      } else {
        MeaningIsStable(s, Flatten(chunks[1..]));
      }
    }
  }

  /** Every message is read back from every split of its frame. */
  lemma RoundTrip(body: seq<Byte>, chunks: seq<seq<Byte>>)
    requires |body| <= 4096 && Flatten(chunks) == Frame(body)
    ensures Read([], chunks) == Message(body)
  {
    SplitsDoNotMatter([], chunks);
    Uint32RoundTrip(|body|, body);
    assert [] + Flatten(chunks) == Frame(body);
    assert Frame(body)[PREFIX..PREFIX + |body|] == body;
  }

  /** A frame that was cut off, anywhere, is never taken for a message. */
  lemma StrictPrefixIsIncomplete(body: seq<Byte>, k: nat, chunks: seq<seq<Byte>>)
    requires |body| <= MAX_MESSAGE && k < |Frame(body)| && Flatten(chunks) == Frame(body)[..k]
    ensures Read([], chunks) == Incomplete
  {
    SplitsDoNotMatter([], chunks);
    assert [] + Flatten(chunks) == Frame(body)[..k];
    if k >= PREFIX {
      Uint32RoundTrip(|body|, body[..k - PREFIX]);
      assert Frame(body)[..k] == BigEndian(|body|) + body[..k - PREFIX];
    }
  }

  /** A declared length above the limit is refused as soon as it is known, whatever follows. */
  lemma {:induction false} OversizedIsRefused(seen: seq<Byte>, chunks: seq<seq<Byte>>)
    requires |seen| < PREFIX <= |seen + Flatten(chunks)| && ReadUint32(seen + Flatten(chunks)) > 4096
    ensures Read(seen, chunks) == TooLarge
    decreases chunks
  {
    if chunks != [] {
      var s := seen + chunks[0];
      assert seen + Flatten(chunks) == s + Flatten(chunks[1..]);
      if |s| < PREFIX {
        OversizedIsRefused(s, chunks[1..]);
      } else {
        assert (s + Flatten(chunks[1..]))[..PREFIX] == s[..PREFIX];
      }
    }
  }

  /** A message in one chunk with more than a frame of other bytes is refused, in a chunk of its own it is read. */
  lemma TrailingBytesCanHideAMessage(body: seq<Byte>, tail: seq<Byte>)
    requires |body| <= MAX_MESSAGE < |tail|
    ensures Read([], [Frame(body), tail]) == Message(body) && Read([], [Frame(body) + tail]) == TooLarge
  {
    Uint32RoundTrip(|body|, body);
    assert [] + Frame(body) == Frame(body);
    assert Frame(body)[PREFIX..PREFIX + |body|] == body;
    assert [] + (Frame(body) + tail) == Frame(body) + tail;
  }
}
