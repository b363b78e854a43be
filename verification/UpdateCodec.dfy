// The encoding of the update messages: a prefix, and the message in the postcard
// wire format. What is decoded is what was encoded, whatever follows it.
module UpdateCodec {
  import opened Basics
  import opened UpdateBoard
  import MaxLen

  // "SBU1"
  const MAGIC: seq<byte> := [83, 66, 85, 49]
  // The longest encoded message.
  const LONGEST: nat := 256

  // ---- The wire format ----

  // A varint of 32 bits has up to five bytes, and four bits in the fifth.
  const LAST: nat := 4

  // The integer that starts `bytes`, from the `i`-th byte of its varint on, and what
  // follows it.
  function ParseVarint(bytes: seq<byte>, i: nat): (parsed: Option<(nat, seq<byte>)>)
    ensures parsed.Some? ==> |parsed.value.1| < |bytes|
    decreases |bytes|
  {
    if bytes == [] || i > LAST then None
    else if bytes[0] < 128 then
      if i == LAST && bytes[0] > 15 then None else Some((bytes[0], bytes[1..]))
    else
      var more := ParseVarint(bytes[1..], i + 1);
      if more.None? then None else Some((bytes[0] - 128 + 128 * more.value.0, more.value.1))
  }

  // The integers that a varint can hold from its `i`-th byte on.
  function Room(i: nat): nat
  {
    if i == 0 then 0x1_0000_0000
    else if i == 1 then 0x200_0000
    else if i == 2 then 0x4_0000
    else if i == 3 then 0x800
    else if i == LAST then 16
    else 0
  }

  lemma {:induction false} VarintRoundTrip(n: nat, i: nat, rest: seq<byte>)
    requires n < Room(i)
    ensures ParseVarint(MaxLen.Varint(n) + rest, i) == Some((n, rest))
    ensures |MaxLen.Varint(n)| <= LAST + 1 - i
    decreases n
  {
    var bytes := MaxLen.Varint(n) + rest;
    if n < 128 {
      assert bytes[1..] == rest;
    } else {
      assert bytes[1..] == MaxLen.Varint(n / 128) + rest;
      VarintRoundTrip(n / 128, i + 1, rest);
    }
  }

  lemma {:induction false} ParsedFits(bytes: seq<byte>, i: nat)
    ensures ParseVarint(bytes, i).Some? ==> ParseVarint(bytes, i).value.0 < Room(i)
    decreases |bytes|
  {
    if bytes != [] && i <= LAST && bytes[0] >= 128 { ParsedFits(bytes[1..], i + 1); }
  }

  // A u32, and what follows it.
  function U32(bytes: seq<byte>): Option<(u32, seq<byte>)>
  {
    ParsedFits(bytes, 0);
    match ParseVarint(bytes, 0)
    case None => None
    case Some((n, rest)) => Some((n, rest))
  }

  // The first `n` bytes, and what follows them.
  function Take(bytes: seq<byte>, n: nat): (taken: Option<(seq<byte>, seq<byte>)>)
    ensures taken.Some? ==> |taken.value.0| == n
  {
    if |bytes| < n then None else Some((bytes[..n], bytes[n..]))
  }

  // ---- Messages ----

  function Body(m: Message): seq<byte>
  {
    match m
    case Offer(image) =>
      MaxLen.Varint(0) + (MaxLen.Varint(image.build) + (MaxLen.Varint(image.size) + image.digest))
    case ChunkRequest(build, offset) => MaxLen.Varint(1) + (MaxLen.Varint(build) + MaxLen.Varint(offset))
    case Chunk(build, offset, data) =>
      MaxLen.Varint(2) + (MaxLen.Varint(build) + (MaxLen.Varint(offset) + (MaxLen.Varint(|data|) + data)))
    case Fetching(board) => MaxLen.Varint(3) + board
    case Running(board, build) => MaxLen.Varint(4) + (board + MaxLen.Varint(build))
  }

  function Encode(m: Message): seq<byte>
  {
    MAGIC + Body(m)
  }

  // The message that starts `body`. None for a variant that this firmware does not
  // know, and for anything that is no message.
  function FromBody(body: seq<byte>): Option<Message>
  {
    var (tag, fields) :- U32(body);
    match tag
    case 0 =>
      var (build, rest) :- U32(fields);
      var (size, rest) :- U32(rest);
      var (digest, _) :- Take(rest, 32);
      Some(Offer(Image(build, size, digest)))
    case 1 =>
      var (build, rest) :- U32(fields);
      var (offset, _) :- U32(rest);
      Some(ChunkRequest(build, offset))
    case 2 =>
      var (build, rest) :- U32(fields);
      var (offset, rest) :- U32(rest);
      var (len, rest) :- U32(rest);
      if len > CHUNK_LEN then None
      else
        var (data, _) :- Take(rest, len);
        Some(Chunk(build, offset, data))
    case 3 =>
      var (board, _) :- Take(fields, 12);
      Some(Fetching(board))
    case 4 =>
      var (board, rest) :- Take(fields, 12);
      var (build, _) :- U32(rest);
      Some(Running(board, build))
    case _ => None
  }

  function Decode(bytes: seq<byte>): Option<Message>
  {
    if MAGIC <= bytes then FromBody(bytes[|MAGIC|..]) else None
  }

  lemma U32RoundTrip(n: u32, rest: seq<byte>)
    ensures U32(MaxLen.Varint(n) + rest) == Some((n, rest)) && |MaxLen.Varint(n)| <= 5
  {
    VarintRoundTrip(n, 0, rest);
  }

  lemma TakeRoundTrip(bytes: seq<byte>, rest: seq<byte>)
    ensures Take(bytes + rest, |bytes|) == Some((bytes, rest))
  {
  }

  lemma BodyRoundTrip(m: Message, rest: seq<byte>)
    ensures FromBody(Body(m) + rest) == Some(m) && |Body(m)| <= 20 + CHUNK_LEN
  {
    hide U32, MaxLen.Varint, Take;
    match m
    case Offer(image) =>
      var build, size := MaxLen.Varint(image.build), MaxLen.Varint(image.size);
      assert Body(m) + rest == MaxLen.Varint(0) + (build + (size + (image.digest + rest)));
      U32RoundTrip(0, build + (size + (image.digest + rest)));
      U32RoundTrip(image.build, size + (image.digest + rest));
      U32RoundTrip(image.size, image.digest + rest);
      TakeRoundTrip(image.digest, rest);
    case ChunkRequest(build, offset) =>
      assert Body(m) + rest == MaxLen.Varint(1) + (MaxLen.Varint(build) + (MaxLen.Varint(offset) + rest));
      U32RoundTrip(1, MaxLen.Varint(build) + (MaxLen.Varint(offset) + rest));
      U32RoundTrip(build, MaxLen.Varint(offset) + rest);
      U32RoundTrip(offset, rest);
    case Chunk(build, offset, data) =>
      var len := MaxLen.Varint(|data|);
      assert Body(m) + rest
          == MaxLen.Varint(2) + (MaxLen.Varint(build) + (MaxLen.Varint(offset) + (len + (data + rest))));
      U32RoundTrip(2, MaxLen.Varint(build) + (MaxLen.Varint(offset) + (len + (data + rest))));
      U32RoundTrip(build, MaxLen.Varint(offset) + (len + (data + rest)));
      U32RoundTrip(offset, len + (data + rest));
      U32RoundTrip(|data|, data + rest);
      TakeRoundTrip(data, rest);
    case Fetching(board) =>
      assert Body(m) + rest == MaxLen.Varint(3) + (board + rest);
      U32RoundTrip(3, board + rest);
      TakeRoundTrip(board, rest);
    case Running(board, build) =>
      assert Body(m) + rest == MaxLen.Varint(4) + (board + (MaxLen.Varint(build) + rest));
      U32RoundTrip(4, board + (MaxLen.Varint(build) + rest));
      TakeRoundTrip(board, MaxLen.Varint(build) + rest);
      U32RoundTrip(build, rest);
  }

  // Every message fits in a datagram of LONGEST bytes, and is decoded as it was
  // encoded, also by a firmware that finds more bytes after it.
  lemma MessageRoundTrip(m: Message, rest: seq<byte>)
    ensures Decode(Encode(m) + rest) == Some(m)
    ensures |Encode(m)| <= LONGEST
  {
    BodyRoundTrip(m, rest);
    assert (Encode(m) + rest)[|MAGIC|..] == Body(m) + rest;
    assert (Encode(m) + rest)[..|MAGIC|] == MAGIC;
  }

  // Writes the prefix, and the body after it. Returns the length of both, or None
  // if the buffer is too short.
  method EncodeWithPrefix(prefix: seq<byte>, body: seq<byte>, buf: array<byte>) returns (len: Option<nat>)
    modifies buf
    ensures len == if |prefix| + |body| <= buf.Length then Some(|prefix| + |body|) else None
    ensures len.Some? ==> buf[..len.value] == prefix + body
    ensures forall i :: |prefix| + |body| <= i < buf.Length ==> buf[i] == old(buf[i])
  {
    if |prefix| > buf.Length {
      return None;
    }
    CopyTo(prefix, buf, 0);
    if |prefix| + |body| > buf.Length {
      return None;
    }
    CopyTo(body, buf, |prefix|);
    assert buf[..|prefix| + |body|] == buf[..|prefix|] + buf[|prefix|..|prefix| + |body|];
    return Some(|prefix| + |body|);
  }

  method CopyTo(bytes: seq<byte>, buf: array<byte>, at: nat)
    requires at + |bytes| <= buf.Length
    modifies buf
    ensures buf[..at] == old(buf[..at]) && buf[at..at + |bytes|] == bytes
    ensures forall i :: at + |bytes| <= i < buf.Length ==> buf[i] == old(buf[i])
  {
    var i := 0;
    while i < |bytes|
      invariant 0 <= i <= |bytes|
      invariant buf[..at] == old(buf[..at]) && buf[at..at + i] == bytes[..i]
      invariant forall j :: at + i <= j < buf.Length ==> buf[j] == old(buf[j])
    {
      buf[at + i] := bytes[i];
      assert buf[at..at + i + 1] == buf[at..at + i] + [bytes[i]];
      i := i + 1;
    }
  }

  // Encodes a message into a buffer with room for the longest, which always works.
  method EncodeInto(m: Message, buf: array<byte>) returns (len: nat)
    requires buf.Length >= LONGEST
    modifies buf
    ensures len <= buf.Length && Decode(buf[..len]) == Some(m)
  {
    MessageRoundTrip(m, []);
    var written := EncodeWithPrefix(MAGIC, Body(m), buf);
    len := written.value;
    assert Encode(m) + [] == buf[..len];
  }
}
