// The marker in every firmware image, and the two searches for it: over a whole
// image, and over pieces that overlap.
module BuildMarker {
  import opened Basics

  // b"sensor-board-fw\0"
  const MAGIC: seq<byte> := [115, 101, 110, 115, 111, 114, 45, 98, 111, 97, 114, 100, 45, 102, 119, 0]
  const LEN: nat := 24

  // The piece that the board reads at a time, and how much two pieces share.
  const PIECE: nat := 256
  const OVERLAP: nat := 32

  function ToLe(n: u32): (bytes: seq<byte>)
    ensures |bytes| == 4
  {
    [n % 256, n / 256 % 256, n / 65536 % 256, n / 16777216]
  }

  function FromLe(bytes: seq<byte>): (n: u32)
    requires |bytes| == 4
  {
    bytes[0] as int + 256 * bytes[1] as int + 65536 * bytes[2] as int + 16777216 * bytes[3] as int
  }

  function Complement(n: u32): u32
  {
    0xFFFF_FFFF - n
  }

  // The marker of a build: the magic, the build, and its complement.
  function Marker(build: u32): (marker: seq<byte>)
    ensures |marker| == LEN
  {
    MAGIC + ToLe(build) + ToLe(Complement(build))
  }

  // The build of a candidate, if it is a marker.
  function Parse(candidate: seq<byte>): Option<u32>
    requires |candidate| == LEN
  {
    if candidate[..16] != MAGIC then None
    else
      var build := FromLe(candidate[16..20]);
      var check := FromLe(candidate[20..24]);
      if check == Complement(build) then Some(build) else None
  }

  // The first marker that starts at i or later.
  function FindFrom(image: seq<byte>, i: nat): Option<u32>
    decreases |image| - i
  {
    if i + LEN > |image| then None
    else if Parse(image[i..i + LEN]).Some? then Parse(image[i..i + LEN])
    else FindFrom(image, i + 1)
  }

  function Find(image: seq<byte>): Option<u32>
  {
    FindFrom(image, 0)
  }

  // ---- What the search finds ----

  ghost predicate MarkerAt(image: seq<byte>, i: int, build: u32)
  {
    0 <= i && i + LEN <= |image| && image[i..i + LEN] == Marker(build)
  }

  lemma LeRoundTrip(n: u32)
    ensures FromLe(ToLe(n)) == n
  {
    assert n / 256 == (n / 65536) * 256 + n / 256 % 256;
    assert n / 65536 == (n / 16777216) * 256 + n / 65536 % 256;
  }

  lemma LeOfFromLe(bytes: seq<byte>)
    requires |bytes| == 4
    ensures ToLe(FromLe(bytes)) == bytes
  {
    var n := FromLe(bytes);
    var b, c, d: int := bytes[1], bytes[2], bytes[3];
    assert n / 256 == b + 256 * c + 65536 * d;
    assert n / 65536 == c + 256 * d;
    assert n / 16777216 == d;
  }

  // A candidate parses as a build exactly if it is that build's marker.
  lemma ParseIsInverse(candidate: seq<byte>, build: u32)
    requires |candidate| == LEN
    ensures Parse(candidate) == Some(build) <==> candidate == Marker(build)
  {
    if candidate == Marker(build) {
      assert candidate[..16] == MAGIC;
      assert candidate[16..20] == ToLe(build) && candidate[20..24] == ToLe(Complement(build));
      LeRoundTrip(build);
      LeRoundTrip(Complement(build));
    }
    if Parse(candidate) == Some(build) {
      LeOfFromLe(candidate[16..20]);
      LeOfFromLe(candidate[20..24]);
      assert candidate == candidate[..16] + candidate[16..20] + candidate[20..24];
    }
  }

  // The search returns the first marker, and nothing exactly if there is none.
  lemma {:induction false} FindFromIsFirst(image: seq<byte>, i: nat) returns (at: nat)
    ensures match FindFrom(image, i)
            case Some(build) =>
              at >= i && MarkerAt(image, at, build) && forall j, other :: i <= j < at ==> !MarkerAt(image, j, other)
            case None => forall j, other :: i <= j ==> !MarkerAt(image, j, other)
    decreases |image| - i
  {
    at := i;
    if i + LEN <= |image| {
      var candidate := image[i..i + LEN];
      forall build: u32 ensures Parse(candidate) == Some(build) <==> MarkerAt(image, i, build) {
        ParseIsInverse(candidate, build);
      }
      if Parse(candidate).None? { at := FindFromIsFirst(image, i + 1); }
    }
  }

  // A marker is found in itself.
  lemma FindOfMarker(build: u32)
    ensures Find(Marker(build)) == Some(build)
  {
    ParseIsInverse(Marker(build), build);
    assert Marker(build)[0..LEN] == Marker(build);
  }

  // ---- Searching in pieces ----

  // The piece of an image that starts at `offset`.
  function Piece(image: seq<byte>, offset: nat): seq<byte>
    requires offset <= |image|
  {
    image[offset..offset + Min(|image| - offset, PIECE)]
  }

  // From `i` on the search finds what it finds from any later start that
  // leaves room for a marker before `to`.
  ghost predicate SameFrom(image: seq<byte>, i: nat, to: nat)
  {
    forall k: nat :: i <= k && k + LEN <= to + 1 ==> FindFrom(image, i) == FindFrom(image, k)
  }

  lemma PartOfPart(image: seq<byte>, from: nat, to: nat, i: nat, j: nat)
    requires from + j <= to <= |image| && i <= j
    ensures image[from..to][i..j] == image[from + i..from + j]
  {
    forall k | 0 <= k < j - i ensures image[from..to][i..j][k] == image[from + i..from + j][k] {
      assert image[from..to][i + k] == image[from + (i + k)];
    }
  }

  // What a search in a part says about the image: a marker found is the first
  // from there on; if none is found, none starts where it would end in the part.
  lemma {:induction false} FindInPart(image: seq<byte>, from: nat, to: nat, i: nat)
    requires from + i <= to <= |image|
    ensures FindFrom(image[from..to], i).Some? ==> FindFrom(image, from + i) == FindFrom(image[from..to], i)
    ensures FindFrom(image[from..to], i).None? ==> SameFrom(image, from + i, to)
    decreases |image| - i
  {
    var part := image[from..to];
    if i + LEN <= |part| {
      PartOfPart(image, from, to, i, i + LEN);
      if Parse(part[i..i + LEN]).None? {
        FindInPart(image, from, to, i + 1);
      }
    }
  }

  lemma NoRoom(image: seq<byte>, i: nat)
    requires i + LEN > |image|
    ensures FindFrom(image, i) == None
  {
  }

  // The next piece takes the search up where this one leaves it.
  lemma NextPiece(image: seq<byte>, offset: nat)
    requires offset < |image|
    ensures Find(Piece(image, offset)).Some? ==> FindFrom(image, offset) == Find(Piece(image, offset))
    ensures Find(Piece(image, offset)).None? ==> FindFrom(image, offset) == FindFrom(image, offset + (PIECE - OVERLAP))
  {
    var to := offset + Min(|image| - offset, PIECE);
    FindInPart(image, offset, to, 0);
    var next := offset + (PIECE - OVERLAP);
    if next + LEN > to + 1 {
      NoRoom(image, next);
      if offset + LEN <= to {
        NoRoom(image, to - LEN + 1);
      } else {
        NoRoom(image, offset);
      }
    }
  }
}
