// What every step of the update service keeps, over whole runs: an image is
// staged, and marked for swap, only if what flash holds was verified; a mark stays good
// until the next chunk; and words are programmed twice only where a failure left them.
module UpdateInvariant {
  import opened Basics
  import opened Flash
  import opened UpdateBoard
  import BuildMarker

  // `content` is what the image was announced to be.
  ghost predicate Verified(env: Env, image: Image, content: seq<byte>)
  {
    && |content| == image.size
    && env.sha256(content) == image.digest
    && BuildMarker.Find(content) == Some(image.build)
  }

  // What is known of flash while no programming has failed since the begin.
  ghost predicate Intact(b: Board, i: Incoming)
    requires b.area.Valid() && |b.got| == i.received <= |b.area.bytes|
  {
    b.tried == RoundUp(i.received) && b.area.bytes[..i.received] == b.got
  }

  ghost predicate ReceivingOk(b: Board, i: Incoming)
    requires b.area.Valid()
  {
    && 0 < i.image.size <= |b.area.bytes| - PAGE
    && i.received <= i.image.size
    && (i.received % WORD == 0 || i.received == i.image.size)
    && i.erasedTo % PAGE == 0 && b.tried % WORD == 0
    && RoundUp(i.received) <= b.tried <= i.erasedTo <= |b.area.bytes|
    && BlankFrom(b.area, 0, b.tried, i.erasedTo)
    && |b.got| == i.received
    && (!b.damaged ==> Intact(b, i))
  }

  ghost predicate StagedOk(b: Board, env: Env, image: Image)
  {
    && b.incoming.None? && b.fetching.None?
    && image.size <= |b.area.bytes|
    && Verified(env, image, b.area.bytes[..image.size])
  }

  // What was marked is still what the staging area begins with.
  ghost predicate MarkHolds(b: Board, m: Mark)
  {
    |m.content| <= |b.area.bytes| && b.area.bytes[..|m.content|] == m.content
  }

  ghost predicate MarksOk(b: Board, env: Env)
  {
    forall m | m in b.marks ::
      Verified(env, m.image, m.content) && m.chunks <= b.chunks && (m.chunks == b.chunks ==> MarkIsCurrent(b, m))
  }

  // No chunk has been accepted since the mark.
  ghost predicate MarkIsCurrent(b: Board, m: Mark)
  {
    MarkHolds(b, m) && (b.incoming.Some? ==> b.incoming.value.received == 0 == b.incoming.value.erasedTo)
  }

  // Everything but what a fetch in progress adds.
  ghost predicate BaseInv(b: Board, env: Env)
  {
    && b.area.Valid() && b.area.refused == 0
    && (b.incoming.Some? ==> ReceivingOk(b, b.incoming.value))
    && (b.staged.Some? ==> StagedOk(b, env, b.staged.value))
    && MarksOk(b, env)
  }

  ghost predicate RestartOk(b: Board)
  {
    && b.staged.Some? && b.staged.value.size <= |b.area.bytes|
    && b.marks != []
    && b.marks[|b.marks| - 1] == Mark(b.staged.value, b.area.bytes[..b.staged.value.size], b.chunks)
  }

  ghost predicate FetchOk(b: Board)
  {
    && b.incoming.Some? && !b.damaged
    && b.incoming.value.received < b.incoming.value.image.size
  }

  ghost predicate Inv(b: Board, env: Env)
  {
    && BaseInv(b, env)
    && (b.fetching.Some? ==> FetchOk(b))
    && (b.restarted ==> RestartOk(b))
  }

  // A board as it starts to serve, whatever its staging area holds.
  ghost predicate Starts(b: Board)
  {
    && b.area.Valid() && b.area.refused == 0
    && b.incoming.None? && b.staged.None? && b.fetching.None?
    && b.marks == [] && !b.restarted
  }

  // ---- Flash, over the loops ----

  lemma NothingErased(r: Region, at: nat, from: int)
    requires r.Valid() && at % PAGE == 0 && at <= |r.bytes|
    ensures Erased(r, r, at, at, from)
  {
  }

  lemma PageFits(at: nat, upTo: nat, len: nat)
    requires at % PAGE == 0 && len % PAGE == 0 && at < upTo <= len
    ensures at + PAGE <= len
  {
  }

  lemma {:induction false} EraseUpToFacts(r: Region, faults: Faults, erasedTo: nat, upTo: nat, from: nat)
    requires r.Valid() && erasedTo % PAGE == 0 && erasedTo <= |r.bytes| && upTo <= |r.bytes|
    ensures var (q, to, ok) := EraseUpTo(r, faults, erasedTo, upTo);
            Erased(r, q, erasedTo, to, from) && (ok ==> upTo <= to)
    decreases upTo - erasedTo
  {
    hide Erase, Erased, BlankBetween;
    if erasedTo >= upTo {
      NothingErased(r, erasedTo, from);
    } else {
      PageFits(erasedTo, upTo, |r.bytes|);
      EraseFacts(r, faults, erasedTo, from);
      var (q, ok) := Erase(r, faults, erasedTo);
      if ok {
        EraseUpToFacts(q, faults, erasedTo + PAGE, upTo, from);
        var (s, to, _) := EraseUpTo(q, faults, erasedTo + PAGE, upTo);
        ErasedOn(r, q, s, erasedTo, erasedTo + PAGE, to, from);
      }
    }
  }

  lemma {:induction false} EraseSucceeds(r: Region, faults: Faults, erasedTo: nat, upTo: nat)
    requires r.Valid() && erasedTo % PAGE == 0 && erasedTo <= |r.bytes| && upTo <= |r.bytes|
    requires forall n :: faults(n).ok
    ensures EraseUpTo(r, faults, erasedTo, upTo).2
    decreases upTo - erasedTo
  {
    hide Erase;
    if erasedTo < upTo {
      PageFits(erasedTo, upTo, |r.bytes|);
      PageErased(r, faults, erasedTo);
      EraseSucceeds(Erase(r, faults, erasedTo).0, faults, erasedTo + PAGE, upTo);
    }
  }

  lemma PageErased(r: Region, faults: Faults, page: nat)
    requires r.Valid() && page % PAGE == 0 && page + PAGE <= |r.bytes| && faults(r.ops).ok
    ensures Erase(r, faults, page).1
  {
  }

  lemma {:induction false} ReadPiecesFacts(r: Region, faults: Faults, offset: nat, size: nat)
    requires r.Valid() && size <= |r.bytes|
    ensures var (q, content) := ReadPieces(r, faults, offset, size);
            && q.(ops := r.ops) == r
            && (content.Some? ==> content.value == r.bytes[Min(offset, size)..size])
            && ((forall n :: faults(n).ok) ==> content.Some?)
    decreases size - offset
  {
    if offset < size {
      var (q, piece) := Read(r, faults, offset, Min(256, size - offset));
      var end := offset + Min(256, size - offset);
      assert r.bytes[offset..size] == r.bytes[offset..end] + r.bytes[end..size];
      ReadPiecesFacts(q, faults, offset + 256, size);
    }
  }

  lemma SliceOfPrefix<T>(s: seq<T>, n: nat, a: nat, b: nat)
    requires a <= b <= n <= |s|
    ensures s[..n][a..b] == s[a..b]
  {
  }

  // The piecewise search finds what the whole search finds, unless a read fails.
  lemma {:induction false} FindInPiecesFacts(r: Region, faults: Faults, offset: nat, len: nat)
    requires r.Valid() && len <= |r.bytes|
    ensures var (q, build) := FindInPieces(r, faults, offset, len);
            && q.(ops := r.ops) == r
            && (build.Some? ==> build == BuildMarker.FindFrom(r.bytes[..len], offset))
            && ((forall n :: faults(n).ok) ==> build == BuildMarker.FindFrom(r.bytes[..len], offset))
    decreases len - offset
  {
    if offset < len {
      var image := r.bytes[..len];
      BuildMarker.NextPiece(image, offset);
      var (q, piece) := Read(r, faults, offset, Min(len - offset, BuildMarker.PIECE));
      if piece.Some? {
        SliceOfPrefix(r.bytes, len, offset, offset + Min(len - offset, BuildMarker.PIECE));
        assert piece.value == BuildMarker.Piece(image, offset);
        FindInPiecesFacts(q, faults, offset + (BuildMarker.PIECE - BuildMarker.OVERLAP), len);
      }
    } else {
      BuildMarker.NoRoom(r.bytes[..len], offset);
    }
  }

  // ---- One step at a time ----

  // A chunk that passes the checks is written where flash is blank and in range.
  lemma AcceptedFits(b: Board, env: Env, offset: u32, data: seq<byte>)
    requires BaseInv(b, env) && b.incoming.Some? && Accepts(b.incoming.value, offset, data)
    ensures b.area.Valid() && offset % WORD == 0 && offset == b.incoming.value.received
    ensures SaturatingAdd(offset, |data|) == offset + |data| <= b.incoming.value.image.size
    ensures offset + |Padded(data)| == RoundUp(offset + |data|) <= |b.area.bytes| - PAGE
    ensures (offset + |data|) % WORD == 0 || offset + |data| == b.incoming.value.image.size
  {
    hide BlankFrom, Intact, StagedOk, MarksOk, RoundUp, Padded;
    RoundUpSplits(offset, |data|);
    WholeWords(|b.area.bytes| - PAGE, |b.area.blank| - PAGE / WORD);
    RoundUpWithin(offset + |data|, |b.area.bytes| - PAGE);
  }

  lemma WholeWords(n: int, words: int)
    requires n == WORD * words
    ensures n % WORD == 0
  {
  }

  lemma WordsInPage(n: nat)
    requires n % PAGE == 0
    ensures n % WORD == 0
  {
    WholeWords(n, n / PAGE * (PAGE / WORD));
  }

  lemma RoundUpSplits(a: nat, n: nat)
    requires a % WORD == 0
    ensures a + RoundUp(n) == RoundUp(a + n)
    ensures n % WORD == 0 ==> (a + n) % WORD == 0
  {
  }

  lemma RoundUpWithin(n: nat, m: nat)
    requires n <= m && m % WORD == 0
    ensures RoundUp(n) <= m
  {
  }

  // All marks are from before the current chunk.
  ghost predicate OlderMarks(b: Board, chunks: nat)
  {
    forall m | m in b.marks :: m.chunks < chunks
  }

  lemma WriteErases(b: Board, env: Env, offset: u32, data: seq<byte>)
    requires BaseInv(b, env) && b.incoming.Some? && Accepts(b.incoming.value, offset, data)
    ensures var i := b.incoming.value;
            var (erased, erasedTo, ok) := EraseUpTo(b.area, env.faults, i.erasedTo, offset + |Padded(data)|);
            && erased.refused == 0 && |erased.bytes| == |b.area.bytes|
            && (ok ==> offset + |Padded(data)| <= erasedTo)
            && BaseInv(b.(area := erased, incoming := Some(i.(erasedTo := erasedTo)), chunks := b.chunks + 1), env)
            && erased.overwrites == b.area.overwrites && OlderMarks(b, b.chunks + 1)
  {
    hide EraseUpTo, Padded;
    AcceptedFits(b, env, offset, data);
    var i := b.incoming.value;
    EraseUpToFacts(b.area, env.faults, i.erasedTo, offset + |Padded(data)|, b.tried);
    var (erased, to, _) := EraseUpTo(b.area, env.faults, i.erasedTo, offset + |Padded(data)|);
    WordsInPage(i.erasedTo);
    ErasedKeepsBlank(b.area, erased, i.erasedTo, to, 0, b.tried);
    assert erased.bytes[..i.received] == erased.bytes[..i.erasedTo][..i.received];
    assert b.area.bytes[..i.received] == b.area.bytes[..i.erasedTo][..i.received];
  }

  // The write gets as far as programming, and starts below where programming has
  // been tried since the begin.
  ghost predicate Rewrites(b: Board, env: Env, offset: u32, data: seq<byte>)
    requires b.area.Valid()
  {
    && b.incoming.Some? && Accepts(b.incoming.value, offset, data)
    && EraseUpTo(b.area, env.faults, b.incoming.value.erasedTo, offset + |Padded(data)|).2
    && offset < b.tried
  }

  // What a write leaves of a board: an accepted chunk is on flash, or flash failed.
  ghost predicate Written(b: Board, env: Env, offset: u32, data: seq<byte>, next: Board, result: Result)
    requires b.area.Valid()
  {
    && BaseInv(next, env)
    && SameButWritten(b, next)
    && |next.area.bytes| == |b.area.bytes|
    && next.area.overwrites == b.area.overwrites + (if Rewrites(b, env, offset, data) then 1 else 0)
    && (b.incoming.None? ==> next == b)
    && (result.Ok? ==>
          && b.incoming.Some? && Accepts(b.incoming.value, offset, data) && next.damaged == b.damaged
          && next.got == b.got + data && next.incoming.Some?
          && next.incoming.value.image == b.incoming.value.image
          && next.incoming.value.received == offset + |data|)
  }

  lemma WriteKeepsInv(b: Board, env: Env, offset: u32, data: seq<byte>)
    requires BaseInv(b, env) && b.incoming.Some? && Accepts(b.incoming.value, offset, data)
    ensures BaseInv(WriteStep(b, env, offset, data).0, env)
    ensures WriteStep(b, env, offset, data).0.area.overwrites
         == b.area.overwrites + (if Rewrites(b, env, offset, data) then 1 else 0)
  {
    hide EraseUpTo, Program, Padded, BaseInv, Accepts;
    AcceptedFits(b, env, offset, data);
    WriteErases(b, env, offset, data);
    var i := b.incoming.value;
    var words := Padded(data);
    var (erased, erasedTo, ok) := EraseUpTo(b.area, env.faults, i.erasedTo, offset + |words|);
    var b1 := b.(area := erased, incoming := Some(i.(erasedTo := erasedTo)), chunks := b.chunks + 1);
    if ok {
      StillAccepts(i, erasedTo, offset, data);
      ProgramKeeps(b1, env, offset, data);
    }
  }

  lemma StillAccepts(i: Incoming, erasedTo: nat, offset: u32, data: seq<byte>)
    requires Accepts(i, offset, data)
    ensures Accepts(i.(erasedTo := erasedTo), offset, data)
  {
  }

  lemma WriteKeeps(b: Board, env: Env, offset: u32, data: seq<byte>)
    requires BaseInv(b, env)
    ensures Written(b, env, offset, data, WriteStep(b, env, offset, data).0, WriteStep(b, env, offset, data).1)
  {
    assert b.area.Valid();
    if b.incoming.Some? && Accepts(b.incoming.value, offset, data) {
      AcceptedFits(b, env, offset, data);
      WriteKeepsInv(b, env, offset, data);
      hide WriteStep, BaseInv, Accepts;
    } else {
      hide BaseInv, Accepts;
    }
  }

  lemma ProgramKeeps(b: Board, env: Env, offset: u32, data: seq<byte>)
    requires BaseInv(b, env) && b.incoming.Some? && Accepts(b.incoming.value, offset, data)
    requires offset + |Padded(data)| <= b.incoming.value.erasedTo && OlderMarks(b, b.chunks)
    ensures var i := b.incoming.value;
            var (written, ok) := Program(b.area, env.faults, offset, Padded(data));
            var next := b.(area := written, tried := Max(b.tried, offset + |Padded(data)|));
            && |written.bytes| == |b.area.bytes| && written.refused == 0
            && written.overwrites == b.area.overwrites + (if offset < b.tried then 1 else 0)
            && BaseInv(if ok then next.(got := b.got + data, incoming := Some(i.(received := offset + |data|)))
                       else next.(damaged := true), env)
  {
    hide BuildMarker.Find, RoundUp, Padded, BlankFrom, Program;
    AcceptedFits(b, env, offset, data);
    WordIsWhole(offset);
    var i := b.incoming.value;
    var words := Padded(data);
    AcceptedIsTried(b, env, offset, data);
    ProgramTried(b.area, env.faults, offset, words, 0, b.tried, i.erasedTo);
    var (written, ok) := Program(b.area, env.faults, offset, words);
    if !b.damaged && ok { Joined(b.area.bytes, written.bytes, offset, words, data); }
  }

  lemma AcceptedIsTried(b: Board, env: Env, offset: u32, data: seq<byte>)
    requires BaseInv(b, env) && b.incoming.Some? && Accepts(b.incoming.value, offset, data)
    ensures offset <= b.tried && b.tried % WORD == 0 && BlankFrom(b.area, 0, b.tried, b.incoming.value.erasedTo)
    ensures Padded(data) != [] && |Padded(data)| % WORD == 0
  {
  }

  lemma WordIsWhole(n: nat)
    requires n % WORD == 0
    ensures RoundUp(n) == n
  {
  }

  lemma Joined(r: seq<byte>, q: seq<byte>, at: nat, words: seq<byte>, data: seq<byte>)
    requires at + |words| <= |r| == |q| && q[..at] == r[..at] && q[at..at + |words|] == words
    requires |data| <= |words| && words[..|data|] == data
    ensures q[..at + |data|] == r[..at] + data
  {
    assert q[..at + |data|] == q[..at] + q[at..at + |words|][..|data|];
  }

  lemma FinishKeeps(b: Board, env: Env)
    requires BaseInv(b, env) && b.fetching.None?
    ensures var (next, result) := FinishStep(b, env);
            && BaseInv(next, env) && next.incoming.None?
            && next.area.bytes == b.area.bytes && next.area.overwrites == b.area.overwrites
            && next.(area := b.area, incoming := b.incoming, staged := b.staged) == b
            && (result.Ok? ==> b.incoming.Some? && next.staged == Some(b.incoming.value.image))
            && (b.incoming.None? ==> next == b)
  {
    hide ReadPieces, FindInPieces;
    if b.incoming.Some? && b.incoming.value.received == b.incoming.value.image.size {
      var image := b.incoming.value.image;
      ReadPiecesFacts(b.area, env.faults, 0, image.size);
      var (read, content) := ReadPieces(b.area, env.faults, 0, image.size);
      FindInPiecesFacts(read, env.faults, 0, image.size);
    }
  }

  lemma MarkKeeps(b: Board, env: Env)
    requires BaseInv(b, env)
    ensures var (next, result) := MarkStep(b, env);
            && BaseInv(next, env)
            && next.area.bytes == b.area.bytes && next.area.overwrites == b.area.overwrites
            && next.(area := b.area, marks := b.marks) == b
            && (result.Ok? ==> RestartOk(next))
  {
  }

  lemma BeginKeeps(b: Board, env: Env, image: Image)
    requires BaseInv(b, env) && b.fetching.None?
    ensures var (next, result) := BeginStep(b, image);
            && BaseInv(next, env) && next.area == b.area && next.fetching.None?
            && (result.Ok? ==> next.incoming == Some(Incoming(image, 0, 0)) && FetchOk(next))
  {
  }

  // A begin is refused exactly if the image is empty or would leave no page free at the end
  // of the staging area. Either way it ends what was received or staged before.
  lemma BeginExactly(b: Board, env: Env, image: Image)
    requires b.area.Valid()
    ensures var (next, result) := RequestStep(b, env, Begin(image));
            && next.staged.None? && next.fetching.None? && next.area == b.area
            && (result.Ok? <==> 0 < image.size && image.size + 4096 <= |b.area.bytes|)
            && (result.Ok? ==> next.incoming == Some(Incoming(image, 0, 0)) && next.got == [])
            && (result.Err? ==> result == Err(DoesNotFit) && next.incoming.None?)
            && (result.Err? ==> forall offset, data ::
                 RequestStep(next, env, Write(offset, data)) == (next, Err(OutOfSequence)))
  {
  }

  // Of a write, a finish and an apply: when they are out of sequence, and that they then
  // leave the image alone, but for a finish, which ends it.
  lemma OutOfSequenceExactly(b: Board, env: Env, offset: u32, data: seq<byte>)
    requires b.area.Valid() && b.fetching.None?
    ensures var (next, result) := RequestStep(b, env, Write(offset, data));
            && (result == Err(OutOfSequence) <==> b.incoming.None? || !Accepts(b.incoming.value, offset, data))
            && (result == Err(OutOfSequence) ==> next == b)
            && (result.Err? && result != Err(OutOfSequence) ==> result == Err(FlashFailed))
    ensures var (next, result) := RequestStep(b, env, Finish);
            && next.incoming.None?
            && (result == Err(OutOfSequence) <==>
                 b.incoming.None? || b.incoming.value.received != b.incoming.value.image.size)
    ensures var (next, result) := RequestStep(b, env, Apply);
            && (result == Err(OutOfSequence) <==> b.staged.None?) && (b.staged.None? ==> next == b)
            && (result.Err? && b.staged.Some? ==> result == Err(FlashFailed))
  {
    hide EraseUpTo, ReadPieces, FindInPieces, Accepts, Program, Padded;
  }

  // A finish once all was received: if flash can be read, it succeeds exactly if what is
  // there has the announced digest and build, and otherwise says that it does not.
  lemma FinishAnswers(b: Board, env: Env)
    requires BaseInv(b, env) && b.incoming.Some? && b.incoming.value.received == b.incoming.value.image.size
    ensures var image := b.incoming.value.image; var result := FinishStep(b, env).1;
            && image.size <= |b.area.bytes|
            && (result.Ok? ==> Verified(env, image, b.area.bytes[..image.size]))
            && ((forall n :: env.faults(n).ok) ==>
                 result == if Verified(env, image, b.area.bytes[..image.size]) then Ok else Err(DigestMismatch))
            && result in {Ok, Err(FlashFailed), Err(DigestMismatch)}
            && (result == Err(FlashFailed) <==> ReadPieces(b.area, env.faults, 0, image.size).1.None?)
  {
    hide ReadPieces, FindInPieces;
    var image := b.incoming.value.image;
    ReadPiecesFacts(b.area, env.faults, 0, image.size);
    FindInPiecesFacts(ReadPieces(b.area, env.faults, 0, image.size).0, env.faults, 0, image.size);
  }

  // While a board fetches it refuses to write and to finish.
  lemma FetchKeepsUsbOut(b: Board, env: Env, offset: u32, data: seq<byte>)
    requires b.area.Valid() && b.fetching.Some?
    ensures RequestStep(b, env, Write(offset, data)) == (b, Err(OutOfSequence))
    ensures RequestStep(b, env, Finish) == (b, Err(OutOfSequence))
  {
  }

  lemma LastChunkEndsFetch(b: Board, env: Env)
    requires b.area.Valid() && b.fetching.None?
    ensures LastChunkStep(b, env).fetching.None?
  {
  }

  lemma HasArea(b: Board, env: Env)
    requires BaseInv(b, env)
    ensures b.area.Valid()
  {
  }

  // ---- Every step ----

  lemma RequestKeeps(b: Board, env: Env, request: Request)
    requires Inv(b, env) && !b.restarted
    ensures Inv(RequestStep(b, env, request).0, env)
    ensures var rewrites := request.Write? && b.fetching.None? && Rewrites(b, env, request.offset, request.data);
            RequestStep(b, env, request).0.area.overwrites == b.area.overwrites + (if rewrites then 1 else 0)
  {
    hide FinishStep, WriteStep, Rewrites;
    match request
    case Begin(image) => BeginKeeps(b.(fetching := None), env, image);
    case Write(offset, data) => WriteKeeps(b, env, offset, data);
    case Finish => if b.fetching.None? { FinishKeeps(b, env); }
    case Apply => MarkKeeps(b, env);
  }

  lemma OfferKeeps(b: Board, env: Env, image: Image, from: Peer, now: int)
    requires Inv(b, env) && !b.restarted
    ensures Inv(OfferStep(b, image, from, now), env) && OfferStep(b, image, from, now).area == b.area
  {
    hide BlankFrom, Verified;
    var told := Send(b, from, Running(b.id, b.running));
    var freed := if Stalled(told, image) then told.(incoming := None, fetching := None) else told;
    if freed.incoming.None? { FetchKeeps(freed, env, image, from, now); }
    hide BeginStep;
  }

  // A board that receives nothing takes up an image that it was offered.
  lemma FetchKeeps(b: Board, env: Env, image: Image, from: Peer, now: int)
    requires Inv(b, env) && !b.restarted && b.incoming.None? && b.fetching.None?
    ensures var (begun, result) := BeginStep(b, image);
            var asked := AskStep(Send(begun.(fetching := Some(Fetch(from, 0, None))), from, Fetching(b.id)), now);
            if result.Err? then Inv(begun, env) && begun.area == b.area else Inv(asked, env) && asked.area == b.area
  {
    hide BlankFrom, Verified;
    BeginKeeps(b, env, image);
  }

  lemma LastChunkKeeps(b: Board, env: Env)
    requires BaseInv(b, env) && b.fetching.None? && !b.restarted
    ensures Inv(LastChunkStep(b, env), env) && LastChunkStep(b, env).area.overwrites == b.area.overwrites
  {
    hide FinishStep, MarkStep;
    FinishKeeps(b, env);
    MarkKeeps(FinishStep(b, env).0, env);
  }

  // A fetch ends with the first failure, so it never writes a chunk twice.
  lemma FetchNeverRewrites(b: Board, env: Env, offset: u32, data: seq<byte>)
    requires Inv(b, env) && b.fetching.Some?
    ensures !Rewrites(b, env, offset, data)
  {
    if Accepts(b.incoming.value, offset, data) {
      AcceptedFits(b, env, offset, data);
      WordIsWhole(offset);
    }
  }

  lemma ChunkKeeps(b: Board, env: Env, build: u32, offset: u32, data: seq<byte>, now: int)
    requires Inv(b, env) && !b.restarted
    ensures Inv(ChunkStep(b, env, build, offset, data, now), env)
    ensures ChunkStep(b, env, build, offset, data, now).area.overwrites == b.area.overwrites
  {
    hide WriteStep, LastChunkStep, BlankFrom, Verified, Rewrites;
    if && b.incoming.Some? && b.fetching.Some?
       && build == b.incoming.value.image.build && offset == b.incoming.value.received
    {
      FetchNeverRewrites(b, env, offset, data);
      WriteKeeps(b, env, offset, data);
      var (written, result) := WriteStep(b, env, offset, data);
      if result.Ok? {
        if offset + |data| == b.incoming.value.image.size { LastChunkKeeps(written.(fetching := None), env); }
      }
    }
  }

  // The input has a chunk written below where programming has been tried already.
  ghost predicate Reprograms(b: Board, env: Env, input: Input)
    requires b.area.Valid()
  {
    && !b.restarted && input.Usb? && input.request.Write? && b.fetching.None?
    && Rewrites(b, env, input.request.offset, input.request.data)
  }

  // Whatever a board does next keeps the invariant. It programs words that are not
  // blank exactly if it writes a chunk below where programming has been tried.
  lemma StepKeeps(b: Board, env: Env, input: Input, now: int)
    requires Inv(b, env)
    ensures Inv(Step(b, env, input, now), env)
    ensures Step(b, env, input, now).area.overwrites == b.area.overwrites + (if Reprograms(b, env, input) then 1 else 0)
  {
    hide Inv, RequestStep, OfferStep, ChunkStep, Rewrites;
    if !b.restarted {
      match input
      case Usb(request) => RequestKeeps(b, env, request);
      case Received(from, Offer(image)) => OfferKeeps(b, env, image, from, now);
      case Received(_, Chunk(build, offset, data)) => ChunkKeeps(b, env, build, offset, data, now);
      case Received(_, _) =>
      case Timer => TimerKeeps(b, env, now);
    }
  }

  lemma TimerKeeps(b: Board, env: Env, now: int)
    requires Inv(b, env)
    ensures Inv(TimerStep(b, now), env) && TimerStep(b, now).area == b.area
  {
    hide BlankFrom, Verified;
  }

  // ---- Every run ----

  // The board after a run: requests, datagrams and timers in any order.
  ghost function Run(b: Board, env: Env, inputs: seq<(Input, int)>): (last: Board)
    requires b.area.Valid()
    ensures last.area.Valid()
    decreases |inputs|
  {
    if inputs == [] then b else Run(Step(b, env, inputs[0].0, inputs[0].1), env, inputs[1..])
  }

  lemma {:induction false} RunKeepsInv(b: Board, env: Env, inputs: seq<(Input, int)>)
    requires Inv(b, env)
    ensures Inv(Run(b, env, inputs), env)
    decreases |inputs|
  {
    if inputs != [] {
      hide Step;
      StepKeeps(b, env, inputs[0].0, inputs[0].1);
      RunKeepsInv(Step(b, env, inputs[0].0, inputs[0].1), env, inputs[1..]);
    }
  }

  // In every run, what is staged was verified and is still there, and nothing is being
  // received then; every swap mark was written for verified content; a board that
  // restarts has just marked what it holds; and a fetch has an image.
  lemma OnlyVerifiedIsMarked(b: Board, env: Env, inputs: seq<(Input, int)>)
    requires Starts(b)
    ensures var last := Run(b, env, inputs);
            && (last.staged.Some? ==> StagedOk(last, env, last.staged.value))
            && (forall m | m in last.marks :: Verified(env, m.image, m.content))
            && (last.restarted ==> RestartOk(last))
            && (last.fetching.Some? ==> last.incoming.Some?)
  {
    RunKeepsInv(b, env, inputs);
  }

  // A mark stays good, whether or not writing it was reported to have failed: as long as
  // no further chunk has passed the checks, the staging area begins with what was marked.
  lemma MarkHoldsUntilChunk(b: Board, env: Env, inputs: seq<(Input, int)>)
    requires Starts(b)
    ensures var last := Run(b, env, inputs);
            forall m | m in last.marks && m.chunks == last.chunks ::
              Verified(env, m.image, m.content) && MarkHolds(last, m)
  {
    RunKeepsInv(b, env, inputs);
  }

  // The input is a chunk that passes the board's checks.
  predicate TakesChunk(b: Board, input: Input)
  {
    && !b.restarted && b.incoming.Some?
    && match input
       case Usb(Write(offset, data)) => b.fetching.None? && Accepts(b.incoming.value, offset, data)
       case Received(_, Chunk(build, offset, data)) =>
         b.fetching.Some? && build == b.incoming.value.image.build && Accepts(b.incoming.value, offset, data)
       case _ => false
  }

  function DataOf(input: Input): seq<byte>
  {
    match input
    case Usb(Write(_, data)) => data
    case Received(_, Chunk(_, _, data)) => data
    case _ => []
  }

  // The same input, but for the bytes of its chunk.
  predicate SameShape(input: Input, other: Input)
  {
    match (input, other)
    case (Usb(Write(offset, data)), Usb(Write(at, bytes))) => at == offset && |bytes| == |data|
    case (Received(from, Chunk(build, offset, data)), Received(peer, Chunk(name, at, bytes))) =>
      (peer, name, at, |bytes|) == (from, build, offset, |data|)
    case (_, _) => other == input
  }

  // Chunks are what the marks count by, and nothing else changes the staging area.
  lemma OnlyChunksWrite(b: Board, env: Env, input: Input, now: int)
    requires Inv(b, env)
    ensures var next := Step(b, env, input, now);
            && next.chunks == b.chunks + (if TakesChunk(b, input) then 1 else 0)
            && (!TakesChunk(b, input) ==> next.area.bytes == b.area.bytes)
  {
    hide WriteStep, FinishStep, MarkStep, OfferStep, LastChunkStep;
    if !b.restarted {
      match input
      case Usb(Begin(_)) =>
      case Usb(Write(offset, data)) => WriteCounts(b, env, offset, data);
      case Usb(Finish) => if b.fetching.None? { FinishKeeps(b, env); }
      case Usb(Apply) => MarkKeeps(b, env);
      case Received(from, Offer(image)) => OfferCounts(b, image, from, now);
      case Received(_, Chunk(build, offset, data)) => ChunkCounts(b, env, build, offset, data, now);
      case _ =>
    }
  }

  lemma WriteCounts(b: Board, env: Env, offset: u32, data: seq<byte>)
    requires b.area.Valid()
    ensures var next := WriteStep(b, env, offset, data).0;
            if b.incoming.Some? && Accepts(b.incoming.value, offset, data) then next.chunks == b.chunks + 1
            else next == b
  {
  }

  lemma OfferCounts(b: Board, image: Image, from: Peer, now: int)
    requires b.area.Valid()
    ensures OfferStep(b, image, from, now).chunks == b.chunks && OfferStep(b, image, from, now).area == b.area
  {
  }

  lemma ChunkCounts(b: Board, env: Env, build: u32, offset: u32, data: ChunkData, now: int)
    requires Inv(b, env) && !b.restarted
    ensures var next := ChunkStep(b, env, build, offset, data, now);
            && (TakesChunk(b, Received(0, Chunk(build, offset, data))) ==> next.chunks == b.chunks + 1)
            && (!TakesChunk(b, Received(0, Chunk(build, offset, data))) ==>
                  next.chunks == b.chunks && next.area.bytes == b.area.bytes)
  {
    hide WriteStep, FinishStep, MarkStep;
    if && b.incoming.Some? && b.fetching.Some?
       && build == b.incoming.value.image.build && offset == b.incoming.value.received
    {
      WriteCounts(b, env, offset, data);
      WriteKeeps(b, env, offset, data);
      var (written, result) := WriteStep(b, env, offset, data);
      if result.Ok? && offset + |data| == b.incoming.value.image.size {
        LastChunkCounts(written.(fetching := None), env);
      }
      hide BaseInv;
    }
  }

  lemma LastChunkCounts(b: Board, env: Env)
    requires BaseInv(b, env) && b.fetching.None?
    ensures LastChunkStep(b, env).chunks == b.chunks
  {
    hide FinishStep, MarkStep, BaseInv;
    HasArea(b, env);
    FinishKeeps(b, env);
    MarkKeeps(FinishStep(b, env).0, env);
  }

  // Whatever the bytes of the input are, if it brings any, and however flash goes: the
  // mark for what the staging area holds survives a step exactly if the step is not a
  // chunk that passes the checks. A begin alone does it no harm.
  lemma MarkSurvivesExactly(b: Board, env: Env, m: Mark, input: Input, now: int)
    requires Inv(b, env) && m in b.marks && m.chunks == b.chunks
    ensures !TakesChunk(b, input) <==>
      forall other, faults: Faults :: SameShape(input, other) ==>
        MarkHolds(Step(b, Env(env.sha256, faults), other, now), m)
  {
    if TakesChunk(b, input) {
      CurrentMark(b, env, m);
      var spoilt: byte := if m.content[0] == 0 then 1 else 0;
      var failing: Faults := n => Outcome(false, i => spoilt);
      FailedEraseSpoils(b, env, failing, input, now);
      assert SameShape(input, input);
    } else {
      forall other, faults: Faults | SameShape(input, other)
        ensures MarkHolds(Step(b, Env(env.sha256, faults), other, now), m)
      {
        SameEnv(b, env, faults);
        OnlyChunksWrite(b, Env(env.sha256, faults), other, now);
        hide Step;
      }
    }
  }

  lemma CurrentMark(b: Board, env: Env, m: Mark)
    requires Inv(b, env) && m in b.marks && m.chunks == b.chunks
    ensures m.content != [] && MarkIsCurrent(b, m)
  {
    assert BuildMarker.LEN <= |m.content|;
    hide BlankFrom;
  }

  // How flash goes does not matter for what holds already.
  lemma SameEnv(b: Board, env: Env, faults: Faults)
    requires Inv(b, env)
    ensures Inv(b, Env(env.sha256, faults))
  {
    hide BlankFrom;
  }

  lemma FailedEraseSpoils(b: Board, env: Env, faults: Faults, input: Input, now: int)
    requires Inv(b, env) && TakesChunk(b, input) && b.incoming.value.erasedTo == 0 && !faults(b.area.ops).ok
    ensures |b.area.bytes| > 0
    ensures var next := Step(b, Env(env.sha256, faults), input, now);
            next.area.bytes[0] == faults(b.area.ops).left(0) && |next.area.bytes| == |b.area.bytes|
  {
  }

  // If flash works, the chunk overwrites what was marked, unless it starts alike.
  lemma ChunkEndsMark(b: Board, env: Env, m: Mark, offset: u32, data: seq<byte>)
    requires Inv(b, env) && m in b.marks && m.chunks == b.chunks && b.incoming.Some?
    requires Accepts(b.incoming.value, offset, data) && env.faults(b.area.ops).ok && env.faults(b.area.ops + 1).ok
    ensures m.content != []
    ensures var (next, result) := WriteStep(b, env, offset, data);
            result.Ok? && (data[0] != m.content[0] ==> !MarkHolds(next, m))
  {
    CurrentMark(b, env, m);
    FirstChunkIsThere(b, env, offset, data);
    hide WriteStep, Inv, Accepts;
  }

  lemma FirstChunkIsThere(b: Board, env: Env, offset: u32, data: seq<byte>)
    requires Inv(b, env) && b.incoming.Some? && b.incoming.value.received == 0 == b.incoming.value.erasedTo
    requires Accepts(b.incoming.value, offset, data) && env.faults(b.area.ops).ok && env.faults(b.area.ops + 1).ok
    ensures var (next, result) := WriteStep(b, env, offset, data);
            result.Ok? && |next.area.bytes| == |b.area.bytes| && |next.area.bytes| > 0 && next.area.bytes[0] == data[0]
  {
    AcceptedFits(b, env, offset, data);
    PaddedFitsPage(data);
    OnePageErased(b.area, env.faults, |Padded(data)|);
    var erased := EraseUpTo(b.area, env.faults, 0, |Padded(data)|).0;
    FirstIsProgrammed(erased, env.faults, Padded(data));
    hide EraseUpTo, Program, Padded;
  }

  lemma PaddedFitsPage(data: seq<byte>)
    requires 0 < |data| <= MAX_LEN
    ensures 0 < |Padded(data)| <= PAGE && Padded(data)[0] == data[0] && |Padded(data)| % WORD == 0
  {
    RoundUpWithin(|data|, MAX_LEN);
  }

  lemma FirstIsProgrammed(r: Region, faults: Faults, words: seq<byte>)
    requires r.Valid() && 0 < |words| <= PAGE && |words| % WORD == 0 && faults(r.ops).ok && BlankBetween(r, 0, PAGE)
    ensures var (q, ok) := Program(r, faults, 0, words); ok && q.bytes[0] == words[0]
  {
    assert AllBlank(r, 0, |words|);
    assert Program(r, faults, 0, words).0.bytes[0..|words|] == words;
  }

  // The whole story: a mark is there although it was reported to have failed, the board
  // goes on serving, a begin leaves the mark good, and the chunk after it does not.
  lemma FailedMarkIsOverwritten(b: Board, env: Env, image: Image, data: seq<byte>)
    requires Inv(b, env) && !b.restarted && b.staged.Some?
    requires env.faults(b.area.ops).ok && !env.faults(b.area.ops + 1).ok
    requires env.faults(b.area.ops + 2).ok && env.faults(b.area.ops + 3).ok
    requires |data| <= image.size <= |b.area.bytes| - PAGE && 0 < |data| <= MAX_LEN && |data| % WORD == 0
    requires data[0] != b.area.bytes[0]
    ensures var (marked, reported) := RequestStep(b, env, Apply); var m := marked.marks[|marked.marks| - 1];
            var (begun, _) := RequestStep(marked, env, Begin(image));
            var (next, written) := RequestStep(begun, env, Write(0, data));
            && reported == Err(FlashFailed) && m.image == b.staged.value && MarkHolds(begun, m)
            && written.Ok? && !next.restarted && next.marks == marked.marks && !MarkHolds(next, m)
  {
    hide Inv, WriteStep, RequestStep;
    MarkedButFailed(b, env);
    var marked := RequestStep(b, env, Apply).0;
    BeginIsAccepted(marked, env, image);
    var begun := RequestStep(marked, env, Begin(image)).0;
    RequestKeeps(b, env, Apply);
    RequestKeeps(marked, env, Begin(image));
    var m := marked.marks[|marked.marks| - 1];
    ChunkEndsMark(begun, env, m, 0, data);
    WriteIsAsked(begun, env, data);
  }

  lemma MarkedButFailed(b: Board, env: Env)
    requires Inv(b, env) && b.staged.Some? && env.faults(b.area.ops).ok && !env.faults(b.area.ops + 1).ok
    ensures b.area.Valid()
    ensures var (marked, reported) := RequestStep(b, env, Apply); var image := b.staged.value;
            && reported == Err(FlashFailed) && image.size <= |b.area.bytes|
            && marked == b.(area := b.area.(ops := b.area.ops + 2),
                            marks := b.marks + [Mark(image, b.area.bytes[..image.size], b.chunks)])
  {
    hide BlankFrom, Verified;
  }

  lemma BeginIsAccepted(b: Board, env: Env, image: Image)
    requires b.area.Valid() && 0 < image.size <= |b.area.bytes| - PAGE
    ensures RequestStep(b, env, Begin(image)).0
         == b.(fetching := None, incoming := Some(Incoming(image, 0, 0)), staged := None,
               got := [], damaged := false, tried := 0)
  {
  }

  lemma WriteIsAsked(b: Board, env: Env, data: seq<byte>)
    requires b.area.Valid() && b.fetching.None?
    ensures RequestStep(b, env, Write(0, data)) == WriteStep(b, env, 0, data)
  {
  }

  lemma OnePageErased(r: Region, faults: Faults, upTo: nat)
    requires r.Valid() && 0 < upTo <= PAGE && faults(r.ops).ok
    ensures var (q, to, ok) := EraseUpTo(r, faults, 0, upTo); ok && q.ops == r.ops + 1 && BlankBetween(q, 0, PAGE)
  {
    var (q, ok) := Erase(r, faults, 0);
    EraseFacts(r, faults, 0, 0);
    assert ok && EraseUpTo(q, faults, PAGE, upTo) == (q, PAGE, true);
    assert EraseUpTo(r, faults, 0, upTo) == EraseUpTo(q, faults, PAGE, upTo);
  }

  // A board restarts exactly when it has just written a mark, and flash has not said
  // that writing it failed.
  lemma RestartsExactly(b: Board, env: Env, input: Input, now: int)
    requires Inv(b, env) && !b.restarted
    ensures var next := Step(b, env, input, now);
            next.restarted <==> next.marks != b.marks && next.area.ops > 0 && env.faults(next.area.ops - 1).ok
  {
    hide WriteStep, FinishStep, MarkStep, OfferStep, LastChunkStep;
    HasArea(b, env);
    match input
    case Usb(Begin(_)) =>
    case Usb(Write(_, _)) =>
    case Usb(Finish) => if b.fetching.None? { FinishKeeps(b, env); }
    case Usb(Apply) => MarkedRestarts(b, env);
    case Received(from, Offer(image)) => OfferMarksNothing(b, image, from, now);
    case Received(_, Chunk(build, offset, data)) => ChunkRestarts(b, env, build, offset, data, now);
    case _ =>
  }

  lemma MarkedRestarts(b: Board, env: Env)
    requires b.area.Valid()
    ensures var (marked, result) := MarkStep(b, env);
            && (result.Ok? <==> marked.marks != b.marks && marked.area.ops > 0 && env.faults(marked.area.ops - 1).ok)
            && (marked.marks != b.marks <==> b.staged.Some? && env.faults(b.area.ops).ok)
            && marked.restarted == b.restarted
  {
    assert b.staged.Some? && env.faults(b.area.ops).ok ==> |MarkStep(b, env).0.marks| == |b.marks| + 1;
  }

  lemma OfferMarksNothing(b: Board, image: Image, from: Peer, now: int)
    requires b.area.Valid()
    ensures OfferStep(b, image, from, now).marks == b.marks && OfferStep(b, image, from, now).restarted == b.restarted
  {
  }

  lemma ChunkRestarts(b: Board, env: Env, build: u32, offset: u32, data: ChunkData, now: int)
    requires Inv(b, env) && !b.restarted
    ensures var next := ChunkStep(b, env, build, offset, data, now);
            next.restarted <==> next.marks != b.marks && next.area.ops > 0 && env.faults(next.area.ops - 1).ok
  {
    hide WriteStep, FinishStep, MarkStep;
    if && b.incoming.Some? && b.fetching.Some?
       && build == b.incoming.value.image.build && offset == b.incoming.value.received
    {
      WriteKeeps(b, env, offset, data);
      var (written, result) := WriteStep(b, env, offset, data);
      if result.Ok? && offset + |data| == b.incoming.value.image.size {
        var ready := written.(fetching := None);
        FinishKeeps(ready, env);
        HasArea(FinishStep(ready, env).0, env);
        MarkedRestarts(FinishStep(ready, env).0, env);
      }
      hide BaseInv;
    }
  }

  // An apply marks what is staged, if erasing the state page works, and is answered
  // without an error exactly if the board restarts.
  lemma ApplyRestarts(b: Board, env: Env)
    requires Inv(b, env) && !b.restarted
    ensures var (next, result) := RequestStep(b, env, Apply);
            && (next.restarted <==> result.Ok?)
            && (result.Ok? <==> b.staged.Some? && env.faults(b.area.ops).ok && env.faults(b.area.ops + 1).ok)
            && (b.staged.Some? && env.faults(b.area.ops).ok <==> next.marks != b.marks)
  {
    HasArea(b, env);
    MarkedRestarts(b, env);
    hide BaseInv;
  }

  // No operation is ever unaligned or outside the staging area. Words that are not
  // blank are programmed exactly when a chunk is written over USB below where
  // programming has been tried since the begin, and its erases succeed.
  lemma EraseBeforeProgram(b: Board, env: Env, inputs: seq<(Input, int)>, input: Input, now: int)
    requires Starts(b)
    ensures var last := Run(b, env, inputs); var next := Step(last, env, input, now);
            && next.area.refused == 0
            && (next.area.overwrites > last.area.overwrites <==> Reprograms(last, env, input))
  {
    RunKeepsInv(b, env, inputs);
    var last := Run(b, env, inputs);
    StepKeeps(last, env, input, now);
    assert Step(last, env, input, now).area.refused == 0;
    hide Step, Run, Inv, Reprograms;
  }

  // While no programming has failed since the begin, what has been tried is what was
  // received, so the chunk that comes next goes to words that are blank.
  lemma TriedMeansFailed(b: Board, env: Env, inputs: seq<(Input, int)>)
    requires Starts(b)
    ensures var last := Run(b, env, inputs);
            last.incoming.Some? ==> var i := last.incoming.value;
              && ReceivingOk(last, i)
              && (!last.damaged ==> last.tried == RoundUp(i.received) && last.area.bytes[..i.received] == last.got)
  {
    RunKeepsInv(b, env, inputs);
  }

  // A host that sends a chunk again after programming it failed has its words
  // programmed a second time without an erase.
  lemma RetryOverwrites(b: Board, env: Env, offset: u32, data: seq<byte>)
    requires Inv(b, env) && b.fetching.None? && !b.restarted && b.incoming.Some? && !b.damaged
    requires Accepts(b.incoming.value, offset, data) && offset + |Padded(data)| <= b.incoming.value.erasedTo
    requires !env.faults(b.area.ops).ok
    ensures var failed := RequestStep(b, env, Write(offset, data)).0;
            && failed.damaged && failed.incoming == b.incoming && failed.area.overwrites == b.area.overwrites
            && RequestStep(failed, env, Write(offset, data)).0.area.overwrites == b.area.overwrites + 1
  {
    AcceptedFits(b, env, offset, data);
    WordIsWhole(offset);
    RequestKeeps(b, env, Write(offset, data));
    var failed := RequestStep(b, env, Write(offset, data)).0;
    assert failed == b.(area := failed.area, damaged := true, tried := offset + |Padded(data)|, chunks := b.chunks + 1);
    assert offset < failed.tried;
    RequestKeeps(failed, env, Write(offset, data));
    hide RequestStep, Inv;
  }
}
