// The update service itself: an object whose methods change its fields and flash
// in place. Each method is proved to take exactly the step that UpdateBoard
// defines, so what UpdateInvariant proves of the steps holds of the service.
module Updates {
  import opened Basics
  import opened Flash
  import opened UpdateBoard
  import BuildMarker

  class Service {
    const env: Env
    const id: BoardId
    const running: u32
    const rolledBack: Option<u32>
    var area: Region
    var incoming: Option<Incoming>
    var staged: Option<Image>
    var fetching: Option<Fetch>
    // What the service has done to the world around it.
    var sent: seq<Sent>
    ghost var marks: seq<Mark>
    var restarted: bool
    ghost var chunks: nat
    ghost var got: seq<byte>
    ghost var damaged: bool
    ghost var tried: nat

    ghost function View(): Board
      reads this
    {
      Board(
        id, running, rolledBack, area, incoming, staged, fetching, sent, marks, restarted, chunks, got, damaged, tried)
    }

    constructor (env: Env, id: BoardId, running: u32, rolledBack: Option<u32>, area: Region)
      requires area.Valid()
      ensures this.env == env
      ensures View() == Board(id, running, rolledBack, area, None, None, None, [], [], false, 0, [], false, 0)
    {
      this.env, this.id, this.running, this.rolledBack, this.area := env, id, running, rolledBack, area;
      incoming, staged, fetching, sent, restarted := None, None, None, [], false;
      marks, chunks, got, damaged, tried := [], 0, [], false, 0;
    }

    method Begin(image: Image) returns (result: Result)
      requires area.Valid()
      modifies this
      ensures (View(), result) == BeginStep(old(View()), image)
    {
      incoming, staged := None, None;
      if image.size == 0 || image.size > |area.bytes| - PAGE {
        return Err(DoesNotFit);
      }
      incoming := Some(Incoming(image, 0, 0));
      got, damaged, tried := [], false, 0;
      return Ok;
    }

    // Erases the pages up to `upTo` that have not been erased.
    method EraseTo(upTo: nat) returns (ok: bool)
      requires area.Valid() && incoming.Some?
      modifies this`area, this`incoming
      ensures area.Valid() && incoming.Some?
      ensures incoming.value == old(incoming.value).(erasedTo := incoming.value.erasedTo)
      ensures (area, incoming.value.erasedTo, ok)
           == EraseUpTo(old(area), env.faults, old(incoming.value.erasedTo), upTo)
    {
      while incoming.value.erasedTo < upTo
        invariant area.Valid() && incoming.Some?
        invariant incoming.value == old(incoming.value).(erasedTo := incoming.value.erasedTo)
        invariant EraseUpTo(area, env.faults, incoming.value.erasedTo, upTo)
               == EraseUpTo(old(area), env.faults, old(incoming.value.erasedTo), upTo)
        decreases upTo - incoming.value.erasedTo
      {
        var (erased, done) := Erase(area, env.faults, incoming.value.erasedTo);
        area := erased;
        if !done {
          return false;
        }
        incoming := Some(incoming.value.(erasedTo := incoming.value.erasedTo + PAGE));
      }
      return true;
    }

    method Write(offset: u32, data: seq<byte>) returns (result: Result)
      requires area.Valid()
      modifies this
      ensures area.Valid()
      ensures (View(), result) == WriteStep(old(View()), env, offset, data)
    {
      hide EraseUpTo, Program, Padded, SameService;
      if incoming.None? {
        return Err(OutOfSequence);
      }
      var end := SaturatingAdd(offset, |data|);
      var isLast := end == incoming.value.image.size;
      if || offset != incoming.value.received || |data| == 0 || |data| > MAX_LEN
         || end > incoming.value.image.size || (|data| % WORD != 0 && !isLast)
      {
        return Err(OutOfSequence);
      }
      assert Accepts(incoming.value, offset, data);
      hide Accepts, SaturatingAdd;
      var words := Padded(data);
      var ok := EraseTo(offset + |words|);
      chunks := chunks + 1;
      ghost var erased := old(View()).(area := area, incoming := incoming, chunks := chunks);
      assert View() == erased;
      if !ok {
        return Err(FlashFailed);
      }
      var (written, programmed) := Program(area, env.faults, offset, words);
      area, tried := written, Max(tried, offset + |words|);
      assert View() == erased.(area := area, tried := tried);
      if !programmed {
        damaged := true;
        return Err(FlashFailed);
      }
      got := got + data;
      incoming := Some(incoming.value.(received := end));
      return Ok;
    }

    // The first `size` bytes of the staging area, read in pieces.
    method Digested(size: u32) returns (content: Option<seq<byte>>)
      requires area.Valid()
      modifies this`area
      ensures area.Valid()
      ensures (area, content) == ReadPieces(old(area), env.faults, 0, size)
    {
      var read: seq<byte> := [];
      ghost var all := ReadPieces(area, env.faults, 0, size).1;
      assert all.Some? ==> read + all.value == all.value;
      var offset := 0;
      while offset < size
        invariant area.Valid()
        invariant ReadPieces(old(area), env.faults, 0, size)
               == var (last, rest) := ReadPieces(area, env.faults, offset, size);
                  (last, if rest.None? then None else Some(read + rest.value))
        decreases size - offset
      {
        var (next, piece) := Read(area, env.faults, offset, Min(256, size - offset));
        ghost var rest := ReadPieces(next, env.faults, offset + 256, size).1;
        area := next;
        if piece.None? {
          return None;
        }
        assert rest.Some? ==> read + (piece.value + rest.value) == (read + piece.value) + rest.value;
        read := read + piece.value;
        offset := offset + 256;
      }
      assert read + [] == read;
      return Some(read);
    }

    method BuildInStagingArea(len: u32) returns (build: Option<u32>)
      requires area.Valid()
      modifies this`area
      ensures area.Valid()
      ensures (area, build) == FindInPieces(old(area), env.faults, 0, len)
    {
      var offset := 0;
      while offset < len
        invariant area.Valid()
        invariant FindInPieces(area, env.faults, offset, len) == FindInPieces(old(area), env.faults, 0, len)
        decreases len - offset
      {
        var (next, piece) := Read(area, env.faults, offset, Min(len - offset, BuildMarker.PIECE));
        area := next;
        if piece.None? {
          return None;
        }
        var found := BuildMarker.Find(piece.value);
        if found.Some? {
          return found;
        }
        offset := offset + (BuildMarker.PIECE - BuildMarker.OVERLAP);
      }
      return None;
    }

    method Finish() returns (result: Result)
      requires area.Valid()
      modifies this
      ensures area.Valid()
      ensures (View(), result) == FinishStep(old(View()), env)
    {
      var taken := incoming;
      incoming := None;
      if taken.None? || taken.value.received != taken.value.image.size {
        return Err(OutOfSequence);
      }
      var image := taken.value.image;
      var content := Digested(image.size);
      if content.None? {
        return Err(FlashFailed);
      }
      if env.sha256(content.value) != image.digest {
        return Err(DigestMismatch);
      }
      var build := BuildInStagingArea(image.size);
      if build != Some(image.build) {
        return Err(DigestMismatch);
      }
      staged := Some(image);
      return Ok;
    }

    method MarkForSwap() returns (result: Result)
      requires area.Valid()
      modifies this
      ensures area.Valid()
      ensures (View(), result) == MarkStep(old(View()), env)
    {
      if staged.None? {
        return Err(OutOfSequence);
      }
      var erased := env.faults(area.ops).ok;
      area := area.(ops := area.ops + 1);
      if !erased {
        return Err(FlashFailed);
      }
      var marked := env.faults(area.ops).ok;
      area := area.(ops := area.ops + 1);
      marks := marks + [Mark(staged.value, area.bytes[..Min(staged.value.size, |area.bytes|)], chunks)];
      return if marked then Ok else Err(FlashFailed);
    }

    method HandleRequest(request: Request) returns (result: Result)
      requires area.Valid()
      modifies this
      ensures area.Valid()
      ensures (View(), result) == RequestStep(old(View()), env, request)
      ensures restarted == (old(restarted) || (request.Apply? && result.Ok?))
    {
      match request {
        case Begin(image) =>
          fetching := None;
          result := Begin(image);
        case Write(offset, data) =>
          if fetching.Some? {
            return Err(OutOfSequence);
          }
          result := Write(offset, data);
        case Finish =>
          if fetching.Some? {
            return Err(OutOfSequence);
          }
          result := Finish();
        case Apply =>
          result := MarkForSwap();
          if result.Ok? {
            restarted := true;
          }
      }
    }

    method SendTo(to: Peer, message: Message)
      modifies this`sent
      ensures View() == Send(old(View()), to, message)
    {
      sent := sent + [Sent(to, message)];
    }

    method RequestNextChunk(now: int)
      modifies this`fetching, this`sent
      ensures View() == AskStep(old(View()), now)
    {
      if incoming.None? || fetching.None? {
        return;
      }
      fetching := Some(fetching.value.(retryAt := Some(now + CHUNK_TIMEOUT)));
      SendTo(fetching.value.from, ChunkRequest(incoming.value.image.build, incoming.value.received));
    }

    method HandleTimers(now: int)
      modifies this`fetching, this`sent
      ensures View() == TimerStep(old(View()), now)
    {
      if fetching.Some? && fetching.value.retryAt.Some? && now >= fetching.value.retryAt.value {
        fetching := Some(fetching.value.(attempts := fetching.value.attempts + 1));
        if fetching.value.attempts > MAX_ATTEMPTS {
          fetching := Some(fetching.value.(retryAt := None));
        } else {
          RequestNextChunk(now);
        }
      }
    }

    method HandleOffer(image: Image, from: Peer, now: int)
      requires area.Valid()
      modifies this
      ensures View() == OfferStep(old(View()), image, from, now)
    {
      SendTo(from, Running(id, running));
      if image.build == running || staged == Some(image) || rolledBack == Some(image.build) {
        return;
      }
      if incoming.Some? && fetching.Some? && incoming.value.image != image && fetching.value.retryAt.None? {
        incoming, fetching := None, None;
      }
      if incoming.None? {
        var begun := Begin(image);
        if begun.Err? {
          return;
        }
        fetching := Some(Fetch(from, 0, None));
        SendTo(from, Fetching(id));
        RequestNextChunk(now);
      } else if fetching.Some? && incoming.value.image == image {
        fetching := Some(fetching.value.(from := from));
        var givenUp := fetching.value.retryAt.None?;
        if givenUp {
          fetching := Some(fetching.value.(attempts := 0));
        }
        SendTo(from, Fetching(id));
        if givenUp {
          RequestNextChunk(now);
        }
      }
    }

    method HandleChunk(build: u32, offset: u32, data: seq<byte>, now: int)
      requires area.Valid()
      modifies this
      ensures View() == ChunkStep(old(View()), env, build, offset, data, now)
    {
      hide WriteStep, FinishStep, MarkStep;
      if incoming.None? || fetching.None? || build != incoming.value.image.build || offset != incoming.value.received {
        return;
      }
      var size := incoming.value.image.size;
      var written := Write(offset, data);
      if written.Err? {
        incoming, fetching := None, None;
        return;
      }
      if offset + |data| < size {
        if fetching.Some? {
          fetching := Some(fetching.value.(attempts := 0));
        }
        RequestNextChunk(now);
        return;
      }
      fetching := None;
      var finished := Finish();
      if finished.Ok? {
        var marked := MarkForSwap();
        if marked.Ok? {
          restarted := true;
        }
      }
    }

    method HandleDatagram(from: Peer, message: Message, now: int)
      requires area.Valid()
      modifies this
      ensures View() == DatagramStep(old(View()), env, from, message, now)
    {
      match message
      case Offer(image) => HandleOffer(image, from, now);
      case Chunk(build, offset, data) => HandleChunk(build, offset, data, now);
      case ChunkRequest(_, _) =>
      case Fetching(_) =>
      case Running(_, _) =>
    }

    // One turn of the loop that serves requests, datagrams and timers.
    method Turn(input: Input, now: int)
      requires area.Valid() && !restarted
      modifies this
      ensures View() == Step(old(View()), env, input, now)
    {
      match input {
        case Usb(request) =>
          var result := HandleRequest(request);
        case Received(from, message) => HandleDatagram(from, message, now);
        case Timer => HandleTimers(now);
      }
    }
  }
}
