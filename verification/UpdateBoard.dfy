// What the update service on a board does with each request, datagram and timer,
// as functions of the board's state, and what every step keeps.
module UpdateBoard {
  import opened Basics
  import opened Flash
  import BuildMarker

  type Peer = nat
  type BoardId = b: seq<byte> | |b| == 12 witness seq(12, i => 0)
  type Digest = d: seq<byte> | |d| == 32 witness seq(32, i => 0)

  // A chunk has at most CHUNK_LEN bytes over the network, and MAX_LEN over USB.
  const CHUNK_LEN: nat := 192
  const MAX_LEN: nat := 512
  type ChunkData = d: seq<byte> | |d| <= CHUNK_LEN

  // An image as a host announces it.
  datatype Image = Image(build: u32, size: u32, digest: Digest)

  // The messages between boards and hosts.
  datatype Message =
    | Offer(image: Image)
    | ChunkRequest(build: u32, offset: u32)
    | Chunk(build: u32, offset: u32, data: ChunkData)
    | Fetching(board: BoardId)
    | Running(board: BoardId, build: u32)

  const MAX_ATTEMPTS: nat := 8
  // In milliseconds.
  const CHUNK_TIMEOUT: int := 1500

  datatype Request = Begin(image: Image) | Write(offset: u32, data: seq<byte>) | Finish | Apply

  datatype UpdateError = OutOfSequence | DoesNotFit | FlashFailed | DigestMismatch
  datatype Result = Ok | Err(error: UpdateError)

  datatype Incoming = Incoming(image: Image, received: u32, erasedTo: nat)
  datatype Fetch = Fetch(from: Peer, attempts: nat, retryAt: Option<int>)
  datatype Sent = Sent(to: Peer, message: Message)

  // The swap mark as it was written: for which image, what the staging area held of
  // it, and how many chunks had been accepted.
  datatype Mark = Mark(image: Image, content: seq<byte>, chunks: nat)

  // The digest, and how each flash operation goes.
  datatype Env = Env(sha256: seq<byte> -> Digest, faults: Faults)

  datatype Board = Board(
    id: BoardId,
    running: u32,
    rolledBack: Option<u32>,
    area: Region,
    incoming: Option<Incoming>,
    staged: Option<Image>,
    fetching: Option<Fetch>,
    // History: the messages sent, the swap marks written, whether the board has
    // restarted into an update, how many chunks have passed its checks, the data taken
    // since the last begin, whether programming has failed since then, and where the
    // furthest chunk ends whose programming was tried since then.
    sent: seq<Sent>,
    marks: seq<Mark>,
    restarted: bool,
    chunks: nat,
    got: seq<byte>,
    damaged: bool,
    tried: nat)

  // ---- The steps ----

  function RoundUp(n: nat): (r: nat)
    ensures n <= r < n + WORD && r % WORD == 0
  {
    (n + (WORD - 1)) / WORD * WORD
  }

  function Send(b: Board, to: Peer, message: Message): Board
  {
    b.(sent := b.sent + [Sent(to, message)])
  }

  // Handling the image itself tells nobody anything.
  predicate SameService(b: Board, next: Board)
  {
    next.id == b.id && next.running == b.running && next.rolledBack == b.rolledBack && next.sent == b.sent
  }

  function BeginStep(b: Board, image: Image): (res: (Board, Result))
    requires b.area.Valid()
    ensures res.0.area.Valid()
    ensures SameService(b, res.0) && res.0.fetching == b.fetching
  {
    var cleared := b.(incoming := None, staged := None);
    if image.size == 0 || image.size > |b.area.bytes| - PAGE then (cleared, Err(DoesNotFit))
    else
      (cleared.(incoming := Some(Incoming(image, 0, 0)), got := [], damaged := false, tried := 0), Ok)
  }

  // Erases page by page until everything below `upTo` has been erased. Also
  // returns how far that got.
  function EraseUpTo(r: Region, faults: Faults, erasedTo: nat, upTo: nat): (res: (Region, nat, bool))
    requires r.Valid()
    ensures res.0.Valid() && |res.0.bytes| == |r.bytes|
    decreases upTo - erasedTo
  {
    if erasedTo >= upTo then (r, erasedTo, true)
    else
      var (q, ok) := Erase(r, faults, erasedTo);
      if ok then EraseUpTo(q, faults, erasedTo + PAGE, upTo) else (q, erasedTo, false)
  }

  function SaturatingAdd(a: u32, b: nat): u32
  {
    if a + b < 0x1_0000_0000 then a + b else 0xFFFF_FFFF
  }

  // The checks that `write` makes of a chunk.
  predicate Accepts(incoming: Incoming, offset: u32, data: seq<byte>)
  {
    var end := SaturatingAdd(offset, |data|);
    && offset == incoming.received
    && |data| != 0
    && |data| <= MAX_LEN
    && end <= incoming.image.size
    && (|data| % WORD == 0 || end == incoming.image.size)
  }

  // The data in whole words, padded like erased flash.
  function Padded(data: seq<byte>): (words: seq<byte>)
    ensures |words| == RoundUp(|data|) && words[..|data|] == data
  {
    data + seq(RoundUp(|data|) - |data|, i => 0xff)
  }

  // A write changes nothing else.
  predicate SameButWritten(b: Board, next: Board)
  {
    b == next.(area := b.area, incoming := b.incoming, got := b.got, damaged := b.damaged,
               tried := b.tried, chunks := b.chunks)
  }

  function WriteStep(b: Board, env: Env, offset: u32, data: seq<byte>): (res: (Board, Result))
    requires b.area.Valid()
    ensures res.0.area.Valid() && |res.0.area.bytes| == |b.area.bytes|
    ensures SameButWritten(b, res.0)
    ensures b.incoming.None? ==> res.0 == b
    ensures res.1.Ok? ==>
      && b.incoming.Some? && Accepts(b.incoming.value, offset, data)
      && res.0.damaged == b.damaged && res.0.got == b.got + data
      && res.0.incoming.Some? && res.0.incoming.value.image == b.incoming.value.image
      && res.0.incoming.value.received == SaturatingAdd(offset, |data|)
  {
    if b.incoming.None? || !Accepts(b.incoming.value, offset, data) then (b, Err(OutOfSequence))
    else
      var incoming := b.incoming.value;
      var words := Padded(data);
      var (erased, erasedTo, ok) := EraseUpTo(b.area, env.faults, incoming.erasedTo, offset + |words|);
      var b1 := b.(area := erased, incoming := Some(incoming.(erasedTo := erasedTo)), chunks := b.chunks + 1);
      if !ok then (b1, Err(FlashFailed))
      else
        var (written, ok) := Program(erased, env.faults, offset, words);
        var b2 := b1.(area := written, tried := Max(b.tried, offset + |words|));
        if !ok then (b2.(damaged := true), Err(FlashFailed))
        else
          (b2.(got := b.got + data,
               incoming := Some(Incoming(incoming.image, SaturatingAdd(offset, |data|), erasedTo))), Ok)
  }

  // Reads [offset, size) in pieces.
  function ReadPieces(r: Region, faults: Faults, offset: nat, size: nat): (res: (Region, Option<seq<byte>>))
    requires r.Valid()
    ensures res.0.Valid()
    decreases size - offset
  {
    if offset >= size then (r, Some([]))
    else
      var (q, piece) := Read(r, faults, offset, Min(256, size - offset));
      if piece.None? then (q, None)
      else
        var (last, rest) := ReadPieces(q, faults, offset + 256, size);
        (last, if rest.None? then None else Some(piece.value + rest.value))
  }

  // Searches [offset, len) for a build marker in pieces that overlap.
  function FindInPieces(r: Region, faults: Faults, offset: nat, len: nat): (res: (Region, Option<u32>))
    requires r.Valid()
    ensures res.0.Valid()
    decreases len - offset
  {
    if offset >= len then (r, None)
    else
      var (q, piece) := Read(r, faults, offset, Min(len - offset, BuildMarker.PIECE));
      if piece.None? then (q, None)
      else if BuildMarker.Find(piece.value).Some? then (q, BuildMarker.Find(piece.value))
      else FindInPieces(q, faults, offset + (BuildMarker.PIECE - BuildMarker.OVERLAP), len)
  }

  function FinishStep(b: Board, env: Env): (res: (Board, Result))
    requires b.area.Valid()
    ensures res.0.area.Valid()
    ensures SameService(b, res.0) && res.0.fetching == b.fetching
  {
    var taken := b.(incoming := None);
    if b.incoming.None? || b.incoming.value.received != b.incoming.value.image.size then (taken, Err(OutOfSequence))
    else
      var image := b.incoming.value.image;
      var (read, content) := ReadPieces(b.area, env.faults, 0, image.size);
      var b1 := taken.(area := read);
      if content.None? then (b1, Err(FlashFailed))
      else if env.sha256(content.value) != image.digest then (b1, Err(DigestMismatch))
      else
        var (searched, build) := FindInPieces(read, env.faults, 0, image.size);
        var b2 := b1.(area := searched);
        if build != Some(image.build) then (b2, Err(DigestMismatch))
        else (b2.(staged := Some(image)), Ok)
  }

  // The state page's own operations count with the area's.
  function MarkStep(b: Board, env: Env): (res: (Board, Result))
    requires b.area.Valid()
    ensures res.0.area.Valid()
    ensures SameService(b, res.0) && res.0.fetching == b.fetching
  {
    if b.staged.None? then (b, Err(OutOfSequence))
    else
      var n := b.area.ops;
      if !env.faults(n).ok then (b.(area := b.area.(ops := n + 1)), Err(FlashFailed))
      else
        var image := b.staged.value;
        var mark := Mark(image, b.area.bytes[..Min(image.size, |b.area.bytes|)], b.chunks);
        (b.(area := b.area.(ops := n + 2), marks := b.marks + [mark]),
         if env.faults(n + 1).ok then Ok else Err(FlashFailed))
  }

  function RequestStep(b: Board, env: Env, request: Request): (res: (Board, Result))
    requires b.area.Valid()
    ensures res.0.area.Valid()
    ensures SameService(b, res.0)
  {
    match request
    case Begin(image) => BeginStep(b.(fetching := None), image)
    case Write(offset, data) => if b.fetching.None? then WriteStep(b, env, offset, data) else (b, Err(OutOfSequence))
    case Finish => if b.fetching.None? then FinishStep(b, env) else (b, Err(OutOfSequence))
    case Apply =>
      var (marked, result) := MarkStep(b, env);
      (if result.Ok? then marked.(restarted := true) else marked, result)
  }

  function AskStep(b: Board, now: int): Board
  {
    if b.incoming.None? || b.fetching.None? then b
    else
      var fetch := b.fetching.value;
      Send(b.(fetching := Some(fetch.(retryAt := Some(now + CHUNK_TIMEOUT)))),
           fetch.from, ChunkRequest(b.incoming.value.image.build, b.incoming.value.received))
  }

  function TimerStep(b: Board, now: int): Board
  {
    if b.fetching.None? || b.fetching.value.retryAt.None? || now < b.fetching.value.retryAt.value then b
    else
      var fetch := b.fetching.value.(attempts := b.fetching.value.attempts + 1);
      if fetch.attempts > MAX_ATTEMPTS then b.(fetching := Some(fetch.(retryAt := None)))
      else AskStep(b.(fetching := Some(fetch)), now)
  }

  predicate Stalled(b: Board, image: Image)
  {
    && b.incoming.Some? && b.fetching.Some?
    && b.incoming.value.image != image && b.fetching.value.retryAt.None?
  }

  function OfferStep(b: Board, image: Image, from: Peer, now: int): (next: Board)
    requires b.area.Valid()
    ensures next.area.Valid()
  {
    var b := Send(b, from, Running(b.id, b.running));
    if image.build == b.running || b.staged == Some(image) || b.rolledBack == Some(image.build) then b
    else
      var b := if Stalled(b, image) then b.(incoming := None, fetching := None) else b;
      if b.incoming.None? then
        var (begun, result) := BeginStep(b, image);
        if result.Err? then begun
        else AskStep(Send(begun.(fetching := Some(Fetch(from, 0, None))), from, Fetching(b.id)), now)
      else if b.fetching.Some? && b.incoming.value.image == image then
        var givenUp := b.fetching.value.retryAt.None?;
        var fetch := b.fetching.value.(from := from);
        var fetch := if givenUp then fetch.(attempts := 0) else fetch;
        var b := Send(b.(fetching := Some(fetch)), from, Fetching(b.id));
        if givenUp then AskStep(b, now) else b
      else b
  }

  function ChunkStep(b: Board, env: Env, build: u32, offset: u32, data: seq<byte>, now: int): (next: Board)
    requires b.area.Valid()
    ensures next.area.Valid()
  {
    if b.incoming.None? || b.fetching.None? then b
    else if build != b.incoming.value.image.build || offset != b.incoming.value.received then b
    else
      var size := b.incoming.value.image.size;
      var (b, result) := WriteStep(b, env, offset, data);
      if result.Err? then b.(incoming := None, fetching := None)
      else if offset + |data| < size then
        AskStep(b.(fetching := if b.fetching.Some? then Some(b.fetching.value.(attempts := 0)) else None), now)
      else LastChunkStep(b.(fetching := None), env)
  }

  // The last chunk: finish, mark for swap, and restart if both worked.
  function LastChunkStep(b: Board, env: Env): (next: Board)
    requires b.area.Valid()
    ensures next.area.Valid()
  {
    var (finished, result) := FinishStep(b, env);
    if result.Err? then finished
    else
      var (marked, result) := MarkStep(finished, env);
      if result.Ok? then marked.(restarted := true) else marked
  }

  function DatagramStep(b: Board, env: Env, from: Peer, message: Message, now: int): (next: Board)
    requires b.area.Valid()
    ensures next.area.Valid()
  {
    match message
    case Offer(image) => OfferStep(b, image, from, now)
    case Chunk(build, offset, data) => ChunkStep(b, env, build, offset, data, now)
    case ChunkRequest(_, _) => b
    case Fetching(_) => b
    case Running(_, _) => b
  }

  datatype Input =
    | Usb(request: Request)
    | Received(from: Peer, message: Message)
    | Timer

  // One turn of the service's loop. A board that restarts handles nothing more.
  function Step(b: Board, env: Env, input: Input, now: int): (next: Board)
    requires b.area.Valid()
    ensures next.area.Valid()
  {
    if b.restarted then b
    else
      match input
      case Usb(request) => RequestStep(b, env, request).0
      case Received(from, message) => DatagramStep(b, env, from, message, now)
      case Timer => TimerStep(b, now)
  }
}
