// The host's side of an update over the network: the image it offers, the chunks
// it serves, and when it calls the push over.
module HostOffer {
  import opened Basics
  import BuildMarker
  import Board = UpdateBoard

  type Peer = Board.Peer
  type BoardId = Board.BoardId

  // In milliseconds.
  const QUIET_AFTER: int := 30_000
  const STALLED_AFTER: int := 180_000
  const COME_BACK_AFTER: int := 420_000
  const SWAP_TIME: int := 10_000

  // A firmware image file, and how the host announces it.
  datatype Firmware = Firmware(bytes: seq<byte>, image: Board.Image)

  datatype Outcome = Kept | RolledBack(build: u32)

  datatype Fetcher = Fetcher(
    address: Peer, board: Option<BoardId>, received: u32, lastSeen: int,
    finished: Option<int>, outcome: Option<Outcome>)

  // A push: the image, a record of each board that fetches, and of each board the build
  // that it named last.
  datatype Push = Push(firmware: Firmware, fetchers: seq<Fetcher>, builds: map<BoardId, u32>)

  datatype Name = Id(board: BoardId) | At(address: Peer)

  datatype Report = Report(
    fetched: nat, kept: seq<Name>, rolledBack: seq<Name>, notBack: seq<Name>, declined: map<BoardId, u32>, current: nat)
  {
    predicate Succeeded() { rolledBack == [] && notBack == [] }
  }

  datatype State = Open | Stalled(boards: seq<Name>) | Over(report: Report)

  // The announcement of an image file. None for a file that is no image.
  function FromBytes(bytes: seq<byte>, sha256: seq<byte> -> Board.Digest): Option<Firmware>
  {
    var build := BuildMarker.Find(bytes);
    if build.None? || |bytes| >= 0x1_0000_0000 then None
    else Some(Firmware(bytes, Board.Image(build.value, |bytes|, sha256(bytes))))
  }

  // A file is an image exactly if it has a build marker and a 32-bit length; it is announced
  // with the first marker's build, and with its own length and digest.
  lemma FromBytesExactly(bytes: seq<byte>, sha256: seq<byte> -> Board.Digest)
    ensures var fw := FromBytes(bytes, sha256);
            && (fw.Some? <==> |bytes| < 0x1_0000_0000 && exists at, build :: BuildMarker.MarkerAt(bytes, at, build))
            && (fw.Some? ==>
                 && fw.value.bytes == bytes
                 && fw.value.image == Board.Image(BuildMarker.Find(bytes).value, |bytes|, sha256(bytes)))
  {
    var at := BuildMarker.FindFromIsFirst(bytes, 0);
  }

  // ---- Handling what boards send ----

  // The position of the first element that satisfies `p`, or the length.
  function Position<T>(s: seq<T>, p: T -> bool): (k: nat)
    ensures k <= |s| && (k < |s| ==> p(s[k]))
    ensures forall i :: 0 <= i < k ==> !p(s[i])
  {
    if s == [] || p(s[0]) then 0 else 1 + Position(s[1..], p)
  }

  // Finds or adds the record for `address`, and notes that it was heard of now.
  function Touched(p: Push, address: Peer, now: int): (res: (Push, nat))
    ensures res.0.firmware == p.firmware && res.1 < |res.0.fetchers| && res.0.fetchers[res.1].lastSeen == now
    ensures res.0.fetchers[res.1].address == address
  {
    var k := Position(p.fetchers, (f: Fetcher) => f.address == address);
    var fetchers :=
      if k < |p.fetchers| then p.fetchers else p.fetchers + [Fetcher(address, None, 0, now, None, None)];
    (p.(fetchers := fetchers[k := fetchers[k].(lastSeen := now)]), k)
  }

  predicate Serves(fw: Firmware, build: u32, offset: u32)
  {
    build == fw.image.build && offset < fw.image.size <= |fw.bytes|
  }

  // The image from `offset` on, as far as a chunk goes.
  function ChunkAt(fw: Firmware, offset: u32): (data: seq<byte>)
    requires offset < fw.image.size <= |fw.bytes|
    ensures |data| == Min(Board.CHUNK_LEN, fw.image.size - offset)
    ensures data == fw.bytes[offset..offset + |data|]
  {
    fw.bytes[offset..offset + Min(Board.CHUNK_LEN, fw.image.size - offset)]
  }

  function ChunkRequestStep(p: Push, from: Peer, build: u32, offset: u32, now: int): (Push, Option<Board.Message>)
  {
    if !Serves(p.firmware, build, offset) then (p, None)
    else
      var data := ChunkAt(p.firmware, offset);
      var isLast := offset + |data| == p.firmware.image.size;
      var (p, k) := Touched(p, from, now);
      var f := p.fetchers[k].(received := if isLast then offset + |data| else offset);
      var f := if isLast && f.finished.None? then f.(finished := Some(now)) else f;
      (p.(fetchers := p.fetchers[k := f]), Some(Board.Chunk(build, offset, data)))
  }

  function Since(now: int, then_: int): int
  {
    if now > then_ then now - then_ else 0
  }

  // The record is that of a board that has all of the image, for long enough to run it.
  predicate IsBack(f: Fetcher, now: int)
  {
    f.outcome.None? && f.finished.Some? && Since(now, f.finished.value) >= SWAP_TIME
  }

  function RecordBuild(p: Push, from: Peer, board: BoardId, build: u32, now: int): (q: Push)
    ensures q.firmware == p.firmware
  {
    var p := p.(builds := p.builds[board := build]);
    var k := Position(p.fetchers, (f: Fetcher) => f.board == Some(board));
    if k < |p.fetchers| && IsBack(p.fetchers[k], now) then
      var outcome := if build == p.firmware.image.build then Kept else RolledBack(build);
      p.(fetchers := p.fetchers[k := p.fetchers[k].(outcome := Some(outcome))])
    else
      var k := Position(p.fetchers, (f: Fetcher) => f.address == from);
      if k < |p.fetchers| && p.fetchers[k].board.None?
      then p.(fetchers := p.fetchers[k := p.fetchers[k].(board := Some(board))])
      else p
  }

  function HandleStep(p: Push, from: Peer, message: Board.Message, now: int): (Push, Option<Board.Message>)
  {
    match message
    case Fetching(board) =>
      var (p, k) := Touched(p, from, now);
      (p.(fetchers := p.fetchers[k := p.fetchers[k].(board := Some(board))]), None)
    case ChunkRequest(build, offset) => ChunkRequestStep(p, from, build, offset, now)
    case Running(board, build) => (RecordBuild(p, from, board, build, now), None)
    case Offer(_) => (p, None)
    case Chunk(_, _, _) => (p, None)
  }

  // ---- Where the push stands ----

  function Filter<T(!new)>(s: seq<T>, p: T -> bool): (t: seq<T>)
    ensures forall x :: x in t <==> x in s && p(x)
  {
    if s == [] then [] else
      var rest := Filter(s[..|s| - 1], p);
      if p(s[|s| - 1]) then rest + [s[|s| - 1]] else rest
  }

  lemma {:induction false} FilterAll<T(!new)>(s: seq<T>, p: T -> bool)
    requires forall x :: x in s ==> p(x)
    ensures Filter(s, p) == s
  {
    if s != [] {
      FilterAll(s[..|s| - 1], p);
      assert s == s[..|s| - 1] + [s[|s| - 1]];
    }
  }

  lemma {:induction false} FilterNone<T(!new)>(s: seq<T>, p: T -> bool)
    requires forall x :: x in s ==> !p(x)
    ensures Filter(s, p) == []
  {
    if s != [] { FilterNone(s[..|s| - 1], p); }
  }

  function NameOf(f: Fetcher): Name
  {
    if f.board.Some? then Id(f.board.value) else At(f.address)
  }

  function Names(s: seq<Fetcher>): (names: seq<Name>)
    ensures |names| == |s|
    ensures forall i :: 0 <= i < |s| ==> names[i] == NameOf(s[i])
  {
    seq(|s|, i requires 0 <= i < |s| => NameOf(s[i]))
  }

  predicate HasAll(p: Push, f: Fetcher)
  {
    f.received == p.firmware.image.size
  }

  predicate ComingBack(f: Fetcher, now: int)
  {
    f.board.Some? && f.outcome.None? && f.finished.Some? && Since(now, f.finished.value) < COME_BACK_AFTER
  }

  function LastHeard(s: seq<Fetcher>, started: int): (last: int)
    ensures started <= last && (last == started || exists f :: f in s && f.lastSeen == last)
    ensures forall f :: f in s ==> f.lastSeen <= last
  {
    if s == [] then started else
      var last := LastHeard(s[1..], started);
      if s[0].lastSeen > last then s[0].lastSeen else last
  }

  predicate HasFetched(p: Push, board: BoardId)
  {
    exists f :: f in p.fetchers && f.board == Some(board)
  }

  // The boards' outcomes, of those that have the whole image.
  function Tally(fetched: seq<Fetcher>): Report
  {
    if fetched == [] then Report(0, [], [], [], map[], 0)
    else
      var f := fetched[|fetched| - 1];
      var r := Tally(fetched[..|fetched| - 1]);
      var r := r.(fetched := r.fetched + 1);
      match f.outcome
      case Some(Kept) => r.(kept := r.kept + [NameOf(f)])
      case Some(RolledBack(_)) => r.(rolledBack := r.rolledBack + [NameOf(f)])
      case None => if f.board.Some? then r.(notBack := r.notBack + [NameOf(f)]) else r
  }

  function Declined(p: Push): map<BoardId, u32>
  {
    map board | board in p.builds && p.builds[board] != p.firmware.image.build && !HasFetched(p, board)
      :: p.builds[board]
  }

  function Current(p: Push): set<BoardId>
  {
    set board | board in p.builds && p.builds[board] == p.firmware.image.build && !HasFetched(p, board)
  }

  function StateOf(p: Push, started: int, now: int): State
  {
    var fetched := Filter(p.fetchers, (f: Fetcher) => HasAll(p, f));
    var partial := Filter(p.fetchers, (f: Fetcher) => !HasAll(p, f));
    if exists f :: f in partial && Since(now, f.lastSeen) < STALLED_AFTER then Open
    else if Since(now, LastHeard(p.fetchers, started)) < QUIET_AFTER then Open
    else if partial != [] then Stalled(Names(partial))
    else if exists f :: f in fetched && ComingBack(f, now) then Open
    else Over(Tally(fetched).(declined := Declined(p), current := |Current(p)|))
  }

  // ---- Over whole pushes ----

  datatype Input = Input(from: Peer, message: Board.Message, at: int)

  ghost function After(fw: Firmware, inputs: seq<Input>): (p: Push)
    ensures p.firmware == fw
  {
    if inputs == [] then Push(fw, [], map[])
    else
      var last := inputs[|inputs| - 1];
      HandleStep(After(fw, inputs[..|inputs| - 1]), last.from, last.message, last.at).0
  }

  // A message that shows that a board is fetching.
  ghost predicate Asks(fw: Firmware, message: Board.Message)
  {
    message.Fetching? || (message.ChunkRequest? && Serves(fw, message.build, message.offset))
  }

  ghost function LastAsked(fw: Firmware, inputs: seq<Input>, started: int): (last: int)
    ensures started <= last
  {
    if inputs == [] then started
    else
      var before := LastAsked(fw, inputs[..|inputs| - 1], started);
      var last := inputs[|inputs| - 1];
      if Asks(fw, last.message) && last.at > before then last.at else before
  }

  ghost predicate FetcherOk(fw: Firmware, f: Fetcher, asked: int)
  {
    && f.lastSeen <= asked
    && (f.finished.Some? ==> f.finished.value <= asked)
    && (f.outcome.Some? ==> f.board.Some? && f.finished.Some?)
    && (f.received == fw.image.size ==> f.finished.Some?)
  }

  ghost predicate PushOk(p: Push, asked: int)
  {
    forall f :: f in p.fetchers ==> FetcherOk(p.firmware, f, asked)
  }

  lemma HandleKeeps(p: Push, input: Input, asked: int)
    requires 0 < p.firmware.image.size && PushOk(p, asked)
    ensures var later := if Asks(p.firmware, input.message) && input.at > asked then input.at else asked;
            PushOk(HandleStep(p, input.from, input.message, input.at).0, later)
  {
    hide Position, ChunkAt;
    var later := if Asks(p.firmware, input.message) && input.at > asked then input.at else asked;
    var q := HandleStep(p, input.from, input.message, input.at).0;
    forall f | f in q.fetchers ensures FetcherOk(q.firmware, f, later) {
      if f !in p.fetchers {
        var k :| 0 <= k < |q.fetchers| && q.fetchers[k] == f;
        assert k < |p.fetchers| ==> p.fetchers[k] in p.fetchers;
      }
    }
  }

  lemma {:induction false} AfterIsOk(fw: Firmware, inputs: seq<Input>, started: int)
    requires 0 < fw.image.size
    ensures PushOk(After(fw, inputs), LastAsked(fw, inputs, started))
  {
    if inputs != [] {
      var before := inputs[..|inputs| - 1];
      AfterIsOk(fw, before, started);
      HandleKeeps(After(fw, before), inputs[|inputs| - 1], LastAsked(fw, before, started));
    }
  }

  ghost predicate DistinctAddresses(s: seq<Fetcher>)
  {
    forall i, j :: 0 <= i < j < |s| ==> s[i].address != s[j].address
  }

  // Each address has one record, however often and in what order it is heard from.
  lemma {:induction false} OneRecordPerAddress(fw: Firmware, inputs: seq<Input>)
    ensures DistinctAddresses(After(fw, inputs).fetchers)
  {
    if inputs != [] {
      var before, input := inputs[..|inputs| - 1], inputs[|inputs| - 1];
      OneRecordPerAddress(fw, before);
      var p, q := After(fw, before), After(fw, inputs);
      assert q == HandleStep(p, input.from, input.message, input.at).0;
      SameAddresses(p, input);
      hide HandleStep, After;
      forall i, j | 0 <= i < j < |q.fetchers| ensures q.fetchers[i].address != q.fetchers[j].address {
        assert q.fetchers[i].address == p.fetchers[i].address;
      }
    }
  }

  // A message adds at most one record, and only for an address that has none.
  lemma SameAddresses(p: Push, input: Input)
    ensures var q := HandleStep(p, input.from, input.message, input.at).0;
            && |p.fetchers| <= |q.fetchers| <= |p.fetchers| + 1
            && (forall i :: 0 <= i < |p.fetchers| ==> q.fetchers[i].address == p.fetchers[i].address)
            && (|q.fetchers| > |p.fetchers| ==>
                 && q.fetchers[|p.fetchers|].address == input.from
                 && forall i :: 0 <= i < |p.fetchers| ==> p.fetchers[i].address != input.from)
  {
    hide Position, ChunkAt;
  }

  // A push ends: COME_BACK_AFTER after the later of its start and the last message
  // by which a board asked for something, it has a verdict, whatever boards
  // said about the builds they run.
  lemma VerdictInTime(fw: Firmware, inputs: seq<Input>, started: int, now: int)
    requires 0 < fw.image.size
    requires now - LastAsked(fw, inputs, started) >= COME_BACK_AFTER
    ensures !StateOf(After(fw, inputs), started, now).Open?
  {
    hide Filter, Tally, After, LastAsked;
    AfterIsOk(fw, inputs, started);
  }

  lemma OpenWhileComingBack(p: Push, f: Fetcher, started: int, now: int)
    requires p.fetchers == [f] && HasAll(p, f) && ComingBack(f, now)
    ensures StateOf(p, started, now).Open?
  {
    assert f in p.fetchers;
    FilterAll(p.fetchers, (f: Fetcher) => HasAll(p, f));
    FilterNone(p.fetchers, (f: Fetcher) => !HasAll(p, f));
  }

  // No shorter time is enough: a board that tells its ID and asks for the last
  // chunk, and never comes back, keeps its push open that long.
  lemma VerdictNotSooner(fw: Firmware, from: Peer, board: BoardId, offset: u32, started: int, asked: int, now: int)
    requires started <= asked <= now < asked + COME_BACK_AFTER
    requires Serves(fw, fw.image.build, offset) && fw.image.size - offset <= Board.CHUNK_LEN
    ensures var request := Board.ChunkRequest(fw.image.build, offset);
            var inputs := [Input(from, Board.Fetching(board), asked), Input(from, request, asked)];
            LastAsked(fw, inputs, started) == asked && StateOf(After(fw, inputs), started, now).Open?
  {
    var first := Input(from, Board.Fetching(board), asked);
    var second := Input(from, Board.ChunkRequest(fw.image.build, offset), asked);
    assert [first, second][..1] == [first] && [first][..0] == [];
    var p := After(fw, [first, second]);
    var f := Fetcher(from, Some(board), fw.image.size, asked, Some(asked), None);
    assert After(fw, [first]).fetchers == [Fetcher(from, Some(board), 0, asked, None, None)];
    assert p.fetchers == [f];
    assert LastAsked(fw, [first][..0], started) == started && LastAsked(fw, [first], started) == asked;
    hide StateOf, HandleStep, After;
    OpenWhileComingBack(p, f, started, now);
  }

  // With no further message, a verdict stays as it is.
  lemma VerdictIsFinal(p: Push, started: int, now: int, later: int)
    requires now <= later && !StateOf(p, started, now).Open?
    ensures StateOf(p, started, later) == StateOf(p, started, now)
  {
    hide Filter, Tally, LastHeard;
    forall f: Fetcher ensures Since(now, f.lastSeen) <= Since(later, f.lastSeen) {}
    forall f: Fetcher | ComingBack(f, later) ensures ComingBack(f, now) {}
  }

  lemma {:induction false} TallyAddsUp(fetched: seq<Fetcher>)
    requires forall f :: f in fetched && f.outcome.Some? ==> f.board.Some?
    ensures var r := Tally(fetched);
            && r.fetched == |fetched|
            && r.fetched == |r.kept| + |r.rolledBack| + |r.notBack| + |Filter(fetched, (f: Fetcher) => f.board.None?)|
            && r.declined == map[] && r.current == 0
            && (forall f :: f in fetched && f.outcome.Some? ==>
                 NameOf(f) in (if f.outcome.value.Kept? then r.kept else r.rolledBack))
            && (forall f :: f in fetched && f.outcome.None? && f.board.Some? ==> NameOf(f) in r.notBack)
  {
    if fetched != [] {
      TallyAddsUp(fetched[..|fetched| - 1]);
      forall f | f in fetched ensures f in fetched[..|fetched| - 1] || f == fetched[|fetched| - 1] {}
    }
  }

  // What the report of a push that is over says: it counts every record once, and
  // every board known to run a build that has no record once.
  lemma ReportAddsUp(fw: Firmware, inputs: seq<Input>, started: int, now: int)
    requires 0 < fw.image.size
    requires StateOf(After(fw, inputs), started, now).Over?
    ensures var p := After(fw, inputs); var r := StateOf(p, started, now).report;
            && r.fetched == |p.fetchers|
            && r.fetched
               == |r.kept| + |r.rolledBack| + |r.notBack| + |Filter(p.fetchers, (f: Fetcher) => f.board.None?)|
            && r.current + |r.declined| == |set board | board in p.builds && !HasFetched(p, board)|
            && (forall board :: board in r.declined ==>
                 board in p.builds && r.declined[board] == p.builds[board] != fw.image.build)
  {
    hide Tally, After;
    var p := After(fw, inputs);
    AfterIsOk(fw, inputs, started);
    NoneIsPartial(p, started, now);
    TallyAddsUp(p.fetchers);
    assert Current(p) + Declined(p).Keys == set board | board in p.builds && !HasFetched(p, board);
    assert Current(p) !! Declined(p).Keys;
  }

  lemma NoneIsPartial(p: Push, started: int, now: int)
    requires StateOf(p, started, now).Over?
    ensures forall f :: f in p.fetchers ==> HasAll(p, f) && !ComingBack(f, now)
    ensures Filter(p.fetchers, (f: Fetcher) => HasAll(p, f)) == p.fetchers
  {
    hide Tally;
    var partial := Filter(p.fetchers, (f: Fetcher) => !HasAll(p, f));
    forall f | f in p.fetchers ensures HasAll(p, f) {
      assert HasAll(p, f) || f in partial;
    }
    FilterAll(p.fetchers, (f: Fetcher) => HasAll(p, f));
  }

  // A push succeeds exactly if the outcome of every record with an ID is that the
  // board kept the image. A board without an outcome had COME_BACK_AFTER.
  lemma SuccessMeansKept(fw: Firmware, inputs: seq<Input>, started: int, now: int)
    requires 0 < fw.image.size
    requires StateOf(After(fw, inputs), started, now).Over?
    ensures var p := After(fw, inputs); var r := StateOf(p, started, now).report;
            && (r.Succeeded() <==> forall f :: f in p.fetchers && f.board.Some? ==> f.outcome == Some(Kept))
            && (forall f :: f in p.fetchers && f.board.Some? && f.outcome.None? ==>
                 f.finished.Some? && now - f.finished.value >= COME_BACK_AFTER)
  {
    hide Tally, After;
    var p := After(fw, inputs);
    AfterIsOk(fw, inputs, started);
    NoneIsPartial(p, started, now);
    TallyAddsUp(p.fetchers);
    NobodyElse(p.fetchers);
  }

  lemma {:induction false} NobodyElse(fetched: seq<Fetcher>)
    ensures var r := Tally(fetched);
            && (r.rolledBack != [] ==> exists f :: f in fetched && f.outcome.Some? && f.outcome.value.RolledBack?)
            && (r.notBack != [] ==> exists f :: f in fetched && f.outcome.None? && f.board.Some?)
  {
    if fetched != [] {
      NobodyElse(fetched[..|fetched| - 1]);
      assert fetched[|fetched| - 1] in fetched;
    }
  }

  // ---- Records and boards ----

  ghost predicate DistinctIds(s: seq<Fetcher>)
  {
    forall i, j :: 0 <= i < j < |s| && s[i].board.Some? ==> s[i].board != s[j].board
  }

  // How many records carry the board's ID, and how often the report names it.
  function Records(s: seq<Fetcher>, board: BoardId): nat
  {
    if s == [] then 0
    else Records(s[..|s| - 1], board) + if s[|s| - 1].board == Some(board) then 1 else 0
  }

  ghost function Times(r: Report, board: BoardId): nat
  {
    multiset(r.kept)[Id(board)] + multiset(r.rolledBack)[Id(board)] + multiset(r.notBack)[Id(board)]
  }

  lemma {:induction false} TallyNames(fetched: seq<Fetcher>, board: BoardId)
    requires forall f :: f in fetched && f.outcome.Some? ==> f.board.Some?
    ensures Times(Tally(fetched), board) == Records(fetched, board)
  {
    if fetched != [] {
      assert fetched[|fetched| - 1] in fetched;
      TallyNames(fetched[..|fetched| - 1], board);
      TallyNext(fetched, board);
      hide Times, Tally;
    }
  }

  lemma {:induction false} TallyNext(fetched: seq<Fetcher>, board: BoardId)
    requires fetched != [] && (fetched[|fetched| - 1].outcome.Some? ==> fetched[|fetched| - 1].board.Some?)
    ensures Times(Tally(fetched), board)
         == Times(Tally(fetched[..|fetched| - 1]), board)
            + (if fetched[|fetched| - 1].board == Some(board) then 1 else 0)
  {
    var r, f := Tally(fetched[..|fetched| - 1]), fetched[|fetched| - 1];
    OneMoreName(r.kept, NameOf(f), Id(board));
    OneMoreName(r.rolledBack, NameOf(f), Id(board));
    OneMoreName(r.notBack, NameOf(f), Id(board));
  }

  lemma OneMoreName(names: seq<Name>, name: Name, x: Name)
    ensures multiset(names + [name])[x] == multiset(names)[x] + (if name == x then 1 else 0)
  {
  }

  lemma {:induction false} HasRecord(s: seq<Fetcher>, board: BoardId)
    ensures Records(s, board) > 0 <==> exists i :: 0 <= i < |s| && s[i].board == Some(board)
  {
    if s != [] {
      var before := s[..|s| - 1];
      HasRecord(before, board);
      if Records(before, board) > 0 {
        var i :| 0 <= i < |before| && before[i].board == Some(board);
        assert s[i].board == Some(board);
      }
      forall i | 0 <= i < |s| && s[i].board == Some(board) ensures Records(s, board) > 0 {
        assert i < |before| ==> before[i].board == Some(board);
      }
    }
  }

  lemma {:induction false} CountedOnce(s: seq<Fetcher>, board: BoardId)
    requires DistinctIds(s)
    ensures Records(s, board) <= 1
  {
    if s != [] {
      var before := s[..|s| - 1];
      CountedOnce(before, board);
      HasRecord(before, board);
      assert s[|s| - 1].board == Some(board) ==> forall i :: 0 <= i < |before| ==> s[i].board != Some(board);
    }
  }

  lemma DistinctIdsCount(s: seq<Fetcher>)
    ensures DistinctIds(s) <==> forall board :: Records(s, board) <= 1
  {
    if DistinctIds(s) {
      forall board ensures Records(s, board) <= 1 { CountedOnce(s, board); }
    } else {
      var i: nat, j: nat :| i < j < |s| && s[i].board.Some? && s[i].board == s[j].board;
      TwiceCounted(s, i, j);
    }
  }

  lemma {:induction false} TwiceCounted(s: seq<Fetcher>, i: nat, j: nat)
    requires i < j < |s| && s[i].board.Some? && s[i].board == s[j].board
    ensures Records(s, s[i].board.value) >= 2
  {
    var before := s[..|s| - 1];
    if j < |before| {
      TwiceCounted(before, i, j);
    } else {
      assert before[i].board == s[i].board;
      HasRecord(before, s[i].board.value);
    }
  }

  // In the report of a push that is over, a board is named as often as records carry
  // its ID: at most once for every board exactly if no two records carry the same.
  lemma BoardsCountOnceExactly(fw: Firmware, inputs: seq<Input>, started: int, now: int)
    requires 0 < fw.image.size
    requires StateOf(After(fw, inputs), started, now).Over?
    ensures var p := After(fw, inputs); var r := StateOf(p, started, now).report;
            && (forall board :: Times(r, board) == Records(p.fetchers, board))
            && ((forall board :: Times(r, board) <= 1) <==> DistinctIds(p.fetchers))
  {
    hide Tally, After, Times;
    var p := After(fw, inputs);
    AfterIsOk(fw, inputs, started);
    NoneIsPartial(p, started, now);
    var r := StateOf(p, started, now).report;
    forall board ensures Times(r, board) == Records(p.fetchers, board) {
      TallyNames(p.fetchers, board);
      SameTimes(Tally(p.fetchers), r, board);
    }
    DistinctIdsCount(p.fetchers);
  }

  lemma SameTimes(r: Report, q: Report, board: BoardId)
    requires r.kept == q.kept && r.rolledBack == q.rolledBack && r.notBack == q.notBack
    ensures Times(r, board) == Times(q, board)
  {
  }

  // The outcome of the board, on any of its records, is that it kept the image.
  ghost predicate BoardKept(p: Push, board: BoardId)
  {
    exists f :: f in p.fetchers && f.board == Some(board) && f.outcome == Some(Kept)
  }

  // A push that succeeds was kept by every board that told its ID. The converse holds
  // if no two records carry the same ID, and OneBoardTwice shows that it can fail
  // otherwise.
  lemma SuccessMeansBoardsKept(fw: Firmware, inputs: seq<Input>, started: int, now: int)
    requires 0 < fw.image.size
    requires StateOf(After(fw, inputs), started, now).Over?
    ensures var p := After(fw, inputs); var r := StateOf(p, started, now).report;
            && (r.Succeeded() ==> forall board :: HasFetched(p, board) ==> BoardKept(p, board))
            && (DistinctIds(p.fetchers) && (forall board :: HasFetched(p, board) ==> BoardKept(p, board)) ==>
                 r.Succeeded())
  {
    hide After, StateOf;
    SuccessMeansKept(fw, inputs, started, now);
    var p := After(fw, inputs);
    if DistinctIds(p.fetchers) && forall board :: HasFetched(p, board) ==> BoardKept(p, board) {
      forall f | f in p.fetchers && f.board.Some? ensures f.outcome == Some(Kept) {
        assert HasFetched(p, f.board.value);
        var g :| g in p.fetchers && g.board == f.board && g.outcome == Some(Kept);
      }
    }
  }

  lemma AfterOneMore(fw: Firmware, inputs: seq<Input>, input: Input)
    ensures After(fw, inputs + [input]) == HandleStep(After(fw, inputs), input.from, input.message, input.at).0
  {
    assert (inputs + [input])[..|inputs|] == inputs;
  }

  // A board that changes its address while it fetches an image of one chunk, tells its
  // ID from both, and comes back with the image.
  ghost function MovedBoard(fw: Firmware, a: Peer, b: Peer, board: BoardId, at: int): seq<Input>
  {
    Fetch(fw, Fetch(fw, [], a, board, at), b, board, at) + [Input(b, Board.Running(board, fw.image.build), at + 20_000)]
  }

  // The board tells its ID, and asks for the image.
  ghost function Fetch(fw: Firmware, inputs: seq<Input>, from: Peer, board: BoardId, at: int): seq<Input>
  {
    inputs + [Input(from, Board.Fetching(board), at)] + [Input(from, Board.ChunkRequest(fw.image.build, 0), at)]
  }

  // A board that is new to the host tells its ID, and asks for all of the image.
  lemma NewRecord(p: Push, a: Peer, board: BoardId, at: int)
    requires Position(p.fetchers, (f: Fetcher) => f.address == a) == |p.fetchers|
    requires Serves(p.firmware, p.firmware.image.build, 0) && p.firmware.image.size <= Board.CHUNK_LEN
    ensures var q := HandleStep(p, a, Board.Fetching(board), at).0;
            HandleStep(q, a, Board.ChunkRequest(p.firmware.image.build, 0), at).0
            == p.(fetchers := p.fetchers + [Fetcher(a, Some(board), p.firmware.image.size, at, Some(at), None)])
  {
    var q := HandleStep(p, a, Board.Fetching(board), at).0;
    assert q.fetchers == p.fetchers + [Fetcher(a, Some(board), 0, at, None, None)];
    var k := Position(q.fetchers, (f: Fetcher) => f.address == a);
    assert k == |p.fetchers| by {
      assert forall i :: 0 <= i < |p.fetchers| ==> q.fetchers[i] == p.fetchers[i];
      assert q.fetchers[|p.fetchers|].address == a;
    }
    hide Position;
  }

  lemma FetchedAtOnce(fw: Firmware, inputs: seq<Input>, a: Peer, board: BoardId, at: int)
    requires Serves(fw, fw.image.build, 0) && fw.image.size <= Board.CHUNK_LEN && After(fw, inputs).firmware == fw
    requires Position(After(fw, inputs).fetchers, (f: Fetcher) => f.address == a) == |After(fw, inputs).fetchers|
    ensures After(fw, Fetch(fw, inputs, a, board, at))
         == var p := After(fw, inputs);
            p.(fetchers := p.fetchers + [Fetcher(a, Some(board), fw.image.size, at, Some(at), None)])
  {
    hide After, HandleStep, Serves;
    AfterOneMore(fw, inputs, Input(a, Board.Fetching(board), at));
    var told := inputs + [Input(a, Board.Fetching(board), at)];
    AfterOneMore(fw, told, Input(a, Board.ChunkRequest(fw.image.build, 0), at));
    NewRecord(After(fw, inputs), a, board, at);
  }

  lemma MovedBoardRecords(fw: Firmware, a: Peer, b: Peer, board: BoardId, at: int)
    requires a != b && Serves(fw, fw.image.build, 0) && fw.image.size <= Board.CHUNK_LEN
    ensures After(fw, MovedBoard(fw, a, b, board, at)).fetchers
         == [Fetcher(a, Some(board), fw.image.size, at, Some(at), Some(Kept)),
             Fetcher(b, Some(board), fw.image.size, at, Some(at), None)]
  {
    hide After, HandleStep, Position, Serves;
    NothingYet(fw, a);
    FetchedAtOnce(fw, [], a, board, at);
    var two := Fetch(fw, [], a, board, at);
    AnotherAddress(After(fw, two).fetchers, b);
    FetchedAtOnce(fw, two, b, board, at);
    var four := Fetch(fw, two, b, board, at);
    AfterOneMore(fw, four, Input(b, Board.Running(board, fw.image.build), at + 20_000));
    FirstIsBack(After(fw, four), b, board, at);
  }

  lemma NothingYet(fw: Firmware, a: Peer)
    ensures After(fw, []).fetchers == [] && Position(After(fw, []).fetchers, (f: Fetcher) => f.address == a) == 0
  {
  }

  lemma AnotherAddress(fetchers: seq<Fetcher>, b: Peer)
    requires |fetchers| == 1 && fetchers[0].address != b
    ensures Position(fetchers, (f: Fetcher) => f.address == b) == 1
  {
  }

  // The first record with the board's ID gets the outcome.
  lemma FirstIsBack(p: Push, from: Peer, board: BoardId, at: int)
    requires p.fetchers != [] && p.fetchers[0].board == Some(board)
    requires p.fetchers[0].finished == Some(at) && p.fetchers[0].outcome.None?
    ensures HandleStep(p, from, Board.Running(board, p.firmware.image.build), at + 20_000).0.fetchers
         == p.fetchers[0 := p.fetchers[0].(outcome := Some(Kept))]
  {
  }

  // That board is counted twice, once as kept and once as not back, and the push fails
  // although the one board it had kept the image.
  lemma OneBoardTwice(fw: Firmware, a: Peer, b: Peer, board: BoardId, started: int, at: int, now: int)
    requires a != b && Serves(fw, fw.image.build, 0) && fw.image.size <= Board.CHUNK_LEN
    requires started <= at && now >= at + COME_BACK_AFTER
    ensures var state := StateOf(After(fw, MovedBoard(fw, a, b, board, at)), started, now);
            && state.Over? && !state.report.Succeeded() && state.report.fetched == 2
            && state.report.kept == [Id(board)] == state.report.notBack && state.report.rolledBack == []
  {
    MovedBoardRecords(fw, a, b, board, at);
    var p := After(fw, MovedBoard(fw, a, b, board, at));
    hide After, MovedBoard;
    FilterAll(p.fetchers, (f: Fetcher) => HasAll(p, f));
    FilterNone(p.fetchers, (f: Fetcher) => !HasAll(p, f));
    TallyOfTwo(p.fetchers[0], p.fetchers[1]);
    assert p.fetchers == [p.fetchers[0], p.fetchers[1]];
  }

  lemma TallyOfTwo(f: Fetcher, g: Fetcher)
    requires f.outcome == Some(Kept) && g.outcome.None? && g.board.Some?
    ensures Tally([f, g]) == Report(2, [NameOf(f)], [], [NameOf(g)], map[], 0)
  {
    assert [f, g][..1] == [f] && [f][..0] == [];
    assert Tally([f][..0]) == Report(0, [], [], [], map[], 0);
    assert Tally([f]) == Report(1, [NameOf(f)], [], [], map[], 0);
  }

  // ---- Outcomes ----

  // Input `k` said what became of the board of record `i`: it came from the board
  // that the record was for then, long enough after that had the whole image.
  ghost predicate ToldAt(fw: Firmware, inputs: seq<Input>, k: nat, i: nat, outcome: Outcome)
  {
    && k < |inputs| && inputs[k].message.Running?
    && var p := After(fw, inputs[..k]); var message := inputs[k].message;
       && i < |p.fetchers| && p.fetchers[i].board == Some(message.board)
       && p.fetchers[i].finished.Some? && Since(inputs[k].at, p.fetchers[i].finished.value) >= SWAP_TIME
       && outcome == (if message.build == fw.image.build then Kept else RolledBack(message.build))
  }

  lemma OutcomeIsNewOrKept(p: Push, input: Input, i: nat)
    requires i < |HandleStep(p, input.from, input.message, input.at).0.fetchers|
    requires HandleStep(p, input.from, input.message, input.at).0.fetchers[i].outcome.Some?
    ensures var f := HandleStep(p, input.from, input.message, input.at).0.fetchers[i];
            && i < |p.fetchers|
            && (p.fetchers[i].outcome == f.outcome
                || (&& input.message.Running? && p.fetchers[i].board == Some(input.message.board)
                    && p.fetchers[i].finished.Some? && Since(input.at, p.fetchers[i].finished.value) >= SWAP_TIME
                    && f.outcome.value == if input.message.build == p.firmware.image.build then Kept
                                          else RolledBack(input.message.build)))
  {
    hide Position, ChunkAt;
  }

  // No outcome is made up: for each there was a message of that very board that told
  // it, long enough after the board had the whole image.
  lemma {:induction false} OutcomeWasTold(fw: Firmware, inputs: seq<Input>, i: nat)
    requires i < |After(fw, inputs).fetchers| && After(fw, inputs).fetchers[i].outcome.Some?
    ensures exists k: nat :: ToldAt(fw, inputs, k, i, After(fw, inputs).fetchers[i].outcome.value)
  {
    if inputs != [] {
      var n, outcome := |inputs| - 1, After(fw, inputs).fetchers[i].outcome.value;
      OutcomeIsNewOrKept(After(fw, inputs[..n]), inputs[n], i);
      if After(fw, inputs[..n]).fetchers[i].outcome == Some(outcome) {
        OutcomeWasTold(fw, inputs[..n], i);
        var k: nat :| ToldAt(fw, inputs[..n], k, i, outcome);
        assert inputs[..n][..k] == inputs[..k];
        assert ToldAt(fw, inputs, k, i, outcome);
      } else {
        assert ToldAt(fw, inputs, n, i, outcome);
      }
    }
  }

  // The ID that the board at `address` last told from input `from` on.
  function LatestName(inputs: seq<Input>, from: nat, address: Peer): Option<BoardId>
  {
    if |inputs| <= from then None
    else
      var last := inputs[|inputs| - 1];
      if last.from == address && last.message.Fetching? then Some(last.message.board)
      else LatestName(inputs[..|inputs| - 1], from, address)
  }

  lemma NameStep(p: Push, input: Input, i: nat)
    requires DistinctAddresses(p.fetchers) && i < |p.fetchers| && p.fetchers[i].board.Some?
    ensures var q := HandleStep(p, input.from, input.message, input.at).0;
            && i < |q.fetchers|
            && q.fetchers[i].board == if input.from == p.fetchers[i].address && input.message.Fetching?
                                      then Some(input.message.board) else p.fetchers[i].board
  {
    hide ChunkAt;
    var k := Position(p.fetchers, (f: Fetcher) => f.address == input.from);
    hide Position;
  }

  // An outcome stands under the ID of the board it was told by exactly if no other ID
  // was told from that address since, or the board's own was told last.
  lemma {:induction false} OutcomeKeepsItsName(fw: Firmware, inputs: seq<Input>, k: nat, i: nat, outcome: Outcome)
    requires ToldAt(fw, inputs, k, i, outcome)
    ensures i < |After(fw, inputs).fetchers|
    ensures var f := After(fw, inputs).fetchers[i]; var told := inputs[k].message.board;
            var latest := LatestName(inputs, k + 1, f.address);
            && f.board == (if latest.Some? then latest else Some(told))
            && (f.board == Some(told) <==> latest.None? || latest == Some(told))
  {
    var n := |inputs| - 1;
    var p := After(fw, inputs[..n]);
    OneRecordPerAddress(fw, inputs[..n]);
    if k < n {
      assert inputs[..n][..k] == inputs[..k];
      OutcomeKeepsItsName(fw, inputs[..n], k, i, outcome);
    }
    NameStep(p, inputs[n], i);
    SameAddresses(p, inputs[n]);
    hide HandleStep;
  }

  // ---- When IDs are distinct, by what was told ----

  ghost predicate HasAsked(fw: Firmware, inputs: seq<Input>, address: Peer)
  {
    exists k :: 0 <= k < |inputs| && inputs[k].from == address && Asks(fw, inputs[k].message)
  }

  // The build that the board says it runs is the outcome of the first record for it.
  predicate TellsOutcome(p: Push, board: BoardId, now: int)
  {
    exists k :: 0 <= k < |p.fetchers| && FirstFor(p.fetchers, board, k) && IsBack(p.fetchers[k], now)
  }

  predicate FirstFor(fetchers: seq<Fetcher>, board: BoardId, k: int)
    requires 0 <= k < |fetchers|
  {
    fetchers[k].board == Some(board) && forall i :: 0 <= i < k ==> fetchers[i].board != Some(board)
  }

  // The ID told of the board at `address`: the one that it told last when it fetched, or
  // as long as it has told none, the first that it says runs a build after it fetched,
  // other than to tell an outcome.
  ghost function NameFrom(fw: Firmware, inputs: seq<Input>, address: Peer): Option<BoardId>
  {
    if inputs == [] then None
    else
      var before, last := inputs[..|inputs| - 1], inputs[|inputs| - 1];
      var name := NameFrom(fw, before, address);
      if last.from != address then name
      else
        match last.message
        case Fetching(board) => Some(board)
        case Running(board, _) =>
          if name.None? && HasAsked(fw, before, address) && !TellsOutcome(After(fw, before), board, last.at)
          then Some(board) else name
        case _ => name
  }

  // How one message names the board of a record, old or new.
  ghost predicate NamedBy(p: Push, input: Input, before: Option<BoardId>, after: Option<BoardId>, address: Peer)
  {
    after ==
      if input.from != address then before
      else match input.message
           case Fetching(board) => Some(board)
           case Running(board, _) => if before.None? && !TellsOutcome(p, board, input.at) then Some(board) else before
           case _ => before
  }

  lemma RecordsAreNamed(p: Push, input: Input)
    requires DistinctAddresses(p.fetchers)
    ensures var q := HandleStep(p, input.from, input.message, input.at).0;
            && |p.fetchers| <= |q.fetchers|
            && (forall i :: 0 <= i < |p.fetchers| ==>
                 NamedBy(p, input, p.fetchers[i].board, q.fetchers[i].board, p.fetchers[i].address))
            && (|q.fetchers| > |p.fetchers| ==>
                 NamedBy(p, input, None, q.fetchers[|p.fetchers|].board, input.from) && !input.message.Running?)
            && (Asks(p.firmware, input.message) ==> IsRecorded(q.fetchers, input.from))
            && (!Asks(p.firmware, input.message) ==> |q.fetchers| == |p.fetchers|)
  {
    hide ChunkAt;
    var q := HandleStep(p, input.from, input.message, input.at).0;
    if input.message.Running? {
      var k := Position(p.fetchers, (f: Fetcher) => f.board == Some(input.message.board));
      assert k < |p.fetchers| ==> FirstFor(p.fetchers, input.message.board, k);
    }
    hide Position;
  }

  ghost predicate IsRecorded(s: seq<Fetcher>, address: Peer)
  {
    exists i :: 0 <= i < |s| && s[i].address == address
  }

  // The records are those of the addresses that have asked, under the IDs told of them.
  lemma {:induction false} RecordsHaveNames(fw: Firmware, inputs: seq<Input>)
    ensures forall a :: HasAsked(fw, inputs, a) <==> IsRecorded(After(fw, inputs).fetchers, a)
    ensures forall f :: f in After(fw, inputs).fetchers ==> f.board == NameFrom(fw, inputs, f.address)
  {
    if inputs != [] {
      var n := |inputs| - 1;
      var p, q := After(fw, inputs[..n]), After(fw, inputs);
      RecordsHaveNames(fw, inputs[..n]);
      OneRecordPerAddress(fw, inputs[..n]);
      assert q == HandleStep(p, inputs[n].from, inputs[n].message, inputs[n].at).0;
      RecordsAreNamed(p, inputs[n]);
      SameAddresses(p, inputs[n]);
      hide HandleStep, After, Asks, TellsOutcome;
      forall a ensures HasAsked(fw, inputs, a) <==> IsRecorded(q.fetchers, a) {
        AskedOneMore(fw, inputs, a);
        RecordedOneMore(p.fetchers, q.fetchers, inputs[n].from, a);
      }
      forall f | f in q.fetchers ensures f.board == NameFrom(fw, inputs, f.address) {
        var i :| 0 <= i < |q.fetchers| && q.fetchers[i] == f;
        if i < |p.fetchers| {
          assert p.fetchers[i] in p.fetchers && IsRecorded(p.fetchers, f.address);
        } else {
          assert !IsRecorded(p.fetchers, f.address);
          NotAskedNoName(fw, inputs[..n], f.address);
        }
      }
    }
  }

  lemma AskedOneMore(fw: Firmware, inputs: seq<Input>, address: Peer)
    requires inputs != []
    ensures var n := |inputs| - 1;
            HasAsked(fw, inputs, address) <==>
              HasAsked(fw, inputs[..n], address) || (inputs[n].from == address && Asks(fw, inputs[n].message))
  {
    hide Asks;
    var before := inputs[..|inputs| - 1];
    if HasAsked(fw, before, address) {
      var k :| 0 <= k < |before| && before[k].from == address && Asks(fw, before[k].message);
      assert inputs[k] == before[k];
    }
    if HasAsked(fw, inputs, address) {
      var k :| 0 <= k < |inputs| && inputs[k].from == address && Asks(fw, inputs[k].message);
      assert k < |before| ==> before[k] == inputs[k];
    }
  }

  lemma RecordedOneMore(s: seq<Fetcher>, t: seq<Fetcher>, from: Peer, address: Peer)
    requires |s| <= |t| <= |s| + 1 && forall i :: 0 <= i < |s| ==> t[i].address == s[i].address
    requires |t| > |s| ==> t[|s|].address == from
    ensures IsRecorded(t, address) <==> IsRecorded(s, address) || (|t| > |s| && from == address)
  {
    if IsRecorded(s, address) {
      var i :| 0 <= i < |s| && s[i].address == address;
      assert t[i].address == address;
    }
    if |t| > |s| && from == address { assert t[|s|].address == address; }
  }

  lemma {:induction false} NotAskedNoName(fw: Firmware, inputs: seq<Input>, address: Peer)
    requires !HasAsked(fw, inputs, address)
    ensures NameFrom(fw, inputs, address).None?
  {
    if inputs != [] {
      var n := |inputs| - 1;
      AskedOneMore(fw, inputs, address);
      NotAskedNoName(fw, inputs[..n], address);
      assert inputs[n].message.Fetching? ==> Asks(fw, inputs[n].message);
    }
  }

  // No two records carry the same ID, and so each board counts once, exactly if no ID
  // was told of two addresses that have fetched.
  lemma IdsAreDistinctExactly(fw: Firmware, inputs: seq<Input>)
    ensures DistinctIds(After(fw, inputs).fetchers) <==>
      forall a, b :: a != b && HasAsked(fw, inputs, a) && HasAsked(fw, inputs, b) && NameFrom(fw, inputs, a).Some? ==>
        NameFrom(fw, inputs, a) != NameFrom(fw, inputs, b)
  {
    hide After, HasAsked, NameFrom;
    var s := After(fw, inputs).fetchers;
    RecordsHaveNames(fw, inputs);
    OneRecordPerAddress(fw, inputs);
    if DistinctIds(s) {
      forall a, b | a != b && HasAsked(fw, inputs, a) && HasAsked(fw, inputs, b) && NameFrom(fw, inputs, a).Some?
        ensures NameFrom(fw, inputs, a) != NameFrom(fw, inputs, b)
      {
        assert IsRecorded(s, a) && IsRecorded(s, b);
        var i :| 0 <= i < |s| && s[i].address == a;
        var j :| 0 <= j < |s| && s[j].address == b;
        assert s[i] in s && s[j] in s && i != j;
      }
    } else {
      var i, j :| 0 <= i < j < |s| && s[i].board.Some? && s[i].board == s[j].board;
      assert s[i] in s && s[j] in s && IsRecorded(s, s[i].address) && IsRecorded(s, s[j].address);
    }
  }

  // A board that told its ID when it fetched is known by the ID that it told last.
  lemma {:induction false} LatestIsTheName(fw: Firmware, inputs: seq<Input>, address: Peer)
    requires LatestName(inputs, 0, address).Some?
    ensures NameFrom(fw, inputs, address) == LatestName(inputs, 0, address)
  {
    var n := |inputs| - 1;
    if !(inputs[n].from == address && inputs[n].message.Fetching?) { LatestIsTheName(fw, inputs[..n], address); }
  }

  // So a board can be reported with the outcome of another one that told its ID from
  // the same address before.
  lemma OutcomeUnderAnotherName(
    fw: Firmware, inputs: seq<Input>, k: nat, i: nat, outcome: Outcome, other: BoardId, at: int)
    requires ToldAt(fw, inputs, k, i, outcome) && i < |After(fw, inputs).fetchers|
    ensures var f := After(fw, inputs).fetchers[i];
            var later := After(fw, inputs + [Input(f.address, Board.Fetching(other), at)]).fetchers;
            i < |later| && NameOf(later[i]) == Id(other) && later[i].outcome == f.outcome
  {
    var f := After(fw, inputs).fetchers[i];
    var input := Input(f.address, Board.Fetching(other), at);
    AfterOneMore(fw, inputs, input);
    OneRecordPerAddress(fw, inputs);
    OutcomeKeepsItsName(fw, inputs, k, i, outcome);
    NameStep(After(fw, inputs), input, i);
  }

  // ---- The host ----

  // The host's record of a push, changed in place as boards are heard from.
  class Host {
    const firmware: Firmware
    var fetchers: seq<Fetcher>
    var builds: map<BoardId, u32>

    ghost function View(): Push
      reads this
    {
      Push(firmware, fetchers, builds)
    }

    constructor (firmware: Firmware)
      ensures View() == After(firmware, [])
    {
      this.firmware, fetchers, builds := firmware, [], map[];
    }

    method FetcherAt(address: Peer, now: int) returns (k: nat)
      modifies this`fetchers
      ensures (View(), k) == Touched(old(View()), address, now)
      ensures k < |fetchers|
    {
      k := Position(fetchers, (f: Fetcher) => f.address == address);
      if k == |fetchers| {
        fetchers := fetchers + [Fetcher(address, None, 0, now, None, None)];
      }
      fetchers := fetchers[k := fetchers[k].(lastSeen := now)];
    }

    method Record(from: Peer, board: BoardId, build: u32, now: int)
      modifies this
      ensures View() == RecordBuild(old(View()), from, board, build, now)
    {
      builds := builds[board := build];
      var k := Position(fetchers, (f: Fetcher) => f.board == Some(board));
      if k < |fetchers| && IsBack(fetchers[k], now) {
        var outcome := if build == firmware.image.build then Kept else RolledBack(build);
        fetchers := fetchers[k := fetchers[k].(outcome := Some(outcome))];
        return;
      }
      k := Position(fetchers, (f: Fetcher) => f.address == from);
      if k < |fetchers| && fetchers[k].board.None? {
        fetchers := fetchers[k := fetchers[k].(board := Some(board))];
      }
    }

    // One message, and the reply to it.
    method Handle(from: Peer, message: Board.Message, now: int) returns (reply: Option<Board.Message>)
      modifies this
      ensures (View(), reply) == HandleStep(old(View()), from, message, now)
    {
      match message {
        case Fetching(board) =>
          var k := FetcherAt(from, now);
          fetchers := fetchers[k := fetchers[k].(board := Some(board))];
          return None;
        case ChunkRequest(build, offset) =>
          if !Serves(firmware, build, offset) {
            return None;
          }
          var data := ChunkAt(firmware, offset);
          var end := offset + |data|;
          var k := FetcherAt(from, now);
          var fetcher := fetchers[k].(received := if end == firmware.image.size then end else offset);
          if end == firmware.image.size && fetcher.finished.None? {
            fetcher := fetcher.(finished := Some(now));
          }
          fetchers := fetchers[k := fetcher];
          return Some(Board.Chunk(build, offset, data));
        case Running(board, build) =>
          Record(from, board, build, now);
          return None;
        case Offer(_) => return None;
        case Chunk(_, _, _) => return None;
      }
    }
  }
}
