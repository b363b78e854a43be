// The endpoint together with the stack that reads its send buffer: no byte that
// the stack still holds is overwritten, and the stack is given exactly the bytes
// accepted for sending, in order.
module TcpStack {
  import opened Basics
  import opened TcpEndpoint

  datatype World = World(
    e: Endpoint,
    // What the stack has by reference, and may read in the buffer at any time. None once
    // all of it was acknowledged, and the buffer released.
    held: Option<seq<byte>>,
    // What it has released since the connection began.
    delivered: seq<byte>,
    // What the service has accepted since then: the chunks it has queued, and
    // the one it has parked.
    accepted: seq<byte>,
    // The stack has released the buffer, and the callback that says so is to come.
    due: bool,
    // A failed abort has swallowed that callback. It is not made up for until another
    // one comes, or the connection is gone.
    swallowed: bool)

  datatype Turn =
    // A request. `swallows` says whether a failed abort acknowledges a callback.
    | Asked(request: Request, calls: Calls, now: int, swallows: bool)
    | Heard(event: Event, calls: Calls, now: int)
    | Released

  function Bytes(part: Option<seq<byte>>): seq<byte>
  {
    if part.Some? then part.value else []
  }

  function Parked(e: Endpoint): seq<byte>
  {
    if e.unsent.Some? then e.unsent.value else []
  }

  // The stack refuses to extend a buffer that it has released.
  function Refusing(w: World, calls: Calls): Calls
  {
    if w.e.queued > 0 && w.held.None? && calls.send.None? then calls.(send := Some(Failed)) else calls
  }

  // The connection is gone, and the stack holds nothing of it.
  function Gone(w: World): World
  {
    w.(held := None, delivered := [], accepted := [], due := false, swallowed := false)
  }

  // The call by which the service gives the stack a chunk is made, and works.
  predicate Gives(e: Endpoint, chunk: Chunk, calls: Calls)
  {
    e.ready && e.connection == Open && e.unsent.None? && e.queued + |chunk| <= SEND_LEN && calls.send.None?
  }

  // What the stack holds once it is given `len` bytes more: by reference those at
  // the start of the buffer, and by extension those after what it holds.
  function Given(w: World, sending: Buffer, len: nat): Option<seq<byte>>
  {
    if w.e.queued == 0 then Some(sending[..Min(len, SEND_LEN)])
    else
      var at := Min(|Bytes(w.held)|, SEND_LEN);
      Some(Bytes(w.held) + sending[at..Min(at + len, SEND_LEN)])
  }

  // The last request was not refused.
  predicate WasTaken(e: Endpoint)
  {
    e.waiting.Some? || (e.answers != [] && e.answers[|e.answers| - 1].1.Ok?)
  }

  function AskedTurn(w: World, request: Request, given: Calls, now: int, swallows: bool): World
  {
    var calls := Refusing(w, given);
    var e := HandleStep(w.e, request, calls, now);
    if Aborts(w.e, request, now) then
      if calls.abort.None? then Gone(w.(e := e))
      else if swallows && w.due then w.(e := e, due := false, swallowed := true)
      else w.(e := e)
    else if request.Send? then
      w.(e := e,
         held := if Gives(w.e, request.chunk, calls) then Given(w, e.sending, |request.chunk|) else w.held,
         accepted := if WasTaken(e) then w.accepted + request.chunk else w.accepted)
    else w.(e := e)
  }

  // A parked chunk is given to the stack, or withdrawn if the stack refuses it.
  function SendDoneTurn(w: World, calls: Calls, now: int): World
  {
    var e := EventStep(w.e, SendDone, calls, now);
    var told := w.(e := e, due := false, swallowed := false);
    if w.e.unsent.None? then told
    else if calls.send.None? then told.(held := Some(e.sending[..|w.e.unsent.value|]))
    else told.(accepted := w.accepted[..|w.accepted| - Min(|w.accepted|, |w.e.unsent.value|)])
  }

  function HeardTurn(w: World, event: Event, calls: Calls, now: int): World
  {
    match event
    case SendDone => SendDoneTurn(w, calls, now)
    case Disconnected(_) => Gone(w.(e := EventStep(w.e, event, calls, now)))
    case _ => w.(e := EventStep(w.e, event, calls, now))
  }

  function ReleasedTurn(w: World): World
  {
    if w.held.None? then w else w.(held := None, delivered := w.delivered + w.held.value, due := true)
  }

  function Next(w: World, turn: Turn): World
  {
    match turn
    case Asked(request, calls, now, swallows) => AskedTurn(w, request, calls, now, swallows)
    case Heard(event, calls, now) => HeardTurn(w, event, calls, now)
    case Released => ReleasedTurn(w)
  }

  // The endpoint takes the steps that it is specified to take, with the stack's answers.
  lemma TurnIsStep(w: World, turn: Turn)
    ensures Next(w, turn).e ==
      match turn
      case Asked(request, calls, now, _) => HandleStep(w.e, request, Refusing(w, calls), now)
      case Heard(event, calls, now) => EventStep(w.e, event, calls, now)
      case Released => w.e
  {
    hide HandleStep, EventStep;
  }

  // What the theorem asks of the stack: it says that it is done with sending, or that
  // a connection is over, only while it holds nothing. Such a callback may be late,
  // or for another connection. Chunks are not empty, as the client cuts no empty ones.
  predicate Genuine(w: World, turn: Turn)
  {
    match turn
    case Asked(Send(chunk), _, _, _) => chunk != []
    case Heard(SendDone, _, _) => w.held.None?
    case Heard(Disconnected(_), _, _) => w.held.None?
    case _ => true
  }

  // No byte that the stack still holds is overwritten.
  ghost predicate Untouched(w: World)
  {
    w.held.Some? ==> |w.held.value| <= SEND_LEN && w.e.sending[..|w.held.value|] == w.held.value
  }

  // The stack was given, and has in order, what was accepted.
  ghost predicate Conserved(w: World)
  {
    w.delivered + Bytes(w.held) + Parked(w.e) == w.accepted
  }

  ghost predicate WorldInv(w: World)
  {
    && TcpEndpoint.Inv(w.e) && Untouched(w) && Conserved(w)
    && (w.held.Some? ==> |w.held.value| == w.e.queued > 0)
    && (w.e.queued > 0 ==> w.e.ready)
    && (w.due ==> w.held.None? && w.e.queued > 0)
    && (w.swallowed ==> w.held.None? && !w.due && w.e.queued > 0)
    && (w.e.queued > 0 ==> w.held.Some? || w.due || w.swallowed)
    && (w.e.unsent.Some? ==> w.e.unsent.value != [])
  }

  lemma SendFacts(e: Endpoint, chunk: Chunk, calls: Calls, now: int)
    requires TcpEndpoint.Inv(e) && chunk != []
    ensures HandleStep(e, Send(chunk), calls, now).ready == e.ready
    ensures var next := HandleStep(e, Send(chunk), calls, now);
            if Gives(e, chunk, calls) then
              && next.sending == Copied(e.sending, e.queued, chunk) && next.queued == e.queued + |chunk|
              && next.unsent.None? && WasTaken(next)
            else
              && next.sending[..e.queued] == e.sending[..e.queued] && next.queued == e.queued
              && next.unsent == (if WasTaken(next) then Some(chunk) else e.unsent)
              && (WasTaken(next) ==> e.unsent.None? && e.queued > 0)
  {
    hide Copied, AnsweredOnce, WaitOk;
  }

  lemma OtherFacts(e: Endpoint, request: Request, calls: Calls, now: int)
    requires !request.Send?
    ensures var next := HandleStep(e, request, calls, now);
            && next.sending == e.sending && next.ready == e.ready
            && (if Aborts(e, request, now) && calls.abort.None? then next.queued == 0 && next.unsent.None?
                else next.queued == e.queued && next.unsent == e.unsent)
  {
  }

  // A chunk is copied to where the stack reads it: after all that it holds.
  lemma ChunkIsRead(w: World, chunk: Chunk)
    requires WorldInv(w) && w.e.queued + |chunk| <= SEND_LEN && chunk != []
    requires w.e.queued > 0 ==> w.held.Some?
    ensures var sending := Copied(w.e.sending, w.e.queued, chunk); var held := Bytes(w.held) + chunk;
            Given(w, sending, |chunk|) == Some(held) && sending[..|held|] == held
  {
    hide TcpEndpoint.Inv;
    var sending := Copied(w.e.sending, w.e.queued, chunk);
    assert sending[..w.e.queued + |chunk|] == sending[..w.e.queued] + sending[w.e.queued..w.e.queued + |chunk|];
  }

  lemma GivenKeeps(w: World, chunk: Chunk, e: Endpoint)
    requires WorldInv(w) && w.e.unsent.None? && w.e.queued + |chunk| <= SEND_LEN && chunk != []
    requires w.e.queued > 0 ==> w.held.Some?
    requires TcpEndpoint.Inv(e) && e.ready && e.unsent.None? && e.queued == w.e.queued + |chunk|
    requires e.sending == Copied(w.e.sending, w.e.queued, chunk)
    ensures WorldInv(w.(e := e, held := Given(w, e.sending, |chunk|), accepted := w.accepted + chunk))
  {
    ChunkIsRead(w, chunk);
    hide TcpEndpoint.Inv, Copied, Given;
    assert w.delivered + (Bytes(w.held) + chunk) + [] == (w.delivered + Bytes(w.held) + []) + chunk;
  }

  lemma NotGivenKeeps(w: World, chunk: Chunk, e: Endpoint, taken: bool)
    requires WorldInv(w) && chunk != []
    requires TcpEndpoint.Inv(e) && e.ready == w.e.ready && e.queued == w.e.queued
    requires e.sending[..e.queued] == w.e.sending[..e.queued]
    requires if taken then w.e.unsent.None? && e.queued > 0 && e.unsent == Some(chunk) else e.unsent == w.e.unsent
    ensures WorldInv(w.(e := e, accepted := if taken then w.accepted + chunk else w.accepted))
  {
    hide TcpEndpoint.Inv;
    assert w.delivered + Bytes(w.held) + chunk == (w.delivered + Bytes(w.held) + []) + chunk;
  }

  lemma SendKeeps(w: World, chunk: Chunk, given: Calls, now: int, swallows: bool)
    requires WorldInv(w) && chunk != []
    ensures WorldInv(AskedTurn(w, Send(chunk), given, now, swallows))
  {
    hide HandleStep, TcpEndpoint.Inv, WasTaken, Copied, Given, Untouched, Conserved;
    var calls := Refusing(w, given);
    var e := HandleStep(w.e, Send(chunk), calls, now);
    RequestKeeps(w.e, Send(chunk), calls, now);
    SendFacts(w.e, chunk, calls, now);
    if Gives(w.e, chunk, calls) { GivenKeeps(w, chunk, e); } else { NotGivenKeeps(w, chunk, e, WasTaken(e)); }
  }

  lemma OtherRequestKeeps(w: World, request: Request, given: Calls, now: int, swallows: bool)
    requires WorldInv(w) && !request.Send?
    ensures WorldInv(AskedTurn(w, request, given, now, swallows))
  {
    RequestKeeps(w.e, request, Refusing(w, given), now);
    OtherFacts(w.e, request, Refusing(w, given), now);
    hide HandleStep, TcpEndpoint.AnsweredOnce, WaitOk;
  }

  lemma SendDoneKeepsAll(w: World, calls: Calls, now: int)
    requires WorldInv(w) && w.held.None?
    ensures WorldInv(SendDoneTurn(w, calls, now))
  {
    hide TcpEndpoint.AnsweredOnce, WaitOk, RespondTo, Copied;
    EventKeeps(w.e, SendDone, calls, now);
    if w.e.unsent.Some? {
      ParkedChunkHasRoom(w.e, calls);
      assert w.accepted == w.delivered + w.e.unsent.value;
      if calls.send.Some? {
        var next := SendDoneTurn(w, calls, now);
        assert next.accepted == w.accepted[..|w.delivered|] == w.delivered;
        assert next.delivered + Bytes(next.held) + Parked(next.e) == w.delivered;
      } else {
        var next := SendDoneTurn(w, calls, now);
        assert next.delivered + Bytes(next.held) + Parked(next.e) == w.delivered + w.e.unsent.value;
      }
    }
  }

  lemma HeardKeeps(w: World, event: Event, calls: Calls, now: int)
    requires WorldInv(w) && Genuine(w, Heard(event, calls, now))
    ensures WorldInv(HeardTurn(w, event, calls, now))
  {
    if event.SendDone? {
      SendDoneKeepsAll(w, calls, now);
    } else {
      EventKeeps(w.e, event, calls, now);
      hide TcpEndpoint.AnsweredOnce;
    }
  }

  lemma TurnKeeps(w: World, turn: Turn)
    requires WorldInv(w) && Genuine(w, turn)
    ensures WorldInv(Next(w, turn))
  {
    hide AskedTurn, HeardTurn, TcpEndpoint.Inv;
    match turn
    case Asked(Send(chunk), calls, now, swallows) => SendKeeps(w, chunk, calls, now, swallows);
    case Asked(request, calls, now, swallows) => OtherRequestKeeps(w, request, calls, now, swallows);
    case Heard(event, calls, now) => HeardKeeps(w, event, calls, now);
    case Released =>
  }

  // ---- Over whole runs ----

  ghost function RunOf(w: World, turns: seq<Turn>): World
    decreases |turns|
  {
    if turns == [] then w else RunOf(Next(w, turns[0]), turns[1..])
  }

  ghost predicate AllGenuine(w: World, turns: seq<Turn>)
    decreases |turns|
  {
    turns == [] || (Genuine(w, turns[0]) && AllGenuine(Next(w, turns[0]), turns[1..]))
  }

  ghost predicate StartsAll(w: World)
  {
    Starts(w.e) && w.held.None? && w.delivered == [] && w.accepted == [] && !w.due && !w.swallowed
  }

  lemma {:induction false} RunKeepsWorldInv(w: World, turns: seq<Turn>)
    requires WorldInv(w) && AllGenuine(w, turns)
    ensures WorldInv(RunOf(w, turns))
    decreases |turns|
  {
    if turns != [] {
      hide WorldInv, Next;
      TurnKeeps(w, turns[0]);
      RunKeepsWorldInv(Next(w, turns[0]), turns[1..]);
    }
  }

  // Whatever is requested, fails or calls back late: the stack reads in the send
  // buffer what it was given, and what it has of this connection, together with
  // the parked chunk, is what the service accepted. While a chunk is parked, a
  // send-done is to come exactly if no failed abort has swallowed it.
  lemma SendBufferIsSafe(w: World, turns: seq<Turn>)
    requires StartsAll(w) && AllGenuine(w, turns)
    ensures var last := RunOf(w, turns);
            && Untouched(last) && Conserved(last)
            && (last.held.Some? ==> |last.held.value| == last.e.queued)
            && (last.e.unsent.Some? ==> (last.held.Some? || last.due <==> !last.swallowed))
  {
    RunKeepsWorldInv(w, turns);
  }

  // What the service has accepted is only ever added to, until the connection is
  // gone, or the stack refuses the parked chunk when it has room for it again.
  lemma AcceptedGrows(w: World, turn: Turn)
    requires WorldInv(w) && Genuine(w, turn)
    ensures var next := Next(w, turn);
            || w.accepted <= next.accepted
            || (next.accepted == [] && next.e.queued == 0)
            || (turn.Heard? && turn.event.SendDone? && turn.calls.send.Some? && w.e.unsent.Some?
                && w.accepted == next.accepted + w.e.unsent.value)
  {
    hide HandleStep, EventStep, Given, Gives, WasTaken;
    match turn
    case Asked(request, calls, now, swallows) =>
      if !request.Send? { OtherFacts(w.e, request, Refusing(w, calls), now); }
    case Heard(SendDone, calls, now) =>
      if w.e.unsent.Some? { assert w.accepted == w.delivered + w.e.unsent.value; }
    case Heard(Disconnected(reason), calls, now) => NothingQueued(w.e, reason, calls, now);
    case Heard(_, _, _) =>
    case Released =>
  }

  lemma NothingQueued(e: Endpoint, reason: Reason, calls: Calls, now: int)
    ensures EventStep(e, Disconnected(reason), calls, now).queued == 0
  {
  }

  // ---- Why the stack's callbacks have to be genuine ----

  function Works(calls: Calls): Calls
  {
    calls.(send := None)
  }

  // What the stack held before is still in the buffer, as it was.
  ghost predicate StillThere(w: World, e: Endpoint)
  {
    w.held.Some? ==> e.sending[..Min(|w.held.value|, SEND_LEN)] == w.held.value
  }

  // A send-done, and then a chunk, overwrite nothing that the stack holds before
  // either or after it.
  ghost predicate SendDoneSpares(w: World, calls: Calls, chunk: Chunk, now: int)
  {
    var told := Next(w, Heard(SendDone, calls, now));
    var next := Next(told, Asked(Send(chunk), Works(calls), now, false));
    Untouched(told) && StillThere(w, told.e) && Untouched(next) && StillThere(w, next.e)
  }

  // However the stack answers the parked chunk, and whatever chunk comes next, a
  // send-done spares the buffer exactly if the stack holds nothing of it.
  lemma SendDoneSparesExactly(w: World)
    requires WorldInv(w)
    ensures w.held.None? <==>
      forall calls, chunk: Chunk, now :: chunk != [] ==> SendDoneSpares(w, calls, chunk, now)
  {
    if w.held.None? {
      forall calls, chunk: Chunk, now | chunk != [] ensures SendDoneSpares(w, calls, chunk, now) {
        hide Next, TcpEndpoint.Inv;
        TurnKeeps(w, Heard(SendDone, calls, now));
        TurnKeeps(Next(w, Heard(SendDone, calls, now)), Asked(Send(chunk), Works(calls), now, false));
      }
    } else {
      var b: byte := if w.held.value[0] == 0 then 1 else 0;
      var refused := Calls(None, None, None, None, None, Some(NotImplemented), None, Ok([]));
      StaleSendDoneOverwrites(w, refused, b, 0);
      assert !SendDoneSpares(w, refused, [b], 0);
    }
  }

  // A send-done while the stack holds something lets the next chunk overwrite it, if
  // nothing is parked, or the stack refuses what is.
  lemma StaleSendDoneOverwrites(w: World, calls: Calls, b: byte, now: int)
    requires WorldInv(w) && w.held.Some? && b != w.held.value[0]
    requires w.e.unsent.None? || calls.send.Some?
    ensures var told := Next(w, Heard(SendDone, calls, now));
            var next := Next(told, Asked(Send([b]), Works(calls), now, false));
            !StillThere(w, next.e)
  {
    var told := Next(w, Heard(SendDone, calls, now));
    ChunkGoesFirst(told, b, calls, now);
    hide AskedTurn, TcpEndpoint.AnsweredOnce, RespondTo;
  }

  // Once the service thinks that nothing is queued, a chunk goes to the start of the
  // buffer.
  lemma ChunkGoesFirst(w: World, b: byte, calls: Calls, now: int)
    requires w.e.ready && w.e.connection == Open && w.e.queued == 0 && w.e.unsent.None?
    ensures Next(w, Asked(Send([b]), Works(calls), now, false)).e.sending[0] == b
  {
    var next := Next(w, Asked(Send([b]), Works(calls), now, false));
    assert next.e.sending == Copied(w.e.sending, 0, [b]);
  }

  // With a chunk parked, it overwrites it at once.
  lemma StaleSendDoneOverwritesAtOnce(w: World, calls: Calls, now: int)
    requires WorldInv(w) && w.held.Some? && w.e.unsent.Some? && w.e.unsent.value[0] != w.held.value[0]
    ensures !StillThere(w, Next(w, Heard(SendDone, calls, now)).e)
  {
    var next := Next(w, Heard(SendDone, calls, now));
    assert next.e.sending == Copied(w.e.sending, 0, w.e.unsent.value);
    assert next.e.sending[0] == w.e.unsent.value[0];
  }

  // A disconnect, a late callback that says that the connection is open, and then a
  // chunk overwrite nothing that the stack holds before or after.
  ghost predicate DisconnectSpares(w: World, reason: Reason, calls: Calls, chunk: Chunk, now: int)
  {
    var told := Next(Next(w, Heard(Disconnected(reason), calls, now)), Heard(Established, calls, now));
    var next := Next(told, Asked(Send(chunk), Works(calls), now, false));
    Untouched(told) && StillThere(w, told.e) && Untouched(next) && StillThere(w, next.e)
  }

  // A disconnect, too, spares the buffer exactly if the stack holds nothing of it.
  lemma DisconnectSparesExactly(w: World)
    requires WorldInv(w)
    ensures w.held.None? <==>
      forall reason, calls, chunk: Chunk, now :: chunk != [] ==> DisconnectSpares(w, reason, calls, chunk, now)
  {
    if w.held.None? {
      forall reason, calls, chunk: Chunk, now | chunk != [] ensures DisconnectSpares(w, reason, calls, chunk, now) {
        hide Next, TcpEndpoint.Inv;
        var gone := Next(w, Heard(Disconnected(reason), calls, now));
        TurnKeeps(w, Heard(Disconnected(reason), calls, now));
        TurnKeeps(gone, Heard(Established, calls, now));
        TurnKeeps(Next(gone, Heard(Established, calls, now)), Asked(Send(chunk), Works(calls), now, false));
      }
    } else {
      var b: byte := if w.held.value[0] == 0 then 1 else 0;
      var calls := Calls(None, None, None, None, None, None, None, Ok([]));
      StrayDisconnectOverwrites(w, Normal, calls, b, 0);
      assert !DisconnectSpares(w, Normal, calls, [b], 0);
    }
  }

  // A disconnect while the stack holds something lets the first chunk after it
  // overwrite that.
  lemma StrayDisconnectOverwrites(w: World, reason: Reason, calls: Calls, b: byte, now: int)
    requires WorldInv(w) && w.held.Some? && b != w.held.value[0]
    ensures var told := Next(Next(w, Heard(Disconnected(reason), calls, now)), Heard(Established, calls, now));
            !StillThere(w, Next(told, Asked(Send([b]), Works(calls), now, false)).e)
  {
    DisconnectedClears(w.e, reason, calls, now);
    var gone := Next(w, Heard(Disconnected(reason), calls, now));
    assert gone.e == EventStep(w.e, Disconnected(reason), calls, now);
    hide DisconnectedStep;
    var told := Next(gone, Heard(Established, calls, now));
    hide AskedTurn, TcpEndpoint.AnsweredOnce, RespondTo;
    ChunkGoesFirst(told, b, calls, now);
  }

  lemma DisconnectedClears(e: Endpoint, reason: Reason, calls: Calls, now: int)
    ensures var told := EventStep(e, Disconnected(reason), calls, now);
            told.queued == 0 && told.unsent.None? && told.ready == e.ready && told.connection != Open
  {
  }

  // An abort that fails, and acknowledges the send-done that was due, leaves the
  // parked chunk with nothing that would send it.
  lemma FailedAbortLosesSendDone(w: World, calls: Calls, now: int)
    requires WorldInv(w) && w.due && w.e.unsent.Some? && calls.abort.Some?
    ensures var next := Next(w, Asked(Close, calls, now, true));
            && next.e.unsent == w.e.unsent && next.held.None? && !next.due && next.swallowed
  {
  }

  // The turn makes up for a swallowed send-done: another one, or the connection's end.
  predicate Frees(w: World, turn: Turn)
  {
    match turn
    case Asked(request, calls, now, _) => Aborts(w.e, request, now) && calls.abort.None?
    case Heard(event, _, _) => event.SendDone? || event.Disconnected?
    case Released => false
  }

  // A chunk whose send-done was swallowed stays parked, with nothing to come, exactly
  // until then.
  lemma ParkedUntilFreed(w: World, turn: Turn)
    requires WorldInv(w) && w.e.unsent.Some? && w.swallowed && Genuine(w, turn)
    ensures var next := Next(w, turn);
            && (Frees(w, turn) <==> !next.swallowed)
            && (!Frees(w, turn) ==> next.e.unsent == w.e.unsent && next.held.None? && !next.due)
  {
    hide TcpEndpoint.AnsweredOnce, Copied, HandleStep, Given, WasTaken;
    if turn.Asked? {
      var calls := Refusing(w, turn.calls);
      if turn.request.Send? {
        SendFacts(w.e, turn.request.chunk, calls, turn.now);
      } else {
        OtherFacts(w.e, turn.request, calls, turn.now);
      }
    }
  }

  // No call fails, but for an abort if `error` says so.
  function AbortGives(error: Option<OtError>): Calls
  {
    Calls(None, None, None, error, None, None, None, Ok([]))
  }

  // A chunk is sent and acknowledged, another one comes before the send-done and is
  // parked, and an abort fails and swallows the send-done.
  function Swallowing(b: byte, c: byte, error: OtError, now: int): seq<Turn>
  {
    var works := AbortGives(None);
    [Heard(Established, works, now), Asked(Send([b]), works, now, false), Released,
     Asked(Send([c]), works, now, false), Asked(Close, AbortGives(Some(error)), now, true)]
  }

  // That happens: the state is reached from the start.
  lemma SwallowedIsReached(w: World, b: byte, c: byte, error: OtError, now: int)
    requires StartsAll(w) && w.e.ready
    ensures var turns := Swallowing(b, c, error, now); var last := RunOf(w, turns);
            && AllGenuine(w, turns)
            && last.e.unsent == Some([c]) && last.held.None? && !last.due && last.swallowed
  {
    hide Next, RunOf, AllGenuine;
    var turns := Swallowing(b, c, error, now);
    var ready := Next(w, turns[0]);
    OpensWith(w, now);
    var sent := Next(ready, turns[1]);
    SentFirst(ready, b, now);
    var released := Next(sent, turns[2]);
    ReleasedThen(sent);
    var parked := Next(released, turns[3]);
    ParkedSecond(released, c, now);
    SwallowedThen(parked, error, now);
    var fifth := [turns[4]] + [];
    var fourth := [turns[3]] + fifth;
    var third := [turns[2]] + fourth;
    var second := [turns[1]] + third;
    assert turns == [turns[0]] + second;
    OneTurn(w, turns[0], second);
    OneTurn(ready, turns[1], third);
    OneTurn(sent, turns[2], fourth);
    OneTurn(released, turns[3], fifth);
    OneTurn(parked, turns[4], []);
    NoTurn(Next(parked, turns[4]));
  }

  lemma NoTurn(w: World)
    ensures RunOf(w, []) == w && AllGenuine(w, [])
  {
  }

  lemma OneTurn(w: World, turn: Turn, rest: seq<Turn>)
    ensures RunOf(w, [turn] + rest) == RunOf(Next(w, turn), rest)
    ensures AllGenuine(w, [turn] + rest) <==> Genuine(w, turn) && AllGenuine(Next(w, turn), rest)
  {
    hide Next, Genuine;
    assert ([turn] + rest)[1..] == rest;
  }

  ghost predicate Ready(w: World, queued: nat)
  {
    && w.e.ready && w.e.connection == Open && w.e.queued == queued && w.e.unsent.None?
  }

  lemma OpensWith(w: World, now: int)
    requires StartsAll(w) && w.e.ready
    ensures var next := Next(w, Heard(Established, AbortGives(None), now));
            Ready(next, 0) && next.held.None?
  {
  }

  lemma SentFirst(w: World, b: byte, now: int)
    requires Ready(w, 0)
    ensures var next := Next(w, Asked(Send([b]), AbortGives(None), now, false));
            Ready(next, 1) && next.held.Some?
  {
  }

  lemma ReleasedThen(w: World)
    requires Ready(w, 1) && w.held.Some?
    ensures var next := Next(w, Released); Ready(next, 1) && next.held.None? && next.due
  {
  }

  lemma ParkedSecond(w: World, c: byte, now: int)
    requires Ready(w, 1) && w.held.None? && w.due
    ensures var next := Next(w, Asked(Send([c]), AbortGives(None), now, false));
            next.e.ready && next.e.unsent == Some([c]) && next.held.None? && next.due
  {
  }

  lemma SwallowedThen(w: World, error: OtError, now: int)
    requires w.e.ready && w.e.unsent.Some? && w.held.None? && w.due
    ensures var next := Next(w, Asked(Close, AbortGives(Some(error)), now, true));
            next.e.unsent == w.e.unsent && next.held.None? && !next.due && next.swallowed
  {
  }
}
