// The service's TCP endpoint: one connection in one of four states, at most one
// request that waits for one of four events, and a send buffer that the stack on
// the other CPU reads while this one appends to it. Requests and the stack's
// callbacks come in any order, and every call into the stack can fail.
module TcpEndpoint {
  import opened Basics

  const CHUNK_LEN: nat := 512
  const SEND_LEN: nat := 4096
  // In milliseconds.
  const TIMEOUT: int := 10_000

  type Chunk = c: seq<byte> | |c| <= CHUNK_LEN
  type Buffer = b: seq<byte> | |b| == SEND_LEN witness seq(SEND_LEN, i => 0)

  datatype Result<+T, +E> = Ok(value: T) | Err(error: E)

  datatype OtError = Failed | NotImplemented | Other(code: nat)
  datatype TcpError = Stack(error: OtError) | OutOfSequence | Refused | Reset | TimedOut
  type Answer = Result<Chunk, TcpError>

  // How the calls that one step makes into the stack go: the error, if any. No
  // step makes the same call twice.
  datatype Calls = Calls(
    stopListening: Option<OtError>, listen: Option<OtError>, register: Option<OtError>, abort: Option<OtError>,
    connect: Option<OtError>, send: Option<OtError>, endOfStream: Option<OtError>, receive: Result<Chunk, OtError>)

  datatype Connection = Closed | Opening | Open | Over
  datatype Wait = Accepted | Connected | Sent | Received
  datatype Waiting = Waiting(pending: nat, event: Wait)

  datatype Request =
    | Listen(port: Option<nat>) | Register | Accept | Connect | Send(chunk: Chunk) | Receive | Finish | Close

  // What comes of a request at once: a response, or something to wait for.
  datatype Outcome = Done(chunk: Chunk) | Wait(event: Wait)

  datatype Reason = Normal | ConnectionRefused | ConnectionReset | ConnectionTimedOut | TimeWait

  datatype Event =
    // `valid` says whether the callback's arguments were.
    | Incoming(valid: bool)
    | Established
    | SendDone
    | ReceiveAvailable(endOfStream: bool)
    | Disconnected(reason: Reason)

  datatype Endpoint = Endpoint(
    ready: bool,
    listening: Option<nat>,
    connection: Connection,
    openingSince: int,
    queued: nat,
    unsent: Option<Chunk>,
    endOfStream: bool,
    waiting: Option<Waiting>,
    sending: Buffer,
    // History: how many requests there have been, each known by the number of
    // those before it, and the responses given.
    asked: nat,
    answers: seq<(nat, Answer)>)

  // ---- The steps ----

  function Respond(e: Endpoint, pending: nat, answer: Answer): Endpoint
  {
    e.(answers := e.answers + [(pending, answer)])
  }

  // Responds to the pending request, if it waits for one of `events`.
  function RespondTo(e: Endpoint, events: set<Wait>, answer: Answer): (r: Endpoint)
    ensures r.(waiting := e.waiting, answers := e.answers) == e
    ensures r.waiting == if e.waiting.Some? && e.waiting.value.event in events then None else e.waiting
  {
    if e.waiting.Some? && e.waiting.value.event in events
    then Respond(e, e.waiting.value.pending, answer).(waiting := None)
    else e
  }

  function CloseStep(e: Endpoint, calls: Calls): (Endpoint, Option<OtError>)
  {
    if calls.abort.Some? then (e, calls.abort)
    else (e.(connection := Closed, queued := 0, unsent := None, endOfStream := false), None)
  }

  function Copied(buffer: Buffer, at: nat, bytes: seq<byte>): (b: Buffer)
    requires at + |bytes| <= SEND_LEN
    ensures b[..at] == buffer[..at] && b[at..at + |bytes|] == bytes
  {
    buffer[..at] + bytes + buffer[at + |bytes|..]
  }

  // Whether the chunk was queued. It is not while there is no room for it, or while
  // the stack's send-done for what it has released is still to come.
  function QueueStep(e: Endpoint, chunk: Chunk, calls: Calls): (Endpoint, Result<bool, OtError>)
  {
    if e.queued + |chunk| > SEND_LEN then (e, Ok(false))
    else
      var copied := e.(sending := Copied(e.sending, e.queued, chunk));
      match calls.send
      case None => (copied.(queued := e.queued + |chunk|), Ok(true))
      case Some(error) => (copied, if error.Failed? && e.queued > 0 then Ok(false) else Err(error))
  }

  function ListenStep(e: Endpoint, port: Option<nat>, calls: Calls): (Endpoint, Result<Outcome, TcpError>)
  {
    var stops := e.listening.Some? && e.listening != port;
    if stops && calls.stopListening.Some? then (e, Err(Stack(calls.stopListening.value)))
    else
      var e := if stops then e.(listening := None) else e;
      if port.None? || e.listening.Some? then (e, Ok(Done([])))
      else if calls.listen.Some? then (e, Err(Stack(calls.listen.value)))
      else (e.(listening := port), Ok(Done([])))
  }

  predicate OpeningTooLong(e: Endpoint, now: int)
  {
    e.connection == Opening && now - e.openingSince > TIMEOUT
  }

  function AcceptStep(e: Endpoint, calls: Calls, now: int): (Endpoint, Result<Outcome, TcpError>)
  {
    var (e, error) := if OpeningTooLong(e, now) then CloseStep(e, calls) else (e, None);
    if error.Some? then (e, Err(Stack(error.value)))
    else if e.connection == Open then (e, Ok(Done([])))
    else if e.connection != Over && e.listening.Some? then (e, Ok(Wait(Accepted)))
    else (e, Err(OutOfSequence))
  }

  function ConnectStep(e: Endpoint, calls: Calls, now: int): (Endpoint, Result<Outcome, TcpError>)
  {
    var (e, error) := CloseStep(e, calls);
    if error.Some? then (e, Err(Stack(error.value)))
    else if calls.connect.Some? then (e, Err(Stack(calls.connect.value)))
    else (e.(connection := Opening, openingSince := now), Ok(Wait(Connected)))
  }

  function SendStep(e: Endpoint, chunk: Chunk, calls: Calls): (Endpoint, Result<Outcome, TcpError>)
  {
    if e.connection != Open || e.unsent.Some? then (e, Err(OutOfSequence))
    else
      var (e, queued) := QueueStep(e, chunk, calls);
      match queued
      case Ok(true) => (e, Ok(Done([])))
      case Ok(false) => (e.(unsent := Some(chunk)), Ok(Wait(Sent)))
      case Err(error) => (e, Err(Stack(error)))
  }

  function ReceiveStep(e: Endpoint, calls: Calls): (Endpoint, Result<Outcome, TcpError>)
  {
    if e.connection == Closed || e.connection == Opening then (e, Err(OutOfSequence))
    else if calls.receive.Err? then (e, Err(Stack(calls.receive.error)))
    else
      var over := e.connection == Over || e.endOfStream;
      (e, Ok(if calls.receive.value == [] && !over then Wait(Received) else Done(calls.receive.value)))
  }

  function RequestStep(e: Endpoint, request: Request, calls: Calls, now: int): (Endpoint, Result<Outcome, TcpError>)
  {
    if !e.ready then (e, Err(Stack(NotImplemented)))
    else
      match request
      case Listen(port) => ListenStep(e, port, calls)
      case Register => (e, if calls.register.Some? then Err(Stack(calls.register.value)) else Ok(Done([])))
      case Accept => AcceptStep(e, calls, now)
      case Connect => ConnectStep(e, calls, now)
      case Send(chunk) => SendStep(e, chunk, calls)
      case Receive => ReceiveStep(e, calls)
      case Finish =>
        (e, if e.connection != Open then Err(OutOfSequence)
            else if calls.endOfStream.Some? then Err(Stack(calls.endOfStream.value)) else Ok(Done([])))
      case Close =>
        var (e, error) := CloseStep(e, calls);
        (e, if error.Some? then Err(Stack(error.value)) else Ok(Done([])))
  }

  // The request takes the place of the one that waits, if any: nobody waits for that
  // one any more.
  function HandleStep(e: Endpoint, request: Request, calls: Calls, now: int): Endpoint
  {
    var pending := e.asked;
    var (e, outcome) := RequestStep(e.(waiting := None, asked := e.asked + 1), request, calls, now);
    match outcome
    case Ok(Done(chunk)) => Respond(e, pending, Ok(chunk))
    case Ok(Wait(event)) => e.(waiting := Some(Waiting(pending, event)))
    case Err(error) => Respond(e, pending, Err(error))
  }

  predicate AcceptsIncoming(e: Endpoint)
  {
    e.listening.Some? && e.connection == Closed
  }

  function SendDoneStep(e: Endpoint, calls: Calls): Endpoint
  {
    if e.unsent.None? then e.(queued := 0)
    else
      var (e, queued) := QueueStep(e.(queued := 0, unsent := None), e.unsent.value, calls);
      var answer := match queued
        case Ok(true) => Ok([])
        case Ok(false) => Err(OutOfSequence)
        case Err(error) => Err(Stack(error));
      RespondTo(e, {Sent}, answer)
  }

  function ReceiveAvailableStep(e: Endpoint, endOfStream: bool, calls: Calls): Endpoint
  {
    var e := e.(endOfStream := e.endOfStream || endOfStream);
    match calls.receive
    case Ok(chunk) => if chunk == [] && !e.endOfStream then e else RespondTo(e, {Received}, Ok(chunk))
    case Err(error) => RespondTo(e, {Received}, Err(Stack(error)))
  }

  function DisconnectedStep(e: Endpoint, reason: Reason): Endpoint
  {
    var e := e.(queued := 0, unsent := None, connection := if reason.TimeWait? then Over else Closed);
    var error := match reason
      case ConnectionRefused => Refused
      case ConnectionTimedOut => TimedOut
      case _ => Reset;
    var e := if reason.Normal? || reason.TimeWait? then RespondTo(e, {Received}, Ok([])) else e;
    RespondTo(e, {Connected, Sent, Received}, Err(error))
  }

  function EventStep(e: Endpoint, event: Event, calls: Calls, now: int): Endpoint
  {
    match event
    case Incoming(valid) =>
      if AcceptsIncoming(e) && valid then e.(connection := Opening, openingSince := now) else e
    case Established =>
      var e := if e.connection != Open then e.(connection := Open, endOfStream := false) else e;
      RespondTo(e, {Accepted, Connected}, Ok([]))
    case SendDone => SendDoneStep(e, calls)
    case ReceiveAvailable(endOfStream) => ReceiveAvailableStep(e, endOfStream, calls)
    case Disconnected(reason) => DisconnectedStep(e, reason)
  }

  datatype Input = Asks(request: Request, calls: Calls, now: int) | CalledBack(event: Event, calls: Calls, now: int)

  function Step(e: Endpoint, input: Input): Endpoint
  {
    match input
    case Asks(request, calls, now) => HandleStep(e, request, calls, now)
    case CalledBack(event, calls, now) => EventStep(e, event, calls, now)
  }

  // ---- What every step keeps ----

  ghost predicate WaitOk(e: Endpoint, event: Wait)
  {
    match event
    case Accepted => e.listening.Some? && e.connection != Open
    case Connected => e.connection == Opening
    case Sent => e.unsent.Some?
    case Received => e.connection == Open && !e.endOfStream
  }

  // Every response is to another request, and none is to the one that waits.
  ghost predicate AnsweredOnce(e: Endpoint)
  {
    && (forall i :: 0 <= i < |e.answers| ==> e.answers[i].0 < e.asked)
    && (forall i, j :: 0 <= i < j < |e.answers| ==> e.answers[i].0 != e.answers[j].0)
    && (e.waiting.Some? ==> e.waiting.value.pending < e.asked)
    && (e.waiting.Some? ==> forall i :: 0 <= i < |e.answers| ==> e.answers[i].0 != e.waiting.value.pending)
  }

  ghost predicate Inv(e: Endpoint)
  {
    && e.queued <= SEND_LEN
    && (e.queued > 0 ==> e.connection == Open)
    && (e.unsent.Some? ==> e.queued > 0)
    && (e.waiting.Some? ==> WaitOk(e, e.waiting.value.event))
    && AnsweredOnce(e)
  }

  ghost predicate Starts(e: Endpoint)
  {
    && e.listening.None? && e.connection == Closed && e.queued == 0 && e.unsent.None? && !e.endOfStream
    && e.waiting.None? && e.asked == 0 && e.answers == []
  }

  // Everything but the history, of an endpoint with no pending request.
  ghost predicate IdleOk(e: Endpoint)
  {
    && e.waiting.None? && e.queued <= SEND_LEN
    && (e.queued > 0 ==> e.connection == Open)
    && (e.unsent.Some? ==> e.queued > 0)
  }

  lemma RequestStepKeeps(e: Endpoint, request: Request, calls: Calls, now: int)
    requires IdleOk(e)
    ensures var (next, outcome) := RequestStep(e, request, calls, now);
            && IdleOk(next) && next.asked == e.asked && next.answers == e.answers
            && (outcome.Ok? && outcome.value.Wait? ==> WaitOk(next, outcome.value.event))
  {
    hide Copied;
  }

  lemma RequestKeeps(e: Endpoint, request: Request, calls: Calls, now: int)
    requires Inv(e)
    ensures Inv(HandleStep(e, request, calls, now))
  {
    hide RequestStep;
    var idle := e.(waiting := None, asked := e.asked + 1);
    RequestStepKeeps(idle, request, calls, now);
    var (next, outcome) := RequestStep(idle, request, calls, now);
    SameAnswers(e, next);
  }

  // A request that has just come has no answer yet.
  lemma SameAnswers(e: Endpoint, next: Endpoint)
    requires AnsweredOnce(e) && next.asked == e.asked + 1 && next.answers == e.answers && next.waiting.None?
    ensures AnsweredOnce(next)
    ensures forall answer :: AnsweredOnce(Respond(next, e.asked, answer))
    ensures forall event :: AnsweredOnce(next.(waiting := Some(Waiting(e.asked, event))))
  {
  }

  lemma RespondKeeps(e: Endpoint, events: set<Wait>, answer: Answer)
    requires AnsweredOnce(e)
    ensures AnsweredOnce(RespondTo(e, events, answer))
  {
  }

  lemma SendDoneKeeps(e: Endpoint, calls: Calls)
    requires Inv(e)
    ensures Inv(SendDoneStep(e, calls))
  {
    hide AnsweredOnce, Copied;
    if e.unsent.Some? {
      var (q, queued) := QueueStep(e.(queued := 0, unsent := None), e.unsent.value, calls);
      assert AnsweredOnce(q) by { SameHistory(e, q); }
      forall answer ensures AnsweredOnce(RespondTo(q, {Sent}, answer)) { RespondKeeps(q, {Sent}, answer); }
    } else {
      SameHistory(e, SendDoneStep(e, calls));
    }
  }

  lemma SameHistory(e: Endpoint, q: Endpoint)
    requires AnsweredOnce(e) && q.asked == e.asked && q.answers == e.answers && q.waiting == e.waiting
    ensures AnsweredOnce(q)
  {
  }

  lemma ReceiveAvailableKeeps(e: Endpoint, endOfStream: bool, calls: Calls)
    requires Inv(e)
    ensures Inv(ReceiveAvailableStep(e, endOfStream, calls))
  {
    var q := e.(endOfStream := e.endOfStream || endOfStream);
    SameHistory(e, q);
    hide AnsweredOnce, RespondTo;
    forall answer ensures AnsweredOnce(RespondTo(q, {Received}, answer)) { RespondKeeps(q, {Received}, answer); }
  }

  lemma DisconnectedKeeps(e: Endpoint, reason: Reason)
    requires Inv(e)
    ensures Inv(DisconnectedStep(e, reason))
  {
    var q := e.(queued := 0, unsent := None, connection := if reason.TimeWait? then Over else Closed);
    SameHistory(e, q);
    hide AnsweredOnce, RespondTo;
    RespondKeeps(q, {Received}, Ok([]));
    forall answer ensures AnsweredOnce(RespondTo(q, {Connected, Sent, Received}, answer)) {
      RespondKeeps(q, {Connected, Sent, Received}, answer);
    }
    var r := RespondTo(q, {Received}, Ok([]));
    forall answer ensures AnsweredOnce(RespondTo(r, {Connected, Sent, Received}, answer)) {
      RespondKeeps(r, {Connected, Sent, Received}, answer);
    }
  }

  lemma EstablishedKeeps(e: Endpoint, calls: Calls, now: int)
    requires Inv(e)
    ensures Inv(EventStep(e, Established, calls, now))
  {
    var q := if e.connection != Open then e.(connection := Open, endOfStream := false) else e;
    SameHistory(e, q);
    hide AnsweredOnce, RespondTo;
    RespondKeeps(q, {Accepted, Connected}, Ok([]));
  }

  lemma Connects(e: Endpoint, event: Event, calls: Calls, now: int)
    ensures var next := EventStep(e, event, calls, now);
            && (event.Incoming? && next != e ==>
                 e.listening.Some? && e.connection == Closed && next == e.(connection := Opening, openingSince := now))
            && (next.connection == Opening && e.connection != Opening ==>
                 event.Incoming? && event.valid && e.listening.Some? && e.connection == Closed)
            && (next.connection == Open && e.connection != Open ==> event.Established?)
  {
    hide Copied;
  }

  // An incoming connection is taken only while the endpoint listens and has none,
  // and nothing else of the endpoint changes with it; only a callback that says so
  // opens a connection.
  lemma EventKeeps(e: Endpoint, event: Event, calls: Calls, now: int)
    requires Inv(e)
    ensures Inv(EventStep(e, event, calls, now))
    ensures var next := EventStep(e, event, calls, now);
            && (event.Incoming? && next != e ==>
                 e.listening.Some? && e.connection == Closed && next == e.(connection := Opening, openingSince := now))
            && (next.connection == Opening && e.connection != Opening ==>
                 event.Incoming? && event.valid && e.listening.Some? && e.connection == Closed)
            && (next.connection == Open && e.connection != Open ==> event.Established?)
  {
    hide SendDoneStep, ReceiveAvailableStep, DisconnectedStep;
    Connects(e, event, calls, now);
    match event
    case Incoming(_) =>
    case Established => EstablishedKeeps(e, calls, now);
    case SendDone => SendDoneKeeps(e, calls);
    case ReceiveAvailable(endOfStream) => ReceiveAvailableKeeps(e, endOfStream, calls);
    case Disconnected(reason) => DisconnectedKeeps(e, reason);
  }

  ghost function Run(e: Endpoint, inputs: seq<Input>): Endpoint
    decreases |inputs|
  {
    if inputs == [] then e else Run(Step(e, inputs[0]), inputs[1..])
  }

  // For every order of requests, failures and callbacks, late and stray ones too.
  lemma {:induction false} RunKeepsInv(e: Endpoint, inputs: seq<Input>)
    requires Inv(e)
    ensures Inv(Run(e, inputs))
    decreases |inputs|
  {
    if inputs != [] {
      hide HandleStep, EventStep, Inv;
      match inputs[0] {
        case Asks(request, calls, now) => RequestKeeps(e, request, calls, now);
        case CalledBack(event, calls, now) => EventKeeps(e, event, calls, now);
      }
      RunKeepsInv(Step(e, inputs[0]), inputs[1..]);
    }
  }

  // In every reachable state: what the pending request waits for can still come,
  // a parked chunk means that the stack still has something to acknowledge, the
  // send buffer is not overfull, and no request has had two responses.
  lemma EndpointIsConsistent(e: Endpoint, inputs: seq<Input>)
    requires Starts(e)
    ensures var last := Run(e, inputs);
            && (forall pending :: last.waiting == Some(Waiting(pending, Sent)) ==>
                 last.connection == Open && last.unsent.Some? && last.queued > 0)
            && (forall pending :: last.waiting == Some(Waiting(pending, Received)) ==>
                 last.connection == Open && !last.endOfStream)
            && (forall pending :: last.waiting == Some(Waiting(pending, Connected)) ==> last.connection == Opening)
            && (forall pending :: last.waiting == Some(Waiting(pending, Accepted)) ==>
                 last.listening.Some? && last.connection != Open)
            && (last.unsent.Some? ==> last.queued > 0) && last.queued <= SEND_LEN
            && (last.connection != Open ==> last.queued == 0 && last.unsent.None?)
            && AnsweredOnce(last)
  {
    RunKeepsInv(e, inputs);
  }

  // A parked chunk always has room in the buffer that the stack has released: it
  // is queued, or the stack refuses it. Its caller is never told that it was
  // out of sequence.
  lemma ParkedChunkHasRoom(e: Endpoint, calls: Calls)
    requires Inv(e) && e.unsent.Some?
    ensures var next := SendDoneStep(e, calls);
            && next.unsent.None? && next.connection == Open
            && (calls.send.None? ==> next.queued == |e.unsent.value| && next.sending[..next.queued] == e.unsent.value)
            && (calls.send.Some? ==> next.queued == 0)
            && (e.waiting.Some? && e.waiting.value.event == Sent ==>
                 && next.waiting.None?
                 && next.answers == e.answers + [(e.waiting.value.pending,
                      if calls.send.None? then Ok([]) else Err(Stack(calls.send.value)))])
  {
  }

  // The callbacks that end each wait, and the response they give.
  function ResponseTo(e: Endpoint, wait: Wait, event: Event, calls: Calls): Option<Answer>
  {
    match (wait, event)
    case (Accepted, Established) => Some(Ok([]))
    case (Connected, Established) => Some(Ok([]))
    case (Sent, SendDone) => Some(if calls.send.None? then Ok([]) else Err(Stack(calls.send.value)))
    case (Received, ReceiveAvailable(end)) =>
      if calls.receive.Err? then Some(Err(Stack(calls.receive.error)))
      else if calls.receive.value == [] && !end then None
      else Some(Ok(calls.receive.value))
    case (Received, Disconnected(Normal)) => Some(Ok([]))
    case (Received, Disconnected(TimeWait)) => Some(Ok([]))
    case (Accepted, Disconnected(_)) => None
    case (_, Disconnected(ConnectionRefused)) => Some(Err(Refused))
    case (_, Disconnected(ConnectionTimedOut)) => Some(Err(TimedOut))
    case (_, Disconnected(_)) => Some(Err(Reset))
    case (_, _) => None
  }

  // A callback answers the pending request exactly if it is one that the request
  // waits for, with what that callback says; any other leaves it waiting.
  lemma AnsweredByItsEvent(e: Endpoint, event: Event, calls: Calls, now: int)
    requires Inv(e) && e.waiting.Some?
    ensures Answered(e, EventStep(e, event, calls, now), ResponseTo(e, e.waiting.value.event, event, calls))
  {
    match event
    case SendDone => AnsweredBySendDone(e, calls, now);
    case Disconnected(reason) => AnsweredByDisconnect(e, reason, calls, now);
    case _ =>
      hide AnsweredOnce, SendDoneStep, DisconnectedStep;
  }

  // The pending request gets this response, if any.
  predicate Answered(e: Endpoint, next: Endpoint, response: Option<Answer>)
    requires e.waiting.Some?
  {
    if response.Some? then next.waiting.None? && next.answers == e.answers + [(e.waiting.value.pending, response.value)]
    else next.waiting == e.waiting && next.answers == e.answers
  }

  lemma AnsweredBySendDone(e: Endpoint, calls: Calls, now: int)
    requires Inv(e) && e.waiting.Some?
    ensures Answered(e, EventStep(e, SendDone, calls, now), ResponseTo(e, e.waiting.value.event, SendDone, calls))
  {
    hide Copied, AnsweredOnce;
  }

  lemma AnsweredByDisconnect(e: Endpoint, reason: Reason, calls: Calls, now: int)
    requires Inv(e) && e.waiting.Some?
    ensures Answered(e, EventStep(e, Disconnected(reason), calls, now),
                     ResponseTo(e, e.waiting.value.event, Disconnected(reason), calls))
  {
    hide AnsweredOnce;
  }

  // A request for data is answered at once with an empty chunk exactly if the peer will
  // send no more: while nothing has come yet, it waits.
  lemma EmptyMeansClosed(e: Endpoint, calls: Calls, now: int)
    requires Inv(e) && e.ready
    ensures var next := HandleStep(e, Receive, calls, now);
            && (|next.answers| > |e.answers| && next.answers[|e.answers|] == (e.asked, Ok([])) <==>
                 calls.receive == Ok([]) && (e.connection == Over || (e.connection == Open && e.endOfStream)))
            && (next.waiting.Some? <==> calls.receive == Ok([]) && e.connection == Open && !e.endOfStream)
  {
    hide AnsweredOnce;
  }

  // A request to listen that is answered without an error has its effect, and one
  // that fails never leaves the listener on a port that was not asked for.
  lemma ListenHasItsEffect(e: Endpoint, port: Option<nat>, calls: Calls, now: int)
    requires Inv(e) && e.ready
    ensures var next := HandleStep(e, Listen(port), calls, now); var answer := next.answers[|e.answers|];
            && |next.answers| == |e.answers| + 1 && answer.0 == e.asked
            && (answer.1.Ok? ==> next.listening == port)
            && (answer.1.Err? ==> next.listening == e.listening || next.listening.None?)
            && next.connection == e.connection && next.queued == e.queued && next.unsent == e.unsent
  {
    hide AnsweredOnce;
  }

  // ---- What a request comes to at once ----

  // The response to a request that is not left waiting.
  function AtOnce(e: Endpoint, request: Request, calls: Calls, now: int): Option<Answer>
  {
    match request
    case Listen(port) =>
      if e.listening == port then Some(Ok([]))
      else if e.listening.Some? && calls.stopListening.Some? then Some(Failure(calls.stopListening))
      else if port.Some? then Some(Failure(calls.listen))
      else Some(Ok([]))
    case Register => Some(Failure(calls.register))
    case Accept =>
      if e.connection == Open then Some(Ok([]))
      else if OpeningTooLong(e, now) && calls.abort.Some? then Some(Failure(calls.abort))
      else if e.connection == Over || e.listening.None? then Some(Err(OutOfSequence))
      else None
    case Connect =>
      if calls.abort.Some? then Some(Failure(calls.abort))
      else if calls.connect.Some? then Some(Failure(calls.connect))
      else None
    case Send(chunk) =>
      if e.connection != Open || e.unsent.Some? then Some(Err(OutOfSequence))
      else if e.queued + |chunk| > SEND_LEN || (calls.send == Some(Failed) && e.queued > 0) then None
      else Some(Failure(calls.send))
    case Receive =>
      if e.connection == Closed || e.connection == Opening then Some(Err(OutOfSequence))
      else if calls.receive.Err? then Some(Err(Stack(calls.receive.error)))
      else if calls.receive.value == [] && e.connection == Open && !e.endOfStream then None
      else Some(Ok(calls.receive.value))
    case Finish => Some(if e.connection != Open then Err(OutOfSequence) else Failure(calls.endOfStream))
    case Close => Some(Failure(calls.abort))
  }

  // How a request fails with a call, or does not.
  function Failure(call: Option<OtError>): Answer
  {
    if call.Some? then Err(Stack(call.value)) else Ok([])
  }

  // What an unanswered request waits for.
  function WaitsFor(request: Request): Wait
  {
    match request
    case Connect => Connected
    case Send(_) => Sent
    case Receive => Received
    case _ => Accepted
  }

  // A request has its one response at once exactly if it is not left to wait for its
  // event, whatever was waiting before.
  lemma AnsweredAtOnce(e: Endpoint, request: Request, calls: Calls, now: int)
    requires Inv(e) && e.ready
    ensures HasOneAnswer(e, request, HandleStep(e, request, calls, now), AtOnce(e, request, calls, now))
  {
    match request
    case Send(chunk) => SendAtOnce(e, chunk, calls, now);
    case Listen(port) => ListenAtOnce(e, port, calls, now);
    case _ =>
      hide Copied, AnsweredOnce, WaitOk, ListenStep, SendStep;
  }

  ghost predicate HasOneAnswer(e: Endpoint, request: Request, next: Endpoint, answer: Option<Answer>)
  {
    && next.asked == e.asked + 1
    && if answer.Some? then next.waiting.None? && next.answers == e.answers + [(e.asked, answer.value)]
       else next.waiting == Some(Waiting(e.asked, WaitsFor(request))) && next.answers == e.answers
  }

  lemma SendAtOnce(e: Endpoint, chunk: Chunk, calls: Calls, now: int)
    requires Inv(e) && e.ready
    ensures HasOneAnswer(e, Send(chunk), HandleStep(e, Send(chunk), calls, now), AtOnce(e, Send(chunk), calls, now))
  {
    hide Copied, AnsweredOnce, WaitOk;
  }

  lemma ListenAtOnce(e: Endpoint, port: Option<nat>, calls: Calls, now: int)
    requires Inv(e) && e.ready
    ensures HasOneAnswer(e, Listen(port), HandleStep(e, Listen(port), calls, now), AtOnce(e, Listen(port), calls, now))
  {
    hide AnsweredOnce, WaitOk;
  }

  predicate Aborts(e: Endpoint, request: Request, now: int)
  {
    e.ready && (request.Connect? || request.Close? || (request.Accept? && OpeningTooLong(e, now)))
  }

  predicate Aborted(e: Endpoint, request: Request, calls: Calls, now: int)
  {
    Aborts(e, request, now) && calls.abort.None?
  }

  // An abort leaves nothing of the connection. Only a connect whose call works starts
  // another one after it, and no other request changes what is known of it.
  lemma OnlyAbortsEnd(e: Endpoint, request: Request, calls: Calls, now: int)
    ensures var next := HandleStep(e, request, calls, now);
            && next.ready == e.ready
            && (if !Aborted(e, request, calls, now) then
                  && next.connection == e.connection && next.endOfStream == e.endOfStream
                  && next.openingSince == e.openingSince
                else
                  && next.queued == 0 && next.unsent.None? && !next.endOfStream
                  && if request.Connect? && calls.connect.None?
                     then next.connection == Opening && next.openingSince == now
                     else next.connection == Closed)
  {
    hide Copied;
  }

  // A connection that has been opening for more than ten seconds is given up by the next
  // request to accept one, and no sooner.
  lemma StuckIsFreed(e: Endpoint, calls: Calls, now: int)
    requires e.ready && e.connection == Opening && calls.abort.None?
    ensures HandleStep(e, Accept, calls, now).connection == if now > e.openingSince + 10_000 then Closed else Opening
  {
  }

  // ---- The connection, by what was requested and called back ----

  // At input k: the stack says that a connection is open.
  predicate Opens(inputs: seq<Input>, k: nat)
  {
    k < |inputs| && inputs[k].CalledBack? && inputs[k].event.Established?
  }

  // The connection, open or over, ends: another disconnect, or an abort that works.
  predicate Ends(input: Input)
  {
    match input
    case Asks(request, calls, _) => (request.Connect? || request.Close?) && calls.abort.None?
    case CalledBack(event, _, _) => event.Disconnected?
  }

  ghost predicate OpenAt(inputs: seq<Input>, k: nat)
  {
    Opens(inputs, k) && forall j :: k < j < |inputs| ==> !Ends(inputs[j])
  }

  predicate TimesOut(inputs: seq<Input>, k: nat)
  {
    k < |inputs| && inputs[k].CalledBack? && inputs[k].event == Disconnected(TimeWait)
  }

  ghost predicate OverAt(inputs: seq<Input>, k: nat)
  {
    TimesOut(inputs, k) && forall j: nat :: k < j < |inputs| ==> !Ends(inputs[j]) && !Opens(inputs, j)
  }

  lemma StepConnects(e: Endpoint, input: Input)
    requires e.ready
    ensures var next := Step(e, input);
            && next.ready
            && (next.connection == Open <==> Opens([input], 0) || (e.connection == Open && !Ends(input)))
            && (next.connection == Over <==>
                  TimesOut([input], 0) || (e.connection == Over && !Ends(input) && !Opens([input], 0)))
  {
    hide HandleStep, SendDoneStep, Copied;
    match input
    case Asks(request, calls, now) => OnlyAbortsEnd(e, request, calls, now);
    case CalledBack(event, calls, now) => SendDoneConnects(e, calls);
  }

  lemma SendDoneConnects(e: Endpoint, calls: Calls)
    ensures SendDoneStep(e, calls).connection == e.connection && SendDoneStep(e, calls).ready == e.ready
  {
    hide Copied;
  }

  ghost predicate HasOpened(inputs: seq<Input>)
  {
    exists k: nat :: OpenAt(inputs, k)
  }

  ghost predicate HasTimedOut(inputs: seq<Input>)
  {
    exists k: nat :: OverAt(inputs, k)
  }

  lemma OneMoreOpens(inputs: seq<Input>)
    requires inputs != []
    ensures var before, last := inputs[..|inputs| - 1], inputs[|inputs| - 1];
            HasOpened(inputs) <==> Opens([last], 0) || (HasOpened(before) && !Ends(last))
  {
    hide Ends;
    var n := |inputs| - 1;
    if HasOpened(inputs) {
      var k: nat :| OpenAt(inputs, k);
      if k < n { assert OpenAt(inputs[..n], k); }
    }
    if HasOpened(inputs[..n]) && !Ends(inputs[n]) {
      var k: nat :| OpenAt(inputs[..n], k);
      assert OpenAt(inputs, k);
    }
    if Opens([inputs[n]], 0) { assert OpenAt(inputs, n); }
  }

  lemma OneMoreTimesOut(inputs: seq<Input>)
    requires inputs != []
    ensures var before, last := inputs[..|inputs| - 1], inputs[|inputs| - 1];
            HasTimedOut(inputs) <==> TimesOut([last], 0) || (HasTimedOut(before) && !Ends(last) && !Opens([last], 0))
  {
    hide Ends;
    var n := |inputs| - 1;
    if HasTimedOut(inputs) {
      var k: nat :| OverAt(inputs, k);
      if k < n { assert OverAt(inputs[..n], k); }
    }
    if HasTimedOut(inputs[..n]) && !Ends(inputs[n]) && !Opens([inputs[n]], 0) {
      var k: nat :| OverAt(inputs[..n], k);
      assert OverAt(inputs, k);
    }
    if TimesOut([inputs[n]], 0) { assert OverAt(inputs, n); }
  }

  // A connection is open exactly if the stack has said so, and neither a disconnect nor
  // an abort that worked came since; it is over exactly since a disconnect that left it
  // to time out.
  lemma {:induction false} OpenExactly(e: Endpoint, inputs: seq<Input>)
    requires e.ready && e.connection != Open && e.connection != Over
    ensures var last := Run(e, inputs);
            && last.ready
            && (last.connection == Open <==> HasOpened(inputs))
            && (last.connection == Over <==> HasTimedOut(inputs))
    decreases |inputs|
  {
    if inputs != [] {
      hide Run, Step, HasOpened, HasTimedOut, Opens, TimesOut, Ends;
      var n := |inputs| - 1;
      OpenExactly(e, inputs[..n]);
      RunOneMore(e, inputs);
      StepConnects(Run(e, inputs[..n]), inputs[n]);
      OneMoreOpens(inputs);
      OneMoreTimesOut(inputs);
    }
  }

  // The request is answered at once that it was out of sequence.
  predicate OutOfTurn(e: Endpoint, request: Request, calls: Calls, now: int)
  {
    HandleStep(e, request, calls, now).answers == e.answers + [(e.asked, Err(OutOfSequence))]
  }

  // Whatever comes after a close that is answered without an error: nothing can be sent
  // or finished exactly until the stack says that a connection is open, and nothing
  // received exactly until then, or until a late disconnect leaves one to time out.
  lemma ClosedMeansShut(e: Endpoint, calls: Calls, now: int, inputs: seq<Input>, then_: Calls, later: int)
    requires Inv(e) && e.ready && HandleStep(e, Close, calls, now).answers == e.answers + [(e.asked, Ok([]))]
    ensures var last := Run(HandleStep(e, Close, calls, now), inputs);
            && (!HasOpened(inputs) ==> forall chunk :: OutOfTurn(last, Send(chunk), then_, later))
            && (OutOfTurn(last, Finish, then_, later) <==> !HasOpened(inputs))
            && (OutOfTurn(last, Receive, then_, later) <==> !HasOpened(inputs) && !HasTimedOut(inputs))
  {
    hide Run, HandleStep, Inv, HasOpened, HasTimedOut;
    var closed := HandleStep(e, Close, calls, now);
    AnsweredAtOnce(e, Close, calls, now);
    assert closed.answers[|e.answers|] == (e.asked, Ok([])) == (e.asked, Failure(calls.abort));
    OnlyAbortsEnd(e, Close, calls, now);
    RequestKeeps(e, Close, calls, now);
    RunKeepsInv(closed, inputs);
    OpenExactly(closed, inputs);
    var last := Run(closed, inputs);
    hide OutOfTurn;
    OutOfTurnExactly(last, Finish, then_, later);
    OutOfTurnExactly(last, Receive, then_, later);
    forall chunk ensures last.connection != Open ==> OutOfTurn(last, Send(chunk), then_, later) {
      OutOfTurnExactly(last, Send(chunk), then_, later);
    }
  }

  lemma OutOfTurnExactly(e: Endpoint, request: Request, calls: Calls, now: int)
    requires Inv(e) && e.ready
    ensures OutOfTurn(e, request, calls, now) <==> AtOnce(e, request, calls, now) == Some(Err(OutOfSequence))
  {
    hide HandleStep, Inv, AtOnce;
    AnsweredAtOnce(e, request, calls, now);
    var answers := HandleStep(e, request, calls, now).answers;
    assert |answers| > |e.answers| ==> answers[|e.answers|] == (e.asked, AtOnce(e, request, calls, now).value);
  }

  // The input can make the endpoint take up another connection.
  predicate TakesUp(input: Input)
  {
    match input
    case Asks(request, calls, _) => request.Connect? && calls.abort.None? && calls.connect.None?
    case CalledBack(event, _, _) => event == Incoming(true) || event.Established? || event == Disconnected(TimeWait)
  }

  // A closed endpoint that listens takes the next incoming connection, until something
  // else has made it take one up.
  lemma {:induction false} ClosedTakesIncoming(e: Endpoint, inputs: seq<Input>, calls: Calls, now: int)
    requires e.ready && e.connection == Closed && forall input :: input in inputs ==> !TakesUp(input)
    ensures var last := Run(e, inputs);
            && last.connection == Closed
            && (EventStep(last, Incoming(true), calls, now) == last.(connection := Opening, openingSince := now)
                <==> last.listening.Some?)
    decreases |inputs|
  {
    if inputs != [] {
      var n := |inputs| - 1;
      assert forall input :: input in inputs[..n] ==> input in inputs;
      ClosedTakesIncoming(e, inputs[..n], calls, now);
      RunOneMore(e, inputs);
      RunReady(e, inputs[..n]);
      StaysClosed(Run(e, inputs[..n]), inputs[n]);
      hide Run, Step;
    }
  }

  lemma {:induction false} RunReady(e: Endpoint, inputs: seq<Input>)
    requires e.ready
    ensures Run(e, inputs).ready
    decreases |inputs|
  {
    if inputs != [] {
      StepConnects(e, inputs[0]);
      hide Step;
      RunReady(Step(e, inputs[0]), inputs[1..]);
    }
  }

  lemma StaysClosed(e: Endpoint, input: Input)
    requires e.ready && e.connection == Closed && !TakesUp(input)
    ensures Step(e, input).connection == Closed
  {
    hide HandleStep, SendDoneStep;
    match input
    case Asks(request, calls, now) => OnlyAbortsEnd(e, request, calls, now);
    case CalledBack(event, calls, now) => SendDoneConnects(e, calls);
  }

  // A close does not rule out a late disconnect for what it closed: one that leaves the
  // connection to time out lets the next request receive again, and keeps an incoming
  // connection from being taken.
  lemma LateDisconnectReopens(e: Endpoint, calls: Calls, now: int, then_: Calls)
    requires Inv(e) && e.ready && calls.abort.None? && then_.receive.Ok?
    ensures var late := EventStep(HandleStep(e, Close, calls, now), Disconnected(TimeWait), then_, now);
            && HandleStep(late, Receive, then_, now).answers == late.answers + [(late.asked, Ok(then_.receive.value))]
            && EventStep(late, Incoming(true), then_, now) == late
  {
    hide AnsweredOnce;
  }

  // ---- Whether the stream has ended ----

  // Input k brings the end of the stream of the connection that is open at the end, if
  // one is: none has opened since, and none was aborted.
  ghost predicate StreamEndsAt(e: Endpoint, inputs: seq<Input>, k: nat)
  {
    && k < |inputs| && TellsEnd(inputs[k])
    && forall j: nat :: k < j < |inputs| ==> !Renews(Run(e, inputs[..j]), inputs[j])
  }

  predicate Renews(e: Endpoint, input: Input)
  {
    match input
    case Asks(request, calls, now) => Aborted(e, request, calls, now)
    case CalledBack(event, _, _) => event.Established? && e.connection != Open
  }

  lemma StepEndsStream(e: Endpoint, input: Input)
    requires e.ready
    ensures Step(e, input).endOfStream <==> TellsEnd(input) || (e.endOfStream && !Renews(e, input))
  {
    hide HandleStep, Copied;
    match input
    case Asks(request, calls, now) => OnlyAbortsEnd(e, request, calls, now);
    case CalledBack(_, _, _) =>
  }

  ghost predicate HasEnded(e: Endpoint, inputs: seq<Input>)
  {
    exists k: nat :: StreamEndsAt(e, inputs, k)
  }

  predicate TellsEnd(input: Input)
  {
    input.CalledBack? && input.event == ReceiveAvailable(true)
  }

  lemma OneMoreEnds(e: Endpoint, inputs: seq<Input>)
    requires inputs != []
    ensures var before, last := inputs[..|inputs| - 1], inputs[|inputs| - 1];
            HasEnded(e, inputs) <==> TellsEnd(last) || (HasEnded(e, before) && !Renews(Run(e, before), last))
  {
    hide Run, Renews;
    var n := |inputs| - 1;
    var before := inputs[..n];
    assert forall j: nat :: j < n ==> before[..j] == inputs[..j];
    if HasEnded(e, inputs) {
      var k: nat :| StreamEndsAt(e, inputs, k);
      if k < n { assert StreamEndsAt(e, before, k); }
    }
    if HasEnded(e, before) && !Renews(Run(e, before), inputs[n]) {
      var k: nat :| StreamEndsAt(e, before, k);
      assert StreamEndsAt(e, inputs, k);
    }
    if TellsEnd(inputs[n]) { assert StreamEndsAt(e, inputs, n); }
  }

  // The stream has ended exactly if the stack has said so of this connection.
  lemma {:induction false} StreamEndsExactly(e: Endpoint, inputs: seq<Input>)
    requires e.ready && !e.endOfStream
    ensures Run(e, inputs).endOfStream <==> HasEnded(e, inputs)
    decreases |inputs|
  {
    if inputs != [] {
      hide Run, Step, Renews, HasEnded;
      var n := |inputs| - 1;
      StreamEndsExactly(e, inputs[..n]);
      RunOneMore(e, inputs);
      RunReady(e, inputs[..n]);
      StepEndsStream(Run(e, inputs[..n]), inputs[n]);
      OneMoreEnds(e, inputs);
    }
  }

  lemma {:induction false} RunOneMore(e: Endpoint, inputs: seq<Input>)
    requires inputs != []
    ensures Run(e, inputs) == Step(Run(e, inputs[..|inputs| - 1]), inputs[|inputs| - 1])
    decreases |inputs|
  {
    hide Step;
    if |inputs| > 1 {
      RunOneMore(Step(e, inputs[0]), inputs[1..]);
      assert inputs[1..][..|inputs| - 2] == inputs[..|inputs| - 1][1..];
    } else {
      assert inputs[1..] == [] == inputs[..0];
    }
  }
}
