// The service that owns the endpoint: an object whose methods change its fields
// and the send buffer in place. Each method is proved to take exactly the step
// that TcpEndpoint defines, so what is proved of the steps holds of the service.
module TcpService {
  import opened Basics
  import opened TcpEndpoint

  class Service {
    const ready: bool
    var listening: Option<nat>
    var connection: Connection
    var openingSince: int
    var queued: nat
    var unsent: Option<Chunk>
    var endOfStream: bool
    var waiting: Option<Waiting>
    const sending: array<byte>
    var asked: nat
    var answers: seq<(nat, Answer)>

    ghost predicate Valid()
      reads this
    {
      sending.Length == SEND_LEN
    }

    ghost function View(): Endpoint
      requires Valid()
      reads this, sending
    {
      Endpoint(
        ready, listening, connection, openingSince, queued, unsent, endOfStream, waiting, sending[..], asked, answers)
    }

    constructor (ready: bool, now: int)
      ensures Valid() && fresh(sending) && Starts(View()) && this.ready == ready
    {
      this.ready := ready;
      sending := new byte[SEND_LEN];
      listening, connection, openingSince, queued, unsent, endOfStream := None, Closed, now, 0, None, false;
      waiting, asked, answers := None, 0, [];
    }

    // Responds to the pending request, if it waits for one of `events`.
    method RespondToWaiting(events: set<Wait>, answer: Answer)
      requires Valid()
      modifies this`waiting, this`answers
      ensures View() == RespondTo(old(View()), events, answer)
    {
      if waiting.Some? && waiting.value.event in events {
        answers := answers + [(waiting.value.pending, answer)];
        waiting := None;
      }
    }

    method TcpClose(calls: Calls) returns (error: Option<OtError>)
      requires Valid()
      modifies this
      ensures Valid() && (View(), error) == CloseStep(old(View()), calls)
      ensures waiting == old(waiting) && asked == old(asked) && answers == old(answers)
    {
      if calls.abort.Some? {
        return calls.abort;
      }
      connection, queued, unsent, endOfStream := Closed, 0, None, false;
      return None;
    }

    method TcpQueue(chunk: Chunk, calls: Calls) returns (result: Result<bool, OtError>)
      requires Valid()
      modifies this`queued, sending
      ensures Valid() && (View(), result) == QueueStep(old(View()), chunk, calls)
    {
      if queued + |chunk| > SEND_LEN {
        return Ok(false);
      }
      Copy(chunk);
      if calls.send.None? {
        queued := queued + |chunk|;
        return Ok(true);
      }
      if calls.send.value.Failed? && queued > 0 {
        return Ok(false);
      }
      return Err(calls.send.value);
    }

    // Copies the bytes into the send buffer, after what is queued there.
    method Copy(bytes: seq<byte>)
      requires Valid() && queued + |bytes| <= SEND_LEN
      modifies sending
      ensures sending[..] == Copied(old(sending[..]), queued, bytes)
    {
      var i := 0;
      while i < |bytes|
        invariant 0 <= i <= |bytes|
        invariant sending[..] == old(sending[..])[..queued] + bytes[..i] + old(sending[..])[queued + i..]
      {
        sending[queued + i] := bytes[i];
        i := i + 1;
      }
    }

    method TcpListen(port: Option<nat>, calls: Calls) returns (outcome: Result<Outcome, TcpError>)
      requires Valid()
      modifies this`listening
      ensures (View(), outcome) == ListenStep(old(View()), port, calls)
    {
      if listening.Some? && listening != port {
        if calls.stopListening.Some? {
          return Err(Stack(calls.stopListening.value));
        }
        listening := None;
      }
      if port.Some? && listening.None? {
        if calls.listen.Some? {
          return Err(Stack(calls.listen.value));
        }
        listening := port;
      }
      return Ok(Done([]));
    }

    method TcpAccept(calls: Calls, now: int) returns (outcome: Result<Outcome, TcpError>)
      requires Valid()
      modifies this
      ensures Valid() && (View(), outcome) == AcceptStep(old(View()), calls, now)
    {
      if connection == Opening && now - openingSince > TIMEOUT {
        var error := TcpClose(calls);
        if error.Some? {
          return Err(Stack(error.value));
        }
      }
      if connection == Open {
        return Ok(Done([]));
      }
      if connection != Over && listening.Some? {
        return Ok(Wait(Accepted));
      }
      return Err(OutOfSequence);
    }

    method TcpConnect(calls: Calls, now: int) returns (outcome: Result<Outcome, TcpError>)
      requires Valid()
      modifies this
      ensures Valid() && (View(), outcome) == ConnectStep(old(View()), calls, now)
    {
      var error := TcpClose(calls);
      if error.Some? {
        return Err(Stack(error.value));
      }
      if calls.connect.Some? {
        return Err(Stack(calls.connect.value));
      }
      connection, openingSince := Opening, now;
      return Ok(Wait(Connected));
    }

    method TcpSend(chunk: Chunk, calls: Calls) returns (outcome: Result<Outcome, TcpError>)
      requires Valid()
      modifies this`queued, this`unsent, sending
      ensures Valid() && (View(), outcome) == SendStep(old(View()), chunk, calls)
    {
      if connection != Open || unsent.Some? {
        return Err(OutOfSequence);
      }
      var result := TcpQueue(chunk, calls);
      match result {
        case Ok(true) => return Ok(Done([]));
        case Ok(false) =>
          unsent := Some(chunk);
          return Ok(Wait(Sent));
        case Err(error) => return Err(Stack(error));
      }
    }

    method TcpReceive(calls: Calls) returns (outcome: Result<Outcome, TcpError>)
      requires Valid()
      ensures (View(), outcome) == ReceiveStep(View(), calls)
    {
      var over := false;
      match connection {
        case Open => over := endOfStream;
        case Over => over := true;
        case Closed => return Err(OutOfSequence);
        case Opening => return Err(OutOfSequence);
      }
      if calls.receive.Err? {
        return Err(Stack(calls.receive.error));
      }
      if calls.receive.value == [] && !over {
        return Ok(Wait(Received));
      }
      return Ok(Done(calls.receive.value));
    }

    method TcpStep(request: Request, calls: Calls, now: int) returns (outcome: Result<Outcome, TcpError>)
      requires Valid()
      modifies this, sending
      ensures Valid() && (View(), outcome) == RequestStep(old(View()), request, calls, now)
    {
      if !ready {
        return Err(Stack(NotImplemented));
      }
      match request {
        case Listen(port) => outcome := TcpListen(port, calls);
        case Register =>
          if calls.register.Some? {
            return Err(Stack(calls.register.value));
          }
          outcome := Ok(Done([]));
        case Accept => outcome := TcpAccept(calls, now);
        case Connect => outcome := TcpConnect(calls, now);
        case Send(chunk) => outcome := TcpSend(chunk, calls);
        case Receive => outcome := TcpReceive(calls);
        case Finish =>
          if connection != Open {
            return Err(OutOfSequence);
          }
          if calls.endOfStream.Some? {
            return Err(Stack(calls.endOfStream.value));
          }
          outcome := Ok(Done([]));
        case Close =>
          var error := TcpClose(calls);
          if error.Some? {
            return Err(Stack(error.value));
          }
          outcome := Ok(Done([]));
      }
    }

    method HandleRequest(request: Request, calls: Calls, now: int)
      requires Valid()
      modifies this, sending
      ensures Valid() && View() == HandleStep(old(View()), request, calls, now)
    {
      hide RequestStep;
      var pending := asked;
      waiting, asked := None, asked + 1;
      var outcome := TcpStep(request, calls, now);
      match outcome {
        case Ok(Done(chunk)) => answers := answers + [(pending, Ok(chunk))];
        case Ok(Wait(event)) => waiting := Some(Waiting(pending, event));
        case Err(error) => answers := answers + [(pending, Err(error))];
      }
    }

    method HandleSendDone(calls: Calls)
      requires Valid()
      modifies this, sending
      ensures Valid() && View() == SendDoneStep(old(View()), calls)
    {
      queued := 0;
      if unsent.Some? {
        var chunk := unsent.value;
        unsent := None;
        var result := TcpQueue(chunk, calls);
        var answer: Answer;
        match result {
          case Ok(true) => answer := Ok([]);
          case Ok(false) => answer := Err(OutOfSequence);
          case Err(error) => answer := Err(Stack(error));
        }
        RespondToWaiting({Sent}, answer);
      }
    }

    method HandleReceiveAvailable(end: bool, calls: Calls)
      requires Valid()
      modifies this`endOfStream, this`waiting, this`answers
      ensures View() == ReceiveAvailableStep(old(View()), end, calls)
    {
      endOfStream := endOfStream || end;
      if waiting.None? || waiting.value.event != Received {
        return;
      }
      match calls.receive {
        case Ok(chunk) =>
          if chunk != [] || endOfStream {
            RespondToWaiting({Received}, Ok(chunk));
          }
        case Err(error) => RespondToWaiting({Received}, Err(Stack(error)));
      }
    }

    method HandleDisconnected(reason: Reason)
      requires Valid()
      modifies this
      ensures Valid() && View() == DisconnectedStep(old(View()), reason)
    {
      queued, unsent := 0, None;
      var ended := reason.Normal? || reason.TimeWait?;
      connection := if reason.TimeWait? then Over else Closed;
      var error := match reason
        case ConnectionRefused => Refused
        case ConnectionTimedOut => TimedOut
        case _ => Reset;
      if waiting.Some? && waiting.value.event != Accepted {
        if waiting.value.event == Received && ended {
          RespondToWaiting({Received}, Ok([]));
        } else {
          RespondToWaiting({Connected, Sent, Received}, Err(error));
        }
      }
    }

    method HandleEvent(event: Event, calls: Calls, now: int)
      requires Valid()
      modifies this, sending
      ensures Valid() && View() == EventStep(old(View()), event, calls, now)
    {
      match event {
        case Incoming(valid) =>
          if listening.Some? && connection == Closed && valid {
            connection, openingSince := Opening, now;
          }
        case Established =>
          if connection != Open {
            connection, endOfStream := Open, false;
          }
          RespondToWaiting({Accepted, Connected}, Ok([]));
        case SendDone => HandleSendDone(calls);
        case ReceiveAvailable(end) => HandleReceiveAvailable(end, calls);
        case Disconnected(reason) => HandleDisconnected(reason);
      }
    }
  }
}
