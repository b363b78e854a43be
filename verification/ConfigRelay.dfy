// The configuration relay: a board passes a host's request on to another board
// over a network that loses, duplicates and reorders, and answers the host with
// the reply. The relay's numbers tell the replies to its questions apart.
module ConfigRelay {
  import opened Basics

  const NUMBERS: nat := 0x1_0000_0000
  // In milliseconds.
  const RESEND_INTERVAL: int := 5_000
  const SLEEPY_POLL_PERIOD: int := 10_000
  const REPLY_TIMEOUT: int := SLEEPY_POLL_PERIOD + 4_000

  type Board = nat
  // A configuration, as it is encoded.
  type Config = seq<byte>

  datatype ConfigError = Storage | Network | NoAnswer
  datatype Result = Ok(stored: Option<Config>) | Err(error: ConfigError)

  datatype Request = Get(board: Board) | Set(board: Board, config: Config)

  datatype Message =
    | Ask(board: Board, question: u32, config: Option<Config>)
    | Has(board: Board, question: u32, stored: Option<Config>)

  // A packet to one board, or to all.
  datatype Packet = Packet(from: Board, to: Option<Board>, message: Message)

  datatype Forwarded = Forwarded(
    pending: nat, board: Board, question: u32, config: Option<Config>, resendAt: int, deadline: int)

  // How a write of a board's configuration to flash goes. After a failure the
  // board reads `left`.
  datatype Write = Write(ok: bool, left: Option<Config>)

  // A board's service.
  datatype Relay = Relay(
    board: Board,
    stored: Option<Config>,
    forwarded: Option<Forwarded>,
    nextQuestion: u32,
    // What it has sent, how many requests it has had, each known by the number of
    // those before it, and the responses it has given.
    sent: seq<Packet>,
    asked: nat,
    answers: seq<(nat, Result)>)

  function Respond(r: Relay, pending: nat, result: Result): Relay
  {
    r.(answers := r.answers + [(pending, result)])
  }

  function Send(r: Relay, to: Option<Board>, message: Message): Relay
  {
    r.(sent := r.sent + [Packet(r.board, to, message)])
  }

  // Stores the configuration, unless it is stored already.
  function Store(r: Relay, config: Config, write: Write): (res: (Relay, bool))
    ensures res.0 == r.(stored := res.0.stored)
    ensures res.1 ==> res.0.stored == Some(config)
  {
    if r.stored == Some(config) then (r, true)
    else (r.(stored := if write.ok then Some(config) else write.left), write.ok)
  }

  function MessageOf(f: Forwarded): Message
  {
    Ask(f.board, f.question, f.config)
  }

  // `reached` says whether the network took the message.
  function Forward(r: Relay, pending: nat, board: Board, config: Option<Config>, now: int, reached: bool): Relay
  {
    var f := Forwarded(pending, board, r.nextQuestion, config, now + RESEND_INTERVAL, now + REPLY_TIMEOUT);
    var r := r.(nextQuestion := (r.nextQuestion + 1) % NUMBERS);
    if reached then Send(r, None, MessageOf(f)).(forwarded := Some(f))
    else Respond(r, pending, Err(Network))
  }

  // The request takes the place of the one that is pending, whose host has given up.
  function RequestStep(r: Relay, request: Request, now: int, write: Write, reached: bool): Relay
  {
    var pending := r.asked;
    var r := r.(forwarded := None, asked := r.asked + 1);
    match request
    case Get(board) =>
      if board == r.board then Respond(r, pending, Ok(r.stored)) else Forward(r, pending, board, None, now, reached)
    case Set(board, config) =>
      if board == r.board then
        var (r, ok) := Store(r, config, write);
        Respond(r, pending, if ok then Ok(Some(config)) else Err(Storage))
      else Forward(r, pending, board, Some(config), now, reached)
  }

  // The reply has not arrived: resends the request, or gives up.
  function ResendStep(r: Relay, now: int, reached: bool): Relay
  {
    if r.forwarded.None? then r
    else
      var f := r.forwarded.value;
      if now < f.deadline then
        var r := r.(forwarded := Some(f.(resendAt := now + RESEND_INTERVAL)));
        if reached then Send(r, None, MessageOf(f)) else r
      else Respond(r, f.pending, Err(NoAnswer)).(forwarded := None)
  }

  function ReplyStep(r: Relay, board: Board, question: u32, stored: Option<Config>): Relay
  {
    if r.forwarded.None? || (r.forwarded.value.board, r.forwarded.value.question) != (board, question) then r
    else
      var f := r.forwarded.value;
      var outcome := if f.config.Some? && stored != f.config then Err(Storage) else Ok(stored);
      Respond(r, f.pending, outcome).(forwarded := None)
  }

  function DatagramStep(r: Relay, from: Board, message: Message, write: Write, reached: bool): Relay
  {
    match message
    case Ask(board, question, config) =>
      if board != r.board then r
      else
        var r := if config.Some? then Store(r, config.value, write).0 else r;
        if reached then Send(r, Some(from), Has(r.board, question, r.stored)) else r
    case Has(board, question, stored) => ReplyStep(r, board, question, stored)
  }

  datatype Input =
    | Asked(request: Request, now: int, write: Write, reached: bool)
    | Received(from: Board, message: Message, write: Write, reached: bool)
    | Due(now: int, reached: bool)
    | Erase(write: Write)

  function Step(r: Relay, input: Input): Relay
  {
    match input
    case Asked(request, now, write, reached) => RequestStep(r, request, now, write, reached)
    case Received(from, message, write, reached) => DatagramStep(r, from, message, write, reached)
    case Due(now, reached) => ResendStep(r, now, reached)
    case Erase(write) => r.(stored := if write.ok then None else write.left)
  }

  // ---- One answer at most ----

  ghost predicate AnsweredOnce(r: Relay)
  {
    && (forall i :: 0 <= i < |r.answers| ==> r.answers[i].0 < r.asked)
    && (forall i, j :: 0 <= i < j < |r.answers| ==> r.answers[i].0 != r.answers[j].0)
    && (r.forwarded.Some? ==> r.forwarded.value.pending < r.asked)
    && (r.forwarded.Some? ==> forall i :: 0 <= i < |r.answers| ==> r.answers[i].0 != r.forwarded.value.pending)
  }

  lemma RequestAnswersOnce(r: Relay, request: Request, now: int, write: Write, reached: bool)
    requires AnsweredOnce(r)
    ensures AnsweredOnce(RequestStep(r, request, now, write, reached))
  {
    var pending := r.asked;
    var next := RequestStep(r, request, now, write, reached);
    assert next.asked == r.asked + 1;
    assert || next.answers == r.answers
           || exists result :: next.answers == r.answers + [(pending, result)] && next.forwarded.None?;
    assert next.forwarded.Some? ==> next.forwarded.value.pending == pending && next.answers == r.answers;
    hide RequestStep;
  }

  lemma StepAnswersOnce(r: Relay, input: Input)
    requires AnsweredOnce(r)
    ensures AnsweredOnce(Step(r, input))
  {
    hide RequestStep, Store;
    if input.Asked? { RequestAnswersOnce(r, input.request, input.now, input.write, input.reached); }
  }

  // ---- One answer at least ----

  ghost function After(r: Relay, inputs: seq<Input>): Relay
    decreases |inputs|
  {
    if inputs == [] then r else After(Step(r, inputs[0]), inputs[1..])
  }

  ghost predicate HasAnswered(r: Relay, pending: nat)
  {
    exists result :: (pending, result) in r.answers
  }

  // A request that is passed on is answered: by a reply, or once its deadline has
  // come, unless a new request replaces it. Resending it does not move the deadline.
  lemma {:induction false} AnsweredByDeadline(r: Relay, inputs: seq<Input>, k: nat)
    requires r.forwarded.Some? && k < |inputs| && inputs[k].Due? && inputs[k].now >= r.forwarded.value.deadline
    requires forall i :: 0 <= i < |inputs| ==> !inputs[i].Asked?
    ensures HasAnswered(After(r, inputs), r.forwarded.value.pending)
    decreases |inputs|
  {
    var f, next := r.forwarded.value, Step(r, inputs[0]);
    StepAnswersOrWaits(r, inputs[0]);
    hide Step;
    if next.forwarded.Some? {
      AnsweredByDeadline(next, inputs[1..], k - 1);
    } else {
      StaysAnswered(next, inputs[1..], f.pending);
    }
  }

  lemma StepAnswersOrWaits(r: Relay, input: Input)
    requires r.forwarded.Some? && !input.Asked?
    ensures var next := Step(r, input); var f := r.forwarded.value;
            if next.forwarded.Some?
            then next.forwarded.value.(resendAt := f.resendAt) == f && !(input.Due? && input.now >= f.deadline)
            else HasAnswered(next, f.pending)
  {
    hide Store;
    var next := Step(r, input);
    if next.forwarded.None? {
      var last := next.answers[|next.answers| - 1];
      assert (r.forwarded.value.pending, last.1) in next.answers;
    }
  }

  lemma {:induction false} StaysAnswered(r: Relay, inputs: seq<Input>, pending: nat)
    requires HasAnswered(r, pending)
    ensures HasAnswered(After(r, inputs), pending)
    decreases |inputs|
  {
    if inputs != [] {
      var result :| (pending, result) in r.answers;
      AnswersGrow(r, inputs[0]);
      assert (pending, result) in Step(r, inputs[0]).answers;
      hide Step;
      StaysAnswered(Step(r, inputs[0]), inputs[1..], pending);
    }
  }

  lemma AnswersGrow(r: Relay, input: Input)
    ensures r.answers <= Step(r, input).answers
  {
    hide Store;
  }

  // ---- The relay, its network, and the other boards ----

  type Stores = Board -> Option<Config>

  // A question of the relay: when it was made, for which request, to whom and what.
  datatype Question = Question(at: nat, pending: nat, board: Board, config: Option<Config>)

  // `boards` are all other boards, each with its own service. A packet that was ever
  // sent can arrive at any time, any number of times, or never. `past` holds what
  // every board had stored at each instant so far.
  datatype World = World(
    relay: Relay, boards: map<Board, Relay>, net: set<Packet>, past: seq<Stores>, questions: seq<Question>)

  datatype Event =
    | AtRelay(input: Input)
    | AtBoard(board: Board, input: Input)
    // A host sends a question of its own.
    | Elsewhere(packet: Packet)

  predicate HasArrived(w: World, at: Board, input: Input)
  {
    input.Received? ==>
      || Packet(input.from, None, input.message) in w.net
      || Packet(input.from, Some(at), input.message) in w.net
  }

  ghost function StoresOf(w: World): Stores
  {
    b => if b in w.boards then w.boards[b].stored else None
  }

  ghost function AtRelayTurn(w: World, input: Input): World
  {
    var relay := Step(w.relay, input);
    var questions :=
      if input.Asked? && input.request.board != w.relay.board
      then
        var config := if input.request.Set? then Some(input.request.config) else None;
        w.questions + [Question(|w.past|, w.relay.asked, input.request.board, config)]
      else w.questions;
    w.(relay := relay, questions := questions, net := w.net + set p | p in relay.sent)
  }

  ghost function AtBoardTurn(w: World, b: Board, input: Input): World
    requires b in w.boards
  {
    var board := Step(w.boards[b], input);
    w.(boards := w.boards[b := board], net := w.net + set p | p in board.sent)
  }

  // An event that cannot happen changes nothing.
  ghost function Next(w: World, event: Event): World
  {
    var v := match event
      case AtRelay(input) => if HasArrived(w, w.relay.board, input) then AtRelayTurn(w, input) else w
      case AtBoard(b, input) => if b in w.boards && HasArrived(w, b, input) then AtBoardTurn(w, b, input) else w
      case Elsewhere(packet) =>
        if packet.from != w.relay.board && packet.message.Ask? then w.(net := w.net + {packet}) else w;
    v.(past := v.past + [StoresOf(v)])
  }

  ghost function Run(w: World, events: seq<Event>): World
    decreases |events|
  {
    if events == [] then w else Run(Next(w, events[0]), events[1..])
  }

  ghost predicate StartsAll(w: World)
  {
    && w.relay.forwarded.None? && w.relay.nextQuestion == 0
    && w.relay.sent == [] && w.relay.asked == 0 && w.relay.answers == []
    && (forall b :: b in w.boards ==> b == w.boards[b].board != w.relay.board && w.boards[b].sent == [])
    && w.net == {} && w.questions == [] && w.past == [StoresOf(w)]
  }

  // ---- What every event keeps ----

  // The message asks the relay's n-th question.
  ghost predicate Asks(w: World, message: Message, n: nat)
  {
    && message.Ask? && n < |w.questions| && message.question == n % NUMBERS
    && message.board == w.questions[n].board && message.config == w.questions[n].config
  }

  ghost predicate IsQuestion(w: World, message: Message)
  {
    exists n: nat :: Asks(w, message, n)
  }

  // The board that was asked the n-th question had `stored` at an instant since.
  ghost predicate HadSince(w: World, n: nat, stored: Option<Config>)
  {
    n < |w.questions| && exists t: nat :: w.questions[n].at <= t < |w.past| && w.past[t](w.questions[n].board) == stored
  }

  ghost predicate Answers(w: World, message: Message, n: nat)
  {
    && message.Has? && HadSince(w, n, message.stored)
    && message.question == n % NUMBERS && message.board == w.questions[n].board
  }

  ghost predicate IsReply(w: World, message: Message)
  {
    exists n: nat :: Answers(w, message, n)
  }

  ghost predicate PacketOk(w: World, p: Packet)
  {
    && (p.message.Ask? && p.from == w.relay.board ==> IsQuestion(w, p.message))
    && (p.message.Has? ==> p.to.Some? && (p.to == Some(w.relay.board) ==> IsReply(w, p.message)))
  }

  ghost predicate ForwardedOk(w: World, f: Forwarded)
  {
    && w.questions != []
    && var n: nat := |w.questions| - 1; var q := w.questions[n];
       f.question == n % NUMBERS && f.board == q.board && f.config == q.config && f.pending == q.pending
  }

  ghost predicate QuestionsOk(w: World)
  {
    && w.relay.nextQuestion == |w.questions| % NUMBERS
    && (forall i :: 0 <= i < |w.questions| ==>
         && w.questions[i].at <= |w.past| && w.questions[i].pending < w.relay.asked
         && w.questions[i].board != w.relay.board)
    && (forall i, j :: 0 <= i < j < |w.questions| ==> w.questions[i].pending < w.questions[j].pending)
  }

  // A request that was passed on, and answered with a configuration, was answered
  // with one that the other board had since, and for a Set with the one to store.
  ghost predicate AnswerOk(w: World, a: (nat, Result))
  {
    a.1.Ok? ==> forall n: nat :: n < |w.questions| && w.questions[n].pending == a.0 ==>
      HadSince(w, n, a.1.stored) && (w.questions[n].config.Some? ==> a.1.stored == w.questions[n].config)
  }

  ghost predicate Inv(w: World)
  {
    && QuestionsOk(w) && AnsweredOnce(w.relay)
    && (w.relay.forwarded.Some? ==> ForwardedOk(w, w.relay.forwarded.value))
    && (forall p :: p in w.net ==> PacketOk(w, p))
    && (forall p :: p in w.relay.sent ==> p in w.net)
    && (forall b :: b in w.boards ==> b == w.boards[b].board != w.relay.board)
    && (forall b, p :: b in w.boards && p in w.boards[b].sent ==> p in w.net)
    && (|w.questions| <= NUMBERS ==> forall a :: a in w.relay.answers ==> AnswerOk(w, a))
  }

  // What a board sends in a step is its pending question, or a reply with what it
  // has stored then.
  lemma StepSends(r: Relay, input: Input, p: Packet)
    requires p in Step(r, input).sent && p !in r.sent
    ensures var next := Step(r, input);
            && p.from == r.board
            && if p.message.Ask? then next.forwarded.Some? && p.message == MessageOf(next.forwarded.value)
               else && input.Received? && input.message.Ask? && input.message.board == r.board
                    && p.to == Some(input.from) && p.message == Has(r.board, input.message.question, next.stored)
  {
    hide Store;
  }

  lemma StepNumbers(r: Relay, input: Input)
    ensures var next := Step(r, input);
            && next.board == r.board && r.sent <= next.sent
            && if input.Asked? && input.request.board != r.board then
                 && next.nextQuestion == (r.nextQuestion + 1) % NUMBERS && next.asked == r.asked + 1
                 && (next.forwarded.Some? ==> var f := next.forwarded.value;
                      && f.pending == r.asked && f.board == input.request.board && f.question == r.nextQuestion
                      && f.config == if input.request.Set? then Some(input.request.config) else None)
               else
                 && next.nextQuestion == r.nextQuestion && next.asked >= r.asked
                 && (next.forwarded.Some? ==>
                      && r.forwarded.Some?
                      && next.forwarded.value.(resendAt := r.forwarded.value.resendAt) == r.forwarded.value)
  {
    hide Store;
  }

  lemma StepAnswers(r: Relay, input: Input, a: (nat, Result))
    requires a in Step(r, input).answers && a !in r.answers && a.1.Ok?
    ensures || (input.Asked? && input.request.board == r.board && a.0 == r.asked)
            || (&& input.Received? && input.message.Has? && r.forwarded.Some?
                && r.forwarded.value.board == input.message.board
                && r.forwarded.value.question == input.message.question
                && a.0 == r.forwarded.value.pending && a.1.stored == input.message.stored
                && (r.forwarded.value.config.Some? ==> a.1.stored == r.forwarded.value.config))
  {
    hide Store;
  }

  ghost predicate Grows(w: World, v: World)
  {
    w.questions <= v.questions && w.past <= v.past && v.relay.board == w.relay.board
  }

  lemma StillHadSince(w: World, v: World, n: nat, stored: Option<Config>)
    requires Grows(w, v) && HadSince(w, n, stored)
    ensures HadSince(v, n, stored)
  {
    var t: nat :| w.questions[n].at <= t < |w.past| && w.past[t](w.questions[n].board) == stored;
    assert v.past[t] == w.past[t] && v.questions[n] == w.questions[n];
  }

  lemma StillOk(w: World, v: World, p: Packet)
    requires Grows(w, v) && PacketOk(w, p)
    ensures PacketOk(v, p)
  {
    if p.message.Ask? && p.from == w.relay.board {
      var n: nat :| Asks(w, p.message, n);
      assert Asks(v, p.message, n);
    }
    if p.message.Has? && p.to == Some(w.relay.board) {
      var n: nat :| Answers(w, p.message, n);
      StillHadSince(w, v, n, p.message.stored);
      assert Answers(v, p.message, n);
    }
  }

  // What arrives at the relay as a question to itself is not from itself.
  lemma NotFromItself(w: World, input: Input)
    requires Inv(w) && input.Received? && input.message.Ask? && input.message.board == w.relay.board
    requires HasArrived(w, w.relay.board, input)
    ensures input.from != w.relay.board
  {
    assert !IsQuestion(w, input.message);
  }

  lemma RelayPackets(w: World, input: Input)
    requires Inv(w) && HasArrived(w, w.relay.board, input)
    ensures var v := Next(w, AtRelay(input));
            && Grows(w, v) && QuestionsOk(v) && (v.relay.forwarded.Some? ==> ForwardedOk(v, v.relay.forwarded.value))
            && (forall p :: p in v.net ==> PacketOk(v, p))
  {
    var v := Next(w, AtRelay(input));
    StepNumbers(w.relay, input);
    hide Step;
    forall p | p in v.net ensures PacketOk(v, p) {
      if p in w.net {
        StillOk(w, v, p);
      } else {
        StepSends(w.relay, input, p);
        if p.message.Ask? {
          assert Asks(v, p.message, |v.questions| - 1);
        } else {
          NotFromItself(w, input);
        }
      }
    }
  }

  lemma RelayAnswers(w: World, input: Input, a: (nat, Result))
    requires Inv(w) && HasArrived(w, w.relay.board, input)
    requires a in Step(w.relay, input).answers && |Next(w, AtRelay(input)).questions| <= NUMBERS
    ensures AnswerOk(Next(w, AtRelay(input)), a)
  {
    hide Step;
    StepNumbers(w.relay, input);
    if a.1.Ok? {
      if a in w.relay.answers { OldAnswers(w, input, a); } else { NewAnswers(w, input, a); }
    }
  }

  lemma NewAnswers(w: World, input: Input, a: (nat, Result))
    requires Inv(w) && HasArrived(w, w.relay.board, input) && a.1.Ok? && a !in w.relay.answers
    requires a in Step(w.relay, input).answers && |Next(w, AtRelay(input)).questions| <= NUMBERS
    ensures AnswerOk(Next(w, AtRelay(input)), a)
  {
    hide Step;
    var v := Next(w, AtRelay(input));
    StepNumbers(w.relay, input);
    StepAnswers(w.relay, input, a);
    if input.Received? && input.message.Has? {
      var n: nat :| Answers(w, input.message, n);
      assert n == |w.questions| - 1;
      StillHadSince(w, v, n, a.1.stored);
    }
  }

  lemma OldAnswers(w: World, input: Input, a: (nat, Result))
    requires Inv(w) && HasArrived(w, w.relay.board, input) && a.1.Ok? && a in w.relay.answers
    requires |Next(w, AtRelay(input)).questions| <= NUMBERS
    ensures AnswerOk(Next(w, AtRelay(input)), a)
  {
    hide Step;
    var v := Next(w, AtRelay(input));
    StepNumbers(w.relay, input);
    forall n: nat | n < |v.questions| && v.questions[n].pending == a.0
      ensures HadSince(v, n, a.1.stored) && (v.questions[n].config.Some? ==> a.1.stored == v.questions[n].config)
    {
      var i :| 0 <= i < |w.relay.answers| && w.relay.answers[i] == a;
      assert AnswerOk(w, a);
      StillHadSince(w, v, n, a.1.stored);
    }
  }

  lemma RelayKeeps(w: World, input: Input)
    requires Inv(w) && HasArrived(w, w.relay.board, input)
    ensures Inv(Next(w, AtRelay(input)))
  {
    var v := Next(w, AtRelay(input));
    RelayPackets(w, input);
    StepAnswersOnce(w.relay, input);
    StepNumbers(w.relay, input);
    if |v.questions| <= NUMBERS {
      forall a | a in v.relay.answers ensures AnswerOk(v, a) { RelayAnswers(w, input, a); }
    }
    hide Step, AnsweredOnce, QuestionsOk, ForwardedOk, PacketOk, AnswerOk;
  }

  // A board's reply says what it has stored at that instant.
  lemma BoardPackets(w: World, b: Board, input: Input, p: Packet)
    requires Inv(w) && b in w.boards && HasArrived(w, b, input)
    requires p in Step(w.boards[b], input).sent
    ensures PacketOk(Next(w, AtBoard(b, input)), p)
  {
    var v := Next(w, AtBoard(b, input));
    if p in w.boards[b].sent {
      StillOk(w, v, p);
    } else {
      StepSends(w.boards[b], input, p);
      hide Step;
      if p.message.Has? && p.to == Some(w.relay.board) {
        var n: nat :| Asks(w, input.message, n);
        assert v.past[|w.past|](b) == p.message.stored;
        assert HadSince(v, n, p.message.stored);
        assert Answers(v, p.message, n);
      }
    }
  }

  lemma BoardKeeps(w: World, b: Board, input: Input)
    requires Inv(w) && b in w.boards && HasArrived(w, b, input)
    ensures Inv(Next(w, AtBoard(b, input)))
  {
    var v := Next(w, AtBoard(b, input));
    StepNumbers(w.boards[b], input);
    forall p | p in v.net ensures PacketOk(v, p) {
      if p in w.net { StillOk(w, v, p); } else { BoardPackets(w, b, input, p); }
    }
    hide Step, PacketOk;
    SameRelay(w, v);
  }

  lemma SameRelay(w: World, v: World)
    requires Inv(w) && Grows(w, v) && v.relay == w.relay && v.questions == w.questions
    ensures QuestionsOk(v) && (v.relay.forwarded.Some? ==> ForwardedOk(v, v.relay.forwarded.value))
    ensures |v.questions| <= NUMBERS ==> forall a :: a in v.relay.answers ==> AnswerOk(v, a)
  {
    if |v.questions| <= NUMBERS {
      forall a | a in v.relay.answers ensures AnswerOk(v, a) {
        assert AnswerOk(w, a);
        forall n: nat | a.1.Ok? && n < |v.questions| && v.questions[n].pending == a.0
          ensures HadSince(v, n, a.1.stored)
        {
          StillHadSince(w, v, n, a.1.stored);
        }
      }
    }
  }

  lemma NextKeeps(w: World, event: Event)
    requires Inv(w)
    ensures Inv(Next(w, event))
  {
    if event.AtRelay? && HasArrived(w, w.relay.board, event.input) {
      RelayKeeps(w, event.input);
    } else if event.AtBoard? && event.board in w.boards && HasArrived(w, event.board, event.input) {
      BoardKeeps(w, event.board, event.input);
    } else {
      var v := Next(w, event);
      hide Step;
      forall p | p in v.net ensures PacketOk(v, p) {
        if p in w.net { StillOk(w, v, p); }
      }
      hide PacketOk;
      SameRelay(w, v);
    }
  }

  lemma {:induction false} RunKeepsInv(w: World, events: seq<Event>)
    requires Inv(w)
    ensures Inv(Run(w, events))
    decreases |events|
  {
    if events != [] {
      hide Next, Inv;
      NextKeeps(w, events[0]);
      RunKeepsInv(Next(w, events[0]), events[1..]);
    }
  }

  // In one boot of the relay, with at most as many questions as numbers, however
  // packets are lost, repeated and reordered: a request for another board that is
  // answered with a configuration was answered with one that the board had at
  // some instant since the request, and for a Set with the very one to store. No
  // request is answered twice.
  lemma RelayedAnswersAreTrue(w: World, events: seq<Event>)
    requires StartsAll(w)
    ensures var last := Run(w, events);
            && AnsweredOnce(last.relay)
            && (|last.questions| <= NUMBERS ==> forall a :: a in last.relay.answers ==> AnswerOk(last, a))
  {
    RunKeepsInv(w, events);
  }

  // ---- Requests for the board itself ----

  // What the board has stored after a request to store `config`, and the answer.
  function Stored(before: Option<Config>, config: Config, write: Write): Option<Config>
  {
    if before == Some(config) || write.ok then Some(config) else write.left
  }

  function LocalResult(before: Option<Config>, request: Request, write: Write): Result
  {
    match request
    case Get(_) => Ok(before)
    case Set(_, config) => if before == Some(config) || write.ok then Ok(Some(config)) else Err(Storage)
  }

  lemma LocalStep(r: Relay, input: Input)
    requires input.Asked? && input.request.board == r.board
    ensures var next := Step(r, input); var request, write := input.request, input.write;
            && next.answers == r.answers + [(r.asked, LocalResult(r.stored, request, write))]
            && next.stored == (if request.Set? then Stored(r.stored, request.config, write) else r.stored)
            && next.forwarded.None? && next.sent == r.sent && next.nextQuestion == r.nextQuestion
  {
  }

  // In every run a request for the board itself has its one answer at once: what the board
  // has stored, or for a Set that it has now stored that very configuration; an error
  // exactly if it had not, and writing it failed.
  lemma LocalAnswersAreTrue(w: World, events: seq<Event>, k: nat)
    requires StartsAll(w) && k < |events| && events[k].AtRelay? && events[k].input.Asked?
    requires events[k].input.request.board == w.relay.board
    ensures var before, after, last := Run(w, events[..k]).relay, Run(w, events[..k + 1]).relay, Run(w, events).relay;
            var request, write := events[k].input.request, events[k].input.write;
            var result := LocalResult(before.stored, request, write);
            && AnsweredOnce(last) && (before.asked, result) in last.answers
            && (request.Get? ==> after.stored == before.stored && result == Ok(after.stored))
            && (request.Set? && result.Ok? ==> after.stored == Some(request.config) && result == Ok(after.stored))
            && (request.Set? && result.Err? ==>
                 && result == Err(Storage) && after.stored == write.left
                 && before.stored != Some(request.config) && !write.ok)
  {
    hide Run, Next, Step, AnsweredOnce;
    var input := events[k].input;
    RelayedAnswersAreTrue(w, events);
    RunInTwo(w, events, k + 1);
    RunOneMore(w, events[..k + 1]);
    assert events[..k + 1][..k] == events[..k];
    var before, after := Run(w, events[..k]), Run(w, events[..k + 1]);
    SameRelayBoard(w, events[..k]);
    RelayTurns(before, input);
    LocalStep(before.relay, input);
    AnswersStay(after, events[k + 1..]);
    var a := (before.relay.asked, LocalResult(before.relay.stored, input.request, input.write));
    assert after.relay.answers[|before.relay.answers|] == a;
  }

  lemma {:induction false} RunInTwo(w: World, events: seq<Event>, k: nat)
    requires k <= |events|
    ensures Run(w, events) == Run(Run(w, events[..k]), events[k..])
    decreases k
  {
    hide Next;
    if k == 0 {
      assert events[..0] == [] && events[0..] == events;
    } else {
      RunInTwo(Next(w, events[0]), events[1..], k - 1);
      assert events[1..][..k - 1] == events[..k][1..] && events[1..][k - 1..] == events[k..];
    }
  }

  lemma RunOneMore(w: World, events: seq<Event>)
    requires events != []
    ensures Run(w, events) == Next(Run(w, events[..|events| - 1]), events[|events| - 1])
  {
    hide Next;
    var n := |events| - 1;
    RunInTwo(w, events, n);
    assert events[n..] == [events[n]] && events[n..][1..] == [];
    var before := Run(w, events[..n]);
    assert Run(before, events[n..]) == Run(Next(before, events[n]), []);
  }

  lemma NextKeepsRelay(w: World, event: Event)
    ensures Next(w, event).relay.board == w.relay.board && w.relay.answers <= Next(w, event).relay.answers
  {
    if event.AtRelay? {
      AnswersGrow(w.relay, event.input);
      StepNumbers(w.relay, event.input);
    }
    hide Step;
  }

  lemma {:induction false} SameRelayBoard(w: World, events: seq<Event>)
    ensures Run(w, events).relay.board == w.relay.board
    decreases |events|
  {
    hide Next;
    if events != [] {
      NextKeepsRelay(w, events[0]);
      SameRelayBoard(Next(w, events[0]), events[1..]);
    }
  }

  lemma {:induction false} AnswersStay(w: World, events: seq<Event>)
    ensures w.relay.answers <= Run(w, events).relay.answers
    decreases |events|
  {
    hide Next;
    if events != [] {
      NextKeepsRelay(w, events[0]);
      AnswersStay(Next(w, events[0]), events[1..]);
    }
  }

  // ---- Requests for another board ----

  function ConfigOf(request: Request): Option<Config>
  {
    if request.Set? then Some(request.config) else None
  }

  // A request for another board is answered at once that the network failed, or is sent,
  // and waits: 5 s until it is sent again, and 14 s in all.
  lemma ForwardStep(r: Relay, request: Request, now: int, write: Write, reached: bool)
    requires request.board != r.board
    ensures var next := RequestStep(r, request, now, write, reached); var n := r.nextQuestion;
            && next.stored == r.stored && next.nextQuestion == (n + 1) % 0x1_0000_0000
            && if reached then
                 && next.forwarded
                    == Some(Forwarded(r.asked, request.board, n, ConfigOf(request), now + 5_000, now + 14_000))
                 && next.sent == r.sent + [Packet(r.board, None, Ask(request.board, n, ConfigOf(request)))]
                 && next.answers == r.answers
               else
                 next.forwarded.None? && next.sent == r.sent && next.answers == r.answers + [(r.asked, Err(Network))]
  {
  }

  // A question that waits is sent again, the same, each time that is due before the
  // deadline; at the deadline its request is answered that there was no answer.
  lemma DueStep(r: Relay, now: int, reached: bool)
    requires r.forwarded.Some?
    ensures var next := Step(r, Due(now, reached)); var f := r.forwarded.value;
            && next.stored == r.stored
            && if now < f.deadline then
                 && next.forwarded == Some(f.(resendAt := now + 5_000)) && next.answers == r.answers
                 && next.sent == (if reached
                                  then r.sent + [Packet(r.board, None, Ask(f.board, f.question, f.config))] else r.sent)
               else
                 next.forwarded.None? && next.answers == r.answers + [(f.pending, Err(NoAnswer))] && next.sent == r.sent
  {
  }

  // What a board that is asked stores and replies.
  lemma AskedStep(r: Relay, from: Board, question: u32, config: Option<Config>, write: Write, reached: bool)
    ensures var next := Step(r, Received(from, Ask(r.board, question, config), write, reached));
            && next.stored == (if config.Some? then Stored(r.stored, config.value, write) else r.stored)
            && next.sent == r.sent + (if reached
                                      then [Packet(r.board, Some(from), Has(r.board, question, next.stored))] else [])
            && next.answers == r.answers && next.forwarded == r.forwarded
  {
  }

  // The answer that the other board's reply makes.
  function RelayedResult(config: Option<Config>, stored: Option<Config>): Result
  {
    if config.Some? && stored != config then Err(Storage) else Ok(stored)
  }

  lemma ReplyStepAnswers(r: Relay, from: Board, stored: Option<Config>, write: Write, reached: bool)
    requires r.forwarded.Some?
    ensures var f := r.forwarded.value;
            var next := Step(r, Received(from, Has(f.board, f.question, stored), write, reached));
            && next.answers == r.answers + [(f.pending, RelayedResult(f.config, stored))]
            && next.forwarded.None? && next.stored == r.stored && next.sent == r.sent
  {
  }

  lemma EraseStep(r: Relay, write: Write)
    ensures Step(r, Erase(write)) == r.(stored := if write.ok then None else write.left)
  {
  }

  // The question reaches the other board, and the reply the relay.
  function Answering(w: World, b: Board, request: Request, write: Write): seq<Event>
    requires b in w.boards
  {
    var config := ConfigOf(request);
    var stored := if config.Some? then Stored(w.boards[b].stored, config.value, write) else w.boards[b].stored;
    [AtRelay(Asked(request, 0, write, true)),
     AtBoard(b, Received(w.relay.board, Ask(b, w.relay.nextQuestion, config), write, true)),
     AtRelay(Received(b, Has(b, w.relay.nextQuestion, stored), write, true))]
  }

  // If nothing is lost, a Get is answered with what the other board has stored, and a Set
  // stores the configuration there and is answered so, exactly if writing it works or
  // it was there already, or is what the failed write has left.
  lemma RelayedRequestIsAnswered(w: World, b: Board, request: Request, write: Write)
    requires Inv(w) && b in w.boards && request.board == b
    ensures var last := Run(w, Answering(w, b, request, write)); var before := w.boards[b].stored;
            && b in last.boards
            && last.boards[b].stored == (if request.Set? then Stored(before, request.config, write) else before)
            && last.relay.answers
               == w.relay.answers + [(w.relay.asked, RelayedResult(ConfigOf(request), last.boards[b].stored))]
  {
    hide Next, Step, Run, Inv;
    var events := Answering(w, b, request, write);
    var asked := Next(w, events[0]);
    RelayedBoard(w, b);
    RelayTurns(w, events[0].input);
    ForwardStep(w.relay, request, 0, write, true);
    AskedIsRequest(w.relay, request, write);
    var question := Packet(w.relay.board, None, Ask(b, w.relay.nextQuestion, ConfigOf(request)));
    assert asked.relay.sent[|w.relay.sent|] == question;
    BoardTurns(asked, b, events[1].input);
    AskedStep(w.boards[b], w.relay.board, w.relay.nextQuestion, ConfigOf(request), write, true);
    var served := Next(asked, events[1]);
    var reply := Packet(b, Some(w.relay.board), events[2].input.message);
    assert served.boards[b].sent[|w.boards[b].sent|] == reply;
    RelayTurns(served, events[2].input);
    ReplyStepAnswers(asked.relay, b, served.boards[b].stored, write, true);
    ThreeEvents(w, events[0], events[1], events[2]);
    assert events == [events[0], events[1], events[2]];
  }

  lemma RelayedBoard(w: World, b: Board)
    requires Inv(w) && b in w.boards
    ensures b == w.boards[b].board != w.relay.board
  {
  }

  lemma AskedIsRequest(r: Relay, request: Request, write: Write)
    ensures Step(r, Asked(request, 0, write, true)) == RequestStep(r, request, 0, write, true)
  {
  }

  lemma RelayTurns(w: World, input: Input)
    requires HasArrived(w, w.relay.board, input)
    ensures var v := Next(w, AtRelay(input));
            v.relay == Step(w.relay, input) && v.boards == w.boards && v.net == w.net + set p | p in v.relay.sent
  {
    hide Step;
  }

  lemma BoardTurns(w: World, b: Board, input: Input)
    requires b in w.boards && HasArrived(w, b, input)
    ensures var v := Next(w, AtBoard(b, input));
            && v.relay == w.relay && v.boards == w.boards[b := Step(w.boards[b], input)]
            && v.net == w.net + set p | p in v.boards[b].sent
  {
    hide Step;
  }

  lemma ThreeEvents(w: World, a: Event, b: Event, c: Event)
    ensures Run(w, [a, b, c]) == Next(Next(Next(w, a), b), c)
  {
    hide Next;
    assert [a, b, c][1..] == [b, c];
    TwoEvents(Next(w, a), b, c);
  }

  // ---- Both conditions are needed ----

  // A host asks the relay to set the configuration of another board, and the network
  // takes the question.
  function SetAt(b: Board, config: Config): Event
  {
    AtRelay(Asked(Set(b, config), 0, Write(true, None), true))
  }

  function ReplyAt(from: Board, message: Message): Event
  {
    AtRelay(Received(from, message, Write(true, None), true))
  }

  // The question is the relay's next, and waits for its reply.
  lemma SetIsAsked(w: World, b: Board, config: Config)
    requires b != w.relay.board
    ensures var v := Next(w, SetAt(b, config)); var n := w.relay.nextQuestion;
            && v.boards == w.boards && v.relay.board == w.relay.board && v.relay.answers == w.relay.answers
            && v.questions == w.questions + [Question(|w.past|, w.relay.asked, b, Some(config))]
            && |v.past| == |w.past| + 1 && v.past[|w.past|](b) == StoresOf(w)(b)
            && v.relay.nextQuestion == (n + 1) % NUMBERS && v.relay.asked == w.relay.asked + 1
            && v.relay.forwarded.Some? && v.relay.forwarded.value.pending == w.relay.asked
            && MessageOf(v.relay.forwarded.value) == Ask(b, n, Some(config))
            && w.net <= v.net && Packet(w.relay.board, None, Ask(b, n, Some(config))) in v.net
  {
    var v := Next(w, SetAt(b, config));
    assert Packet(w.relay.board, None, Ask(b, w.relay.nextQuestion, Some(config))) in v.relay.sent;
  }

  // A reply with the question's number that is in the network, whatever it replied to,
  // is taken for the answer.
  lemma ReplyIsTaken(w: World, b: Board, config: Config)
    requires w.relay.forwarded.Some?
    requires w.relay.forwarded.value.board == b && w.relay.forwarded.value.config == Some(config)
    requires Packet(b, Some(w.relay.board), Has(b, w.relay.forwarded.value.question, Some(config))) in w.net
    ensures var v := Next(w, ReplyAt(b, Has(b, w.relay.forwarded.value.question, Some(config))));
            && v.questions == w.questions && v.boards == w.boards
            && w.past <= v.past && |v.past| == |w.past| + 1 && v.past[|w.past|](b) == StoresOf(w)(b)
            && v.relay.answers == w.relay.answers + [(w.relay.forwarded.value.pending, Ok(Some(config)))]
  {
  }

  // A question and a reply from before it: the answer says that the board stored the
  // configuration, which it never has since.
  lemma OldReplyIsNoAnswer(w: World, b: Board, config: Config)
    requires b != w.relay.board && StoresOf(w)(b) != Some(config)
    requires Packet(b, Some(w.relay.board), Has(b, w.relay.nextQuestion, Some(config))) in w.net
    ensures var last := Run(w, [SetAt(b, config), ReplyAt(b, Has(b, w.relay.nextQuestion, Some(config)))]);
            var a := (w.relay.asked, Ok(Some(config)));
            && |last.questions| == |w.questions| + 1 && a in last.relay.answers && !AnswerOk(last, a)
  {
    var reply := ReplyAt(b, Has(b, w.relay.nextQuestion, Some(config)));
    var asked := Next(w, SetAt(b, config));
    var last := Next(asked, reply);
    TwoEvents(w, SetAt(b, config), reply);
    SetIsAsked(w, b, config);
    ReplyIsTaken(asked, b, config);
    hide Next, Run;
    var n: nat := |w.questions|;
    assert last.questions[n] == Question(|w.past|, w.relay.asked, b, Some(config));
    forall t: nat | last.questions[n].at <= t < |last.past| ensures last.past[t](b) != Some(config) {
      assert t < |asked.past| ==> last.past[t] == asked.past[t];
    }
    assert !HadSince(last, n, Some(config));
  }

  lemma TwoEvents(w: World, a: Event, b: Event)
    ensures Run(w, [a, b]) == Next(Next(w, a), b)
  {
    hide Next;
    assert [a, b][1..] == [b] && [b][1..] == [];
    assert Run(Next(w, a), [b]) == Run(Next(Next(w, a), b), []);
  }

  // After the relay has started anew its numbers start anew, too: a reply left in the
  // network from before can answer its first question.
  lemma ReplyFromBeforeTheStart(w: World, b: Board, config: Config)
    requires StartsAll(w.(net := {})) && w.net == {Packet(b, Some(w.relay.board), Has(b, 0, Some(config)))}
    requires b != w.relay.board && StoresOf(w)(b) != Some(config)
    ensures var last := Run(w, [SetAt(b, config), ReplyAt(b, Has(b, 0, Some(config)))]);
            && |last.questions| == 1 && (0, Ok(Some(config))) in last.relay.answers
            && !AnswerOk(last, (0, Ok(Some(config))))
  {
    OldReplyIsNoAnswer(w, b, config);
  }

  // `n` questions that the network does not take.
  function NotTaken(b: Board, n: nat): (events: seq<Event>)
  {
    if n == 0 then [] else [AtRelay(Asked(Get(b), 0, Write(true, None), false))] + NotTaken(b, n - 1)
  }

  lemma {:induction false} AfterNotTaken(w: World, b: Board, n: nat)
    requires b != w.relay.board
    ensures var v := Run(w, NotTaken(b, n));
            && v.boards == w.boards && v.net >= w.net && v.relay.board == w.relay.board
            && |v.questions| == |w.questions| + n && v.relay.asked == w.relay.asked + n
            && v.relay.nextQuestion == (w.relay.nextQuestion + n) % NUMBERS
    decreases n
  {
    if n > 0 {
      hide Next;
      var events := NotTaken(b, n);
      var v := Next(w, events[0]);
      assert events[1..] == NotTaken(b, n - 1);
      NotTakenFacts(w, b);
      AfterNotTaken(v, b, n - 1);
      Wraps(w.relay.nextQuestion, n - 1);
    }
  }

  lemma NotTakenFacts(w: World, b: Board)
    requires b != w.relay.board
    ensures var v := Next(w, AtRelay(Asked(Get(b), 0, Write(true, None), false)));
            && v.boards == w.boards && v.net >= w.net && v.relay.board == w.relay.board
            && |v.questions| == |w.questions| + 1 && v.relay.asked == w.relay.asked + 1
            && v.relay.nextQuestion == (w.relay.nextQuestion + 1) % NUMBERS
  {
  }

  lemma Wraps(a: nat, n: nat)
    ensures ((a + 1) % NUMBERS + n) % NUMBERS == (a + (n + 1)) % NUMBERS
  {
  }

  // The board stores what it is asked to, replies, and is then erased.
  function StoredAndErased(from: Board, b: Board, config: Config): seq<Event>
  {
    [AtBoard(b, Received(from, Ask(b, 0, Some(config)), Write(true, None), true)), AtBoard(b, Erase(Write(true, None)))]
  }

  lemma AfterErase(w: World, b: Board, config: Config)
    requires b in w.boards && w.boards[b].board == b && b != w.relay.board
    requires Packet(w.relay.board, None, Ask(b, 0, Some(config))) in w.net
    ensures var v := Run(w, StoredAndErased(w.relay.board, b, config));
            && v.relay == w.relay && v.questions == w.questions && b in v.boards && v.boards[b].stored.None?
            && Packet(b, Some(w.relay.board), Has(b, 0, Some(config))) in v.net
  {
    hide Next;
    var events := StoredAndErased(w.relay.board, b, config);
    TwoEvents(w, events[0], events[1]);
    assert events == [events[0], events[1]];
    AfterStore(w, b, config);
    ErasedAt(Next(w, events[0]), b);
  }

  lemma AfterStore(w: World, b: Board, config: Config)
    requires b in w.boards && w.boards[b].board == b
    requires Packet(w.relay.board, None, Ask(b, 0, Some(config))) in w.net
    ensures var v := Next(w, AtBoard(b, Received(w.relay.board, Ask(b, 0, Some(config)), Write(true, None), true)));
            && v.relay == w.relay && v.questions == w.questions && b in v.boards
            && Packet(b, Some(w.relay.board), Has(b, 0, Some(config))) in v.net
  {
    var board := Step(w.boards[b], Received(w.relay.board, Ask(b, 0, Some(config)), Write(true, None), true));
    assert Packet(b, Some(w.relay.board), Has(b, 0, Some(config))) in board.sent;
  }

  lemma ErasedAt(w: World, b: Board)
    requires b in w.boards
    ensures var v := Next(w, AtBoard(b, Erase(Write(true, None))));
            && v.relay == w.relay && v.questions == w.questions && b in v.boards && v.boards[b].stored.None?
            && w.net <= v.net
  {
  }

  // One question more than there are numbers, and the reply to the first one can answer
  // the last: the board is then said to store what it does not.
  lemma OneQuestionMoreGetsAnOldReply(w: World, b: Board, config: Config)
    requires StartsAll(w) && b in w.boards
    ensures var erased := Run(Next(w, SetAt(b, config)), StoredAndErased(w.relay.board, b, config));
            var many := Run(erased, NotTaken(b, NUMBERS - 1));
            var last := Run(many, [SetAt(b, config), ReplyAt(b, Has(b, 0, Some(config)))]);
            && |last.questions| == NUMBERS + 1 && (NUMBERS, Ok(Some(config))) in last.relay.answers
            && !AnswerOk(last, (NUMBERS, Ok(Some(config))))
  {
    hide Next, Run, AnswerOk, NotTaken;
    var asked := Next(w, SetAt(b, config));
    SetIsAsked(w, b, config);
    AfterErase(asked, b, config);
    var erased := Run(asked, StoredAndErased(w.relay.board, b, config));
    AfterNotTaken(erased, b, NUMBERS - 1);
    var many := Run(erased, NotTaken(b, NUMBERS - 1));
    OldReplyIsNoAnswer(many, b, config);
  }

  // ---- The service ----

  // A board's service, which changes its fields in place.
  class Configs {
    const board: Board
    var stored: Option<Config>
    var forwarded: Option<Forwarded>
    var nextQuestion: u32
    var sent: seq<Packet>
    var asked: nat
    var answers: seq<(nat, Result)>

    ghost function View(): Relay
      reads this
    {
      Relay(board, stored, forwarded, nextQuestion, sent, asked, answers)
    }

    constructor (board: Board, stored: Option<Config>)
      ensures View() == Relay(board, stored, None, 0, [], 0, [])
    {
      this.board, this.stored, forwarded, nextQuestion, sent, asked, answers := board, stored, None, 0, [], 0, [];
    }

    method RespondTo(pending: nat, result: Result)
      modifies this`answers
      ensures View() == Respond(old(View()), pending, result)
    {
      answers := answers + [(pending, result)];
    }

    method SendTo(to: Option<Board>, message: Message)
      modifies this`sent
      ensures View() == Send(old(View()), to, message)
    {
      sent := sent + [Packet(board, to, message)];
    }

    method StoreConfig(config: Config, write: Write) returns (ok: bool)
      modifies this`stored
      ensures (View(), ok) == Store(old(View()), config, write)
    {
      if stored == Some(config) {
        return true;
      }
      stored := if write.ok then Some(config) else write.left;
      return write.ok;
    }

    method EraseConfig(write: Write)
      modifies this`stored
      ensures View() == Step(old(View()), Erase(write))
    {
      stored := if write.ok then None else write.left;
    }

    method ForwardTo(pending: nat, to: Board, config: Option<Config>, now: int, reached: bool)
      modifies this
      ensures View() == Forward(old(View()), pending, to, config, now, reached)
    {
      var f := Forwarded(pending, to, nextQuestion, config, now + RESEND_INTERVAL, now + REPLY_TIMEOUT);
      nextQuestion := (nextQuestion + 1) % NUMBERS;
      if reached {
        SendTo(None, MessageOf(f));
        forwarded := Some(f);
      } else {
        RespondTo(pending, Err(Network));
      }
    }

    method HandleRequest(request: Request, now: int, write: Write, reached: bool)
      modifies this
      ensures View() == RequestStep(old(View()), request, now, write, reached)
    {
      var pending := asked;
      forwarded, asked := None, asked + 1;
      match request {
        case Get(to) =>
          if to == board {
            RespondTo(pending, Ok(stored));
          } else {
            ForwardTo(pending, to, None, now, reached);
          }
        case Set(to, config) =>
          if to == board {
            var ok := StoreConfig(config, write);
            RespondTo(pending, if ok then Ok(Some(config)) else Err(Storage));
          } else {
            ForwardTo(pending, to, Some(config), now, reached);
          }
      }
    }

    method Resend(now: int, reached: bool)
      modifies this
      ensures View() == ResendStep(old(View()), now, reached)
    {
      if forwarded.None? {
        return;
      }
      var f := forwarded.value;
      if now < f.deadline {
        forwarded := Some(f.(resendAt := now + RESEND_INTERVAL));
        if reached {
          SendTo(None, MessageOf(f));
        }
      } else {
        forwarded := None;
        RespondTo(f.pending, Err(NoAnswer));
      }
    }

    method HandleDatagram(from: Board, message: Message, write: Write, reached: bool)
      modifies this
      ensures View() == DatagramStep(old(View()), from, message, write, reached)
    {
      match message {
        case Ask(to, question, config) =>
          if to == board {
            if config.Some? {
              var _ := StoreConfig(config.value, write);
            }
            if reached {
              SendTo(Some(from), Has(board, question, stored));
            }
          }
        case Has(of, question, reported) => HandleReply(of, question, reported);
      }
    }

    method HandleReply(of: Board, question: u32, reported: Option<Config>)
      modifies this`forwarded, this`answers
      ensures View() == ReplyStep(old(View()), of, question, reported)
    {
      if forwarded.None? || forwarded.value.board != of || forwarded.value.question != question {
        return;
      }
      var f := forwarded.value;
      forwarded := None;
      if f.config.Some? && reported != f.config {
        RespondTo(f.pending, Err(Storage));
      } else {
        RespondTo(f.pending, Ok(reported));
      }
    }
  }
}
