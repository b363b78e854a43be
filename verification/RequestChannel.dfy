// A client and a server that share two signals, each of which holds one value and is
// overwritten in place, and tell by 32-bit numbers which request a response is to.
// The client gives up after a timeout, and the server answers anyway.
module RequestChannel {
  import opened Basics

  const IDS: nat := 0x1_0000_0000

  // `call` is history: the number of calls made before the one it belongs to.
  datatype Signal<T> = Signal(id: u32, value: T, call: nat)

  // A call under way: its number, and how many calls came before it.
  datatype Pending = Pending(id: u32, call: nat)

  datatype Answer<T> = Answer(call: nat, response: T)

  datatype Channel<Q, A> = Channel(
    request: Option<Signal<Q>>,
    response: Option<Signal<A>>,
    next: u32,
    // The call that waits for its response, and its number.
    waiting: Option<Pending>,
    pending: seq<Pending>,
    // History: the requests made, what the server responded to each, and what
    // the calls returned.
    made: seq<Q>,
    responded: seq<Answer<A>>,
    returned: seq<Answer<A>>)

  datatype Event<Q, A> =
    | Call(request: Q)
    | TimeOut
    | Receive
    // The server responds to one of the requests it holds.
    | Respond(which: nat, response: A)
    // The client takes the response signal.
    | Take

  function CallStep<Q, A>(c: Channel<Q, A>, request: Q): Channel<Q, A>
  {
    var id := c.next;
    c.(next := (id + 1) % IDS, request := Some(Signal(id, request, |c.made|)),
       waiting := Some(Pending(id, |c.made|)), made := c.made + [request])
  }

  function ReceiveStep<Q, A>(c: Channel<Q, A>): Channel<Q, A>
  {
    if c.request.None? then c
    else c.(request := None, pending := c.pending + [Pending(c.request.value.id, c.request.value.call)])
  }

  function RespondStep<Q, A>(c: Channel<Q, A>, which: nat, response: A): Channel<Q, A>
  {
    if which >= |c.pending| then c
    else
      var p := c.pending[which];
      c.(pending := c.pending[..which] + c.pending[which + 1..],
         response := Some(Signal(p.id, response, p.call)),
         responded := c.responded + [Answer(p.call, response)])
  }

  // A response with another number is for an earlier request, and is dropped.
  function TakeStep<Q, A>(c: Channel<Q, A>): Channel<Q, A>
  {
    if c.waiting.None? || c.response.None? then c
    else if c.response.value.id != c.waiting.value.id then c.(response := None)
    else c.(response := None, waiting := None,
            returned := c.returned + [Answer(c.waiting.value.call, c.response.value.value)])
  }

  // The client makes one call at a time.
  function Next<Q, A>(c: Channel<Q, A>, event: Event<Q, A>): Channel<Q, A>
  {
    match event
    case Call(request) => if c.waiting.Some? then c else CallStep(c, request)
    case TimeOut => c.(waiting := None)
    case Receive => ReceiveStep(c)
    case Respond(which, response) => RespondStep(c, which, response)
    case Take => TakeStep(c)
  }

  ghost function Run<Q, A>(c: Channel<Q, A>, events: seq<Event<Q, A>>): Channel<Q, A>
    decreases |events|
  {
    if events == [] then c else Run(Next(c, events[0]), events[1..])
  }

  ghost predicate Starts<Q, A>(c: Channel<Q, A>)
  {
    c == Channel(None, None, 0, None, [], [], [], [])
  }

  ghost predicate Numbered<Q, A>(c: Channel<Q, A>, id: u32, call: nat)
  {
    call < |c.made| && id == call % IDS
  }

  // The server has responded to a call with the number of `a`'s, no later than
  // `a`'s, with what `a` has.
  ghost predicate RespondedAlike<Q, A>(c: Channel<Q, A>, a: Answer<A>)
  {
    exists m: nat :: m <= a.call && m % IDS == a.call % IDS && Answer(m, a.response) in c.responded
  }

  ghost predicate Inv<Q, A>(c: Channel<Q, A>)
  {
    && c.next == |c.made| % IDS
    && (c.request.Some? ==> Numbered(c, c.request.value.id, c.request.value.call)
                            && c.request.value.value == c.made[c.request.value.call])
    && (c.waiting.Some? ==>
          Numbered(c, c.waiting.value.id, c.waiting.value.call) && c.waiting.value.call == |c.made| - 1)
    && (forall p :: p in c.pending ==> Numbered(c, p.id, p.call))
    && (c.response.Some? ==> Numbered(c, c.response.value.id, c.response.value.call)
                             && Answer(c.response.value.call, c.response.value.value) in c.responded)
    && (forall a :: a in c.responded ==> a.call < |c.made|)
    && (forall a :: a in c.returned ==> a.call < |c.made| && RespondedAlike(c, a))
  }

  lemma NextKeeps<Q, A>(c: Channel<Q, A>, event: Event<Q, A>)
    requires Inv(c)
    ensures Inv(Next(c, event))
  {
    var d := Next(c, event);
    assert event.Respond? ==> forall p :: p in d.pending ==> p in c.pending;
    hide RespondedAlike;
    forall a | a in d.returned ensures a.call < |d.made| && RespondedAlike(d, a) {
      if a in c.returned {
        StillAlike(c, d, a);
      } else {
        TakenAlike(c, d, a);
      }
    }
  }

  lemma StillAlike<Q, A>(c: Channel<Q, A>, d: Channel<Q, A>, a: Answer<A>)
    requires RespondedAlike(c, a) && c.responded <= d.responded
    ensures RespondedAlike(d, a)
  {
    var m: nat :| m <= a.call && m % IDS == a.call % IDS && Answer(m, a.response) in c.responded;
    assert Answer(m, a.response) in d.responded;
  }

  // A response that is taken has the number of the last call.
  lemma TakenAlike<Q, A>(c: Channel<Q, A>, d: Channel<Q, A>, a: Answer<A>)
    requires Inv(c) && c.waiting.Some? && c.response.Some? && c.response.value.id == c.waiting.value.id
    requires a == Answer(c.waiting.value.call, c.response.value.value) && d.responded == c.responded
    ensures RespondedAlike(d, a)
  {
    assert Answer(c.response.value.call, a.response) in d.responded;
  }

  lemma {:induction false} RunKeepsInv<Q, A>(c: Channel<Q, A>, events: seq<Event<Q, A>>)
    requires Inv(c)
    ensures Inv(Run(c, events))
    decreases |events|
  {
    if events != [] {
      hide Next, Inv;
      NextKeeps(c, events[0]);
      RunKeepsInv(Next(c, events[0]), events[1..]);
    }
  }

  // However calls, timeouts, overwritten signals and late responses interleave: a
  // call that returns a response returns one that the server gave to that very
  // request, if there have been no more calls than numbers, and to one with
  // the same number in any case.
  lemma CallReturnsItsResponse<Q, A>(c: Channel<Q, A>, events: seq<Event<Q, A>>)
    requires Starts(c)
    ensures var last := Run(c, events);
            && (forall a :: a in last.returned ==> RespondedAlike(last, a))
            && (|last.made| <= IDS ==> forall a :: a in last.returned ==> a in last.responded)
  {
    hide Run, Next;
    RunKeepsInv(c, events);
    var last := Run(c, events);
    if |last.made| <= IDS {
      forall a | a in last.returned ensures a in last.responded {
        var m: nat :| m <= a.call && m % IDS == a.call % IDS && Answer(m, a.response) in last.responded;
      }
    }
  }

  // ---- Each at most once ----

  predicate Holds<A>(answers: seq<Answer<A>>, call: nat)
  {
    exists i :: 0 <= i < |answers| && answers[i].call == call
  }

  ghost predicate Distinct<A>(answers: seq<Answer<A>>)
  {
    forall i, j :: 0 <= i < j < |answers| ==> answers[i].call != answers[j].call
  }

  // The server has had each request at most once, and what it holds is not answered yet;
  // the call that waits has returned nothing, and every response is taken only once.
  ghost predicate Once<Q, A>(c: Channel<Q, A>)
  {
    && Distinct(c.responded) && Distinct(c.returned)
    && (forall i, j :: 0 <= i < j < |c.pending| ==> c.pending[i].call != c.pending[j].call)
    && (forall i :: 0 <= i < |c.pending| ==> !Holds(c.responded, c.pending[i].call))
    && (c.request.Some? ==> !Holds(c.responded, c.request.value.call))
    && (c.request.Some? ==> forall i :: 0 <= i < |c.pending| ==> c.pending[i].call != c.request.value.call)
    && (c.waiting.Some? ==> !Holds(c.returned, c.waiting.value.call))
    && |c.returned| + (if c.response.Some? then 1 else 0) <= |c.responded|
  }

  lemma OneMoreHolds<A>(answers: seq<Answer<A>>, a: Answer<A>)
    ensures forall call :: Holds(answers + [a], call) <==> Holds(answers, call) || call == a.call
    ensures Distinct(answers) && !Holds(answers, a.call) ==> Distinct(answers + [a])
  {
    var more := answers + [a];
    forall call ensures Holds(more, call) <==> Holds(answers, call) || call == a.call {
      if Holds(answers, call) {
        var i :| 0 <= i < |answers| && answers[i].call == call;
        assert more[i].call == call;
      }
      if call == a.call { assert more[|answers|].call == call; }
    }
  }

  // Every call has another number than those before it.
  lemma NotHeldYet<Q, A>(c: Channel<Q, A>)
    requires Inv(c)
    ensures !Holds(c.responded, |c.made|) && !Holds(c.returned, |c.made|)
    ensures forall i :: 0 <= i < |c.pending| ==> c.pending[i].call < |c.made|
  {
    forall i | 0 <= i < |c.responded| ensures c.responded[i].call < |c.made| { assert c.responded[i] in c.responded; }
    forall i | 0 <= i < |c.returned| ensures c.returned[i].call < |c.made| { assert c.returned[i] in c.returned; }
    forall i | 0 <= i < |c.pending| ensures c.pending[i].call < |c.made| { assert c.pending[i] in c.pending; }
  }

  lemma NextKeepsOnce<Q, A>(c: Channel<Q, A>, event: Event<Q, A>)
    requires Inv(c) && Once(c)
    ensures Once(Next(c, event))
  {
    hide Holds, Distinct;
    NotHeldYet(c);
    match event
    case Respond(which, response) =>
      if which < |c.pending| { OneMoreHolds(c.responded, Answer(c.pending[which].call, response)); }
    case Take =>
      if c.waiting.Some? && c.response.Some? {
        OneMoreHolds(c.returned, Answer(c.waiting.value.call, c.response.value.value));
      }
    case _ =>
  }

  lemma {:induction false} RunKeepsOnce<Q, A>(c: Channel<Q, A>, events: seq<Event<Q, A>>)
    requires Inv(c) && Once(c)
    ensures Once(Run(c, events))
    decreases |events|
  {
    if events != [] {
      hide Next, Inv, Once;
      NextKeeps(c, events[0]);
      NextKeepsOnce(c, events[0]);
      RunKeepsOnce(Next(c, events[0]), events[1..]);
    }
  }

  // In every run the server answers each request at most once, each call returns at most
  // once, and no response is returned twice.
  lemma EachAtMostOnce<Q, A>(c: Channel<Q, A>, events: seq<Event<Q, A>>)
    requires Starts(c)
    ensures var last := Run(c, events);
            Distinct(last.responded) && Distinct(last.returned) && |last.returned| <= |last.responded|
  {
    RunKeepsOnce(c, events);
  }

  // A response that is seen is gone, and ends the call exactly if it has the call's number;
  // nothing else does but the timeout.
  lemma TakeConsumes<Q, A>(c: Channel<Q, A>)
    requires c.waiting.Some? && c.response.Some?
    ensures var next := Next(c, Take);
            && next.response.None? && next.responded == c.responded
            && if c.response.value.id == c.waiting.value.id
               then
                 && next.waiting.None?
                 && next.returned == c.returned + [Answer(c.waiting.value.call, c.response.value.value)]
               else next.waiting == c.waiting && next.returned == c.returned
    ensures forall event :: Next(c, event).waiting == c.waiting || event.TimeOut? || event.Take?
  {
  }

  // A call whose request is received and answered before it times out returns that answer,
  // whatever is left in the signals from before; one that comes meanwhile is not made.
  lemma CallIsAnswered<Q, A>(c: Channel<Q, A>, request: Q, other: Q, response: A)
    requires Inv(c) && c.waiting.None?
    ensures var asked := Next(c, Call(request)); var n := |c.pending|;
            var last := Next(Next(Next(asked, Receive), Respond(n, response)), Take);
            && Next(asked, Call(other)) == asked
            && last.returned == c.returned + [Answer(|c.made|, response)]
            && last.made == c.made + [request] && last.pending == c.pending
            && last.waiting.None? && last.request.None? && last.response.None?
  {
  }

  // ---- The bound is sharp ----

  // `n` calls that all time out.
  function TimedOut<Q, A>(request: Q, n: nat): (events: seq<Event<Q, A>>)
    ensures |events| == 2 * n
  {
    if n == 0 then [] else [Call(request), TimeOut] + TimedOut(request, n - 1)
  }

  lemma {:induction false} AfterTimedOut<Q, A>(c: Channel<Q, A>, request: Q, n: nat)
    requires Inv(c) && c.waiting.None?
    ensures var last := Run(c, TimedOut<Q, A>(request, n));
            && Inv(last) && last.waiting.None? && |last.made| == |c.made| + n
            && last.pending == c.pending && last.responded == c.responded && last.returned == c.returned
    decreases n
  {
    if n > 0 {
      var events := TimedOut<Q, A>(request, n);
      var d := Next(Next(c, Call(request)), TimeOut);
      NextKeeps(c, Call(request));
      NextKeeps(Next(c, Call(request)), TimeOut);
      assert events[1..][1..] == TimedOut<Q, A>(request, n - 1);
      assert events[0] == Call(request) && events[1..][0] == TimeOut;
      assert Run(c, events) == Run(Next(c, events[0]), events[1..]);
      assert Run(Next(c, events[0]), events[1..]) == Run(d, events[1..][1..]);
      AfterTimedOut(d, request, n - 1);
    }
  }

  // One call more than there are numbers, and a call can return the response to
  // the first one.
  lemma OneCallMoreReturnsAnother<Q, A>(c: Channel<Q, A>, request: Q, response: A)
    requires Starts(c)
    ensures var first := Run(c, [Call(request), Receive, TimeOut]);
            var many := Run(first, TimedOut<Q, A>(request, IDS - 1));
            var last := Run(many, [Call(request), Respond(0, response), Take]);
            && |last.made| == IDS + 1
            && last.returned == [Answer(IDS, response)] && last.responded == [Answer(0, response)]
  {
    var first := Next(Next(Next(c, Call(request)), Receive), TimeOut);
    ThreeEvents(c, Call(request), Receive, TimeOut);
    NextKeeps(c, Call(request));
    NextKeeps(Next(c, Call(request)), Receive);
    NextKeeps(Next(Next(c, Call(request)), Receive), TimeOut);
    assert first.pending == [Pending(0, 0)];
    AfterTimedOut(first, request, IDS - 1);
    var many := Run(first, TimedOut<Q, A>(request, IDS - 1));
    ThreeEvents(many, Call(request), Respond(0, response), Take);
    assert many.next == 0;
  }

  lemma ThreeEvents<Q, A>(c: Channel<Q, A>, a: Event<Q, A>, b: Event<Q, A>, d: Event<Q, A>)
    ensures Run(c, [a, b, d]) == Next(Next(Next(c, a), b), d)
  {
    hide Next;
    assert [a, b, d][1..] == [b, d] && [b, d][1..] == [d] && [d][1..] == [];
    assert Run(Next(Next(Next(c, a), b), d), []) == Next(Next(Next(c, a), b), d);
    assert Run(Next(Next(c, a), b), [d]) == Run(Next(Next(Next(c, a), b), d), []);
    assert Run(Next(c, a), [b, d]) == Run(Next(Next(c, a), b), [d]);
  }

  // ---- The channel ----

  // The client's loop: of the responses it sees before its timeout, it returns the
  // first with its request's number, and drops those before.
  method AwaitResponse<A>(id: u32, seen: seq<Signal<A>>) returns (response: Option<A>)
    ensures response.Some? <==> exists i :: 0 <= i < |seen| && seen[i].id == id
    ensures response.Some? ==> exists i :: 0 <= i < |seen| && seen[i].id == id && response == Some(seen[i].value)
                                           && forall j :: 0 <= j < i ==> seen[j].id != id
  {
    var i := 0;
    while i < |seen|
      invariant 0 <= i <= |seen|
      invariant forall j :: 0 <= j < i ==> seen[j].id != id
    {
      if seen[i].id == id {
        return Some(seen[i].value);
      }
      i := i + 1;
    }
    return None;
  }

  // The signals, the client's counter and the requests the server holds.
  class Shared<Q, A> {
    var request: Option<Signal<Q>>
    var response: Option<Signal<A>>
    var next: u32
    var waiting: Option<Pending>
    var pending: seq<Pending>
    ghost var made: seq<Q>
    var calls: nat
    ghost var responded: seq<Answer<A>>
    ghost var returned: seq<Answer<A>>

    ghost function View(): Channel<Q, A>
      reads this
    {
      Channel(request, response, next, waiting, pending, made, responded, returned)
    }

    ghost predicate Valid()
      reads this
    {
      calls == |made| && Inv(View())
    }

    constructor ()
      ensures Valid() && Starts(View())
    {
      request, response, next, waiting, pending := None, None, 0, None, [];
      made, calls, responded, returned := [], 0, [], [];
    }

    method Call(q: Q)
      requires Valid() && waiting.None?
      modifies this
      ensures Valid() && View() == Next(old(View()), Event.Call(q))
    {
      NextKeeps(View(), Event.Call(q));
      var id := next;
      next := (id + 1) % IDS;
      request := Some(Signal(id, q, calls));
      waiting := Some(Pending(id, calls));
      made, calls := made + [q], calls + 1;
    }

    method Receive() returns (p: Option<(Pending, Q)>)
      requires Valid()
      modifies this`request, this`pending
      ensures Valid() && View() == Next(old(View()), Event.Receive)
      ensures p.Some? ==> p.value.0.call < |made| && p.value.1 == made[p.value.0.call]
    {
      NextKeeps(View(), Event.Receive);
      if request.None? {
        return None;
      }
      var taken := Pending(request.value.id, request.value.call);
      p := Some((taken, request.value.value));
      request, pending := None, pending + [taken];
    }

    method Respond(which: nat, answer: A)
      requires Valid() && which < |pending|
      modifies this`response, this`pending, this`responded
      ensures Valid() && View() == Next(old(View()), Event.Respond(which, answer))
    {
      NextKeeps(View(), Event.Respond(which, answer));
      var p := pending[which];
      pending := pending[..which] + pending[which + 1..];
      response := Some(Signal(p.id, answer, p.call));
      responded := responded + [Answer(p.call, answer)];
    }

    // One turn of the client's loop.
    method Take() returns (result: Option<A>)
      requires Valid()
      modifies this`response, this`waiting, this`returned
      ensures Valid() && View() == Next(old(View()), Event.Take)
      ensures result.Some? ==>
        old(waiting).Some? && RespondedAlike(View(), Answer(old(waiting).value.call, result.value))
    {
      NextKeeps(View(), Event.Take);
      if waiting.None? || response.None? {
        return None;
      }
      var seen := response.value;
      response := None;
      if seen.id != waiting.value.id {
        return None;
      }
      returned := returned + [Answer(waiting.value.call, seen.value)];
      assert Answer(waiting.value.call, seen.value) in View().returned;
      waiting := None;
      return Some(seen.value);
    }
  }
}
