// What a board fetches, and when it gives up: never an image it has no use for,
// never for ever from a host that has gone, and never from the start again when
// the host comes back.
module UpdatePolicy {
  import opened Basics
  import opened Flash
  import opened UpdateBoard
  import opened UpdateInvariant

  // The board has no use for the image.
  predicate Unwanted(b: Board, image: Image)
  {
    image.build == b.running || b.staged == Some(image) || b.rolledBack == Some(image.build)
  }

  // A board fetches only what it neither runs nor has rolled back, from the host it
  // last heard of, and asks again as long as it has attempts left.
  ghost predicate FetchWanted(b: Board)
  {
    b.fetching.Some? ==>
      && b.incoming.Some? && b.incoming.value.image.build != b.running
      && b.rolledBack != Some(b.incoming.value.image.build)
      && (b.fetching.value.retryAt.Some? <==> b.fetching.value.attempts <= MAX_ATTEMPTS)
      && b.fetching.value.attempts <= MAX_ATTEMPTS + 1
  }

  lemma RequestKeepsWanted(b: Board, env: Env, request: Request)
    requires Inv(b, env) && FetchWanted(b)
    ensures FetchWanted(RequestStep(b, env, request).0)
  {
    hide WriteStep, FinishStep, MarkStep, BeginStep;
    MarkKeeps(b, env);
  }

  lemma ChunkKeepsWanted(b: Board, env: Env, build: u32, offset: u32, data: seq<byte>, now: int)
    requires Inv(b, env) && FetchWanted(b)
    ensures var next := ChunkStep(b, env, build, offset, data, now); FetchWanted(next) && SameBoard(b, next)
  {
    WriteKeeps(b, env, offset, data);
    assert b.area.Valid();
    hide WriteStep, FinishStep, MarkStep, BaseInv;
  }

  predicate SameBoard(b: Board, next: Board)
  {
    next.id == b.id && next.running == b.running && next.rolledBack == b.rolledBack
  }

  lemma StepKeepsWanted(b: Board, env: Env, input: Input, now: int)
    requires Inv(b, env) && FetchWanted(b)
    ensures FetchWanted(Step(b, env, input, now)) && SameBoard(b, Step(b, env, input, now))
  {
    assert b.area.Valid();
    match input {
      case Usb(request) => RequestKeepsWanted(b, env, request);
      case Received(from, Chunk(build, offset, data)) => ChunkKeepsWanted(b, env, build, offset, data, now);
      case Received(from, Offer(image)) =>
        hide BaseInv;
      case Received(_, _) =>
      case Timer =>
    }
    hide RequestStep, ChunkStep;
  }

  lemma {:induction false} RunKeepsWanted(b: Board, env: Env, inputs: seq<(Input, int)>)
    requires Inv(b, env) && FetchWanted(b)
    ensures FetchWanted(Run(b, env, inputs)) && SameBoard(b, Run(b, env, inputs))
    decreases |inputs|
  {
    if inputs != [] {
      var next := Step(b, env, inputs[0].0, inputs[0].1);
      StepKeeps(b, env, inputs[0].0, inputs[0].1);
      StepKeepsWanted(b, env, inputs[0].0, inputs[0].1);
      hide Step, Inv, FetchWanted;
      RunKeepsWanted(next, env, inputs[1..]);
    }
  }

  // In every run a board only fetches an image of a build that it neither runs nor
  // has rolled back, and it has given up exactly if it has used up its attempts.
  lemma OnlyWantedIsFetched(b: Board, env: Env, inputs: seq<(Input, int)>)
    requires Starts(b)
    ensures var last := Run(b, env, inputs);
            last.fetching.Some? ==>
              && last.incoming.Some? && last.incoming.value.image.build != b.running
              && b.rolledBack != Some(last.incoming.value.image.build)
              && (last.fetching.value.retryAt.None? <==> last.fetching.value.attempts == MAX_ATTEMPTS + 1)
  {
    RunKeepsWanted(b, env, inputs);
  }

  // Every offer is answered with the build that the board runs. The board then
  // fetches the offered image exactly if it has a use for it, and it did already, or
  // receives nothing else and the image fits; a fetch that has given up counts as
  // nothing. An image that it goes on with keeps what has been received.
  lemma OfferIsDecided(b: Board, env: Env, image: Image, from: Peer, now: int)
    requires Inv(b, env) && FetchWanted(b) && !b.restarted
    ensures var next := Step(b, env, Received(from, Offer(image)), now);
            var resumed := b.fetching.Some? && b.incoming.Some? && b.incoming.value.image == image;
            var free := b.incoming.None? || Stalled(b, image);
            && b.sent + [Sent(from, Running(b.id, b.running))] <= next.sent
            && (next.fetching.Some? && next.incoming.value.image == image <==>
                 resumed || (!Unwanted(b, image) && free && 0 < image.size <= |b.area.bytes| - PAGE))
            && (resumed ==> next.incoming == b.incoming && next.got == b.got && next.fetching.value.from == from
                            && next.fetching.value.retryAt.Some?)
            && (!resumed && (!free || Unwanted(b, image)) ==> next.(sent := b.sent) == b)
  {
    assert b.staged.Some? ==> b.incoming.None? && b.fetching.None?;
    hide BaseInv;
  }

  // A chunk that gets the board on gives it all its attempts again, and has it ask
  // the offering host for the next one; any other chunk leaves the fetch as it is, or
  // ends it.
  lemma ChunkGetsOn(b: Board, env: Env, build: u32, offset: u32, data: seq<byte>, now: int)
    requires Inv(b, env) && FetchWanted(b) && b.fetching.Some?
    ensures var next := ChunkStep(b, env, build, offset, data, now); var i := b.incoming.value;
            && (next.fetching.Some? && next != b ==>
                 && build == i.image.build && offset == i.received
                 && next.incoming.value.image == i.image && next.incoming.value.received == offset + |data|
                 && next.got == b.got + data
                 && next.fetching == Some(Fetch(b.fetching.value.from, 0, Some(now + 1_500)))
                 && next.sent == b.sent + [Sent(b.fetching.value.from, ChunkRequest(build, offset + |data|))])
            && (build != i.image.build || offset != i.received ==> next == b)
  {
    hide WriteStep, LastChunkStep, BaseInv;
    HasArea(b, env);
    WriteKeeps(b, env, offset, data);
    LastChunkEndsFetch(WriteStep(b, env, offset, data).0.(fetching := None), env);
  }

  // A chunk that flash fails to take ends the fetch, so that the board is free for the next
  // offer.
  lemma FailedChunkFrees(b: Board, env: Env, build: u32, offset: u32, data: seq<byte>, now: int)
    requires Inv(b, env) && b.fetching.Some? && build == b.incoming.value.image.build
    requires Accepts(b.incoming.value, offset, data) && WriteStep(b, env, offset, data).1.Err?
    ensures var next := ChunkStep(b, env, build, offset, data, now);
            next.incoming.None? && next.fetching.None? && next.sent == b.sent && next.chunks == b.chunks + 1
  {
    WriteKeeps(b, env, offset, data);
    hide BaseInv;
  }

  function AttemptsLeft(fetch: Fetch): nat
  {
    if fetch.attempts < MAX_ATTEMPTS then MAX_ATTEMPTS - fetch.attempts else 0
  }

  // A host that never answers gets a request for each attempt, and no more.
  ghost function AfterTimers(b: Board, times: seq<int>): Board
    decreases |times|
  {
    if times == [] then b else AfterTimers(TimerStep(b, times[0]), times[1..])
  }

  predicate IsDue(b: Board, now: int)
  {
    b.fetching.Some? && b.fetching.value.retryAt.Some? && now >= b.fetching.value.retryAt.value
  }

  // How many of the timers come no sooner than the board set them for.
  ghost function DueTimers(b: Board, times: seq<int>): nat
    decreases |times|
  {
    if times == [] then 0 else (if IsDue(b, times[0]) then 1 else 0) + DueTimers(TimerStep(b, times[0]), times[1..])
  }

  // The board asks again once for every due timer as long as it has attempts left, each
  // time the same, and gives up exactly at the first due timer after them; what it
  // has received stays.
  lemma {:induction false} TimersGiveUp(b: Board, times: seq<int>)
    requires FetchWanted(b) && b.fetching.Some?
    ensures var last := AfterTimers(b, times); var left := AttemptsLeft(b.fetching.value);
            && b.sent <= last.sent && |last.sent| - |b.sent| == Min(DueTimers(b, times), left)
            && last.incoming == b.incoming && last.got == b.got && last.fetching.Some?
            && (b.fetching.value.retryAt.Some? ==> (last.fetching.value.retryAt.None? <==> DueTimers(b, times) > left))
            && forall i :: |b.sent| <= i < |last.sent| ==>
                 && last.sent[i].to == b.fetching.value.from
                 && last.sent[i].message == ChunkRequest(b.incoming.value.image.build, b.incoming.value.received)
    decreases |times|
  {
    if times != [] {
      TimersGiveUp(TimerStep(b, times[0]), times[1..]);
      if b.fetching.value.retryAt.None? { NeverDue(b, times); }
      if TimerStep(b, times[0]).fetching.value.retryAt.None? { NeverDue(TimerStep(b, times[0]), times[1..]); }
    }
  }

  lemma {:induction false} NeverDue(b: Board, times: seq<int>)
    requires b.fetching.None? || b.fetching.value.retryAt.None?
    ensures DueTimers(b, times) == 0 && AfterTimers(b, times) == b
    decreases |times|
  {
    if times != [] { NeverDue(TimerStep(b, times[0]), times[1..]); }
  }

  // The timers come as the board sets them: each, a timeout or more after the one before.
  ghost predicate AsSet(b: Board, times: seq<int>)
  {
    && (times != [] ==> IsDue(b, times[0]))
    && forall i :: 0 < i < |times| ==> times[i] >= times[i - 1] + CHUNK_TIMEOUT
  }

  // So a host that has gone gets a request for each timer and attempt, and none after.
  lemma {:induction false} SilentHostIsGivenUp(b: Board, times: seq<int>)
    requires FetchWanted(b) && b.fetching.Some? && AsSet(b, times)
    ensures var last := AfterTimers(b, times); var left := AttemptsLeft(b.fetching.value);
            && last.fetching.Some? && |last.sent| - |b.sent| == Min(|times|, left)
            && (b.fetching.value.retryAt.Some? ==> (last.fetching.value.retryAt.None? <==> |times| > left))
    decreases |times|
  {
    TimersGiveUp(b, times);
    if times != [] {
      var next := TimerStep(b, times[0]);
      if next.fetching.value.retryAt.Some? {
        if |times| > 1 { assert times[1] >= times[0] + CHUNK_TIMEOUT; }
        forall i | 0 < i < |times| - 1 ensures times[1..][i] >= times[1..][i - 1] + CHUNK_TIMEOUT {
          assert times[i + 1] >= times[i] + CHUNK_TIMEOUT;
        }
        SilentHostIsGivenUp(next, times[1..]);
      } else {
        NeverDue(next, times[1..]);
      }
    }
  }

  // A fetch that has just got on asks for its chunk again eight times, if timers come a
  // second and a half or more apart, and with the next one gives up.
  lemma EightAttempts(b: Board, times: seq<int>)
    requires FetchWanted(b) && b.fetching.Some? && b.fetching.value.attempts == 0 && times != []
    requires b.fetching.value.retryAt.Some? && times[0] >= b.fetching.value.retryAt.value
    requires forall i :: 0 < i < |times| ==> times[i] >= times[i - 1] + 1_500
    ensures var last := AfterTimers(b, times);
            && last.fetching.Some? && |last.sent| - |b.sent| == Min(|times|, 8)
            && (last.fetching.value.retryAt.None? <==> |times| > 8)
  {
    SilentHostIsGivenUp(b, times);
  }
}
