// An image that fits arrives: over USB in the host's chunks of 512 bytes, and over
// the network in a conversation of requests and chunks of 192 bytes. The host found
// the build in the whole image, and the board finds the same one in pieces.
module Delivery {
  import opened Basics
  import opened Flash
  import opened UpdateBoard
  import opened UpdateInvariant
  import BuildMarker
  import H = HostOffer
  import P = UpdatePolicy
  import Updates

  ghost predicate NoFaults(env: Env)
  {
    forall n :: env.faults(n).ok
  }

  // An image file that the host accepted.
  ghost predicate IsImage(fw: H.Firmware, env: Env)
  {
    H.FromBytes(fw.bytes, env.sha256) == Some(fw)
  }

  // What the board has received is the beginning of the image.
  ghost predicate Holds(b: Board, fw: H.Firmware)
  {
    && b.incoming.Some? && b.incoming.value.image == fw.image && !b.damaged
    && b.incoming.value.received <= fw.image.size == |fw.bytes|
    && b.got == fw.bytes[..b.incoming.value.received]
  }

  lemma WriteSucceeds(b: Board, env: Env, offset: u32, data: seq<byte>)
    requires BaseInv(b, env) && NoFaults(env) && b.incoming.Some? && Accepts(b.incoming.value, offset, data)
    ensures WriteStep(b, env, offset, data).1.Ok?
  {
    AcceptedFits(b, env, offset, data);
    assert b.area.Valid() && ReceivingOk(b, b.incoming.value);
    WriteErases(b, env, offset, data);
    hide EraseUpTo, Padded, BaseInv, AllBlank;
    EraseSucceeds(b.area, env.faults, b.incoming.value.erasedTo, offset + |Padded(data)|);
  }

  function Part(fw: H.Firmware, offset: u32, len: nat): (data: seq<byte>)
    requires offset <= fw.image.size == |fw.bytes|
    ensures |data| == Min(len, fw.image.size - offset) && data == fw.bytes[offset..offset + |data|]
  {
    fw.bytes[offset..offset + Min(len, fw.image.size - offset)]
  }

  // The part of the image that the board lacks next passes the board's checks,
  // if it was cut to whole words and is not too long.
  lemma NextPartIsAccepted(b: Board, env: Env, fw: H.Firmware, len: nat)
    requires BaseInv(b, env) && Holds(b, fw) && b.incoming.value.received < fw.image.size
    requires 0 < len <= MAX_LEN && len % WORD == 0
    ensures Accepts(b.incoming.value, b.incoming.value.received, Part(fw, b.incoming.value.received, len))
  {
  }

  // Writing it goes on with the image, and succeeds unless flash fails.
  lemma NextPartArrives(b: Board, env: Env, fw: H.Firmware, len: nat)
    requires BaseInv(b, env) && Holds(b, fw) && b.incoming.value.received < fw.image.size
    requires 0 < len <= MAX_LEN && len % WORD == 0
    ensures var offset := b.incoming.value.received; var data := Part(fw, offset, len);
            var (next, result) := WriteStep(b, env, offset, data);
            && |next.area.bytes| == |b.area.bytes|
            && (NoFaults(env) ==> result.Ok?)
            && (result.Ok? ==> BaseInv(next, env) && Holds(next, fw) && next.incoming.value.received == offset + |data|)
            && SameButWritten(b, next)
  {
    hide WriteStep, BaseInv, Accepts, Part;
    var offset := b.incoming.value.received;
    var data := Part(fw, offset, len);
    NextPartIsAccepted(b, env, fw, len);
    WriteKeeps(b, env, offset, data);
    if NoFaults(env) { WriteSucceeds(b, env, offset, data); }
    assert fw.bytes[..offset] + fw.bytes[offset..offset + |data|] == fw.bytes[..offset + |data|];
  }

  // The host's search of the whole image and the board's in pieces agree.
  lemma FinishSucceeds(b: Board, env: Env, fw: H.Firmware)
    requires BaseInv(b, env) && NoFaults(env) && IsImage(fw, env)
    requires Holds(b, fw) && b.incoming.value.received == fw.image.size
    ensures var (next, result) := FinishStep(b, env);
            && result.Ok? && next.staged == Some(fw.image)
            && fw.image.size <= |next.area.bytes| && next.area.bytes[..fw.image.size] == fw.bytes
  {
    hide ReadPieces, FindInPieces;
    assert b.got == fw.bytes == b.area.bytes[..fw.image.size];
    ReadPiecesFacts(b.area, env.faults, 0, fw.image.size);
    FindInPiecesFacts(ReadPieces(b.area, env.faults, 0, fw.image.size).0, env.faults, 0, fw.image.size);
  }

  // ---- Over USB ----

  // The board is at `offset` of the image the host sends it.
  ghost predicate Sending(b: Board, env: Env, fw: H.Firmware, offset: nat)
  {
    && BaseInv(b, env) && b.fetching.None? && Holds(b, fw)
    && b.incoming.value.received == Min(offset, |fw.bytes|)
    && offset % MAX_LEN == 0
  }

  lemma SendingBegins(b: Board, env: Env, fw: H.Firmware)
    requires IsImage(fw, env) && Inv(b, env)
    ensures var (next, result) := RequestStep(b, env, Begin(fw.image));
            && next.area == b.area
            && (if fw.image.size > |b.area.bytes| - PAGE then result == Err(DoesNotFit)
                else result.Ok? && Sending(next, env, fw, 0))
  {
    BeginKeeps(b.(fetching := None), env, fw.image);
    assert BuildMarker.LEN <= |fw.bytes|;
  }

  lemma SendingGoesOn(b: Board, env: Env, fw: H.Firmware, offset: u32)
    requires Sending(b, env, fw, offset) && offset < fw.image.size
    ensures var (next, result) := RequestStep(b, env, Write(offset, Part(fw, offset, MAX_LEN)));
            && |next.area.bytes| == |b.area.bytes|
            && (result.Ok? ==> Sending(next, env, fw, offset + MAX_LEN))
            && (NoFaults(env) ==> result.Ok?)
  {
    hide WriteStep, BaseInv, Part;
    NextPartArrives(b, env, fw, MAX_LEN);
  }

  lemma SendingEnds(b: Board, env: Env, fw: H.Firmware, offset: nat)
    requires IsImage(fw, env) && Sending(b, env, fw, offset) && offset >= |fw.bytes|
    ensures var (next, result) := RequestStep(b, env, Finish);
            && |next.area.bytes| == |b.area.bytes|
            && (result.Ok? ==> next.staged == Some(fw.image) && StagedOk(next, env, fw.image))
            && (NoFaults(env) ==> result.Ok? && next.area.bytes[..fw.image.size] == fw.bytes)
  {
    FinishKeeps(b, env);
    if NoFaults(env) { FinishSucceeds(b, env, fw); }
  }

  // Sends the image in chunks, until the board refuses one.
  method SendChunks(service: Updates.Service, fw: H.Firmware) returns (result: Result, offset: nat)
    requires fw.image.size == |fw.bytes|
    requires service.area.Valid() && Sending(service.View(), service.env, fw, 0)
    modifies service
    ensures service.area.Valid() && |service.area.bytes| == old(|service.area.bytes|)
    ensures result.Ok? ==> offset >= |fw.bytes| && Sending(service.View(), service.env, fw, offset)
    ensures NoFaults(service.env) ==> result.Ok?
  {
    ghost var env := service.env;
    hide RequestStep, Sending, NoFaults, Part;
    result, offset := Ok, 0;
    while offset < |fw.bytes|
      invariant service.area.Valid() && |service.area.bytes| == old(|service.area.bytes|)
      invariant Sending(service.View(), env, fw, offset) && result.Ok?
      decreases |fw.bytes| - offset
    {
      SendingGoesOn(service.View(), env, fw, offset);
      result := service.HandleRequest(Write(offset, Part(fw, offset, MAX_LEN)));
      if result.Err? {
        return;
      }
      offset := offset + MAX_LEN;
    }
  }

  // The three requests of an update over USB, in order.
  method Stage(service: Updates.Service, fw: H.Firmware) returns (result: Result)
    requires IsImage(fw, service.env) && Inv(service.View(), service.env) && !service.restarted
    modifies service
    ensures service.area.Valid() && |service.area.bytes| == old(|service.area.bytes|)
    ensures result.Ok? ==> service.staged == Some(fw.image) && StagedOk(service.View(), service.env, fw.image)
    ensures fw.image.size > |service.area.bytes| - PAGE ==> result == Err(DoesNotFit)
    ensures NoFaults(service.env) && fw.image.size <= |service.area.bytes| - PAGE ==>
      result.Ok? && service.area.bytes[..fw.image.size] == fw.bytes
  {
    ghost var env := service.env;
    hide RequestStep, Sending, StagedOk, NoFaults, BaseInv;
    SendingBegins(service.View(), env, fw);
    result := service.HandleRequest(Begin(fw.image));
    if result.Err? {
      return;
    }
    var offset;
    result, offset := SendChunks(service, fw);
    if result.Err? {
      return;
    }
    SendingEnds(service.View(), env, fw, offset);
    result := service.HandleRequest(Finish);
  }

  // An image that is staged is what the board restarts into, once it is told to.
  lemma ApplyDelivers(b: Board, env: Env, fw: H.Firmware)
    requires b.area.Valid() && NoFaults(env)
    requires b.staged == Some(fw.image) && fw.image.size <= |b.area.bytes| && b.area.bytes[..fw.image.size] == fw.bytes
    ensures var (next, result) := RequestStep(b, env, Apply); result.Ok? && Delivered(next, fw)
  {
  }

  // Updates a board over USB, unless it runs the image's build already: it restarts into the
  // image, if that fits and flash does not fail, and in any case if the last request is
  // answered without an error.
  method Update(service: Updates.Service, fw: H.Firmware) returns (result: Result)
    requires IsImage(fw, service.env) && Inv(service.View(), service.env) && !service.restarted
    modifies service
    ensures service.area.Valid()
    ensures service.running == fw.image.build ==> result.Ok? && service.View() == old(service.View())
    ensures service.running != fw.image.build && result.Ok? ==> service.restarted && service.staged == Some(fw.image)
    ensures service.running != fw.image.build && fw.image.size > |service.area.bytes| - PAGE ==>
      result == Err(DoesNotFit)
    ensures service.running != fw.image.build && fw.image.size <= |service.area.bytes| - PAGE ==>
      NoFaults(service.env) ==> result.Ok? && Delivered(service.View(), fw)
  {
    ghost var env := service.env;
    if service.running == fw.image.build {
      return Ok;
    }
    result := Stage(service, fw);
    if result.Err? {
      return;
    }
    ghost var staged := service.View();
    if NoFaults(env) { ApplyDelivers(staged, env, fw); }
    result := service.HandleRequest(Apply);
  }

  // ---- Over USB, while offers, chunks and timers come in between ----

  // Only what the two have sent differs.
  predicate SameButSent(b: Board, q: Board)
  {
    b.(sent := q.sent) == q
  }

  lemma Undisturbed(b: Board, env: Env, input: Input, now: int)
    requires b.area.Valid() && b.incoming.Some? && b.fetching.None? && !input.Usb?
    ensures SameButSent(b, Step(b, env, input, now))
  {
  }

  lemma SentMakesNoDifference(b: Board, q: Board, env: Env, request: Request)
    requires b.area.Valid() && SameButSent(b, q)
    ensures RequestStep(b, env, request).1 == RequestStep(q, env, request).1
    ensures SameButSent(RequestStep(b, env, request).0, RequestStep(q, env, request).0)
  {
    hide WriteStep, FinishStep, MarkStep;
    match request
    case Begin(_) =>
    case Write(offset, data) => SentForWrite(b, q, env, offset, data);
    case Finish => SentForFinish(b, q, env);
    case Apply => SentForMark(b, q, env);
  }

  lemma SentForWrite(b: Board, q: Board, env: Env, offset: u32, data: seq<byte>)
    requires b.area.Valid() && SameButSent(b, q)
    ensures WriteStep(b, env, offset, data).1 == WriteStep(q, env, offset, data).1
    ensures SameButSent(WriteStep(b, env, offset, data).0, WriteStep(q, env, offset, data).0)
  {
    hide EraseUpTo, Program, Padded;
  }

  lemma SentForFinish(b: Board, q: Board, env: Env)
    requires b.area.Valid() && SameButSent(b, q)
    ensures FinishStep(b, env).1 == FinishStep(q, env).1
    ensures SameButSent(FinishStep(b, env).0, FinishStep(q, env).0)
  {
    hide ReadPieces, FindInPieces;
  }

  lemma SentForMark(b: Board, q: Board, env: Env)
    requires b.area.Valid() && SameButSent(b, q)
    ensures MarkStep(b, env).1 == MarkStep(q, env).1
    ensures SameButSent(MarkStep(b, env).0, MarkStep(q, env).0)
  {
  }

  lemma WriteGoesOn(b: Board, env: Env, offset: u32, data: seq<byte>)
    requires b.area.Valid() && b.incoming.Some? && b.fetching.None? && !b.restarted
    ensures var next := RequestStep(b, env, Write(offset, data)).0;
            next.incoming.Some? && next.fetching.None? && !next.restarted
  {
  }

  function UsbRequests(inputs: seq<(Input, int)>): seq<Request>
  {
    if inputs == [] then []
    else (if inputs[0].0.Usb? then [inputs[0].0.request] else []) + UsbRequests(inputs[1..])
  }

  ghost function Requested(b: Board, env: Env, requests: seq<Request>): (last: Board)
    requires b.area.Valid()
    ensures last.area.Valid()
    decreases |requests|
  {
    if requests == [] then b else Requested(RequestStep(b, env, requests[0]).0, env, requests[1..])
  }

  // Whatever else comes while the chunks do: the board is where the chunks alone would
  // have brought it, but for what it has sent.
  lemma {:induction false} TransferIsUndisturbed(b: Board, q: Board, env: Env, inputs: seq<(Input, int)>)
    requires b.area.Valid() && b.incoming.Some? && b.fetching.None? && !b.restarted && SameButSent(q, b)
    requires forall request :: request in UsbRequests(inputs) ==> request.Write?
    ensures SameButSent(Requested(q, env, UsbRequests(inputs)), Run(b, env, inputs))
    decreases |inputs|
  {
    hide RequestStep, OfferStep, ChunkStep;
    if inputs != [] {
      var (input, now) := inputs[0];
      var rest := UsbRequests(inputs[1..]);
      var next := Step(b, env, input, now);
      if input.Usb? {
        assert UsbRequests(inputs) == [input.request] + rest;
        SentMakesNoDifference(q, b, env, input.request);
        WriteGoesOn(b, env, input.request.offset, input.request.data);
        TransferIsUndisturbed(next, RequestStep(q, env, input.request).0, env, inputs[1..]);
      } else {
        assert UsbRequests(inputs) == rest;
        Undisturbed(b, env, input, now);
        TransferIsUndisturbed(next, q, env, inputs[1..]);
      }
    }
  }

  // The chunks in which the host sends the image from `offset` on.
  function Chunks(fw: H.Firmware, offset: nat): (requests: seq<Request>)
    requires fw.image.size == |fw.bytes|
    ensures forall request :: request in requests ==> request.Write?
    decreases |fw.bytes| - offset
  {
    if offset >= |fw.bytes| then []
    else [Write(offset, Part(fw, offset, MAX_LEN))] + Chunks(fw, offset + MAX_LEN)
  }

  lemma {:induction false} ChunksArrive(b: Board, env: Env, fw: H.Firmware, offset: nat) returns (end: nat)
    requires Sending(b, env, fw, offset) && NoFaults(env) && fw.image.size == |fw.bytes| && b.area.Valid()
    ensures end >= |fw.bytes| && Sending(Requested(b, env, Chunks(fw, offset)), env, fw, end)
    ensures |Requested(b, env, Chunks(fw, offset)).area.bytes| == |b.area.bytes|
    decreases |fw.bytes| - offset
  {
    hide Sending, RequestStep, NoFaults, Part;
    if offset >= |fw.bytes| {
      end := offset;
    } else {
      SendingGoesOn(b, env, fw, offset);
      var chunk := Write(offset, Part(fw, offset, MAX_LEN));
      assert Chunks(fw, offset)[1..] == Chunks(fw, offset + MAX_LEN);
      end := ChunksArrive(RequestStep(b, env, chunk).0, env, fw, offset + MAX_LEN);
    }
  }

  // An image that the host sends in its chunks is staged, whatever the board receives
  // from the network meanwhile.
  lemma StagedAmongOffers(b: Board, env: Env, fw: H.Firmware, inputs: seq<(Input, int)>)
    requires Inv(b, env) && !b.restarted && NoFaults(env) && IsImage(fw, env) && b.area.Valid()
    requires fw.image.size <= |b.area.bytes| - PAGE && fw.image.size == |fw.bytes|
    requires UsbRequests(inputs) == Chunks(fw, 0)
    ensures var (begun, result) := RequestStep(b, env, Begin(fw.image));
            && result.Ok?
            && var (next, result) := RequestStep(Run(begun, env, inputs), env, Finish);
               && result.Ok? && next.staged == Some(fw.image)
               && |next.area.bytes| == |b.area.bytes| && next.area.bytes[..fw.image.size] == fw.bytes
  {
    SendingBegins(b, env, fw);
    var begun := RequestStep(b, env, Begin(fw.image)).0;
    hide RequestStep, NoFaults, IsImage, Inv, BaseInv, Run;
    var end := ChunksArrive(begun, env, fw, 0);
    var sent := Requested(begun, env, Chunks(fw, 0));
    NotRestarted(b, env, fw.image);
    TransferIsUndisturbed(begun, begun, env, inputs);
    SendingEnds(sent, env, fw, end);
    SentMakesNoDifference(sent, Run(begun, env, inputs), env, Finish);
  }

  lemma NotRestarted(b: Board, env: Env, image: Image)
    requires b.area.Valid() && !b.restarted
    ensures !RequestStep(b, env, Begin(image)).0.restarted
  {
  }

  // ---- Over the network ----

  // What happens next between a board and a host: the host's offer arrives, or the
  // board's last request has its outcome. If `arrives`, it reaches the host and the
  // reply the board. Otherwise one of the two is lost, the reply if the host has `heard`
  // the request, and the board's timer comes when it is due.
  datatype Round = Offered(now: int) | Asked(arrives: bool, heard: bool, now: int)

  function LastRequest(sent: seq<Sent>): Option<Sent>
  {
    if sent == [] then None
    else if sent[|sent| - 1].message.ChunkRequest? then Some(sent[|sent| - 1])
    else LastRequest(sent[..|sent| - 1])
  }

  // Of a board that has given up no request is under way. `from` is where the board
  // hears the host, and `address` where the host hears the board.
  ghost function Turn(b: Board, host: H.Push, env: Env, from: Peer, address: Peer, round: Round): (res: (Board, H.Push))
    requires b.area.Valid()
    ensures res.0.area.Valid()
  {
    match round
    case Offered(now) => (Step(b, env, Received(from, Offer(host.firmware.image)), now), host)
    case Asked(arrives, heard, now) =>
      var request := LastRequest(b.sent);
      if b.restarted || b.fetching.None? || b.fetching.value.retryAt.None? || request.None? then (b, host)
      else
        var (served, reply) := H.HandleStep(host, address, request.value.message, now);
        if arrives && reply.Some? then (Step(b, env, Received(from, reply.value), now), served)
        else (Step(b, env, Timer, Max(now, b.fetching.value.retryAt.value)), if arrives || heard then served else host)
  }

  ghost function Conversation(
    b: Board, host: H.Push, env: Env, from: Peer, address: Peer, rounds: seq<Round>): (res: (Board, H.Push))
    requires b.area.Valid()
    ensures res.0.area.Valid()
    decreases |rounds|
  {
    if rounds == [] then (b, host)
    else
      var (next, served) := Turn(b, host, env, from, address, rounds[0]);
      Conversation(next, served, env, from, address, rounds[1..])
  }

  // How many chunks the rounds bring to a board that has made `attempts` in vain: one
  // for each request that arrives, but after too many losses in a row none until the
  // next offer.
  function Gained(rounds: seq<Round>, attempts: nat): nat
  {
    if rounds == [] then 0
    else
      match rounds[0]
      case Offered(_) => Gained(rounds[1..], if attempts > MAX_ATTEMPTS then 0 else attempts)
      case Asked(arrives, _, _) =>
        if attempts > MAX_ATTEMPTS then Gained(rounds[1..], attempts)
        else if arrives then 1 + Gained(rounds[1..], 0)
        else Gained(rounds[1..], attempts + 1)
  }

  // The board fetches the image from the host, and its last request was for the next
  // chunk.
  ghost predicate Asking(b: Board, env: Env, fw: H.Firmware, from: Peer)
  {
    && Inv(b, env) && P.FetchWanted(b) && !b.restarted
    && b.fetching.Some? && b.fetching.value.from == from && Holds(b, fw)
    && LastRequest(b.sent) == Some(Sent(from, ChunkRequest(fw.image.build, b.incoming.value.received)))
  }

  // The board restarts into the image.
  ghost predicate Delivered(b: Board, fw: H.Firmware)
  {
    && b.restarted && b.staged == Some(fw.image)
    && b.marks != [] && b.marks[|b.marks| - 1] == Mark(fw.image, fw.bytes, b.chunks)
  }

  lemma LastChunkDelivers(b: Board, env: Env, fw: H.Firmware)
    requires BaseInv(b, env) && NoFaults(env) && IsImage(fw, env)
    requires Holds(b, fw) && b.incoming.value.received == fw.image.size
    ensures Delivered(LastChunkStep(b.(fetching := None), env), fw)
  {
    hide FinishStep;
    var ready := b.(fetching := None);
    FinishSucceeds(ready, env, fw);
    FinishKeeps(ready, env);
  }

  lemma ChunkArrives(b: Board, env: Env, fw: H.Firmware, from: Peer, now: int)
    requires Asking(b, env, fw, from) && IsImage(fw, env) && NoFaults(env)
    ensures var offset := b.incoming.value.received;
            && H.Serves(fw, fw.image.build, offset)
            && var next := Step(b, env, Received(from, Chunk(fw.image.build, offset, H.ChunkAt(fw, offset))), now);
               if offset + CHUNK_LEN >= fw.image.size then Delivered(next, fw)
               else && Asking(next, env, fw, from) && next.incoming.value.received == offset + CHUNK_LEN
                    && next.fetching.value.attempts == 0
  {
    hide Inv, BaseInv, P.FetchWanted, WriteStep, LastChunkStep, Delivered, IsImage, Part, H.ChunkAt;
    AskedForPart(b, env, fw, from);
    var offset := b.incoming.value.received;
    var data := H.ChunkAt(fw, offset);
    NextPartArrives(b, env, fw, CHUNK_LEN);
    var written := WriteStep(b, env, offset, data).0;
    if offset + |data| == fw.image.size { LastChunkDelivers(written, env, fw); }
    StepKeeps(b, env, Received(from, Chunk(fw.image.build, offset, data)), now);
    P.StepKeepsWanted(b, env, Received(from, Chunk(fw.image.build, offset, data)), now);
  }

  // The chunk that the host serves is the part of the image that the board lacks.
  lemma AskedForPart(b: Board, env: Env, fw: H.Firmware, from: Peer)
    requires Asking(b, env, fw, from) && IsImage(fw, env)
    ensures BaseInv(b, env) && b.area.Valid() && H.Serves(fw, fw.image.build, b.incoming.value.received)
    ensures Part(fw, b.incoming.value.received, CHUNK_LEN) == H.ChunkAt(fw, b.incoming.value.received)
  {
  }

  // An offer of the image that the board fetches changes nothing but that the board
  // asks again if it had given up.
  lemma OfferResumes(b: Board, env: Env, fw: H.Firmware, from: Peer, now: int)
    requires Asking(b, env, fw, from)
    ensures var next := Step(b, env, Received(from, Offer(fw.image)), now); var attempts := b.fetching.value.attempts;
            && Asking(next, env, fw, from) && next.incoming == b.incoming
            && next.fetching.value.attempts == if attempts > MAX_ATTEMPTS then 0 else attempts
  {
    hide Step, Inv, P.FetchWanted, LastRequest;
    LastAsked(b, env, fw, from);
    StepKeeps(b, env, Received(from, Offer(fw.image)), now);
    P.StepKeepsWanted(b, env, Received(from, Offer(fw.image)), now);
    OfferIsHeard(b, env, fw, from, now);
    var running, fetching := Sent(from, Running(b.id, b.running)), Sent(from, Fetching(b.id));
    LastIsStill(b.sent, running, fetching);
    LastIsLast(b.sent + [running] + [fetching], Sent(from, ChunkRequest(fw.image.build, b.incoming.value.received)));
  }

  lemma LastIsLast(sent: seq<Sent>, request: Sent)
    requires request.message.ChunkRequest?
    ensures LastRequest(sent + [request]) == Some(request)
  {
  }

  lemma OfferIsHeard(b: Board, env: Env, fw: H.Firmware, from: Peer, now: int)
    requires Asking(b, env, fw, from)
    ensures var next := Step(b, env, Received(from, Offer(fw.image)), now); var fetch := b.fetching.value;
            var told := b.sent + [Sent(from, Running(b.id, b.running))] + [Sent(from, Fetching(b.id))];
            next == if fetch.retryAt.Some? then b.(sent := told)
                    else b.(fetching := Some(Fetch(from, 0, Some(now + CHUNK_TIMEOUT))),
                            sent := told + [Sent(from, ChunkRequest(fw.image.build, b.incoming.value.received))])
  {
    hide BlankFrom;
  }

  lemma LastIsStill(sent: seq<Sent>, one: Sent, two: Sent)
    requires !one.message.ChunkRequest? && !two.message.ChunkRequest?
    ensures LastRequest(sent + [one] + [two]) == LastRequest(sent)
  {
    assert (sent + [one] + [two])[..|sent| + 1] == sent + [one] && (sent + [one])[..|sent|] == sent;
    assert LastRequest(sent + [one]) == LastRequest(sent);
  }

  // A request that is lost is made again, until the attempts are used up.
  lemma LossIsRetried(b: Board, env: Env, fw: H.Firmware, from: Peer, now: int)
    requires Asking(b, env, fw, from) && b.fetching.value.retryAt.Some?
    ensures var next := Step(b, env, Timer, Max(now, b.fetching.value.retryAt.value));
            && Asking(next, env, fw, from) && next.incoming == b.incoming
            && next.fetching.value.attempts == b.fetching.value.attempts + 1
  {
    var due := Max(now, b.fetching.value.retryAt.value);
    StepKeeps(b, env, Timer, due);
    P.StepKeepsWanted(b, env, Timer, due);
    hide Inv, P.FetchWanted;
  }

  // The record the host has of the board once it has served the last chunk.
  ghost predicate Finished(p: H.Push, address: Peer)
  {
    exists f :: f in p.fetchers && f.address == address && H.HasAll(p, f) && f.finished.Some?
  }

  lemma ChunkIsServed(host: H.Push, address: Peer, offset: u32, now: int)
    requires H.Serves(host.firmware, host.firmware.image.build, offset)
    ensures var fw := host.firmware;
            var (served, reply) := H.HandleStep(host, address, ChunkRequest(fw.image.build, offset), now);
            && served.firmware == fw && reply == Some(Chunk(fw.image.build, offset, H.ChunkAt(fw, offset)))
            && (offset + CHUNK_LEN >= fw.image.size ==> Finished(served, address))
  {
    hide H.ChunkAt;
    var (served, _) := H.HandleStep(host, address, ChunkRequest(host.firmware.image.build, offset), now);
    var k := H.Touched(host, address, now).1;
    assert served.fetchers[k] in served.fetchers;
  }

  // What a round comes to: a chunk more if the request arrives, and otherwise only
  // another number of attempts.
  ghost predicate Turned(b: Board, env: Env, fw: H.Firmware, from: Peer, round: Round, next: Board)
    requires b.incoming.Some? && b.fetching.Some?
  {
    var offset, attempts := b.incoming.value.received, b.fetching.value.attempts;
    if round.Asked? && round.arrives && attempts <= MAX_ATTEMPTS then
      if offset + CHUNK_LEN >= fw.image.size then Delivered(next, fw)
      else && Asking(next, env, fw, from) && next.incoming.value.received == offset + CHUNK_LEN
           && next.fetching.value.attempts == 0
    else
      && Asking(next, env, fw, from) && next.incoming == b.incoming
      && next.fetching.value.attempts == if round.Offered? then (if attempts > MAX_ATTEMPTS then 0 else attempts)
                                         else if attempts > MAX_ATTEMPTS then attempts else attempts + 1
  }

  lemma RoundTurns(b: Board, host: H.Push, env: Env, from: Peer, address: Peer, round: Round)
    requires Asking(b, env, host.firmware, from) && IsImage(host.firmware, env) && NoFaults(env)
    ensures b.area.Valid() && b.incoming.Some?
    ensures var (next, served) := Turn(b, host, env, from, address, round);
            && Turned(b, env, host.firmware, from, round, next) && served.firmware == host.firmware
            && (next.restarted ==> Finished(served, address))
  {
    hide Asking, Step, H.HandleStep, IsImage, NoFaults, Delivered, Finished, LastRequest;
    LastAsked(b, env, host.firmware, from);
    match round
    case Offered(now) => OfferResumes(b, env, host.firmware, from, now);
      StillAsks(Turn(b, host, env, from, address, round).0, env, host.firmware, from);
    case Asked(arrives, heard, now) =>
      if b.fetching.value.attempts <= MAX_ATTEMPTS {
        var offset := b.incoming.value.received;
        ChunkArrives(b, env, host.firmware, from, now);
        ChunkIsServed(host, address, offset, now);
        if arrives {
          if offset + CHUNK_LEN < host.firmware.image.size {
            StillAsks(Turn(b, host, env, from, address, round).0, env, host.firmware, from);
          }
        } else {
          LossIsRetried(b, env, host.firmware, from, now);
          StillAsks(Turn(b, host, env, from, address, round).0, env, host.firmware, from);
        }
      }
  }

  lemma StillAsks(b: Board, env: Env, fw: H.Firmware, from: Peer)
    requires Asking(b, env, fw, from)
    ensures !b.restarted
  {
  }

  lemma LastAsked(b: Board, env: Env, fw: H.Firmware, from: Peer)
    requires Asking(b, env, fw, from)
    ensures b.area.Valid() && !b.restarted && b.incoming.Some? && b.fetching.Some?
    ensures b.fetching.value.retryAt.Some? <==> b.fetching.value.attempts <= MAX_ATTEMPTS
    ensures LastRequest(b.sent) == Some(Sent(from, ChunkRequest(fw.image.build, b.incoming.value.received)))
    ensures b.incoming.value.received < fw.image.size
  {
  }

  lemma {:induction false} Ended(
    b: Board, fw: H.Firmware, host: H.Push, env: Env, from: Peer, address: Peer, rounds: seq<Round>)
    requires b.area.Valid() && Delivered(b, fw)
    ensures Conversation(b, host, env, from, address, rounds) == (b, host)
    decreases |rounds|
  {
    if rounds != [] { Ended(b, fw, host, env, from, address, rounds[1..]); }
  }

  // Whatever is lost, and whenever the host's offer comes: a fetch ends with the image
  // delivered exactly if the rounds bring as many chunks as it lacks, and otherwise
  // the board is as many chunks further.
  lemma {:induction false} FetchCompletes(
    b: Board, host: H.Push, env: Env, from: Peer, address: Peer, rounds: seq<Round>)
    requires Asking(b, env, host.firmware, from) && IsImage(host.firmware, env) && NoFaults(env)
    ensures b.area.Valid() && b.incoming.Some? && b.fetching.Some?
    ensures var (last, end) := Conversation(b, host, env, from, address, rounds);
            var reached := b.incoming.value.received + CHUNK_LEN * Gained(rounds, b.fetching.value.attempts);
            if reached >= host.firmware.image.size then Delivered(last, host.firmware) && Finished(end, address)
            else
              && Asking(last, env, host.firmware, from)
              && last.incoming.Some? && last.incoming.value.received == reached
    decreases |rounds|
  {
    hide Asking, Turn, IsImage, NoFaults, Delivered, Finished;
    LastAsked(b, env, host.firmware, from);
    if rounds != [] {
      var fw := host.firmware;
      RoundTurns(b, host, env, from, address, rounds[0]);
      var (next, served) := Turn(b, host, env, from, address, rounds[0]);
      var waits := b.fetching.value.attempts <= MAX_ATTEMPTS;
      if rounds[0].Asked? && rounds[0].arrives && waits && b.incoming.value.received + CHUNK_LEN >= fw.image.size {
        DeliveredRestarts(next, fw);
        Ended(next, fw, served, env, from, address, rounds[1..]);
      } else {
        FetchCompletes(next, served, env, from, address, rounds[1..]);
      }
    }
  }

  lemma DeliveredRestarts(b: Board, fw: H.Firmware)
    requires Delivered(b, fw)
    ensures b.restarted
  {
  }

  // A board that is offered an image that it has a use for, and that fits it, restarts
  // into it exactly if the rounds after that bring every chunk, however many are lost.
  lemma OfferedImageIsDelivered(
    b: Board, host: H.Push, env: Env, from: Peer, address: Peer, now: int, rounds: seq<Round>)
    requires Inv(b, env) && P.FetchWanted(b) && !b.restarted && b.incoming.None? && NoFaults(env)
    requires IsImage(host.firmware, env) && host.firmware.image.size <= |b.area.bytes| - PAGE
    requires host.firmware.image.build != b.running && b.rolledBack != Some(host.firmware.image.build)
    requires b.staged != Some(host.firmware.image)
    ensures var (last, end) := Conversation(b, host, env, from, address, [Offered(now)] + rounds);
            && (Delivered(last, host.firmware) <==> CHUNK_LEN * Gained(rounds, 0) >= host.firmware.image.size)
            && (Delivered(last, host.firmware) ==> Finished(end, address))
  {
    var all := [Offered(now)] + rounds;
    assert all[1..] == rounds;
    OfferStartsFetch(b, host.firmware, env, from, now);
    var asked := Step(b, env, Received(from, Offer(host.firmware.image)), now);
    assert Conversation(b, host, env, from, address, all) == Conversation(asked, host, env, from, address, rounds);
    hide Step, Asking, Inv, P.FetchWanted, Delivered, Conversation;
    FetchCompletes(asked, host, env, from, address, rounds);
    var last := Conversation(asked, host, env, from, address, rounds).0;
    if Delivered(last, host.firmware) && Asking(last, env, host.firmware, from) {
      DeliveredRestarts(last, host.firmware);
      StillAsks(last, env, host.firmware, from);
      assert false;
    }
  }

  lemma OfferStartsFetch(b: Board, fw: H.Firmware, env: Env, from: Peer, now: int)
    requires Inv(b, env) && P.FetchWanted(b) && !b.restarted && b.incoming.None?
    requires IsImage(fw, env) && fw.image.size <= |b.area.bytes| - PAGE
    requires fw.image.build != b.running && b.rolledBack != Some(fw.image.build) && b.staged != Some(fw.image)
    ensures var asked := Step(b, env, Received(from, Offer(fw.image)), now);
            Asking(asked, env, fw, from) && asked.incoming.value.received == 0 == asked.fetching.value.attempts
  {
    assert BuildMarker.LEN <= |fw.bytes|;
    StepKeeps(b, env, Received(from, Offer(fw.image)), now);
    P.StepKeepsWanted(b, env, Received(from, Offer(fw.image)), now);
    hide BaseInv;
  }

  // How many requests arrive.
  function Arriving(rounds: seq<Round>): nat
  {
    if rounds == [] then 0
    else (if rounds[0].Asked? && rounds[0].arrives then 1 else 0) + Arriving(rounds[1..])
  }

  // No request is lost more than MAX_ATTEMPTS times in a row, with `before` times in a row
  // until now.
  ghost predicate FewLosses(rounds: seq<Round>, before: nat)
  {
    && before <= MAX_ATTEMPTS
    && (rounds != [] ==>
          FewLosses(rounds[1..], if rounds[0].Offered? then before else if rounds[0].arrives then 0 else before + 1))
  }

  // As long as no request is lost more than MAX_ATTEMPTS times in a row, each one that
  // arrives brings a chunk.
  lemma {:induction false} FewLossesCostNothing(rounds: seq<Round>, before: nat)
    requires FewLosses(rounds, before)
    ensures Gained(rounds, before) == Arriving(rounds)
  {
    if rounds != [] {
      FewLossesCostNothing(
        rounds[1..], if rounds[0].Offered? then before else if rounds[0].arrives then 0 else before + 1);
    }
  }

  // However much has been lost, and whether or not the board has given up, an offer and
  // after it a request that arrives for every chunk are enough.
  lemma {:induction false} OfferMakesGood(before: seq<Round>, now: int, after: seq<Round>, attempts: nat)
    requires forall round :: round in after ==> round.Asked? && round.arrives
    ensures Gained(before + [Offered(now)] + after, attempts) >= |after|
    decreases |before|
  {
    var rounds := before + [Offered(now)] + after;
    if before == [] {
      assert rounds[1..] == after;
      AllArrive(after, if attempts > MAX_ATTEMPTS then 0 else attempts);
    } else {
      var rest := before[1..];
      assert rounds[1..] == rest + [Offered(now)] + after;
      OfferMakesGood(rest, now, after, 0);
      OfferMakesGood(rest, now, after, attempts);
      OfferMakesGood(rest, now, after, attempts + 1);
    }
  }

  lemma {:induction false} AllArrive(rounds: seq<Round>, attempts: nat)
    requires attempts <= MAX_ATTEMPTS && forall round :: round in rounds ==> round.Asked? && round.arrives
    ensures Gained(rounds, attempts) == |rounds|
  {
    if rounds != [] {
      assert rounds[0] in rounds;
      AllArrive(rounds[1..], 0);
    }
  }
}
