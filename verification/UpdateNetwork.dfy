// A board, the hosts that offer it images, and a network that loses, duplicates
// and reorders what they and other boards send: whatever happens, a board that
// fetches an image holds the beginning of that image, and nothing else.
module UpdateNetwork {
  import opened Basics
  import opened Flash
  import opened UpdateBoard
  import opened UpdateInvariant
  import opened Delivery
  import H = HostOffer

  datatype Packet = Packet(from: Peer, to: Peer, message: Message)

  // Every packet ever sent stays in `net`: it can arrive at any time, any number
  // of times, or never.
  datatype World = World(board: Board, address: Peer, hosts: map<Peer, H.Push>, net: set<Packet>)

  datatype Event =
    | Arrives(packet: Packet, now: int)
    | Offers(host: Peer)
    | Requests(request: Request, now: int)
    | TimePasses(now: int)
    // Another board sends something.
    | Elsewhere(packet: Packet)

  // What boards send: neither offers nor chunks.
  predicate FromBoard(message: Message)
  {
    message.ChunkRequest? || message.Fetching? || message.Running?
  }

  function BoardTurn(w: World, env: Env, input: Input, now: int): World
    requires w.board.area.Valid()
  {
    var board := Step(w.board, env, input, now);
    w.(board := board, net := w.net + set s | s in board.sent :: Packet(w.address, s.to, s.message))
  }

  function HostTurn(w: World, packet: Packet, now: int): World
    requires packet.to in w.hosts
  {
    var (host, reply) := H.HandleStep(w.hosts[packet.to], packet.from, packet.message, now);
    var w := w.(hosts := w.hosts[packet.to := host]);
    if reply.None? then w else w.(net := w.net + {Packet(packet.to, packet.from, reply.value)})
  }

  // An event that cannot happen changes nothing.
  function Next(w: World, env: Env, event: Event): World
    requires w.board.area.Valid()
  {
    match event
    case Arrives(packet, now) =>
      if packet !in w.net then w
      else if packet.to == w.address then BoardTurn(w, env, Received(packet.from, packet.message), now)
      else if packet.to in w.hosts then HostTurn(w, packet, now)
      else w
    case Offers(host) =>
      if host !in w.hosts then w
      else w.(net := w.net + {Packet(host, w.address, Offer(w.hosts[host].firmware.image))})
    case Requests(request, now) => BoardTurn(w, env, Usb(request), now)
    case TimePasses(now) => BoardTurn(w, env, Timer, now)
    case Elsewhere(packet) => if FromBoard(packet.message) then w.(net := w.net + {packet}) else w
  }

  predicate IsForHost(w: World, packet: Packet)
  {
    packet.to in w.hosts && packet.to != w.address
  }

  // What moves in each event: the board or the host that it is for takes its step, and what
  // that sends is in the network from then on.
  lemma EventsExactly(w: World, env: Env, event: Event)
    requires w.board.area.Valid()
    ensures var v := Next(w, env, event);
            && v.address == w.address && v.hosts.Keys == w.hosts.Keys && w.net <= v.net
            && v.board == (match event
                           case Arrives(packet, now) =>
                             if packet in w.net && packet.to == w.address
                             then Step(w.board, env, Received(packet.from, packet.message), now) else w.board
                           case Requests(request, now) => Step(w.board, env, Usb(request), now)
                           case TimePasses(now) => Step(w.board, env, Timer, now)
                           case _ => w.board)
            && (v.board != w.board ==> forall s :: s in v.board.sent ==> Packet(w.address, s.to, s.message) in v.net)
            && (event.Offers? && event.host in w.hosts ==>
                 Packet(event.host, w.address, Offer(w.hosts[event.host].firmware.image)) in v.net)
            && (event.Elsewhere? && FromBoard(event.packet.message) ==> event.packet in v.net)
            && (event.Arrives? && event.packet in w.net && IsForHost(w, event.packet) ==>
                 var p := event.packet;
                 var (host, reply) := H.HandleStep(w.hosts[p.to], p.from, p.message, event.now);
                 v.hosts[p.to] == host && (reply.Some? ==> Packet(p.to, p.from, reply.value) in v.net))
  {
    hide Step, H.HandleStep;
  }

  ghost function RunOf(w: World, env: Env, events: seq<Event>): (last: World)
    requires w.board.area.Valid()
    ensures last.board.area.Valid()
    decreases |events|
  {
    if events == [] then w else RunOf(Next(w, env, events[0]), env, events[1..])
  }

  // Two hosts that offer the same build offer the same image.
  ghost predicate OneImagePerBuild(hosts: map<Peer, H.Push>, env: Env)
  {
    && (forall h :: h in hosts ==> IsImage(hosts[h].firmware, env))
    && (forall h, g :: h in hosts && g in hosts && hosts[h].firmware.image.build == hosts[g].firmware.image.build ==>
      hosts[h].firmware == hosts[g].firmware)
  }

  ghost predicate IsOfferOf(message: Message, fw: H.Firmware)
  {
    message == Offer(fw.image)
  }

  ghost predicate IsChunkOf(message: Message, fw: H.Firmware)
  {
    && message.Chunk? && H.Serves(fw, message.build, message.offset)
    && message.data == H.ChunkAt(fw, message.offset)
  }

  // The only offers are the hosts' own, and the only chunks parts of their images.
  ghost predicate Genuine(message: Message, hosts: map<Peer, H.Push>)
  {
    || FromBoard(message)
    || exists h :: h in hosts && (IsOfferOf(message, hosts[h].firmware) || IsChunkOf(message, hosts[h].firmware))
  }

  ghost predicate HoldsOneOf(b: Board, hosts: map<Peer, H.Push>)
  {
    exists h :: h in hosts && Holds(b, hosts[h].firmware)
  }

  ghost predicate NetInv(w: World, env: Env)
  {
    && Inv(w.board, env) && OneImagePerBuild(w.hosts, env)
    && SentAsBoard(w.board)
    && (forall p :: p in w.net ==> Genuine(p.message, w.hosts))
    && (w.board.fetching.Some? ==> HoldsOneOf(w.board, w.hosts))
  }

  ghost predicate StartsAll(w: World, env: Env)
  {
    && Starts(w.board) && w.board.sent == [] && OneImagePerBuild(w.hosts, env)
    && (forall p :: p in w.net ==> Genuine(p.message, w.hosts))
  }

  // ---- What a turn does to a fetch ----

  ghost predicate SameFetch(b: Board, next: Board)
  {
    b.fetching.Some? && next.incoming == b.incoming && next.got == b.got && next.damaged == b.damaged
  }

  lemma AskChangesNothing(b: Board, now: int)
    ensures var next := AskStep(b, now);
            && next.incoming == b.incoming && next.got == b.got && next.damaged == b.damaged
            && (next.fetching.Some? <==> b.fetching.Some?)
  {
  }

  lemma OfferStarts(b: Board, image: Image, from: Peer, now: int)
    requires b.area.Valid()
    ensures var next := OfferStep(b, image, from, now);
            next.fetching.Some? && !SameFetch(b, next) && (b.fetching.Some? ==> b.incoming.Some?) ==>
              next.incoming == Some(Incoming(image, 0, 0)) && next.got == [] && !next.damaged
  {
    hide AskStep;
    forall c { AskChangesNothing(c, now); }
  }

  // A genuine chunk goes on with the fetch, or is ignored, or ends the fetch.
  lemma ChunkGoesOn(b: Board, env: Env, fw: H.Firmware, offset: u32, now: int)
    requires Inv(b, env) && b.fetching.Some? && Holds(b, fw) && H.Serves(fw, fw.image.build, offset)
    ensures var next := ChunkStep(b, env, fw.image.build, offset, H.ChunkAt(fw, offset), now);
            next.fetching.Some? ==> Holds(next, fw)
  {
    if offset == b.incoming.value.received {
      var data := H.ChunkAt(fw, offset);
      assert b.area.Valid() && Part(fw, offset, CHUNK_LEN) == data;
      NextPartArrives(b, env, fw, CHUNK_LEN);
      var written := WriteStep(b, env, offset, data).0;
      hide WriteStep, BaseInv, FetchOk, H.ChunkAt;
      if offset + |data| == fw.image.size { LastChunkEndsFetch(written.(fetching := None), env); }
    }
  }

  lemma UsbEndsOrKeeps(b: Board, env: Env, request: Request)
    requires b.area.Valid() && b.fetching.Some?
    ensures var next := RequestStep(b, env, request).0;
            next.fetching.None? || SameFetch(b, next)
  {
  }

  // Nothing but an offer starts a fetch.
  lemma OthersStartNone(b: Board, env: Env, input: Input, now: int)
    requires Inv(b, env) && b.fetching.None? && !(input.Received? && input.message.Offer?)
    ensures Step(b, env, input, now).fetching.None?
  {
    hide ReadPieces, FindInPieces, EraseUpTo, Program;
    assert b.area.Valid();
  }

  // ---- Every turn ----

  lemma BoardHolds(w: World, env: Env, input: Input, now: int)
    requires NetInv(w, env) && (input.Received? ==> Genuine(input.message, w.hosts))
    ensures var next := Step(w.board, env, input, now);
            next.fetching.Some? ==> HoldsOneOf(next, w.hosts)
  {
    var b, next := w.board, Step(w.board, env, input, now);
    if next.fetching.Some? && !b.restarted {
      if input.Received? && input.message.Offer? {
        var h :| h in w.hosts && IsOfferOf(input.message, w.hosts[h].firmware);
        OfferStarts(b, input.message.image, input.from, now);
        if !SameFetch(b, next) { assert Holds(next, w.hosts[h].firmware); }
      } else if b.fetching.None? {
        OthersStartNone(b, env, input, now);
      } else if input.Usb? {
        UsbEndsOrKeeps(b, env, input.request);
      } else if input.Received? && input.message.Chunk? {
        var h :| h in w.hosts && Holds(b, w.hosts[h].firmware);
        var g :| g in w.hosts && IsChunkOf(input.message, w.hosts[g].firmware);
        if input.message.build == b.incoming.value.image.build {
          ChunkGoesOn(b, env, w.hosts[h].firmware, input.message.offset, now);
        }
      }
    }
  }

  ghost predicate SentAsBoard(b: Board)
  {
    forall s :: s in b.sent ==> FromBoard(s.message)
  }

  lemma OfferSends(b: Board, image: Image, from: Peer, now: int)
    requires b.area.Valid() && SentAsBoard(b)
    ensures SentAsBoard(OfferStep(b, image, from, now))
  {
    hide BeginStep;
  }

  lemma ChunkSends(b: Board, env: Env, build: u32, offset: u32, data: seq<byte>, now: int)
    requires b.area.Valid() && SentAsBoard(b)
    ensures SentAsBoard(ChunkStep(b, env, build, offset, data, now))
  {
    hide WriteStep, FinishStep, MarkStep;
  }

  lemma SendsAsBoard(b: Board, env: Env, input: Input, now: int)
    requires b.area.Valid() && SentAsBoard(b)
    ensures SentAsBoard(Step(b, env, input, now))
  {
    hide RequestStep, OfferStep, ChunkStep;
    match input
    case Received(from, Offer(image)) => OfferSends(b, image, from, now);
    case Received(_, Chunk(build, offset, data)) => ChunkSends(b, env, build, offset, data, now);
    case _ =>
  }

  lemma HostStaysGenuine(w: World, env: Env, packet: Packet, now: int)
    requires NetInv(w, env) && packet.to in w.hosts
    ensures NetInv(HostTurn(w, packet, now), env)
  {
    hide Inv, IsImage, H.Touched, H.RecordBuild, H.ChunkAt;
    var v := HostTurn(w, packet, now);
    assert forall h :: h in v.hosts <==> h in w.hosts;
    assert forall h :: h in w.hosts ==> v.hosts[h].firmware == w.hosts[h].firmware;
    var reply := H.HandleStep(w.hosts[packet.to], packet.from, packet.message, now).1;
    assert reply.Some? ==> IsChunkOf(reply.value, w.hosts[packet.to].firmware);
    if w.board.fetching.Some? {
      var h :| h in w.hosts && Holds(w.board, w.hosts[h].firmware);
      assert Holds(w.board, v.hosts[h].firmware);
    }
    forall p | p in v.net ensures Genuine(p.message, v.hosts) {
      if p in w.net { SameImages(p.message, w.hosts, v.hosts); }
    }
  }

  lemma SameImages(message: Message, hosts: map<Peer, H.Push>, others: map<Peer, H.Push>)
    requires Genuine(message, hosts)
    requires forall h :: h in hosts ==> h in others && others[h].firmware == hosts[h].firmware
    ensures Genuine(message, others)
  {
    if !FromBoard(message) {
      var h :| h in hosts && (IsOfferOf(message, hosts[h].firmware) || IsChunkOf(message, hosts[h].firmware));
      assert others[h].firmware == hosts[h].firmware;
    }
  }

  lemma BoardTurnKeeps(w: World, env: Env, input: Input, now: int)
    requires NetInv(w, env) && (input.Received? ==> Genuine(input.message, w.hosts))
    ensures NetInv(BoardTurn(w, env, input, now), env)
  {
    StepKeeps(w.board, env, input, now);
    BoardHolds(w, env, input, now);
    SendsAsBoard(w.board, env, input, now);
    hide Inv, Step, OneImagePerBuild;
  }

  lemma NextKeeps(w: World, env: Env, event: Event)
    requires NetInv(w, env)
    ensures NetInv(Next(w, env, event), env)
  {
    match event
    case Arrives(packet, now) =>
      if packet in w.net {
        if packet.to == w.address {
          BoardTurnKeeps(w, env, Received(packet.from, packet.message), now);
        } else if packet.to in w.hosts {
          HostStaysGenuine(w, env, packet, now);
        }
      }
    case Offers(host) =>
      if host in w.hosts { assert IsOfferOf(Offer(w.hosts[host].firmware.image), w.hosts[host].firmware); }
    case Requests(request, now) => BoardTurnKeeps(w, env, Usb(request), now);
    case TimePasses(now) => BoardTurnKeeps(w, env, Timer, now);
    case Elsewhere(packet) =>
  }

  lemma {:induction false} RunKeepsNetInv(w: World, env: Env, events: seq<Event>)
    requires NetInv(w, env)
    ensures NetInv(RunOf(w, env, events), env)
    decreases |events|
  {
    if events != [] {
      NextKeeps(w, env, events[0]);
      var next := Next(w, env, events[0]);
      assert next.board.area.Valid() && NetInv(next, env);
      hide Next, NetInv;
      RunKeepsNetInv(next, env, events[1..]);
    }
  }

  // Whatever is lost, repeated, delayed, offered in competition or requested over
  // USB: while a board fetches, it fetches an image that one of the hosts offers,
  // its staging area begins with exactly the bytes it has received of that image,
  // and the chunk that host serves for its current request passes its checks.
  lemma FetchedIsBeginningOfImage(w: World, env: Env, events: seq<Event>)
    requires StartsAll(w, env)
    ensures var last := RunOf(w, env, events);
            last.board.fetching.Some? ==>
              last.board.incoming.Some? && exists h :: h in last.hosts && BeginsWith(last.board, last.hosts[h].firmware)
  {
    RunKeepsNetInv(w, env, events);
    var last := RunOf(w, env, events);
    if last.board.fetching.Some? {
      var h :| h in last.hosts && Holds(last.board, last.hosts[h].firmware);
      assert BeginsWith(last.board, last.hosts[h].firmware) by {
        assert Part(last.hosts[h].firmware, last.board.incoming.value.received, CHUNK_LEN)
            == H.ChunkAt(last.hosts[h].firmware, last.board.incoming.value.received);
        NextPartIsAccepted(last.board, env, last.hosts[h].firmware, CHUNK_LEN);
      }
    }
  }

  ghost predicate BeginsWith(b: Board, fw: H.Firmware)
    requires b.incoming.Some?
  {
    var i := b.incoming.value;
    && i.image == fw.image
    && H.Serves(fw, i.image.build, i.received) && i.received <= |b.area.bytes|
    && b.area.bytes[..i.received] == fw.bytes[..i.received]
    && Accepts(i, i.received, H.ChunkAt(fw, i.received))
  }
}
