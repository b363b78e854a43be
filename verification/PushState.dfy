// Where a push stands, and what it says of each board, by the messages that the host
// has had: which addresses still fetch, which outcomes were told, and which builds.
module PushState {
  import opened Basics
  import opened HostOffer
  import Board = UpdateBoard

  // The offset of the last valid chunk request from the address, and when it last asked
  // for anything.
  ghost function LastOffset(fw: Firmware, inputs: seq<Input>, address: Peer): Option<u32>
  {
    if inputs == [] then None
    else
      var last := inputs[|inputs| - 1];
      if last.from == address && last.message.ChunkRequest? && Asks(fw, last.message) then Some(last.message.offset)
      else LastOffset(fw, inputs[..|inputs| - 1], address)
  }

  ghost function AskedAt(fw: Firmware, inputs: seq<Input>, address: Peer): Option<int>
  {
    if inputs == [] then None
    else
      var last := inputs[|inputs| - 1];
      if last.from == address && Asks(fw, last.message) then Some(last.at)
      else AskedAt(fw, inputs[..|inputs| - 1], address)
  }

  // The address has asked, but not for the last chunk, or for another one after it.
  ghost predicate Fetches(fw: Firmware, inputs: seq<Input>, address: Peer)
  {
    && AskedAt(fw, inputs, address).Some?
    && var offset := LastOffset(fw, inputs, address);
       offset.None? || offset.value + Board.CHUNK_LEN < fw.image.size
  }

  ghost predicate AskedWithin(fw: Firmware, inputs: seq<Input>, address: Peer, now: int, time: int)
  {
    AskedAt(fw, inputs, address).Some? && Since(now, AskedAt(fw, inputs, address).value) < time
  }

  // ---- What the records say ----

  ghost function Progress(fw: Firmware, offset: Option<u32>): u32
  {
    if offset.None? then 0
    else if offset.value + Board.CHUNK_LEN < fw.image.size then offset.value
    else fw.image.size
  }

  // What a message leaves of when a record's address was last seen, and how far it was.
  ghost predicate SeenBy(fw: Firmware, input: Input, seen: int, received: u32, f: Fetcher)
  {
    if f.address != input.from || !Asks(fw, input.message) then f.lastSeen == seen && f.received == received
    else
      && f.lastSeen == input.at
      && f.received == if input.message.Fetching? then received else Progress(fw, Some(input.message.offset))
  }

  lemma RecordsAreSeen(p: Push, input: Input)
    requires DistinctAddresses(p.fetchers)
    ensures var q := HandleStep(p, input.from, input.message, input.at).0;
            && |p.fetchers| <= |q.fetchers|
            && (forall i :: 0 <= i < |p.fetchers| ==>
                  SeenBy(p.firmware, input, p.fetchers[i].lastSeen, p.fetchers[i].received, q.fetchers[i]))
            && (|q.fetchers| > |p.fetchers| ==>
                  SeenBy(p.firmware, input, input.at, 0, q.fetchers[|p.fetchers|]) && Asks(p.firmware, input.message))
  {
    hide Position;
  }

  // A record says when its address asked last, and what for.
  lemma {:induction false} RecordsAreCurrent(fw: Firmware, inputs: seq<Input>)
    requires 0 < fw.image.size
    ensures forall a :: AskedAt(fw, inputs, a).Some? <==> IsRecorded(After(fw, inputs).fetchers, a)
    ensures forall f :: f in After(fw, inputs).fetchers ==>
              && AskedAt(fw, inputs, f.address) == Some(f.lastSeen)
              && f.received == Progress(fw, LastOffset(fw, inputs, f.address))
  {
    if inputs != [] {
      var n := |inputs| - 1;
      var p, q := After(fw, inputs[..n]), After(fw, inputs);
      RecordsAreCurrent(fw, inputs[..n]);
      OneRecordPerAddress(fw, inputs[..n]);
      assert q == HandleStep(p, inputs[n].from, inputs[n].message, inputs[n].at).0;
      RecordsAreSeen(p, inputs[n]);
      RecordsAreNamed(p, inputs[n]);
      SameAddresses(p, inputs[n]);
      hide HandleStep, After, Asks, Progress;
      forall a ensures AskedAt(fw, inputs, a).Some? <==> IsRecorded(q.fetchers, a) {
        AskedAtOneMore(fw, inputs, a);
        RecordedOneMore(p.fetchers, q.fetchers, inputs[n].from, a);
        assert AskedAt(fw, inputs[..n], a).Some? <==> IsRecorded(p.fetchers, a);
        if inputs[n].from == a && Asks(fw, inputs[n].message) {
          assert IsRecorded(q.fetchers, a);
        }
      }
      forall f | f in q.fetchers
        ensures AskedAt(fw, inputs, f.address) == Some(f.lastSeen)
        ensures f.received == Progress(fw, LastOffset(fw, inputs, f.address))
      {
        var i :| 0 <= i < |q.fetchers| && q.fetchers[i] == f;
        if i < |p.fetchers| {
          assert p.fetchers[i] in p.fetchers;
          SeenOneMore(fw, inputs, p.fetchers[i].lastSeen, p.fetchers[i].received, f);
        } else {
          assert !IsRecorded(p.fetchers, f.address);
          NothingAsked(fw, inputs[..n], f.address);
          SeenOneMore(fw, inputs, inputs[n].at, 0, f);
        }
      }
    }
  }

  lemma SeenOneMore(fw: Firmware, inputs: seq<Input>, seen: int, received: u32, f: Fetcher)
    requires inputs != [] && SeenBy(fw, inputs[|inputs| - 1], seen, received, f)
    requires var n := |inputs| - 1; received == Progress(fw, LastOffset(fw, inputs[..n], f.address))
    requires var n := |inputs| - 1;
             || AskedAt(fw, inputs[..n], f.address) == Some(seen)
             || (inputs[n].from == f.address && Asks(fw, inputs[n].message))
    ensures AskedAt(fw, inputs, f.address) == Some(f.lastSeen)
    ensures f.received == Progress(fw, LastOffset(fw, inputs, f.address))
  {
    hide Progress;
  }

  lemma AskedAtOneMore(fw: Firmware, inputs: seq<Input>, address: Peer)
    requires inputs != []
    ensures var n := |inputs| - 1;
            AskedAt(fw, inputs, address).Some? <==>
              AskedAt(fw, inputs[..n], address).Some? || (inputs[n].from == address && Asks(fw, inputs[n].message))
  {
  }

  lemma {:induction false} NothingAsked(fw: Firmware, inputs: seq<Input>, address: Peer)
    requires AskedAt(fw, inputs, address).None?
    ensures LastOffset(fw, inputs, address).None? && Progress(fw, None) == 0
  {
    if inputs != [] { NothingAsked(fw, inputs[..|inputs| - 1], address); }
  }

  lemma FetchingIsPartial(fw: Firmware, inputs: seq<Input>, f: Fetcher)
    requires 0 < fw.image.size && f in After(fw, inputs).fetchers
    ensures HasAll(After(fw, inputs), f) <==> !Fetches(fw, inputs, f.address)
    ensures AskedAt(fw, inputs, f.address) == Some(f.lastSeen)
  {
    RecordsAreCurrent(fw, inputs);
    hide After;
  }

  // ---- Where the push stands ----

  ghost predicate IsActive(fw: Firmware, inputs: seq<Input>, now: int)
  {
    exists a :: Fetches(fw, inputs, a) && AskedWithin(fw, inputs, a, now, 180_000)
  }

  ghost predicate IsQuiet(fw: Firmware, inputs: seq<Input>, started: int, now: int)
  {
    Since(now, started) >= 30_000 && forall a :: !AskedWithin(fw, inputs, a, now, 30_000)
  }

  ghost predicate SomeFetch(fw: Firmware, inputs: seq<Input>)
  {
    exists a :: Fetches(fw, inputs, a)
  }

  // A board may still come back for seven minutes after it had the image, if it has told its
  // ID and had no outcome.
  lemma ComingBackExactly(f: Fetcher, now: int)
    ensures ComingBack(f, now) <==>
      f.board.Some? && f.outcome.None? && f.finished.Some? && Since(now, f.finished.value) < 420_000
  {
  }

  // A push is open as long as an address that fetches has asked in the last three minutes,
  // or any at all in the last half minute, or the push is no older than that. Then it
  // has stalled exactly if some address fetches, and otherwise only boards that may
  // still come back keep it open.
  lemma StateIsDecided(fw: Firmware, inputs: seq<Input>, started: int, now: int)
    requires 0 < fw.image.size
    ensures var p := After(fw, inputs); var state := StateOf(p, started, now);
            var waits := IsActive(fw, inputs, now) || !IsQuiet(fw, inputs, started, now);
            && (state.Stalled? <==> !waits && SomeFetch(fw, inputs))
            && (state.Open? <==>
                  waits || (!SomeFetch(fw, inputs) && exists f :: f in p.fetchers && ComingBack(f, now)))
  {
    var p := After(fw, inputs);
    hide After, Tally, Fetches, AskedWithin;
    PartialIsFetching(fw, inputs);
    ActiveIsPartial(fw, inputs, now);
    QuietIsLastHeard(fw, inputs, started, now);
    var partial := Filter(p.fetchers, (f: Fetcher) => !HasAll(p, f));
    if !SomeFetch(fw, inputs) {
      forall f | f in p.fetchers ensures f in Filter(p.fetchers, (f: Fetcher) => HasAll(p, f)) {}
    }
    assert partial == [] <==> !SomeFetch(fw, inputs) by {
      if partial != [] { assert partial[0] in partial; }
    }
    hide Filter, LastHeard;
  }

  // The record of an address that fetches lacks some of the image, and the other way round.
  lemma RecordOf(fw: Firmware, inputs: seq<Input>, a: Peer) returns (f: Fetcher)
    requires 0 < fw.image.size && AskedAt(fw, inputs, a).Some?
    ensures f in After(fw, inputs).fetchers && f.address == a
    ensures HasAll(After(fw, inputs), f) <==> !Fetches(fw, inputs, a)
    ensures AskedAt(fw, inputs, a) == Some(f.lastSeen)
  {
    hide After, Fetches;
    RecordsAreCurrent(fw, inputs);
    var p := After(fw, inputs);
    assert IsRecorded(p.fetchers, a);
    var i :| 0 <= i < |p.fetchers| && p.fetchers[i].address == a;
    f := p.fetchers[i];
    FetchingIsPartial(fw, inputs, f);
  }

  lemma FetchesAsked(fw: Firmware, inputs: seq<Input>, a: Peer)
    requires Fetches(fw, inputs, a)
    ensures AskedAt(fw, inputs, a).Some?
  {
  }

  lemma PartialIsFetching(fw: Firmware, inputs: seq<Input>)
    requires 0 < fw.image.size
    ensures var p := After(fw, inputs); SomeFetch(fw, inputs) <==> exists f :: f in p.fetchers && !HasAll(p, f)
  {
    hide After, Fetches, HasAll;
    var p := After(fw, inputs);
    if SomeFetch(fw, inputs) {
      var a :| Fetches(fw, inputs, a);
      FetchesAsked(fw, inputs, a);
      var f := RecordOf(fw, inputs, a);
    }
    if f :| f in p.fetchers && !HasAll(p, f) {
      FetchingIsPartial(fw, inputs, f);
    }
  }

  lemma ActiveIsPartial(fw: Firmware, inputs: seq<Input>, now: int)
    requires 0 < fw.image.size
    ensures var p := After(fw, inputs);
            IsActive(fw, inputs, now) <==>
              exists f :: f in p.fetchers && !HasAll(p, f) && Since(now, f.lastSeen) < 180_000
  {
    hide After, Fetches, HasAll, AskedAt, Since;
    var p := After(fw, inputs);
    if IsActive(fw, inputs, now) {
      var a :| Fetches(fw, inputs, a) && AskedWithin(fw, inputs, a, now, 180_000);
      var f := RecordOf(fw, inputs, a);
    }
    if f :| f in p.fetchers && !HasAll(p, f) && Since(now, f.lastSeen) < 180_000 {
      FetchingIsPartial(fw, inputs, f);
      assert Fetches(fw, inputs, f.address) && AskedWithin(fw, inputs, f.address, now, 180_000);
    }
  }

  lemma QuietIsLastHeard(fw: Firmware, inputs: seq<Input>, started: int, now: int)
    requires 0 < fw.image.size
    ensures IsQuiet(fw, inputs, started, now)
       <==> Since(now, LastHeard(After(fw, inputs).fetchers, started)) >= 30_000
  {
    hide After, Fetches, HasAll, AskedAt, LastHeard;
    var p := After(fw, inputs);
    forall f | f in p.fetchers
      ensures AskedWithin(fw, inputs, f.address, now, 30_000) <==> Since(now, f.lastSeen) < 30_000
    {
      FetchingIsPartial(fw, inputs, f);
    }
    if !IsQuiet(fw, inputs, started, now) && Since(now, started) >= 30_000 {
      var a :| AskedWithin(fw, inputs, a, now, 30_000);
      var f := RecordOf(fw, inputs, a);
      assert f.lastSeen <= LastHeard(p.fetchers, started);
    }
  }

  // ---- Whom a stalled push names ----

  ghost function NameAt(fw: Firmware, inputs: seq<Input>, address: Peer): Name
  {
    var name := NameFrom(fw, inputs, address);
    if name.Some? then Id(name.value) else At(address)
  }

  ghost function Addresses(s: seq<Fetcher>): (addresses: seq<Peer>)
    ensures |addresses| == |s| && forall i :: 0 <= i < |s| ==> addresses[i] == s[i].address
  {
    seq(|s|, i requires 0 <= i < |s| => s[i].address)
  }

  ghost function Partial(p: Push): seq<Fetcher>
  {
    Filter(p.fetchers, (f: Fetcher) => !HasAll(p, f))
  }

  // It names every address that fetches once, and no other, by the ID that was told of it.
  lemma StalledNames(fw: Firmware, inputs: seq<Input>, started: int, now: int) returns (addresses: seq<Peer>)
    requires 0 < fw.image.size && StateOf(After(fw, inputs), started, now).Stalled?
    ensures forall a :: a in addresses <==> Fetches(fw, inputs, a)
    ensures forall i, j :: 0 <= i < j < |addresses| ==> addresses[i] != addresses[j]
    ensures var boards := StateOf(After(fw, inputs), started, now).boards;
            && |boards| == |addresses|
            && forall i :: 0 <= i < |boards| ==> boards[i] == NameAt(fw, inputs, addresses[i])
  {
    hide StateOf, After, Partial, Fetches;
    var p := After(fw, inputs);
    addresses := Addresses(Partial(p));
    forall a ensures a in addresses <==> Fetches(fw, inputs, a) { PartialAddress(fw, inputs, a); }
    OneRecordPerAddress(fw, inputs);
    PartialIsDistinct(p);
    NamesOfPartial(fw, inputs);
    StalledIsPartial(p, started, now);
  }

  lemma PartialIsDistinct(p: Push)
    requires DistinctAddresses(p.fetchers)
    ensures DistinctAddresses(Partial(p))
  {
    FilteredAreDistinct(p.fetchers, (f: Fetcher) => !HasAll(p, f));
  }

  lemma StalledIsPartial(p: Push, started: int, now: int)
    requires StateOf(p, started, now).Stalled?
    ensures StateOf(p, started, now).boards == Names(Partial(p))
  {
    hide Filter, Tally;
  }

  lemma PartialAddress(fw: Firmware, inputs: seq<Input>, a: Peer)
    requires 0 < fw.image.size
    ensures a in Addresses(Partial(After(fw, inputs))) <==> Fetches(fw, inputs, a)
  {
    var p := After(fw, inputs);
    var partial := Partial(p);
    hide After;
    if Fetches(fw, inputs, a) {
      RecordsAreCurrent(fw, inputs);
      assert IsRecorded(p.fetchers, a);
      var i :| 0 <= i < |p.fetchers| && p.fetchers[i].address == a;
      FetchingIsPartial(fw, inputs, p.fetchers[i]);
      assert p.fetchers[i] in partial;
      var j :| 0 <= j < |partial| && partial[j] == p.fetchers[i];
      assert Addresses(partial)[j] == a;
    }
    if a in Addresses(partial) {
      var j :| 0 <= j < |partial| && Addresses(partial)[j] == a;
      assert partial[j] in partial;
      FetchingIsPartial(fw, inputs, partial[j]);
    }
  }

  lemma NamesOfPartial(fw: Firmware, inputs: seq<Input>)
    ensures var partial := Partial(After(fw, inputs));
            forall i :: 0 <= i < |partial| ==> NameOf(partial[i]) == NameAt(fw, inputs, Addresses(partial)[i])
  {
    RecordsHaveNames(fw, inputs);
    var partial := Partial(After(fw, inputs));
    hide After;
    forall i | 0 <= i < |partial| ensures NameOf(partial[i]) == NameAt(fw, inputs, Addresses(partial)[i]) {
      assert partial[i] in partial;
    }
  }

  lemma {:induction false} FilteredAreDistinct(s: seq<Fetcher>, keep: Fetcher -> bool)
    requires DistinctAddresses(s)
    ensures DistinctAddresses(Filter(s, keep))
  {
    if s != [] {
      var before := s[..|s| - 1];
      FilteredAreDistinct(before, keep);
      var rest := Filter(before, keep);
      forall i | 0 <= i < |rest| ensures rest[i].address != s[|s| - 1].address {
        assert rest[i] in rest && rest[i] in before;
      }
    }
  }

  // ---- Outcomes, times and builds ----

  // When the address asked for the last chunk first.
  ghost function FinishedAt(fw: Firmware, inputs: seq<Input>, address: Peer): Option<int>
  {
    if inputs == [] then None
    else
      var before, last := FinishedAt(fw, inputs[..|inputs| - 1], address), inputs[|inputs| - 1];
      if before.None? && last.from == address && AsksForLast(fw, last.message) then Some(last.at) else before
  }

  ghost predicate AsksForLast(fw: Firmware, message: Board.Message)
  {
    message.ChunkRequest? && Asks(fw, message) && message.offset + Board.CHUNK_LEN >= fw.image.size
  }

  // The message is the outcome of record i: it names the board that the record is the
  // first for, and comes ten seconds or more after that had the whole image.
  ghost predicate TellsNow(p: Push, input: Input, i: nat)
  {
    && i < |p.fetchers| && input.message.Running? && FirstFor(p.fetchers, input.message.board, i)
    && p.fetchers[i].outcome.None? && p.fetchers[i].finished.Some?
    && Since(input.at, p.fetchers[i].finished.value) >= 10_000
  }

  ghost function Told(fw: Firmware, build: u32): Outcome
  {
    if build == fw.image.build then Kept else RolledBack(build)
  }

  lemma RecordsAreTold(p: Push, input: Input)
    requires DistinctAddresses(p.fetchers)
    ensures var q := HandleStep(p, input.from, input.message, input.at).0;
            && |p.fetchers| <= |q.fetchers|
            && (forall i: nat :: i < |p.fetchers| ==>
                 q.fetchers[i].outcome == if TellsNow(p, input, i) then Some(Told(p.firmware, input.message.build))
                                          else p.fetchers[i].outcome)
            && (|q.fetchers| > |p.fetchers| ==> q.fetchers[|p.fetchers|].outcome.None?)
  {
    hide ChunkAt;
    if input.message.Running? {
      var k := Position(p.fetchers, (f: Fetcher) => f.board == Some(input.message.board));
      assert forall i: nat :: i < |p.fetchers| ==> (FirstFor(p.fetchers, input.message.board, i) <==> i == k);
    }
    hide Position;
  }

  lemma RecordsAreFinished(p: Push, input: Input)
    requires DistinctAddresses(p.fetchers)
    ensures var q := HandleStep(p, input.from, input.message, input.at).0;
            && |p.fetchers| <= |q.fetchers|
            && (forall i: nat :: i < |p.fetchers| ==>
                 q.fetchers[i].finished == Finishes(p.firmware, input, p.fetchers[i].finished, q.fetchers[i].address))
            && (|q.fetchers| > |p.fetchers| ==>
                 var f := q.fetchers[|p.fetchers|]; f.finished == Finishes(p.firmware, input, None, f.address))
  {
    hide Position;
  }

  ghost function Finishes(fw: Firmware, input: Input, before: Option<int>, address: Peer): Option<int>
  {
    if before.None? && input.from == address && AsksForLast(fw, input.message) then Some(input.at) else before
  }

  lemma FinishedAtOneMore(fw: Firmware, inputs: seq<Input>, address: Peer)
    requires inputs != []
    ensures var n := |inputs| - 1;
            FinishedAt(fw, inputs, address) == Finishes(fw, inputs[n], FinishedAt(fw, inputs[..n], address), address)
  {
  }

  // A record's time is when its address asked for the last chunk first.
  lemma {:induction false} FinishedWhenAsked(fw: Firmware, inputs: seq<Input>)
    requires 0 < fw.image.size
    ensures forall f :: f in After(fw, inputs).fetchers ==> f.finished == FinishedAt(fw, inputs, f.address)
  {
    if inputs != [] {
      hide HandleStep, FinishedAt, Finishes, HasAsked, NameFrom;
      var n := |inputs| - 1;
      var p, q := After(fw, inputs[..n]), After(fw, inputs);
      assert q == HandleStep(p, inputs[n].from, inputs[n].message, inputs[n].at).0;
      hide After;
      FinishedWhenAsked(fw, inputs[..n]);
      OneRecordPerAddress(fw, inputs[..n]);
      RecordsHaveNames(fw, inputs[..n]);
      RecordsAreFinished(p, inputs[n]);
      SameAddresses(p, inputs[n]);
      forall f | f in q.fetchers ensures f.finished == FinishedAt(fw, inputs, f.address) {
        var i :| 0 <= i < |q.fetchers| && q.fetchers[i] == f;
        FinishedAtOneMore(fw, inputs, f.address);
        if i < |p.fetchers| {
          assert p.fetchers[i] in p.fetchers;
        } else {
          assert !IsRecorded(p.fetchers, f.address);
          NotAskedNotFinished(fw, inputs[..n], f.address);
        }
      }
    }
  }

  lemma {:induction false} NotAskedNotFinished(fw: Firmware, inputs: seq<Input>, address: Peer)
    requires !HasAsked(fw, inputs, address)
    ensures FinishedAt(fw, inputs, address).None?
  {
    if inputs != [] {
      AskedOneMore(fw, inputs, address);
      NotAskedNotFinished(fw, inputs[..|inputs| - 1], address);
    }
  }

  ghost predicate ToldBy(fw: Firmware, inputs: seq<Input>, k: nat, i: nat, outcome: Outcome)
  {
    && k < |inputs| && TellsNow(After(fw, inputs[..k]), inputs[k], i)
    && inputs[k].message.Running? && outcome == Told(fw, inputs[k].message.build)
  }

  ghost predicate WasTold(fw: Firmware, inputs: seq<Input>, i: nat, outcome: Outcome)
  {
    exists k: nat :: ToldBy(fw, inputs, k, i, outcome)
  }

  lemma ToldOneMore(fw: Firmware, inputs: seq<Input>, i: nat, outcome: Outcome)
    requires inputs != []
    ensures var n := |inputs| - 1;
            WasTold(fw, inputs, i, outcome) <==>
              || WasTold(fw, inputs[..n], i, outcome)
              || (&& TellsNow(After(fw, inputs[..n]), inputs[n], i)
                  && inputs[n].message.Running? && outcome == Told(fw, inputs[n].message.build))
  {
    hide After, TellsNow;
    var n := |inputs| - 1;
    assert forall k: nat :: k < n ==> inputs[..n][..k] == inputs[..k];
    if WasTold(fw, inputs, i, outcome) {
      var k: nat :| ToldBy(fw, inputs, k, i, outcome);
      if k < n { assert ToldBy(fw, inputs[..n], k, i, outcome); }
    }
    if WasTold(fw, inputs[..n], i, outcome) {
      var k: nat :| ToldBy(fw, inputs[..n], k, i, outcome);
      assert ToldBy(fw, inputs, k, i, outcome);
    }
    if TellsNow(After(fw, inputs[..n]), inputs[n], i) && inputs[n].message.Running? {
      assert outcome == Told(fw, inputs[n].message.build) ==> ToldBy(fw, inputs, n, i, outcome);
    }
  }

  // A record has an outcome exactly if a message told it that.
  lemma {:induction false} OutcomeIsTold(fw: Firmware, inputs: seq<Input>, i: nat, outcome: Outcome)
    ensures WasTold(fw, inputs, i, outcome)
       <==> i < |After(fw, inputs).fetchers| && After(fw, inputs).fetchers[i].outcome == Some(outcome)
  {
    if inputs != [] {
      var n := |inputs| - 1;
      var p, q := After(fw, inputs[..n]), After(fw, inputs);
      OutcomeIsTold(fw, inputs[..n], i, outcome);
      OneRecordPerAddress(fw, inputs[..n]);
      assert q == HandleStep(p, inputs[n].from, inputs[n].message, inputs[n].at).0;
      RecordsAreTold(p, inputs[n]);
      SameAddresses(p, inputs[n]);
      ToldOneMore(fw, inputs, i, outcome);
      hide HandleStep, After, WasTold, FirstFor;
    }
  }

  // The build that a board said last that it runs.
  ghost function LastBuild(inputs: seq<Input>, board: BoardId): Option<u32>
  {
    if inputs == [] then None
    else
      var last := inputs[|inputs| - 1];
      if last.message.Running? && last.message.board == board then Some(last.message.build)
      else LastBuild(inputs[..|inputs| - 1], board)
  }

  lemma BuildsAreNoted(p: Push, input: Input)
    ensures HandleStep(p, input.from, input.message, input.at).0.builds
         == if input.message.Running? then p.builds[input.message.board := input.message.build] else p.builds
  {
    hide Position, ChunkAt;
  }

  lemma {:induction false} BuildsAreLatest(fw: Firmware, inputs: seq<Input>, board: BoardId)
    ensures var builds := After(fw, inputs).builds;
            LastBuild(inputs, board) == if board in builds then Some(builds[board]) else None
  {
    if inputs != [] {
      hide HandleStep;
      var n := |inputs| - 1;
      BuildsAreLatest(fw, inputs[..n], board);
      BuildsAreNoted(After(fw, inputs[..n]), inputs[n]);
    }
  }
}
