// Removing the coprocessor's wireless stack through FUS, which can reset the chip at
// any moment: four words that no reset clears say what was under way, and each boot
// goes on from there.
module Fus {
  import opened Basics

  datatype Version = Version(major: byte, minor: byte, patch: byte)

  datatype UninstallStep = EnterFus | Delete | Check

  datatype Pending = Install(fus: Version, stack: Option<Version>) | Uninstall(step: UninstallStep)

  datatype Words = Words(magic: u32, operation: u32, fus: u32, stack: u32)

  const PENDING_MAGIC: u32 := 0xF05B_0512
  const NOTHING: u32 := 0
  const INSTALL: u32 := 1
  const UNINSTALL_ENTER_FUS: u32 := 2
  const UNINSTALL_DELETE: u32 := 3
  const UNINSTALL_CHECK: u32 := 4

  // ---- The stored words ----

  function VersionWord(v: Version): u32
  {
    v.major * 0x100_0000 + v.minor * 0x1_0000 + v.patch * 0x100
  }

  function WordVersion(word: u32): Version
  {
    Version(word / 0x100_0000, word / 0x1_0000 % 0x100, word / 0x100 % 0x100)
  }

  // What the words stand for. Those of a chip that has just been powered, and all
  // others that SetPending does not write, stand for nothing.
  function PendingOf(words: Words): Option<Pending>
  {
    if words.magic != PENDING_MAGIC then None
    else if words.operation == INSTALL then
      Some(Install(WordVersion(words.fus), if words.stack != 0 then Some(WordVersion(words.stack)) else None))
    else if words.operation == UNINSTALL_ENTER_FUS then Some(Uninstall(EnterFus))
    else if words.operation == UNINSTALL_DELETE then Some(Uninstall(Delete))
    else if words.operation == UNINSTALL_CHECK then Some(Uninstall(Check))
    else None
  }

  function SetPending(pending: Option<Pending>): Words
  {
    match pending
    case None => Words(PENDING_MAGIC, NOTHING, 0, 0)
    case Some(Install(fus, stack)) =>
      Words(PENDING_MAGIC, INSTALL, VersionWord(fus), if stack.Some? then VersionWord(stack.value) else 0)
    case Some(Uninstall(step)) =>
      var operation := match step
        case EnterFus => UNINSTALL_ENTER_FUS
        case Delete => UNINSTALL_DELETE
        case Check => UNINSTALL_CHECK;
      Words(PENDING_MAGIC, operation, 0, 0)
  }

  // The words stand for an operation exactly if they have the mark and one of its numbers.
  lemma StandsForSomething(words: Words)
    ensures PendingOf(words).Some? <==> words.magic == 0xF05B_0512 && 1 <= words.operation <= 4
    ensures SetPending(None) == Words(0xF05B_0512, 0, 0, 0)
    ensures forall step :: var words := SetPending(Some(Uninstall(step))); words.fus == 0 == words.stack
  {
  }

  lemma WordRoundTrip(v: Version)
    ensures WordVersion(VersionWord(v)) == v
    ensures VersionWord(v) == 0 <==> v == Version(0, 0, 0)
  {
    var word := VersionWord(v);
    BytesOfWord(word, v.major, v.minor, v.patch);
    hide VersionWord;
  }

  lemma BytesOfWord(word: int, a: int, b: int, c: int)
    requires 0 <= a && 0 <= b < 0x100 && 0 <= c < 0x100
    requires word == a * 0x100_0000 + b * 0x1_0000 + c * 0x100
    ensures word / 0x100_0000 == a && word / 0x1_0000 % 0x100 == b && word / 0x100 % 0x100 == c
    ensures word == 0 <==> a == b == c == 0
  {
    assert word / 0x1_0000 == a * 0x100 + b;
    assert word / 0x100 == (a * 0x100 + b) * 0x100 + c;
    Remainder(a, b);
    Remainder(a * 0x100 + b, c);
  }

  lemma Remainder(q: int, r: int)
    requires 0 <= r < 0x100
    ensures (q * 0x100 + r) % 0x100 == r
  {
  }

  // An operation is read back as it was stored, unless it is an install from a
  // stack of version 0.0.0, which reads as an install from no stack.
  lemma PendingRoundTrip(pending: Option<Pending>)
    ensures PendingOf(SetPending(pending)) == pending
       <==> !(pending.Some? && pending.value.Install? && pending.value.stack == Some(Version(0, 0, 0)))
  {
    hide VersionWord, WordVersion;
    if pending.Some? && pending.value.Install? {
      WordRoundTrip(pending.value.fus);
      if pending.value.stack.Some? { WordRoundTrip(pending.value.stack.value); }
    }
  }

  // ---- Waiting for FUS ----

  const FUS_STATE_IDLE: byte := 0x00
  const FUS_STATE_ERROR: byte := 0xFF

  datatype Reading = Reading(state: byte, error: byte, at: int)
  datatype FusState = Idle | Failed(error: byte)

  predicate IsIdle(r: Reading)
  {
    r.state == FUS_STATE_IDLE && r.error == 0
  }

  predicate IsFailure(r: Reading)
  {
    (r.state == FUS_STATE_IDLE || r.state == FUS_STATE_ERROR) && !IsIdle(r)
  }

  // FUS is done if it reports state 0, well without an error and badly with one; state 255 is
  // bad in any case, and every other means that it is busy.
  lemma ReadingsExactly(r: Reading)
    ensures IsIdle(r) <==> r.state == 0 && r.error == 0
    ensures IsFailure(r) <==> r.state == 255 || (r.state == 0 && r.error != 0)
  {
  }

  // FUS has been idle from reading `i` to reading `k`, for at least `settle`.
  ghost predicate IdleFor(readings: seq<Reading>, i: int, k: int, settle: int)
  {
    && 0 <= i <= k < |readings| && readings[k].at - readings[i].at >= settle
    && forall j :: i <= j <= k ==> IsIdle(readings[j])
  }

  lemma NotIdleLonger(readings: seq<Reading>, since: nat, i: int, k: nat, settle: int)
    requires since <= k < |readings| && readings[k].at - readings[since].at < settle
    requires forall i, j :: 0 <= i < j < |readings| ==> readings[i].at <= readings[j].at
    requires since > 0 ==> !IsIdle(readings[since - 1])
    ensures !IdleFor(readings, i, k, settle)
  {
    if since <= i <= k {
      assert readings[since].at <= readings[i].at;
    } else if 0 <= i < since {
      assert i <= since - 1 <= k;
    }
  }

  // The loop that waits for FUS to settle. None while the readings so far do not say
  // that it has failed, or was idle for as long as `settle`.
  method WaitIdle(readings: seq<Reading>, settle: int) returns (state: Option<FusState>, k: nat)
    requires forall i, j :: 0 <= i < j < |readings| ==> readings[i].at <= readings[j].at
    ensures state.Some? ==> k < |readings| && forall j :: 0 <= j < k ==> !IsFailure(readings[j])
    ensures state.Some? ==> forall i, j :: j < k ==> !IdleFor(readings, i, j, settle)
    ensures state == Some(Idle) ==> exists i :: IdleFor(readings, i, k, settle)
    ensures state.Some? && state.value.Failed? ==> IsFailure(readings[k]) && state.value.error == readings[k].error
    ensures state.None? ==> forall j :: 0 <= j < |readings| ==> !IsFailure(readings[j])
    ensures state.None? ==> forall i, j :: !IdleFor(readings, i, j, settle)
  {
    var idleSince: Option<int> := None;
    ghost var since := 0;
    k := 0;
    while k < |readings|
      invariant 0 <= since <= k <= |readings|
      invariant forall j :: 0 <= j < k ==> !IsFailure(readings[j])
      invariant forall i, j :: j < k ==> !IdleFor(readings, i, j, settle)
      invariant idleSince.None? <==> since == k
      invariant idleSince.Some? ==> idleSince.value == readings[since].at
      invariant forall j :: since <= j < k ==> IsIdle(readings[j])
      invariant since > 0 ==> !IsIdle(readings[since - 1])
    {
      if IsIdle(readings[k]) {
        if idleSince.None? {
          idleSince := Some(readings[k].at);
        }
        if readings[k].at - idleSince.value >= settle {
          assert IdleFor(readings, since, k, settle);
          return Some(Idle), k;
        }
        forall i ensures !IdleFor(readings, i, k, settle) { NotIdleLonger(readings, since, i, k, settle); }
      } else if IsFailure(readings[k]) {
        return Some(Failed(readings[k].error)), k;
      } else {
        idleSince, since := None, k + 1;
      }
      k := k + 1;
    }
    return None, k;
  }

  // ---- Boots and resets ----

  datatype Phase =
    // Between a reset and the next boot.
    | Off
    // The stack runs, and has been told to give way to FUS.
    | EnteringFus
    | ServingStack
    // An uninstall has been accepted: the chip is about to be reset.
    | Restarting
    // FUS runs: waiting for it before taking up what was pending at boot.
    | Resuming(pending: Option<Pending>)
    // The request to delete the stack comes next.
    | Deleting
    | Deleted
    // What was resumed is over.
    | Ending(idle: bool)
    | StartingStack
    | ServingFus
    // About to tell FUS to install an image, and waiting for it.
    | Upgrading
    | Installing

  datatype Chip = Chip(
    words: Words,
    phase: Phase,
    fus: Version,
    stack: Option<Version>,
    // History: how many uninstalls were accepted, and for each delete command how
    // many had been when it was given.
    accepted: nat,
    deletes: seq<nat>)

  datatype Event =
    // At any time, whatever the chip is doing.
    | Reset
    | Boot(stackRuns: bool, fus: Version, stack: Option<Version>)
    // The stack did not give way, or did not start.
    | TimedOut
    // FUS has settled.
    | Settled(state: FusState)
    | SendDelete
    | Clear
    | RequestUninstall
    | RequestInstall
    | UpgradeAnswered(ok: bool)

  function BootStep(c: Chip, stackRuns: bool): Chip
  {
    if !stackRuns then c.(phase := Resuming(PendingOf(c.words)))
    else if PendingOf(c.words) == Some(Uninstall(EnterFus)) then
      c.(words := SetPending(Some(Uninstall(Delete))), phase := EnteringFus)
    else c.(words := SetPending(None), phase := ServingStack)
  }

  function SettledStep(c: Chip, state: FusState): Chip
  {
    match c.phase
    case Resuming(Some(Uninstall(step))) =>
      if c.stack.None? || step == Check || !state.Idle? then c.(phase := Ending(state.Idle?))
      else c.(words := SetPending(Some(Uninstall(Check))), phase := Deleting)
    case Resuming(_) => c.(phase := Ending(state.Idle?))
    case Deleted => if state.Idle? then c.(phase := Off) else c.(phase := Ending(false))
    case Installing => c.(words := SetPending(None), phase := ServingFus)
    case _ => c
  }

  // An event that cannot happen in a phase changes nothing. A request that comes
  // while FUS is busy is refused.
  function Next(c: Chip, event: Event): Chip
  {
    match event
    case Reset => c.(phase := Off)
    case Boot(stackRuns, fus, stack) =>
      if c.phase.Off? then BootStep(c.(fus := fus, stack := stack), stackRuns) else c
    case TimedOut =>
      if c.phase.EnteringFus? then c.(words := SetPending(None), phase := ServingStack)
      else if c.phase.StartingStack? then c.(phase := ServingFus)
      else c
    case Settled(state) => SettledStep(c, state)
    case SendDelete =>
      if c.phase.Deleting? then c.(phase := Deleted, deletes := c.deletes + [c.accepted]) else c
    case Clear =>
      if c.phase.Ending? then
        c.(words := SetPending(None), phase := if c.phase.idle && c.stack.Some? then StartingStack else ServingFus)
      else c
    case RequestUninstall =>
      if c.phase.ServingStack? then
        c.(words := SetPending(Some(Uninstall(EnterFus))), accepted := c.accepted + 1, phase := Restarting)
      else if c.phase.ServingFus? && c.stack.Some? then
        c.(words := SetPending(Some(Uninstall(Delete))), accepted := c.accepted + 1, phase := Restarting)
      else c
    case RequestInstall =>
      if c.phase.ServingFus? then c.(words := SetPending(Some(Install(c.fus, c.stack))), phase := Upgrading) else c
    case UpgradeAnswered(ok) =>
      if !c.phase.Upgrading? then c
      else if ok then c.(phase := Installing)
      else c.(words := SetPending(None), phase := ServingFus)
  }

  ghost function Run(c: Chip, events: seq<Event>): Chip
    decreases |events|
  {
    if events == [] then c else Run(Next(c, events[0]), events[1..])
  }

  // A delete command may still follow.
  ghost predicate DeleteAhead(c: Chip)
  {
    || PendingOf(c.words) == Some(Uninstall(EnterFus))
    || PendingOf(c.words) == Some(Uninstall(Delete))
    || c.phase.Deleting?
  }

  ghost predicate PhaseOk(c: Chip)
  {
    var pending := PendingOf(c.words);
    match c.phase
    case ServingStack => pending.None?
    case ServingFus => pending.None?
    case StartingStack => pending.None?
    case EnteringFus => pending == Some(Uninstall(Delete))
    case Deleting => pending == Some(Uninstall(Check))
    case Deleted => pending == Some(Uninstall(Check))
    case Resuming(p) => p == pending
    case _ => true
  }

  // Each delete command is for an uninstall of its own.
  ghost predicate DeletesOk(c: Chip)
  {
    && (forall i :: 0 <= i < |c.deletes| ==> 0 < c.deletes[i] <= c.accepted)
    && (forall i, j :: 0 <= i < j < |c.deletes| ==> c.deletes[i] < c.deletes[j])
    && (DeleteAhead(c) ==> 0 < c.accepted && forall i :: 0 <= i < |c.deletes| ==> c.deletes[i] < c.accepted)
  }

  ghost predicate Starts(c: Chip)
  {
    c.phase.Off? && PendingOf(c.words).None? && c.accepted == 0 && c.deletes == []
  }

  lemma NextKeeps(c: Chip, event: Event)
    requires PhaseOk(c) && DeletesOk(c)
    ensures PhaseOk(Next(c, event)) && DeletesOk(Next(c, event))
  {
    hide VersionWord, WordVersion;
  }

  lemma {:induction false} RunKeeps(c: Chip, events: seq<Event>)
    requires PhaseOk(c) && DeletesOk(c)
    ensures PhaseOk(Run(c, events)) && DeletesOk(Run(c, events))
    decreases |events|
  {
    if events != [] {
      hide Next, PhaseOk, DeletesOk;
      NextKeeps(c, events[0]);
      RunKeeps(Next(c, events[0]), events[1..]);
    }
  }

  // How far an uninstall still has to go.
  function StepsLeft(pending: Option<Pending>): nat
  {
    match pending
    case Some(Uninstall(EnterFus)) => 3
    case Some(Uninstall(Delete)) => 2
    case Some(Uninstall(Check)) => 1
    case _ => 0
  }

  // Whenever resets come: at most one delete command is given for each uninstall
  // that is accepted, and what is stored of an uninstall only moves on, until it is
  // over, or until another uninstall is accepted once nothing is pending.
  lemma UninstallOnlyMovesOn(c: Chip, events: seq<Event>, event: Event)
    requires Starts(c)
    ensures var last := Run(c, events); var next := Next(last, event);
            && |last.deletes| <= last.accepted
            && (forall i, j :: 0 <= i < j < |last.deletes| ==> last.deletes[i] < last.deletes[j])
            && (next.accepted == last.accepted ==> StepsLeft(PendingOf(next.words)) <= StepsLeft(PendingOf(last.words)))
            && (next.accepted != last.accepted ==> PendingOf(last.words).None? && next.accepted == last.accepted + 1)
  {
    RunKeeps(c, events);
    var last := Run(c, events);
    hide Run;
    IncreasingIsShort(last.deletes, last.accepted);
  }

  lemma {:induction false} IncreasingIsShort(s: seq<nat>, top: nat)
    requires forall i :: 0 <= i < |s| ==> 0 < s[i] <= top
    requires forall i, j :: 0 <= i < j < |s| ==> s[i] < s[j]
    ensures |s| <= top
  {
    if s != [] { IncreasingIsShort(s[..|s| - 1], s[|s| - 1] - 1); }
  }

  // ---- What comes of each operation ----

  // A delete command is given exactly in the turn between FUS having settled idle, with a
  // delete pending and a stack to delete, and whatever FUS does then.
  lemma DeletesExactly(c: Chip, event: Event)
    requires PhaseOk(c)
    ensures var next := Next(c, event);
            && next.deletes == (if event.SendDelete? && c.phase.Deleting? then c.deletes + [c.accepted] else c.deletes)
            && (next.phase.Deleting? && !c.phase.Deleting? <==>
                  && event == Settled(Idle) && c.stack.Some?
                  && (c.phase == Resuming(Some(Uninstall(EnterFus))) || c.phase == Resuming(Some(Uninstall(Delete)))))
  {
    hide VersionWord, WordVersion;
  }

  // What is pending ends exactly when the stack runs again, or did not give way; when FUS
  // is done with it, or has refused it.
  lemma PendingEndsExactly(c: Chip, event: Event)
    requires PhaseOk(c) && PendingOf(c.words).Some?
    ensures PendingOf(Next(c, event).words).None? <==>
      match c.phase
      case Off => event.Boot? && event.stackRuns && PendingOf(c.words) != Some(Uninstall(EnterFus))
      case EnteringFus => event.TimedOut?
      case Ending(_) => event.Clear?
      case Installing => event.Settled?
      case Upgrading => event == UpgradeAnswered(false)
      case _ => false
  {
    hide VersionWord, WordVersion;
  }

  // How the chip comes to serve, and when what was resumed is over.
  lemma PhasesExactly(c: Chip, event: Event)
    requires PhaseOk(c)
    ensures var next := Next(c, event);
            && (next.phase.Off? && !c.phase.Off? <==>
                 !c.phase.Off? && (event.Reset? || (c.phase.Deleted? && event == Settled(Idle))))
            && (next.phase.Ending? && !c.phase.Ending? <==>
                 && event.Settled?
                 && ((c.phase.Resuming? && !next.phase.Deleting?) || (c.phase.Deleted? && !event.state.Idle?)))
            && (next.phase.Ending? && !c.phase.Ending? ==> next.phase.idle == event.state.Idle?)
            && (next.phase.ServingFus? && !c.phase.ServingFus? <==>
                 match c.phase
                 case Ending(idle) => event.Clear? && !(idle && c.stack.Some?)
                 case StartingStack => event.TimedOut?
                 case Installing => event.Settled?
                 case Upgrading => event == UpgradeAnswered(false)
                 case _ => false)
            && (next.phase.StartingStack? && !c.phase.StartingStack? <==>
                 event.Clear? && c.phase == Ending(true) && c.stack.Some?)
            && (next.phase.ServingStack? && !c.phase.ServingStack? <==>
                 || (c.phase.EnteringFus? && event.TimedOut?)
                 || (c.phase.Off? && event.Boot? && event.stackRuns && !next.phase.EnteringFus?))
  {
    hide VersionWord, WordVersion;
  }

  // A boot with the stack running takes it down for an uninstall that was accepted, and
  // else serves; a boot without it resumes what is pending.
  lemma BootResumes(c: Chip, stackRuns: bool, fus: Version, stack: Option<Version>)
    requires c.phase.Off?
    ensures var next := Next(c, Boot(stackRuns, fus, stack)); var pending := PendingOf(c.words);
            && next.fus == fus && next.stack == stack && next.accepted == c.accepted
            && (!stackRuns ==> next.phase == Resuming(pending) && next.words == c.words)
            && (stackRuns && pending == Some(Uninstall(EnterFus)) ==>
                 next.phase.EnteringFus? && PendingOf(next.words) == Some(Uninstall(Delete)))
            && (stackRuns && pending != Some(Uninstall(EnterFus)) ==>
                 next.phase.ServingStack? && PendingOf(next.words).None?)
  {
    hide VersionWord, WordVersion;
  }

  // An uninstall is accepted exactly while the chip serves and has a stack, or runs it, and
  // an install is begun exactly while FUS serves; both are stored first.
  lemma RequestsAreStored(c: Chip)
    ensures var next := Next(c, RequestUninstall);
            && (next.accepted == c.accepted + 1 <==> c.phase.ServingStack? || (c.phase.ServingFus? && c.stack.Some?))
            && (next.accepted == c.accepted + 1 ==>
                 && next.phase.Restarting?
                 && PendingOf(next.words) == Some(Uninstall(if c.phase.ServingStack? then EnterFus else Delete)))
            && (next.accepted != c.accepted + 1 ==> next == c)
    ensures var next := Next(c, RequestInstall);
            && (next.phase.Upgrading? && !c.phase.Upgrading? <==> c.phase.ServingFus?)
            && (c.phase.ServingFus? ==> next.words == SetPending(Some(Install(c.fus, c.stack))))
            && (!c.phase.ServingFus? ==> next == c)
    ensures Next(c, UpgradeAnswered(true)).phase.Installing? <==> c.phase.Upgrading? || c.phase.Installing?
  {
    hide VersionWord, WordVersion;
  }

  // A pending delete is given after a reset at any point, once FUS runs and is idle.
  lemma DeleteSurvivesReset(c: Chip, fus: Version, stack: Version)
    requires PendingOf(c.words) == Some(Uninstall(Delete)) || PendingOf(c.words) == Some(Uninstall(EnterFus))
    ensures var last := Run(c, [Reset, Boot(false, fus, Some(stack)), Settled(Idle), SendDelete]);
            && last.deletes == c.deletes + [c.accepted]
            && last.phase.Deleted? && PendingOf(last.words) == Some(Uninstall(Check))
  {
    hide VersionWord, WordVersion;
    RunFour(c, Reset, Boot(false, fus, Some(stack)), Settled(Idle), SendDelete);
  }

  // After the delete, a reset at any point leads to no other: what the next boot finds
  // installed is reported, and nothing is pending any more.
  lemma CheckIsTheEnd(c: Chip, fus: Version, stack: Option<Version>, state: FusState)
    requires PendingOf(c.words) == Some(Uninstall(Check))
    ensures var last := Run(c, [Reset, Boot(false, fus, stack), Settled(state), Clear]);
            && last.deletes == c.deletes && PendingOf(last.words).None? && last.stack == stack
            && last.phase == if state.Idle? && stack.Some? then StartingStack else ServingFus
  {
    hide VersionWord, WordVersion;
    RunFour(c, Reset, Boot(false, fus, stack), Settled(state), Clear);
  }

  // An uninstall that is accepted while the stack runs takes the stack down, deletes it,
  // and ends with nothing pending.
  lemma UninstallIsCarriedOut(c: Chip, fus: Version, stack: Version)
    requires c.phase.ServingStack?
    ensures var down := Run(c, [RequestUninstall, Reset, Boot(true, fus, Some(stack)), Reset]);
            var deleted := Run(down, [Boot(false, fus, Some(stack)), Settled(Idle), SendDelete, Settled(Idle)]);
            var last := Run(deleted, [Boot(false, fus, None), Settled(Idle), Clear, Clear]);
            && PendingOf(down.words) == Some(Uninstall(Delete)) && deleted.phase.Off?
            && last.deletes == c.deletes + [c.accepted + 1] && last.accepted == c.accepted + 1
            && PendingOf(last.words).None? && last.phase.ServingFus? && last.stack.None?
  {
    hide VersionWord, WordVersion, Run;
    RunFour(c, RequestUninstall, Reset, Boot(true, fus, Some(stack)), Reset);
    var down := Run(c, [RequestUninstall, Reset, Boot(true, fus, Some(stack)), Reset]);
    RunFour(down, Boot(false, fus, Some(stack)), Settled(Idle), SendDelete, Settled(Idle));
    var deleted := Run(down, [Boot(false, fus, Some(stack)), Settled(Idle), SendDelete, Settled(Idle)]);
    RunFour(deleted, Boot(false, fus, None), Settled(Idle), Clear, Clear);
  }

  // If FUS fails, there is no stack, or the delete was given before, none is given.
  lemma NoDelete(c: Chip, state: FusState, step: UninstallStep)
    requires c.phase == Resuming(Some(Uninstall(step))) && (!state.Idle? || c.stack.None? || step == Check)
    ensures var last := Next(Next(Next(c, Settled(state)), SendDelete), Clear);
            && last.deletes == c.deletes && PendingOf(last.words).None?
            && last.phase == if state.Idle? && c.stack.Some? then StartingStack else ServingFus
  {
    hide VersionWord, WordVersion;
  }

  lemma RunFour(c: Chip, e1: Event, e2: Event, e3: Event, e4: Event)
    ensures Run(c, [e1, e2, e3, e4]) == Next(Next(Next(Next(c, e1), e2), e3), e4)
  {
    hide Next;
    var all := [e1, e2, e3, e4];
    assert all[1..] == [e2, e3, e4] && [e2, e3, e4][1..] == [e3, e4] && [e3, e4][1..] == [e4] && [e4][1..] == [];
    assert Run(Next(c, e1), [e2, e3, e4]) == Run(Next(Next(c, e1), e2), [e3, e4]);
    assert Run(Next(Next(c, e1), e2), [e3, e4]) == Run(Next(Next(Next(c, e1), e2), e3), [e4]);
    var last := Next(Next(Next(Next(c, e1), e2), e3), e4);
    assert Run(Next(Next(Next(c, e1), e2), e3), [e4]) == Run(last, []);
  }

  // ---- The installer ----

  // The service that runs while FUS does, as far as it removes a stack.
  class Installer {
    const stack: Option<Version>
    var words: Words
    var phase: Phase
    ghost var chip: Chip

    ghost predicate Valid()
      reads this
    {
      chip == Chip(words, phase, chip.fus, stack, chip.accepted, chip.deletes)
    }

    constructor (words: Words, fus: Version, stack: Option<Version>)
      ensures Valid() && phase == Resuming(PendingOf(words))
      ensures chip == Next(Chip(words, Off, fus, stack, 0, []), Boot(false, fus, stack))
    {
      this.stack, this.words, phase := stack, words, Resuming(PendingOf(words));
      chip := Chip(words, Resuming(PendingOf(words)), fus, stack, 0, []);
    }

    // Takes up the uninstall that was pending at boot. `first` and `second` are how
    // FUS settles before and after the delete. Returns None if it ends in a reset.
    method UninstallStack(step: UninstallStep, first: FusState, second: FusState) returns (state: Option<FusState>)
      requires Valid() && phase == Resuming(Some(Uninstall(step)))
      modifies this
      ensures Valid()
      ensures var settled := Next(old(chip), Settled(first));
              chip == if settled.phase.Deleting? then Next(Next(settled, SendDelete), Settled(second)) else settled
      ensures state.Some? <==> phase.Ending?
      ensures state.Some? ==> phase.idle == state.value.Idle?
      ensures state.None? ==> phase.Off? && PendingOf(words) == Some(Uninstall(Check))
    {
      chip := Next(chip, Settled(first));
      if stack.None? || step == Check || first != Idle {
        phase := Ending(first == Idle);
        return Some(first);
      }
      words, phase := SetPending(Some(Uninstall(Check))), Deleting;
      chip := Next(chip, SendDelete);
      phase := Deleted;
      chip := Next(chip, Settled(second));
      if second != Idle {
        phase := Ending(false);
        return Some(second);
      }
      phase := Off;
      return None;
    }
  }
}
