// Receiving an image for FUS to install: where in flash it goes, and that it gets
// there without touching the application below it or the secure area above.
module FusInstall {
  import opened Basics
  import opened Flash
  import opened UpdateBoard
  import opened UpdateInvariant

  // An image on its way to flash. `written` counts from `start`, and the others from
  // the start of flash.
  datatype Staging = Staging(start: nat, len: nat, written: nat, erasedTo: nat)

  // The host is not told which operation failed.
  datatype Outcome = Written | NotNext | FailedErase | FailedProgram

  // The image starts at the last page from which it still ends below the secure area,
  // where FUS expects it.
  function Begun(len: u32, secureStart: nat, applicationEnd: nat): Option<Staging>
  {
    if len > secureStart then None
    else
      var start := (secureStart - len) - (secureStart - len) % PAGE;
      if len > 0 && start >= applicationEnd then Some(Staging(start, len, 0, start)) else None
  }

  // Another page boundary where the image would fit.
  ghost predicate FitsAt(len: u32, secureStart: nat, applicationEnd: nat, start: nat)
  {
    start % PAGE == 0 && applicationEnd <= start && start + len <= secureStart
  }

  // An image is refused only if it is empty or fits nowhere, and otherwise goes to the
  // last place where it fits.
  lemma BegunWhereItFits(len: u32, secureStart: nat, applicationEnd: nat)
    ensures var begun := Begun(len, secureStart, applicationEnd);
            && (begun.Some? <==> len > 0 && exists start: nat :: FitsAt(len, secureStart, applicationEnd, start))
            && (begun.Some? ==> FitsAt(len, secureStart, applicationEnd, begun.value.start))
            && (begun.Some? ==>
                 forall start: nat :: FitsAt(len, secureStart, applicationEnd, start) ==> start <= begun.value.start)
  {
    if len <= secureStart {
      var at := secureStart - len;
      var last := at - at % PAGE;
      assert last % PAGE == 0 && last <= at < last + PAGE;
      forall start: nat | FitsAt(len, secureStart, applicationEnd, start) ensures start <= last {
        LastBoundary(start, at, last);
      }
      if last >= applicationEnd { assert FitsAt(len, secureStart, applicationEnd, last); }
    }
  }

  lemma LastBoundary(start: nat, at: nat, last: nat)
    requires start % PAGE == 0 && start <= at && last % PAGE == 0 && last <= at < last + PAGE
    ensures start <= last
  {
  }

  predicate IsNext(s: Staging, offset: u32, data: seq<byte>)
  {
    && offset == s.written && data != [] && |data| <= MAX_LEN && offset + |data| <= s.len
    && (|data| % WORD == 0 || offset + |data| == s.len)
  }

  function WriteChunk(
    r: Region, faults: Faults, s: Staging, offset: u32, data: seq<byte>): (res: (Region, Staging, Outcome))
    requires r.Valid()
    ensures res.0.Valid() && |res.0.bytes| == |r.bytes|
  {
    if !IsNext(s, offset, data) then (r, s, NotNext)
    else
      var words := Padded(data);
      var at := s.start + offset;
      var (erased, erasedTo, ok) := EraseUpTo(r, faults, s.erasedTo, at + |words|);
      var s := s.(erasedTo := erasedTo);
      if !ok then (erased, s, FailedErase)
      else
        var (written, ok) := Program(erased, faults, at, words);
        if ok then (written, s.(written := offset + |data|), Written) else (written, s, FailedProgram)
  }

  // The image ends below the secure area, and flash is erased as far as it has come.
  ghost predicate StagingOk(r: Region, s: Staging, secureStart: nat)
    requires r.Valid()
  {
    && secureStart % PAGE == 0 && s.start + s.len <= secureStart <= |r.bytes| && s.start % PAGE == 0
    && s.written <= s.len && (s.written % WORD == 0 || s.written == s.len)
    && s.erasedTo % PAGE == 0 && s.start + RoundUp(s.written) <= s.erasedTo <= secureStart
  }

  // Programming has been tried up to `tried`, and what is erased beyond that is blank.
  ghost predicate TriedOk(r: Region, s: Staging, tried: nat)
  {
    && tried % WORD == 0 && s.start + RoundUp(s.written) <= tried <= s.erasedTo
    && BlankFrom(r, s.start, tried, s.erasedTo)
  }

  // While no programming has failed: what has been written is there, and no more was
  // tried.
  ghost predicate HasArrived(r: Region, s: Staging, tried: nat, got: seq<byte>)
  {
    && |got| == s.written && s.start + s.written <= |r.bytes|
    && r.bytes[s.start..s.start + s.written] == got
    && tried == s.start + RoundUp(s.written)
  }

  ghost predicate SameOutside(r: Region, q: Region, from: nat, to: nat)
  {
    && |q.bytes| == |r.bytes| && from <= to <= |r.bytes|
    && q.bytes[..from] == r.bytes[..from] && q.bytes[to..] == r.bytes[to..]
  }

  lemma {:induction false} EraseStays(r: Region, faults: Faults, erasedTo: nat, upTo: nat, from: nat, to: nat)
    requires r.Valid() && erasedTo % PAGE == 0 && from <= erasedTo
    requires from <= to && upTo <= to <= |r.bytes| && to % PAGE == 0
    ensures SameOutside(r, EraseUpTo(r, faults, erasedTo, upTo).0, from, to)
    decreases upTo - erasedTo
  {
    if erasedTo < upTo {
      assert erasedTo + PAGE <= to;
      EraseStays(Erase(r, faults, erasedTo).0, faults, erasedTo + PAGE, upTo, from, to);
    }
  }

  lemma SameOutsideOn(r: Region, q: Region, v: Region, from: nat, to: nat)
    requires SameOutside(r, q, from, to) && SameOutside(q, v, from, to)
    ensures SameOutside(r, v, from, to)
  {
  }

  lemma SameOutsideItself(r: Region, s: Staging, secureStart: nat)
    requires r.Valid() && StagingOk(r, s, secureStart)
    ensures SameOutside(r, r, s.start, secureStart)
  {
  }

  lemma {:induction false} EraseBounded(r: Region, faults: Faults, erasedTo: nat, upTo: nat, to: nat)
    requires r.Valid() && erasedTo % PAGE == 0 && erasedTo <= to && upTo <= to && to % PAGE == 0
    ensures EraseUpTo(r, faults, erasedTo, upTo).1 <= to
    decreases upTo - erasedTo
  {
    if erasedTo < upTo {
      assert erasedTo + PAGE <= to;
      hide Erase;
      EraseBounded(Erase(r, faults, erasedTo).0, faults, erasedTo + PAGE, upTo, to);
    }
  }

  lemma WordsInPages(start: nat, offset: nat, to: nat)
    requires start % PAGE == 0 && to % PAGE == 0 && start <= to && offset % WORD == 0
    ensures (start + offset) % WORD == 0 && (to - start) % WORD == 0
  {
    var pages, words := start / PAGE, offset / WORD;
    WholeWords(start + offset, PAGE / WORD * pages + words);
    WholeWords(to - start, PAGE / WORD * (to / PAGE) - PAGE / WORD * pages);
  }

  lemma ChunkIsWithin(r: Region, s: Staging, secureStart: nat, offset: u32, data: seq<byte>)
    requires r.Valid() && StagingOk(r, s, secureStart) && IsNext(s, offset, data)
    ensures s.start + offset + |Padded(data)| == s.start + RoundUp(offset + |data|) <= secureStart
    ensures (s.start + offset) % WORD == 0 && ((offset + |data|) % WORD == 0 || offset + |data| == s.len)
    ensures offset % WORD == 0
  {
    WordsInPages(s.start, offset, secureStart);
    RoundUpSplits(offset, |data|);
    RoundUpWithin(offset + |data|, secureStart - s.start);
    hide RoundUp, Padded;
  }

  lemma ErasesWithin(r: Region, faults: Faults, s: Staging, secureStart: nat, upTo: nat)
    requires r.Valid() && StagingOk(r, s, secureStart) && upTo <= secureStart
    ensures var (q, to, ok) := EraseUpTo(r, faults, s.erasedTo, upTo);
            && StagingOk(q, s.(erasedTo := to), secureStart) && SameOutside(r, q, s.start, secureStart)
            && q.refused == r.refused && (ok ==> upTo <= to)
  {
    hide EraseUpTo, RoundUp;
    EraseStays(r, faults, s.erasedTo, upTo, s.start, secureStart);
    EraseUpToFacts(r, faults, s.erasedTo, upTo, s.start);
    EraseBounded(r, faults, s.erasedTo, upTo, secureStart);
    hide SameOutside;
  }

  lemma ProgramsWithin(r: Region, faults: Faults, s: Staging, secureStart: nat, offset: u32, data: seq<byte>)
    requires r.Valid() && StagingOk(r, s, secureStart) && IsNext(s, offset, data)
    requires s.start + offset + |Padded(data)| <= s.erasedTo
    ensures var (q, ok) := Program(r, faults, s.start + offset, Padded(data));
            && StagingOk(q, if ok then s.(written := offset + |data|) else s, secureStart)
            && SameOutside(r, q, s.start, secureStart) && q.refused == r.refused
  {
    ChunkIsWithin(r, s, secureStart, offset, data);
    hide Program, RoundUp, Padded;
    ProgramStays(r, faults, s.start + offset, Padded(data), s.start, secureStart);
    hide SameOutside;
  }

  lemma ProgramStays(r: Region, faults: Faults, at: nat, data: seq<byte>, from: nat, to: nat)
    requires r.Valid() && from <= at && at + |data| <= to <= |r.bytes| && at % WORD == 0 && |data| % WORD == 0
    ensures var q := Program(r, faults, at, data).0; SameOutside(r, q, from, to) && q.refused == r.refused
  {
    hide AllBlank;
  }

  // Whatever chunk comes, and however flash fails: nothing changes below the image's
  // start, or from the secure area on, and no operation goes there.
  lemma WriteStays(r: Region, faults: Faults, s: Staging, secureStart: nat, offset: u32, data: seq<byte>)
    requires r.Valid() && StagingOk(r, s, secureStart)
    ensures var (q, t, _) := WriteChunk(r, faults, s, offset, data);
            && StagingOk(q, t, secureStart) && t.start == s.start && t.len == s.len
            && SameOutside(r, q, s.start, secureStart) && q.refused == r.refused
  {
    hide EraseUpTo, Program, Padded, StagingOk, SameOutside, IsNext;
    SameOutsideItself(r, s, secureStart);
    if IsNext(s, offset, data) {
      ChunkIsWithin(r, s, secureStart, offset, data);
      var upTo := s.start + offset + |Padded(data)|;
      ErasesWithin(r, faults, s, secureStart, upTo);
      var (erased, erasedTo, ok) := EraseUpTo(r, faults, s.erasedTo, upTo);
      if ok {
        var t := s.(erasedTo := erasedTo);
        NextStays(s, t, offset, data);
        ProgramsWithin(erased, faults, t, secureStart, offset, data);
        SameOutsideOn(r, erased, Program(erased, faults, s.start + offset, Padded(data)).0, s.start, secureStart);
      }
    }
  }

  lemma NextStays(s: Staging, t: Staging, offset: u32, data: seq<byte>)
    requires IsNext(s, offset, data) && t.written == s.written && t.len == s.len
    ensures IsNext(t, offset, data)
  {
  }

  lemma JoinedFrom(r: seq<byte>, q: seq<byte>, start: nat, offset: nat, words: seq<byte>, data: seq<byte>)
    requires start + offset + |words| <= |r| == |q| && q[..start + offset] == r[..start + offset]
    requires q[start + offset..start + offset + |words|] == words && |data| <= |words| && words[..|data|] == data
    ensures q[start..start + (offset + |data|)] == r[start..start + offset] + data
  {
    var at, end := start + offset, start + offset + |data|;
    Joined(r, q, at, words, data);
    SliceOfPrefix(q, end, start, end);
    SliceOfPrefix(r, at, start, at);
    assert (r[..at] + data)[start..end] == r[..at][start..] + data;
  }

  lemma EraseKeepsArrived(
    r: Region, faults: Faults, s: Staging, secureStart: nat, upTo: nat, tried: nat, got: seq<byte>)
    requires r.Valid() && StagingOk(r, s, secureStart) && TriedOk(r, s, tried) && upTo <= secureStart
    ensures var (q, to, _) := EraseUpTo(r, faults, s.erasedTo, upTo);
            && TriedOk(q, s.(erasedTo := to), tried) && q.overwrites == r.overwrites
            && (HasArrived(r, s, tried, got) ==> HasArrived(q, s.(erasedTo := to), tried, got))
  {
    hide EraseUpTo, BlankFrom;
    EraseUpToFacts(r, faults, s.erasedTo, upTo, tried);
    var (q, to, _) := EraseUpTo(r, faults, s.erasedTo, upTo);
    WordsInPage(s.erasedTo);
    ErasedKeepsBlank(r, q, s.erasedTo, to, s.start, tried);
    if HasArrived(r, s, tried, got) {
      SliceOfPrefix(q.bytes, s.erasedTo, s.start, s.start + s.written);
      SliceOfPrefix(r.bytes, s.erasedTo, s.start, s.start + s.written);
    }
  }

  // Programming a chunk overwrites exactly if its place was tried before.
  lemma ProgramIsTried(
    r: Region, faults: Faults, s: Staging, secureStart: nat, offset: u32, data: seq<byte>, tried: nat)
    requires r.Valid() && StagingOk(r, s, secureStart) && TriedOk(r, s, tried)
    requires IsNext(s, offset, data) && s.start + offset + |Padded(data)| <= s.erasedTo
    ensures var (q, ok) := Program(r, faults, s.start + offset, Padded(data));
            var furthest := Max(tried, s.start + offset + |Padded(data)|);
            && TriedOk(q, if ok then s.(written := offset + |data|) else s, furthest)
            && q.overwrites == r.overwrites + (if s.start + offset < tried then 1 else 0)
  {
    hide Program, Padded, RoundUp, BlankFrom, StagingOk, IsNext;
    ChunkIsTried(r, s, secureStart, offset, data, tried);
    ProgramTried(r, faults, s.start + offset, Padded(data), s.start, tried, s.erasedTo);
  }

  lemma ChunkIsTried(r: Region, s: Staging, secureStart: nat, offset: u32, data: seq<byte>, tried: nat)
    requires r.Valid() && StagingOk(r, s, secureStart) && TriedOk(r, s, tried) && IsNext(s, offset, data)
    ensures var at, len := s.start + offset, |Padded(data)|;
            && at % WORD == 0 && len % WORD == 0 && Padded(data) != [] && at <= tried
            && at + len == s.start + RoundUp(offset + |data|) <= secureStart && s.erasedTo <= |r.bytes|
            && Max(tried, at + len) % WORD == 0
            && (tried == s.start + RoundUp(s.written) <==> at == tried)
  {
    hide Padded, RoundUp, BlankFrom;
    ChunkIsWithin(r, s, secureStart, offset, data);
    WordIsWhole(offset);
    PaddedIsWhole(data);
    WordsAdd(s.start + offset, |Padded(data)|);
  }

  lemma WordsAdd(a: nat, b: nat)
    requires a % WORD == 0 && b % WORD == 0
    ensures (a + b) % WORD == 0
  {
  }

  lemma ProgramArrives(
    r: Region, faults: Faults, s: Staging, secureStart: nat, offset: u32, data: seq<byte>, tried: nat, got: seq<byte>)
    requires r.Valid() && StagingOk(r, s, secureStart) && TriedOk(r, s, tried) && HasArrived(r, s, tried, got)
    requires IsNext(s, offset, data) && s.start + offset + |Padded(data)| <= s.erasedTo
    ensures var (q, ok) := Program(r, faults, s.start + offset, Padded(data));
            var furthest := Max(tried, s.start + offset + |Padded(data)|);
            ok ==> HasArrived(q, s.(written := offset + |data|), furthest, got + data)
  {
    hide Program, Padded, RoundUp, BlankFrom, StagingOk;
    ChunkIsTried(r, s, secureStart, offset, data, tried);
    var words := Padded(data);
    ProgramTried(r, faults, s.start + offset, words, s.start, tried, s.erasedTo);
    var (q, ok) := Program(r, faults, s.start + offset, words);
    if ok { JoinedFrom(r.bytes, q.bytes, s.start, offset, words, data); }
  }

  lemma PaddedIsWhole(data: seq<byte>)
    requires data != []
    ensures Padded(data) != [] && |Padded(data)| % WORD == 0
  {
  }

  // The write gets as far as programming.
  ghost predicate Programs(r: Region, faults: Faults, s: Staging, offset: u32, data: seq<byte>)
    requires r.Valid()
  {
    IsNext(s, offset, data) && EraseUpTo(r, faults, s.erasedTo, s.start + offset + |Padded(data)|).2
  }

  // A chunk that flash takes is there, after those before it. It goes to words that are
  // not blank exactly if programming has been tried there before.
  lemma WriteArrives(
    r: Region, faults: Faults, s: Staging, secureStart: nat, offset: u32, data: seq<byte>, tried: nat, got: seq<byte>)
    requires r.Valid() && StagingOk(r, s, secureStart) && TriedOk(r, s, tried) && IsNext(s, offset, data)
    ensures var (q, t, outcome) := WriteChunk(r, faults, s, offset, data);
            var programs := Programs(r, faults, s, offset, data);
            var furthest := if programs then Max(tried, s.start + offset + |Padded(data)|) else tried;
            && outcome != NotNext && (outcome == FailedErase <==> !programs)
            && TriedOk(q, t, furthest)
            && q.overwrites == r.overwrites + (if programs && s.start + offset < tried then 1 else 0)
            && (outcome == Written ==> t.written == offset + |data|)
            && (outcome == Written && HasArrived(r, s, tried, got) ==> HasArrived(q, t, furthest, got + data))
            && (outcome == FailedErase && HasArrived(r, s, tried, got) ==> HasArrived(q, t, furthest, got))
  {
    hide EraseUpTo, Program, Padded, StagingOk, HasArrived, TriedOk, IsNext, SameOutside;
    ChunkIsWithin(r, s, secureStart, offset, data);
    var upTo := s.start + offset + |Padded(data)|;
    ErasesWithin(r, faults, s, secureStart, upTo);
    EraseKeepsArrived(r, faults, s, secureStart, upTo, tried, got);
    var (erased, erasedTo, ok) := EraseUpTo(r, faults, s.erasedTo, upTo);
    if ok {
      var t := s.(erasedTo := erasedTo);
      NextStays(s, t, offset, data);
      ProgramIsTried(erased, faults, t, secureStart, offset, data, tried);
      if HasArrived(r, s, tried, got) { ProgramArrives(erased, faults, t, secureStart, offset, data, tried, got); }
    }
  }

  // ---- Whole installs ----

  datatype Request = BeginInstall(len: u32) | WriteInstall(offset: u32, data: seq<byte>) | FinishInstall

  // Flash, the image being received, and of that image what was taken so far, up to
  // where in flash programming has been tried, and whether it has failed; and how often FUS
  // was told to install.
  datatype Install = Install(
    flash: Region, staging: Option<Staging>, got: seq<byte>, tried: nat, failed: bool, told: nat)

  predicate IsComplete(i: Install)
  {
    i.staging.Some? && i.staging.value.written == i.staging.value.len
  }

  function RequestStep(
    i: Install, faults: Faults, secureStart: nat, applicationEnd: nat, request: Request): (next: Install)
    requires i.flash.Valid()
    ensures next.flash.Valid()
  {
    match request
    case BeginInstall(len) =>
      var begun := Begun(len, secureStart, applicationEnd);
      if begun.None? then i else Install(i.flash, begun, [], begun.value.start, false, i.told)
    case WriteInstall(offset, data) =>
      if i.staging.None? then i
      else
        var (flash, s, outcome) := WriteChunk(i.flash, faults, i.staging.value, offset, data);
        var furthest := Max(i.tried, s.start + offset + |Padded(data)|);
        var i := i.(flash := flash, staging := Some(s));
        if outcome == Written then i.(tried := furthest, got := i.got + data)
        else if outcome == FailedProgram then i.(tried := furthest, failed := true)
        else i
    case FinishInstall => i.(staging := None, told := if IsComplete(i) then i.told + 1 else i.told)
  }

  ghost function Run(
    i: Install, faults: Faults, secureStart: nat, applicationEnd: nat, requests: seq<Request>): (last: Install)
    requires i.flash.Valid()
    ensures last.flash.Valid()
    decreases |requests|
  {
    if requests == [] then i
    else
      var next := RequestStep(i, faults, secureStart, applicationEnd, requests[0]);
      Run(next, faults, secureStart, applicationEnd, requests[1..])
  }

  // Flash differs at most between the application and the secure area.
  ghost predicate Spared(r: Region, q: Region, applicationEnd: nat, secureStart: nat)
  {
    && |q.bytes| == |r.bytes| && q.refused == r.refused
    && forall i :: 0 <= i < |r.bytes| && !(applicationEnd <= i < secureStart) ==> q.bytes[i] == r.bytes[i]
  }

  ghost predicate InstallOk(i: Install, secureStart: nat, applicationEnd: nat)
  {
    && i.flash.Valid() && secureStart % PAGE == 0 && secureStart <= |i.flash.bytes|
    && (i.staging.Some? ==> StagingOk(i.flash, i.staging.value, secureStart) && applicationEnd <= i.staging.value.start)
    && (i.staging.Some? ==> TriedOk(i.flash, i.staging.value, i.tried))
    && (i.staging.Some? && !i.failed ==> HasArrived(i.flash, i.staging.value, i.tried, i.got))
  }

  // Begin is where an install starts from.
  lemma BeginIsOk(r: Region, len: u32, secureStart: nat, applicationEnd: nat)
    requires r.Valid() && secureStart % PAGE == 0 && secureStart <= |r.bytes|
    requires Begun(len, secureStart, applicationEnd).Some?
    ensures var begun := Begun(len, secureStart, applicationEnd);
            InstallOk(Install(r, begun, [], begun.value.start, false, 0), secureStart, applicationEnd)
  {
    BegunWhereItFits(len, secureStart, applicationEnd);
    WordIsWhole(0);
    WordsInPage(Begun(len, secureStart, applicationEnd).value.start);
  }

  lemma OutsideIsSpared(r: Region, q: Region, start: nat, applicationEnd: nat, secureStart: nat)
    requires SameOutside(r, q, start, secureStart) && applicationEnd <= start && q.refused == r.refused
    ensures Spared(r, q, applicationEnd, secureStart)
  {
    forall i | 0 <= i < |r.bytes| && !(applicationEnd <= i < secureStart) ensures q.bytes[i] == r.bytes[i] {
      if i < start {
        assert q.bytes[..start][i] == r.bytes[..start][i];
      } else {
        assert q.bytes[secureStart..][i - secureStart] == r.bytes[secureStart..][i - secureStart];
      }
    }
  }

  // The request has a chunk programmed where programming has been tried already.
  ghost predicate Reprograms(i: Install, faults: Faults, request: Request)
    requires i.flash.Valid()
  {
    && request.WriteInstall? && i.staging.Some?
    && Programs(i.flash, faults, i.staging.value, request.offset, request.data)
    && i.staging.value.start + request.offset < i.tried
  }

  lemma RequestIsOk(i: Install, faults: Faults, secureStart: nat, applicationEnd: nat, request: Request)
    requires InstallOk(i, secureStart, applicationEnd)
    ensures var next := RequestStep(i, faults, secureStart, applicationEnd, request);
            && InstallOk(next, secureStart, applicationEnd) && Spared(i.flash, next.flash, applicationEnd, secureStart)
            && next.flash.overwrites == i.flash.overwrites + (if Reprograms(i, faults, request) then 1 else 0)
  {
    hide StagingOk, TriedOk, HasArrived, WriteChunk, SameOutside, Begun, EraseUpTo, Padded;
    match request
    case BeginInstall(len) =>
      if Begun(len, secureStart, applicationEnd).Some? { BeginIsOk(i.flash, len, secureStart, applicationEnd); }
    case WriteInstall(offset, data) =>
      if i.staging.Some? {
        var s := i.staging.value;
        WriteStays(i.flash, faults, s, secureStart, offset, data);
        var flash := WriteChunk(i.flash, faults, s, offset, data).0;
        OutsideIsSpared(i.flash, flash, s.start, applicationEnd, secureStart);
        if IsNext(s, offset, data) {
          WriteArrives(i.flash, faults, s, secureStart, offset, data, i.tried, i.got);
        } else {
          RefusedChangesNothing(i.flash, faults, s, offset, data);
        }
      }
    case FinishInstall =>
  }

  lemma RefusedChangesNothing(r: Region, faults: Faults, s: Staging, offset: u32, data: seq<byte>)
    requires r.Valid() && !IsNext(s, offset, data)
    ensures WriteChunk(r, faults, s, offset, data) == (r, s, NotNext)
  {
  }

  lemma {:induction false} RunIsOk(
    i: Install, faults: Faults, secureStart: nat, applicationEnd: nat, requests: seq<Request>)
    requires InstallOk(i, secureStart, applicationEnd)
    ensures var last := Run(i, faults, secureStart, applicationEnd, requests);
            InstallOk(last, secureStart, applicationEnd) && Spared(i.flash, last.flash, applicationEnd, secureStart)
    decreases |requests|
  {
    if requests != [] {
      var next := RequestStep(i, faults, secureStart, applicationEnd, requests[0]);
      RequestIsOk(i, faults, secureStart, applicationEnd, requests[0]);
      hide RequestStep, InstallOk;
      RunIsOk(next, faults, secureStart, applicationEnd, requests[1..]);
    }
  }

  // Whatever is requested, in any order, and however flash fails: flash outside the
  // space between the application and the secure area never changes, and no operation
  // is refused as out of range. While no programming has failed since the begin, and
  // whichever erases have, the image is there as far as it was taken, and so all of it
  // once it is complete.
  lemma InstallStaysWithin(r: Region, faults: Faults, secureStart: nat, applicationEnd: nat, requests: seq<Request>)
    requires r.Valid() && secureStart % PAGE == 0 && secureStart <= |r.bytes|
    ensures var last := Run(Install(r, None, [], 0, false, 0), faults, secureStart, applicationEnd, requests);
            && Spared(r, last.flash, applicationEnd, secureStart)
            && (last.staging.Some? && !last.failed ==> var s := last.staging.value;
                 && applicationEnd <= s.start && s.start + s.len <= secureStart && |last.got| == s.written <= s.len
                 && last.flash.bytes[s.start..s.start + s.written] == last.got)
  {
    RunIsOk(Install(r, None, [], 0, false, 0), faults, secureStart, applicationEnd, requests);
  }

  // After any run words that are not blank are programmed exactly when a chunk is written
  // below where programming has been tried since the begin, and its erases succeed.
  lemma RewritesExactly(
    r: Region, faults: Faults, secureStart: nat, applicationEnd: nat, requests: seq<Request>, request: Request)
    requires r.Valid() && secureStart % PAGE == 0 && secureStart <= |r.bytes|
    ensures var last := Run(Install(r, None, [], 0, false, 0), faults, secureStart, applicationEnd, requests);
            var next := RequestStep(last, faults, secureStart, applicationEnd, request);
            next.flash.overwrites > last.flash.overwrites <==> Reprograms(last, faults, request)
  {
    RunIsOk(Install(r, None, [], 0, false, 0), faults, secureStart, applicationEnd, requests);
    var last := Run(Install(r, None, [], 0, false, 0), faults, secureStart, applicationEnd, requests);
    RequestIsOk(last, faults, secureStart, applicationEnd, request);
    hide Run, RequestStep, Reprograms;
  }

  // FUS is told to install exactly by a finish once all of the image was taken, and then
  // all of it is there, if no programming has failed; after a finish nothing is written
  // until the next begin.
  lemma FinishExactly(
    r: Region, faults: Faults, secureStart: nat, applicationEnd: nat, requests: seq<Request>, request: Request)
    requires r.Valid() && secureStart % PAGE == 0 && secureStart <= |r.bytes|
    ensures var last := Run(Install(r, None, [], 0, false, 0), faults, secureStart, applicationEnd, requests);
            var next := RequestStep(last, faults, secureStart, applicationEnd, request);
            && (next.told > last.told <==>
                 request.FinishInstall? && last.staging.Some? && last.staging.value.written == last.staging.value.len)
            && (next.told > last.told && !last.failed ==> var s := last.staging.value;
                 |last.got| == s.len && s.start + s.len <= |next.flash.bytes|
                 && next.flash.bytes[s.start..s.start + s.len] == last.got)
            && (request.FinishInstall? ==> forall offset, data ::
                 RequestStep(next, faults, secureStart, applicationEnd, WriteInstall(offset, data)) == next)
  {
    RunIsOk(Install(r, None, [], 0, false, 0), faults, secureStart, applicationEnd, requests);
    hide WriteChunk, StagingOk, TriedOk;
  }

  // The chunks of an image from `offset` on.
  function ChunksFrom(image: seq<byte>, offset: nat): seq<Request>
    requires |image| < 0x1_0000_0000
    decreases |image| - offset
  {
    if offset >= |image| then []
    else [WriteInstall(offset, image[offset..Min(offset + MAX_LEN, |image|)])] + ChunksFrom(image, offset + MAX_LEN)
  }

  lemma WriteWorks(r: Region, faults: Faults, s: Staging, secureStart: nat, offset: u32, data: seq<byte>)
    requires r.Valid() && StagingOk(r, s, secureStart) && IsNext(s, offset, data)
    requires forall n :: faults(n).ok
    ensures WriteChunk(r, faults, s, offset, data).2 == Written
  {
    ChunkIsWithin(r, s, secureStart, offset, data);
    hide EraseUpTo, Padded, AllBlank;
    EraseSucceeds(r, faults, s.erasedTo, s.start + offset + |Padded(data)|);
  }

  // An image that fits is on flash, whole, after its begin and its chunks, if no flash
  // operation fails.
  lemma ImageIsInstalled(r: Region, faults: Faults, secureStart: nat, applicationEnd: nat, image: seq<byte>)
    requires r.Valid() && secureStart % PAGE == 0 && secureStart <= |r.bytes| && |image| < 0x1_0000_0000
    requires Begun(|image|, secureStart, applicationEnd).Some? && forall n :: faults(n).ok
    ensures var start := Begun(|image|, secureStart, applicationEnd).value.start;
            var requests := [BeginInstall(|image|)] + ChunksFrom(image, 0);
            var last := Run(Install(r, None, [], 0, false, 0), faults, secureStart, applicationEnd, requests);
            && last.staging.Some? && last.staging.value.written == last.staging.value.len == |image|
            && start + |image| <= |last.flash.bytes| && last.flash.bytes[start..start + |image|] == image
  {
    var begun := Begun(|image|, secureStart, applicationEnd);
    var requests := [BeginInstall(|image|)] + ChunksFrom(image, 0);
    assert requests[1..] == ChunksFrom(image, 0);
    BeginIsOk(r, |image|, secureStart, applicationEnd);
    ChunksArrive(Install(r, begun, [], begun.value.start, false, 0), faults, secureStart, applicationEnd, image, 0);
  }

  // The install has taken the image up to `offset`.
  ghost predicate Taking(i: Install, secureStart: nat, applicationEnd: nat, image: seq<byte>, offset: nat)
  {
    && InstallOk(i, secureStart, applicationEnd) && i.staging.Some? && !i.failed && |image| < 0x1_0000_0000
    && i.staging.value.len == |image| && i.got == image[..Min(offset, |image|)] && offset % MAX_LEN == 0
  }

  lemma NextIsAccepted(i: Install, secureStart: nat, applicationEnd: nat, image: seq<byte>, offset: nat)
    requires Taking(i, secureStart, applicationEnd, image, offset) && offset < |image|
    ensures i.flash.Valid() && StagingOk(i.flash, i.staging.value, secureStart)
    ensures IsNext(i.staging.value, offset, image[offset..Min(offset + MAX_LEN, |image|)])
  {
    hide BlankFrom;
  }

  lemma TakesNext(i: Install, faults: Faults, secureStart: nat, applicationEnd: nat, image: seq<byte>, offset: nat)
    requires Taking(i, secureStart, applicationEnd, image, offset) && offset < |image|
    requires forall n :: faults(n).ok
    ensures var data := image[offset..Min(offset + MAX_LEN, |image|)];
            var next := RequestStep(i, faults, secureStart, applicationEnd, WriteInstall(offset, data));
            && Taking(next, secureStart, applicationEnd, image, offset + MAX_LEN)
            && next.staging.Some? && next.staging.value.start == i.staging.value.start
  {
    hide WriteChunk, InstallOk, StagingOk, IsNext;
    NextIsAccepted(i, secureStart, applicationEnd, image, offset);
    var s, data := i.staging.value, image[offset..Min(offset + MAX_LEN, |image|)];
    RequestIsOk(i, faults, secureStart, applicationEnd, WriteInstall(offset, data));
    WriteWorks(i.flash, faults, s, secureStart, offset, data);
    WriteStays(i.flash, faults, s, secureStart, offset, data);
    assert image[..offset] + data == image[..Min(offset + MAX_LEN, |image|)];
  }

  lemma {:induction false} ChunksArrive(
    i: Install, faults: Faults, secureStart: nat, applicationEnd: nat, image: seq<byte>, offset: nat)
    requires i.flash.Valid() && i.staging.Some? && |image| < 0x1_0000_0000
    requires Taking(i, secureStart, applicationEnd, image, offset) && forall n :: faults(n).ok
    ensures var last := Run(i, faults, secureStart, applicationEnd, ChunksFrom(image, offset));
            && last.staging.Some? && last.staging.value.start == i.staging.value.start
            && last.staging.value.written == last.staging.value.len == |image|
            && var start := i.staging.value.start;
               start + |image| <= |last.flash.bytes| && last.flash.bytes[start..start + |image|] == image
    decreases |image| - offset
  {
    hide RequestStep, Taking;
    if offset < |image| {
      var data := image[offset..Min(offset + MAX_LEN, |image|)];
      var chunks := ChunksFrom(image, offset);
      assert chunks[0] == WriteInstall(offset, data) && chunks[1..] == ChunksFrom(image, offset + MAX_LEN);
      TakesNext(i, faults, secureStart, applicationEnd, image, offset);
      var next := RequestStep(i, faults, secureStart, applicationEnd, chunks[0]);
      ChunksArrive(next, faults, secureStart, applicationEnd, image, offset + MAX_LEN);
    } else {
      AllIsTaken(i, secureStart, applicationEnd, image, offset);
    }
  }

  lemma AllIsTaken(i: Install, secureStart: nat, applicationEnd: nat, image: seq<byte>, offset: nat)
    requires Taking(i, secureStart, applicationEnd, image, offset) && offset >= |image|
    ensures var s := i.staging.value;
            && s.written == s.len == |image| && s.start + |image| <= |i.flash.bytes|
            && i.flash.bytes[s.start..s.start + |image|] == image
  {
    assert HasArrived(i.flash, i.staging.value, i.tried, image);
  }

  // ---- The installer's part ----

  // Flash and the image being received, both changed in place.
  class Receiver {
    const faults: Faults
    const secureStart: nat
    const applicationEnd: nat
    var flash: Region
    var staging: Option<Staging>

    constructor (faults: Faults, flash: Region, secureStart: nat, applicationEnd: nat)
      requires flash.Valid()
      ensures this.flash == flash && staging.None? && this.faults == faults
      ensures this.secureStart == secureStart && this.applicationEnd == applicationEnd
    {
      this.faults, this.flash, staging := faults, flash, None;
      this.secureStart, this.applicationEnd := secureStart, applicationEnd;
    }

    method Begin(len: u32) returns (fits: bool)
      modifies this`staging
      ensures fits <==> Begun(len, secureStart, applicationEnd).Some?
      ensures staging == if fits then Begun(len, secureStart, applicationEnd) else old(staging)
    {
      if len > secureStart {
        return false;
      }
      var start := secureStart - len;
      start := start - start % PAGE;
      if len == 0 || start < applicationEnd {
        return false;
      }
      staging := Some(Staging(start, len, 0, start));
      return true;
    }

    method Write(offset: u32, data: seq<byte>) returns (outcome: Outcome)
      requires flash.Valid() && staging.Some?
      modifies this
      ensures flash.Valid() && staging.Some?
      ensures (flash, staging.value, outcome) == WriteChunk(old(flash), faults, old(staging).value, offset, data)
    {
      hide EraseUpTo, Program, Padded;
      var s := staging.value;
      var end := offset + |data|;
      if offset != s.written || |data| == 0 || |data| > MAX_LEN || end > s.len || (|data| % WORD != 0 && end != s.len) {
        return NotNext;
      }
      var words := Padded(data);
      var at := s.start + offset;
      var ok := EraseTo(at + |words|);
      if !ok {
        return FailedErase;
      }
      var (written, programmed) := Program(flash, faults, at, words);
      flash := written;
      if !programmed {
        return FailedProgram;
      }
      staging := Some(staging.value.(written := end));
      return Written;
    }

    method EraseTo(upTo: nat) returns (ok: bool)
      requires flash.Valid() && staging.Some?
      modifies this
      ensures flash.Valid() && staging.Some?
      ensures staging.value == old(staging).value.(erasedTo := staging.value.erasedTo)
      ensures (flash, staging.value.erasedTo, ok) == EraseUpTo(old(flash), faults, old(staging).value.erasedTo, upTo)
    {
      while staging.value.erasedTo < upTo
        invariant flash.Valid() && staging.Some?
        invariant staging.value == old(staging).value.(erasedTo := staging.value.erasedTo)
        invariant EraseUpTo(flash, faults, staging.value.erasedTo, upTo)
               == EraseUpTo(old(flash), faults, old(staging).value.erasedTo, upTo)
        decreases upTo - staging.value.erasedTo
      {
        var (erased, done) := Erase(flash, faults, staging.value.erasedTo);
        flash := erased;
        if !done {
          return false;
        }
        staging := Some(staging.value.(erasedTo := staging.value.erasedTo + PAGE));
      }
      return true;
    }
  }
}
