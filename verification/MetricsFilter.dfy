// The filter between the metrics and a push: of a text that is written to it in
// arbitrary pieces it keeps the sample lines, and before the first sample of each
// family its type line.
module MetricsFilter {
  import opened Basics

  const LINE_LEN: nat := 192
  const NL: byte := 10
  const HASH: byte := 35
  // "# TYPE "
  const TYPE: seq<byte> := [35, 32, 84, 89, 80, 69, 32]

  type Line = seq<byte>

  predicate IsType(line: Line)
  {
    TYPE <= line
  }

  predicate IsSample(line: Line)
  {
    line != [] && line[0] != HASH
  }

  // The line so far, the type line that waits for a sample of its family, and the
  // output.
  datatype State = State(line: Line, familyType: Line, out: seq<byte>)

  // A write fails if a line is too long, or if there is no room for what is to be
  // written out. What has been written out stays.
  datatype Result = Ok(state: State) | Failed(out: seq<byte>)

  // ---- The filter, a byte at a time ----

  // Writes out each piece that there is room for, up to the first there is not.
  function WriteOut(out: seq<byte>, pieces: seq<seq<byte>>, room: nat): (seq<byte>, bool)
    decreases |pieces|
  {
    if pieces == [] then (out, true)
    else if |out| + |pieces[0]| > room then (out, false)
    else WriteOut(out + pieces[0], pieces[1..], room)
  }

  function EndLine(s: State, room: nat): Result
  {
    if IsType(s.line) then Ok(State([], s.line, s.out))
    else if !IsSample(s.line) then Ok(s.(line := []))
    else
      var family := if s.familyType != [] then [s.familyType, [NL]] else [];
      var (out, ok) := WriteOut(s.out, family + [s.line, [NL]], room);
      if ok then Ok(State([], [], out)) else Failed(out)
  }

  function Push(s: State, b: byte, room: nat): Result
  {
    if b == NL then EndLine(s, room)
    else if |s.line| >= LINE_LEN then Failed(s.out)
    else Ok(s.(line := s.line + [b]))
  }

  function Run(s: State, text: seq<byte>, room: nat): Result
    decreases |text|
  {
    if text == [] then Ok(s)
    else
      match Push(s, text[0], room)
      case Ok(next) => Run(next, text[1..], room)
      case Failed(out) => Failed(out)
  }

  // ---- Any pieces ----

  lemma {:induction false} RunOn(s: State, a: seq<byte>, b: seq<byte>, room: nat)
    ensures Run(s, a + b, room) == match Run(s, a, room)
                                   case Ok(next) => Run(next, b, room)
                                   case Failed(out) => Failed(out)
    decreases |a|
  {
    if a == [] {
      assert a + b == b;
    } else {
      assert (a + b)[1..] == a[1..] + b;
      match Push(s, a[0], room) {
        case Ok(next) => RunOn(next, a[1..], b, room);
        case Failed(_) =>
      }
    }
  }

  // What the writer does: it writes one piece after the other, until one fails.
  function RunPieces(s: State, pieces: seq<seq<byte>>, room: nat): Result
    decreases |pieces|
  {
    if pieces == [] then Ok(s)
    else
      match Run(s, pieces[0], room)
      case Ok(next) => RunPieces(next, pieces[1..], room)
      case Failed(out) => Failed(out)
  }

  function Concat(pieces: seq<seq<byte>>): seq<byte>
  {
    if pieces == [] then [] else pieces[0] + Concat(pieces[1..])
  }

  // Neither what is written out nor whether it fails depends on how the text is cut,
  // for lines of any length, and with any room.
  lemma {:induction false} CutsDoNotMatter(s: State, pieces: seq<seq<byte>>, room: nat)
    ensures RunPieces(s, pieces, room) == Run(s, Concat(pieces), room)
    decreases |pieces|
  {
    if pieces != [] {
      RunOn(s, pieces[0], Concat(pieces[1..]), room);
      match Run(s, pieces[0], room) {
        case Ok(next) => CutsDoNotMatter(next, pieces[1..], room);
        case Failed(_) =>
      }
    }
  }

  // ---- Lines ----

  // The complete lines of a text that goes on with `line`, and what is left.
  function Split(line: Line, text: seq<byte>): (seq<Line>, Line)
    decreases |text|
  {
    if text == [] then ([], line)
    else if text[0] != NL then Split(line + [text[0]], text[1..])
    else
      var (lines, rest) := Split([], text[1..]);
      ([line] + lines, rest)
  }

  function Unlines(lines: seq<Line>): seq<byte>
  {
    if lines == [] then [] else lines[0] + [NL] + Unlines(lines[1..])
  }

  // The lines that are kept, of a text after the type line that waits for a sample.
  function Kept(lines: seq<Line>, family: Line): seq<Line>
  {
    if lines == [] then []
    else if IsType(lines[0]) then Kept(lines[1..], lines[0])
    else if !IsSample(lines[0]) then Kept(lines[1..], family)
    else (if family != [] then [family, lines[0]] else [lines[0]]) + Kept(lines[1..], [])
  }

  // The type line that waits for a sample after them.
  function Waiting(lines: seq<Line>, family: Line): Line
  {
    if lines == [] then family
    else Waiting(lines[1..], if IsType(lines[0]) then lines[0] else if IsSample(lines[0]) then [] else family)
  }

  ghost predicate Fit(lines: seq<Line>)
  {
    forall line :: line in lines ==> |line| <= LINE_LEN
  }

  lemma {:induction false} UnlinesOfSum(a: seq<Line>, b: seq<Line>)
    ensures Unlines(a + b) == Unlines(a) + Unlines(b)
  {
    if a == [] {
      assert a + b == b;
    } else {
      assert (a + b)[1..] == a[1..] + b;
      UnlinesOfSum(a[1..], b);
    }
  }

  // A line that is too long stays too long.
  lemma {:induction false} TooLongStays(line: Line, text: seq<byte>)
    requires |line| > LINE_LEN
    ensures var (lines, rest) := Split(line, text); !Fit(lines + [rest])
    decreases |text|
  {
    var (lines, rest) := Split(line, text);
    if text == [] {
      assert rest in lines + [rest];
    } else if text[0] != NL {
      TooLongStays(line + [text[0]], text[1..]);
    } else {
      assert line in lines + [rest];
    }
  }

  lemma {:induction false} WriteOutIsAll(out: seq<byte>, pieces: seq<seq<byte>>, room: nat)
    ensures var (written, ok) := WriteOut(out, pieces, room);
            && (ok <==> |out| + |Concat(pieces)| <= room || pieces == [])
            && (ok ==> written == out + Concat(pieces))
            && out <= written <= out + Concat(pieces)
    decreases |pieces|
  {
    if pieces != [] {
      assert out + (pieces[0] + Concat(pieces[1..])) == (out + pieces[0]) + Concat(pieces[1..]);
      if |out| + |pieces[0]| <= room { WriteOutIsAll(out + pieces[0], pieces[1..], room); }
    } else {
      assert out + [] == out;
    }
  }

  lemma WriteTwo(out: seq<byte>, a: seq<byte>, b: seq<byte>, more: seq<seq<byte>>, room: nat)
    ensures WriteOut(out, [a, b] + more, room)
         == if |out| + |a| > room then (out, false)
            else if |out + a| + |b| > room then (out + a, false)
            else WriteOut(out + a + b, more, room)
  {
    var pieces := [a, b] + more;
    assert pieces[1..] == [b] + more && pieces[1..][1..] == more;
  }

  lemma ConcatOfEnded(line: Line)
    ensures Concat([line, [NL]]) == line + [NL] == Unlines([line])
  {
    var newline: seq<seq<byte>> := [[NL]];
    var ended, lines := [line] + newline, [line];
    assert newline[1..] == [] && ended[1..] == newline && lines[1..] == [];
    assert Concat(newline) == newline[0] + Concat(newline[1..]);
    assert Concat(ended) == line + Concat(newline);
    assert Unlines(lines) == line + [NL] + Unlines(lines[1..]);
    assert [line, [NL]] == ended;
  }

  // The end of a line writes out what is kept of it, or fails for lack of room.
  lemma EndLineKeeps(s: State, room: nat)
    ensures var kept, family := Kept([s.line], s.familyType), Waiting([s.line], s.familyType);
            if |s.out| + |Unlines(kept)| <= room || kept == []
            then EndLine(s, room) == Ok(State([], family, s.out + Unlines(kept)))
            else EndLine(s, room).Failed?
  {
    var kept, family := Kept([s.line], s.familyType), Waiting([s.line], s.familyType);
    var pieces := (if s.familyType != [] then [s.familyType, [NL]] else []) + [s.line, [NL]];
    assert Kept([s.line][1..], []) == [] && Waiting([s.line], s.familyType) == family;
    if IsSample(s.line) && !IsType(s.line) {
      assert kept == if s.familyType != [] then [s.familyType, s.line] else [s.line];
      WriteOutIsAll(s.out, pieces, room);
      assert Concat(pieces) == Unlines(kept) by {
        hide WriteOut;
        var ended := [s.line, [NL]];
        assert ended[1..] == [[NL]] && [[NL]][1..] == [] && [s.line][1..] == [];
        ConcatOfEnded(s.line);
        if s.familyType != [] {
          assert pieces == [s.familyType, [NL]] + ended && pieces[1..] == [[NL]] + ended && pieces[1..][1..] == ended;
          assert kept[1..] == [s.line];
          assert Concat(pieces[1..]) == [NL] + Concat(ended);
        } else {
          assert pieces == ended;
        }
      }
    } else {
      assert s.out + [] == s.out;
    }
  }

  lemma KeptOfMore(lines: seq<Line>, family: Line)
    requires lines != []
    ensures var middle := Waiting([lines[0]], family);
            && Kept(lines, family) == Kept([lines[0]], family) + Kept(lines[1..], middle)
            && Waiting(lines, family) == Waiting(lines[1..], middle)
  {
    var none: seq<Line> := [lines[0]][1..];
    assert none == [];
    var rest := Kept(lines[1..], Waiting([lines[0]], family));
    var first := if family != [] then [family, lines[0]] else [lines[0]];
    assert none + rest == rest && first + none == first;
  }

  // What is written out are exactly the kept lines. It fails exactly if a line is too
  // long, or if there is no room for them.
  lemma {:induction false} RunKeeps(s: State, text: seq<byte>, room: nat)
    requires |s.line| <= LINE_LEN && |s.out| <= room
    ensures var (lines, rest) := Split(s.line, text);
            var kept, family := Kept(lines, s.familyType), Waiting(lines, s.familyType);
            if Fit(lines + [rest]) && |s.out| + |Unlines(kept)| <= room
            then Run(s, text, room) == Ok(State(rest, family, s.out + Unlines(kept)))
            else Run(s, text, room).Failed?
    decreases |text|
  {
    var (lines, rest) := Split(s.line, text);
    if text == [] {
      assert s.out + [] == s.out;
    } else if text[0] != NL {
      if |s.line| < LINE_LEN {
        RunKeeps(s.(line := s.line + [text[0]]), text[1..], room);
      } else {
        TooLongStays(s.line + [text[0]], text[1..]);
      }
    } else {
      var (others, _) := Split([], text[1..]);
      assert lines == [s.line] + others && lines[1..] == others;
      EndLineKeeps(s, room);
      KeptOfMore(lines, s.familyType);
      var first, more := Kept([s.line], s.familyType), Kept(others, Waiting([s.line], s.familyType));
      UnlinesOfSum(first, more);
      assert Fit(lines + [rest]) <==> Fit(others + [rest]) by {
        assert forall line :: line in lines + [rest] <==> line == s.line || line in others + [rest];
      }
      assert s.out + (Unlines(first) + Unlines(more)) == (s.out + Unlines(first)) + Unlines(more);
      if EndLine(s, room).Ok? { RunKeeps(EndLine(s, room).state, text[1..], room); }
    }
  }

  // ---- What the filtered text means ----

  // The samples, each with its nearest preceding type line.
  function TypedSamples(lines: seq<Line>, family: Line): seq<(Line, Line)>
  {
    if lines == [] then []
    else if IsType(lines[0]) then TypedSamples(lines[1..], lines[0])
    else if IsSample(lines[0]) then [(family, lines[0])] + TypedSamples(lines[1..], family)
    else TypedSamples(lines[1..], family)
  }

  // The nearest type line before line i, or `family` if there is none.
  function NearestType(lines: seq<Line>, i: nat, family: Line): Line
    requires i <= |lines|
  {
    if i == 0 then family
    else if IsType(lines[i - 1]) then lines[i - 1]
    else NearestType(lines, i - 1, family)
  }

  function SamplesBefore(lines: seq<Line>, i: nat): nat
    requires i <= |lines|
  {
    if i == 0 then 0 else SamplesBefore(lines, i - 1) + if IsSample(lines[i - 1]) then 1 else 0
  }

  ghost predicate SampleIsAt(lines: seq<Line>, family: Line, i: nat)
    requires i < |lines|
  {
    var samples, k := TypedSamples(lines, family), SamplesBefore(lines, i);
    k < |samples| && samples[k] == (NearestType(lines, i, family), lines[i])
  }

  // They are the samples of the text in order, and no others.
  lemma {:induction false} TypedSamplesExactly(lines: seq<Line>, family: Line)
    ensures |TypedSamples(lines, family)| == SamplesBefore(lines, |lines|)
    ensures forall i: nat :: i < |lines| && IsSample(lines[i]) ==> SampleIsAt(lines, family, i)
    decreases |lines|
  {
    if lines != [] {
      TypedSamplesExactly(lines[1..], if IsType(lines[0]) then lines[0] else family);
      FromSecond(lines, |lines| - 1, family);
      OneMoreSample(lines, family);
      forall i: nat | i < |lines| && IsSample(lines[i]) ensures SampleIsAt(lines, family, i) {
        if i > 0 {
          FromSecond(lines, i - 1, family);
          assert lines[1..][i - 1] == lines[i];
          assert SampleIsAt(lines[1..], if IsType(lines[0]) then lines[0] else family, i - 1);
        }
        hide IsSample, TypedSamples, SamplesBefore;
        FirstSample(lines, family);
      }
    }
  }

  lemma FirstSample(lines: seq<Line>, family: Line)
    requires lines != []
    ensures SamplesBefore(lines, 0) == 0 && SamplesBefore(lines, 1) == if IsSample(lines[0]) then 1 else 0
    ensures IsSample(lines[0]) ==> SampleIsAt(lines, family, 0)
  {
    NoTypeIsSample(lines[0]);
    assert SamplesBefore(lines, 1) == SamplesBefore(lines, 0) + if IsSample(lines[0]) then 1 else 0;
  }

  lemma OneMoreSample(lines: seq<Line>, family: Line)
    requires lines != []
    ensures TypedSamples(lines, family)
         == (if IsSample(lines[0]) then [(family, lines[0])] else [])
            + TypedSamples(lines[1..], if IsType(lines[0]) then lines[0] else family)
    ensures SamplesBefore(lines, 1) == if IsSample(lines[0]) then 1 else 0
  {
    NoTypeIsSample(lines[0]);
    assert SamplesBefore(lines, 1) == SamplesBefore(lines, 0) + if IsSample(lines[0]) then 1 else 0;
  }

  lemma NoTypeIsSample(line: Line)
    ensures !(IsType(line) && IsSample(line))
  {
    assert IsType(line) ==> line[0] == TYPE[0];
  }

  lemma {:induction false} FromSecond(lines: seq<Line>, i: nat, family: Line)
    requires i < |lines|
    ensures SamplesBefore(lines, i + 1) == SamplesBefore(lines[1..], i) + SamplesBefore(lines, 1)
    ensures NearestType(lines, i + 1, family)
         == NearestType(lines[1..], i, if IsType(lines[0]) then lines[0] else family)
    decreases i
  {
    if i > 0 { FromSecond(lines, i - 1, family); }
  }

  // Which lines are which, in ASCII: a sample does not start with '#', and a type line starts
  // with "# TYPE "; a line ends with a newline, and has at most 192 bytes.
  lemma LinesAreTold(line: Line)
    ensures IsSample(line) <==> |line| > 0 && line[0] != '#' as int
    ensures IsType(line) <==> |line| >= 7 && line[..7] == Ascii("# TYPE ")
    ensures Fit([line]) <==> |line| <= 192
    ensures NL == '\n' as int
  {
    assert Ascii("# TYPE ") == TYPE;
    if IsType(line) { assert line[..7] == TYPE; }
  }

  function Ascii(text: string): seq<byte>
    requires forall i :: 0 <= i < |text| ==> text[i] as int < 128
  {
    if text == "" then []
    else
      var first: byte := text[0] as int;
      [first] + Ascii(text[1..])
  }

  lemma {:induction false} SamplesKeepTheirTypes(lines: seq<Line>, waiting: Line, family: Line)
    requires waiting != [] ==> IsType(waiting)
    ensures TypedSamples(Kept(lines, waiting), family) == TypedSamples(lines, if waiting != [] then waiting else family)
    decreases |lines|
  {
    if lines != [] {
      var line, rest := lines[0], lines[1..];
      if IsType(line) {
        SamplesKeepTheirTypes(rest, line, family);
      } else if !IsSample(line) {
        SamplesKeepTheirTypes(rest, waiting, family);
      } else {
        var kept, more := Kept(lines, waiting), Kept(rest, []);
        SamplesKeepTheirTypes(rest, [], if waiting != [] then waiting else family);
        if waiting != [] {
          assert kept == [waiting, line] + more && kept[1..] == [line] + more && kept[1..][1..] == more;
        } else {
          assert kept == [line] + more && kept[1..] == more;
        }
      }
    }
  }

  lemma {:induction false} KeptIsKeptAgain(lines: seq<Line>, waiting: Line)
    requires waiting != [] ==> IsType(waiting)
    ensures Kept(Kept(lines, waiting), []) == Kept(lines, waiting) && Waiting(Kept(lines, waiting), []) == []
    decreases |lines|
  {
    if lines != [] {
      var line, rest := lines[0], lines[1..];
      if IsType(line) {
        KeptIsKeptAgain(rest, line);
      } else if !IsSample(line) {
        KeptIsKeptAgain(rest, waiting);
      } else {
        var kept, more := Kept(lines, waiting), Kept(rest, []);
        KeptIsKeptAgain(rest, []);
        if waiting != [] {
          assert kept == [waiting, line] + more && kept[1..] == [line] + more && kept[1..][1..] == more;
          assert Kept(kept[1..], waiting) == [waiting, line] + more;
        } else {
          assert kept == [line] + more && kept[1..] == more;
        }
      }
    }
  }

  // A sample, or a line just before one.
  ghost predicate IsNeeded(lines: seq<Line>, i: int)
  {
    0 <= i < |lines| && (IsSample(lines[i]) || (i + 1 < |lines| && IsSample(lines[i + 1])))
  }

  // Every kept line is a line of the text, and is a sample or stands just before one.
  lemma {:induction false} NothingElseIsKept(lines: seq<Line>, waiting: Line)
    ensures forall line :: line in Kept(lines, waiting) ==> line in lines || (line == waiting && waiting != [])
    ensures forall i :: 0 <= i < |Kept(lines, waiting)| ==> IsNeeded(Kept(lines, waiting), i)
    decreases |lines|
  {
    if lines != [] {
      var line := lines[0];
      if IsType(line) {
        NothingElseIsKept(lines[1..], line);
      } else if !IsSample(line) {
        NothingElseIsKept(lines[1..], waiting);
      } else {
        NothingElseIsKept(lines[1..], []);
        var more := Kept(lines[1..], []);
        var first := if waiting != [] then [waiting, line] else [line];
        forall i | 0 <= i < |first + more| ensures IsNeeded(first + more, i) {
          if i >= |first| { assert IsNeeded(more, i - |first|); }
        }
      }
    }
  }

  lemma {:induction false} SplitHasNoNewlines(line: Line, text: seq<byte>)
    requires NL !in line
    ensures var (lines, rest) := Split(line, text); forall l :: l in lines + [rest] ==> NL !in l
    decreases |text|
  {
    if text != [] {
      SplitHasNoNewlines(if text[0] == NL then [] else line + [text[0]], text[1..]);
    }
  }

  lemma {:induction false} SplitLine(start: Line, line: Line, text: seq<byte>)
    requires NL !in line
    ensures Split(start, line + [NL] + text) == var (lines, rest) := Split([], text); ([start + line] + lines, rest)
    decreases |line|
  {
    var all := line + [NL] + text;
    if line == [] {
      assert all[1..] == text && start + line == start;
    } else {
      assert all[1..] == line[1..] + [NL] + text && (start + [line[0]]) + line[1..] == start + line;
      SplitLine(start + [line[0]], line[1..], text);
    }
  }

  lemma {:induction false} SplitOfUnlines(lines: seq<Line>)
    requires forall line :: line in lines ==> NL !in line
    ensures Split([], Unlines(lines)) == (lines, [])
  {
    if lines != [] {
      SplitLine([], lines[0], Unlines(lines[1..]));
      SplitOfUnlines(lines[1..]);
      assert [] + lines[0] == lines[0] && [lines[0]] + lines[1..] == lines;
    }
  }

  // A text whose lines fit, with room for what is kept of it.
  ghost predicate Fits(text: seq<byte>, room: nat)
  {
    var (lines, rest) := Split([], text);
    Fit(lines + [rest]) && |Unlines(Kept(lines, []))| <= room
  }

  // The filter preserves meaning: however the text is cut, what comes out has the
  // same samples in the same order, each below the same type line, and nothing
  // that is not needed for that.
  lemma FilterKeepsMeaning(text: seq<byte>, pieces: seq<seq<byte>>, room: nat)
    requires Concat(pieces) == text
    ensures RunPieces(State([], [], []), pieces, room).Ok? <==> Fits(text, room)
    ensures Fits(text, room) ==>
      var out := RunPieces(State([], [], []), pieces, room).state.out; var kept := Split([], out).0;
      && out == Unlines(kept) && kept == Kept(Split([], text).0, [])
      && TypedSamples(kept, []) == TypedSamples(Split([], text).0, [])
      && forall i :: 0 <= i < |kept| ==> IsNeeded(kept, i)
  {
    CutsDoNotMatter(State([], [], []), pieces, room);
    RunKeeps(State([], [], []), text, room);
    if Fits(text, room) {
      var (lines, rest) := Split([], text);
      var kept := Kept(lines, []);
      KeptHasNoNewlines(text);
      SplitOfUnlines(kept);
      assert [] + Unlines(kept) == Unlines(kept);
      SamplesKeepTheirTypes(lines, [], []);
      NothingElseIsKept(lines, []);
    }
  }

  lemma KeptHasNoNewlines(text: seq<byte>)
    ensures forall line :: line in Kept(Split([], text).0, []) ==> NL !in line
    ensures Fit(Split([], text).0) ==> Fit(Kept(Split([], text).0, []))
  {
    var (lines, rest) := Split([], text);
    SplitHasNoNewlines([], text);
    NothingElseIsKept(lines, []);
    assert forall line :: line in lines ==> line in lines + [rest];
  }

  // Filtering twice is filtering once.
  lemma FilterTwice(text: seq<byte>, room: nat)
    requires Fits(text, room)
    ensures Run(State([], [], []), text, room).Ok?
    ensures var out := Run(State([], [], []), text, room).state.out;
            Run(State([], [], []), out, room) == Ok(State([], [], out))
  {
    var (lines, rest) := Split([], text);
    var kept := Kept(lines, []);
    RunKeeps(State([], [], []), text, room);
    KeptHasNoNewlines(text);
    SplitOfUnlines(kept);
    KeptIsKeptAgain(lines, []);
    assert [] + Unlines(kept) == Unlines(kept);
    assert forall line :: line in lines ==> line in lines + [rest];
    RunKeeps(State([], [], []), Unlines(kept), room);
  }

  // ---- The writer ----

  // The position of the first newline, or the length.
  function NewlineAt(s: seq<byte>): (k: nat)
    ensures k <= |s| && NL !in s[..k] && (k < |s| ==> s[k] == NL)
  {
    if s == [] || s[0] == NL then 0
    else
      var k := 1 + NewlineAt(s[1..]);
      assert s[..k] == [s[0]] + s[1..][..k - 1];
      k
  }

  // A part without newlines is added to the line, if the line has room for it.
  lemma {:induction false} RunPart(s: State, part: seq<byte>, room: nat)
    requires NL !in part && |s.line| <= LINE_LEN
    ensures Run(s, part, room) == if |s.line| + |part| <= LINE_LEN then Ok(s.(line := s.line + part)) else Failed(s.out)
    decreases |part|
  {
    if part == [] {
      assert s.line + part == s.line;
    } else if |s.line| < LINE_LEN {
      assert (s.line + [part[0]]) + part[1..] == s.line + part;
      RunPart(s.(line := s.line + [part[0]]), part[1..], room);
    }
  }

  class Samples {
    const room: nat
    var line: Line
    var familyType: Line
    var out: seq<byte>

    ghost function View(): State
      reads this
    {
      State(line, familyType, out)
    }

    constructor (room: nat)
      ensures View() == State([], [], []) && this.room == room
    {
      this.room, line, familyType, out := room, [], [], [];
    }

    method WriteTo(piece: seq<byte>) returns (ok: bool)
      modifies this`out
      ensures ok <==> |old(out)| + |piece| <= room
      ensures out == if ok then old(out) + piece else old(out)
    {
      if |out| + |piece| > room {
        return false;
      }
      out := out + piece;
      return true;
    }

    // A line is complete: it is kept, held back or dropped.
    method FinishLine() returns (ok: bool)
      modifies this
      ensures match EndLine(old(View()), room)
              case Ok(next) => ok && View() == next
              case Failed(written) => !ok && out == written
    {
      if IsType(line) {
        familyType := line;
      } else if IsSample(line) {
        WriteTwo(out, familyType, [NL], [line, [NL]], room);
        WriteTwo(if familyType != [] then out + familyType + [NL] else out, line, [NL], [], room);
        ghost var none: seq<seq<byte>> := [];
        assert none + [line, [NL]] == [line, [NL]] + none == [line, [NL]];
        assert [familyType, [NL]] + [line, [NL]] == [familyType, [NL], line, [NL]];
        if familyType != [] {
          ok := WriteTo(familyType);
          if !ok { return; }
          ok := WriteTo([NL]);
          if !ok { return; }
          familyType := [];
        }
        ok := WriteTo(line);
        if !ok { return; }
        ok := WriteTo([NL]);
        if !ok { return; }
      }
      line := [];
      return true;
    }

    // Writes a piece of the text. Once it has failed, nothing more is written.
    method WriteStr(s: seq<byte>) returns (ok: bool)
      requires |line| <= LINE_LEN
      modifies this
      ensures match Run(old(View()), s, room)
              case Ok(next) => ok && View() == next && |line| <= LINE_LEN
              case Failed(written) => !ok && out == written
    {
      var rest := s;
      var end := NewlineAt(rest);
      while end < |rest|
        invariant end == NewlineAt(rest) && |line| <= LINE_LEN
        invariant Run(View(), rest, room) == Run(old(View()), s, room)
        decreases |rest|
      {
        var part := rest[..end];
        RunPart(View(), part, room);
        RunOn(View(), part, rest[end..], room);
        assert part + rest[end..] == rest;
        if |line| + |part| > LINE_LEN {
          return false;
        }
        line := line + part;
        ok := FinishLine();
        if !ok {
          return;
        }
        assert rest[end..][1..] == rest[end + 1..];
        rest := rest[end + 1..];
        end := NewlineAt(rest);
      }
      assert rest[..end] == rest;
      RunPart(View(), rest, room);
      if |line| + |rest| > LINE_LEN {
        return false;
      }
      line := line + rest;
      return true;
    }
  }
}
