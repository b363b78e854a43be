// Reading a long text in chunks: each request renders the whole text again, skips
// the bytes the client has, and keeps what fits in a chunk. Characters take one to
// four bytes, and are never cut.
module MetricsPaging {
  import opened Basics

  const MAX_LEN: nat := 512

  // A character, as its UTF-8 bytes.
  type Char = c: seq<byte> | 1 <= |c| <= 4 witness [0]

  datatype Chunk = Chunk(text: seq<Char>, more: bool)
  datatype Window = Window(skip: nat, chunk: Chunk)

  function Length(text: seq<Char>): nat
  {
    if text == [] then 0 else Length(text[..|text| - 1]) + |text[|text| - 1]|
  }

  function Push(w: Window, c: Char): Window
  {
    if w.skip > 0 then w.(skip := if w.skip > |c| then w.skip - |c| else 0)
    else if w.chunk.more || Length(w.chunk.text) + |c| > MAX_LEN then w.(chunk := w.chunk.(more := true))
    else w.(chunk := w.chunk.(text := w.chunk.text + [c]))
  }

  function Written(w: Window, text: seq<Char>): Window
  {
    if text == [] then w else Push(Written(w, text[..|text| - 1]), text[|text| - 1])
  }

  function Concat(pieces: seq<seq<Char>>): seq<Char>
  {
    if pieces == [] then [] else Concat(pieces[..|pieces| - 1]) + pieces[|pieces| - 1]
  }

  lemma {:induction false} WrittenInPieces(w: Window, a: seq<Char>, b: seq<Char>)
    ensures Written(w, a + b) == Written(Written(w, a), b)
  {
    if b == [] {
      assert a + b == a;
    } else {
      var c := b[..|b| - 1];
      assert (a + b)[..|a + b| - 1] == a + c;
      WrittenInPieces(w, a, c);
    }
  }

  lemma {:induction false} LengthOfSum(a: seq<Char>, b: seq<Char>)
    ensures Length(a + b) == Length(a) + Length(b)
  {
    if b == [] {
      assert a + b == a;
    } else {
      assert (a + b)[..|a + b| - 1] == a + b[..|b| - 1];
      LengthOfSum(a, b[..|b| - 1]);
    }
  }

  // The bytes of a beginning of the text are skipped exactly.
  lemma {:induction false} SkipsExactly(text: seq<Char>, more: nat)
    ensures Written(Window(Length(text) + more, Chunk([], false)), text) == Window(more, Chunk([], false))
  {
    if text != [] {
      var c := text[|text| - 1];
      SkipsExactly(text[..|text| - 1], more + |c|);
    }
  }

  // After the skip the window holds the longest beginning of the text that fits.
  lemma {:induction false} KeepsWhatFits(text: seq<Char>) returns (n: nat)
    ensures n <= |text| && Written(Window(0, Chunk([], false)), text) == Window(0, Chunk(text[..n], n < |text|))
    ensures Length(text[..n]) <= MAX_LEN && (n < |text| ==> Length(text[..n]) + |text[n]| > MAX_LEN)
  {
    if text == [] {
      n := 0;
    } else {
      var before := text[..|text| - 1];
      n := KeepsWhatFits(before);
      assert before[..n] == text[..n];
      if n == |before| && Length(before) + |text[|text| - 1]| <= MAX_LEN {
        n := |text|;
        assert text[..n] == text == before + [text[|text| - 1]];
      }
    }
  }

  // A request for offset `Length(text[..k])` gets the longest part of the text from
  // character k on that fits a chunk.
  lemma ChunkAt(text: seq<Char>, k: nat) returns (n: nat)
    requires k <= |text|
    ensures k <= n <= |text| && (k < |text| ==> k < n)
    ensures Length(text[k..n]) <= 512 && (n < |text| ==> Length(text[k..n]) + |text[n]| > 512)
    ensures Written(Window(Length(text[..k]), Chunk([], false)), text) == Window(0, Chunk(text[k..n], n < |text|))
  {
    var rest := text[k..];
    assert text == text[..k] + rest;
    WrittenInPieces(Window(Length(text[..k]), Chunk([], false)), text[..k], rest);
    SkipsExactly(text[..k], 0);
    var m := KeepsWhatFits(rest);
    n := k + m;
    assert rest[..m] == text[k..n];
    assert rest[..0] == [];
  }

  // ---- The board ----

  // A sink that skips what the client has, and keeps what fits.
  class Sink {
    var skip: nat
    var text: seq<Char>
    var more: bool

    ghost function View(): Window
      reads this
    {
      Window(skip, Chunk(text, more))
    }

    constructor (skip: nat)
      ensures View() == Window(skip, Chunk([], false))
    {
      this.skip, text, more := skip, [], false;
    }

    method WriteStr(piece: seq<Char>)
      modifies this
      ensures View() == Written(old(View()), piece)
    {
      var i := 0;
      while i < |piece|
        invariant 0 <= i <= |piece|
        invariant View() == Written(old(View()), piece[..i])
      {
        var c := piece[i];
        assert piece[..i + 1][..i] == piece[..i];
        if skip > 0 {
          skip := if skip > |c| then skip - |c| else 0;
        } else if more || Length(text) + |c| > MAX_LEN {
          more := true;
        } else {
          text := text + [c];
        }
        i := i + 1;
      }
      assert piece[..i] == piece;
    }
  }

  // The chunk for a request at byte `offset`, whatever pieces the text comes in.
  method Text(pieces: seq<seq<Char>>, offset: u32) returns (chunk: Chunk)
    ensures chunk == Written(Window(offset, Chunk([], false)), Concat(pieces)).chunk
  {
    var sink := new Sink(offset);
    var i := 0;
    while i < |pieces|
      invariant 0 <= i <= |pieces|
      invariant sink.View() == Written(Window(offset, Chunk([], false)), Concat(pieces[..i]))
    {
      sink.WriteStr(pieces[i]);
      WrittenInPieces(Window(offset, Chunk([], false)), Concat(pieces[..i]), pieces[i]);
      assert pieces[..i + 1][..i] == pieces[..i];
      i := i + 1;
    }
    assert pieces[..i] == pieces;
    chunk := Chunk(sink.text, sink.more);
  }

  // ---- The client ----

  // The client's loop ends, and what it has then is the text. Every request may
  // render the text in other pieces.
  method Metrics(render: nat -> seq<seq<Char>>, ghost text: seq<Char>) returns (all: seq<Char>)
    requires forall request :: Concat(render(request)) == text
    requires Length(text) < 0x1_0000_0000
    ensures all == text
  {
    all := [];
    var requests := 0;
    ghost var k := 0;
    var done := false;
    while !done
      invariant 0 <= k <= |text| && all == text[..k]
      invariant done ==> k == |text|
      decreases !done, |text| - k
    {
      ghost var n := ChunkAt(text, k);
      LengthOfSum(text[..k], text[k..]);
      assert text[..k] + text[k..] == text;
      var chunk := Text(render(requests), Length(all));
      assert text[..k] + text[k..n] == text[..n];
      all := all + chunk.text;
      k := n;
      requests := requests + 1;
      done := !chunk.more;
    }
  }
}
