// A region of NOR flash: a page is erased as a whole, and a word is programmed only
// once it is erased. An operation can fail, and then leaves anything behind in the
// bytes it was to change.
module Flash {
  import opened Basics

  const PAGE: nat := 4096
  const WORD: nat := 8

  // How the n-th operation on the region goes. A failure leaves `left` behind.
  datatype Outcome = Outcome(ok: bool, left: nat -> byte)
  type Faults = nat -> Outcome

  datatype Region = Region(
    bytes: seq<byte>,
    // Which words are erased and have not been programmed since.
    blank: seq<bool>,
    // Operations so far.
    ops: nat,
    // Programming operations on words that were not erased.
    overwrites: nat,
    // Operations refused as unaligned or outside the region.
    refused: nat)
  {
    ghost predicate Valid()
    {
      |bytes| % PAGE == 0 && PAGE < |bytes| < 0x1_0000_0000 && |blank| * WORD == |bytes|
    }
  }

  ghost predicate BlankBetween(r: Region, from: int, to: int)
  {
    forall w :: from <= w * WORD && w * WORD < to && 0 <= w < |r.blank| ==> r.blank[w]
  }

  // Of the words between `from` and `to`, exactly those from `tried` on are blank.
  ghost predicate BlankFrom(r: Region, from: int, tried: int, to: int)
  {
    forall w :: 0 <= w < |r.blank| && from <= w * WORD && w * WORD < to ==> (r.blank[w] <==> tried <= w * WORD)
  }

  function Splice<T>(s: seq<T>, at: nat, with: seq<T>): (t: seq<T>)
    requires at + |with| <= |s|
    ensures |t| == |s|
    ensures forall i :: 0 <= i < at || at + |with| <= i < |s| ==> t[i] == s[i]
    ensures t[at..at + |with|] == with
  {
    s[..at] + with + s[at + |with|..]
  }

  // Erases the page at `page`.
  function Erase(r: Region, faults: Faults, page: nat): (res: (Region, bool))
    requires r.Valid()
    ensures res.0.Valid() && |res.0.bytes| == |r.bytes|
  {
    if page % PAGE != 0 || page + PAGE > |r.bytes| then (r.(refused := r.refused + 1), false)
    else
      var outcome := faults(r.ops);
      var left := seq(PAGE, i requires 0 <= i => if outcome.ok then 0xff as byte else outcome.left(page + i));
      (r.(bytes := Splice(r.bytes, page, left),
          blank := Splice(r.blank, page / WORD, seq(PAGE / WORD, i => outcome.ok)),
          ops := r.ops + 1),
       outcome.ok)
  }

  predicate AllBlank(r: Region, at: nat, len: nat)
    requires r.Valid() && at % WORD == 0 && len % WORD == 0 && at + len <= |r.bytes|
  {
    forall w :: at / WORD <= w < (at + len) / WORD ==> r.blank[w]
  }

  // Programs `data` at `at`. What becomes of a word that was not erased is unknown.
  function Program(r: Region, faults: Faults, at: nat, data: seq<byte>): (res: (Region, bool))
    requires r.Valid()
    ensures res.0.Valid() && |res.0.bytes| == |r.bytes|
  {
    if at % WORD != 0 || |data| % WORD != 0 || at + |data| > |r.bytes| then (r.(refused := r.refused + 1), false)
    else
      var outcome := faults(r.ops);
      var clean := AllBlank(r, at, |data|);
      var left := if outcome.ok && clean then data
                  else seq(|data|, i requires 0 <= i => outcome.left(at + i));
      (r.(bytes := Splice(r.bytes, at, left),
          blank := Splice(r.blank, at / WORD, seq(|data| / WORD, i => false)),
          ops := r.ops + 1,
          overwrites := if clean then r.overwrites else r.overwrites + 1),
       outcome.ok)
  }

  function Read(r: Region, faults: Faults, at: nat, len: nat): (res: (Region, Option<seq<byte>>))
    requires r.Valid()
    ensures res.0.Valid() && res.0.bytes == r.bytes
  {
    if at + len > |r.bytes| then (r.(refused := r.refused + 1), None)
    else (r.(ops := r.ops + 1), if faults(r.ops).ok then Some(r.bytes[at..at + len]) else None)
  }

  // ---- How flash behaves ----

  // An erase that is aligned and in range leaves ones in its page, or anything if it fails,
  // and nothing else changes; any other is refused.
  lemma EraseExactly(r: Region, faults: Faults, page: nat)
    requires r.Valid()
    ensures var (q, ok) := Erase(r, faults, page);
            if page % PAGE == 0 && page + PAGE <= |r.bytes| then
              && ok == faults(r.ops).ok && q.ops == r.ops + 1 && q.refused == r.refused && q.overwrites == r.overwrites
              && forall i: nat :: i < |r.bytes| ==>
                   q.bytes[i] == if !(page <= i < page + PAGE) then r.bytes[i]
                                 else if ok then 0xff else faults(r.ops).left(i)
            else !ok && q == r.(refused := r.refused + 1)
  {
    var q := Erase(r, faults, page).0;
    if page % PAGE == 0 && page + PAGE <= |r.bytes| {
      forall i: nat | page <= i < page + PAGE
        ensures q.bytes[i] == if faults(r.ops).ok then 0xff else faults(r.ops).left(i)
      {
        assert q.bytes[page..page + PAGE][i - page] == q.bytes[i];
      }
    }
  }

  // So is programming that is aligned and in range: it leaves the data if it works and all
  // words were erased, and anything otherwise, which counts as an overwrite.
  lemma ProgramExactly(r: Region, faults: Faults, at: nat, data: seq<byte>)
    requires r.Valid()
    ensures var (q, ok) := Program(r, faults, at, data);
            if at % WORD == 0 && |data| % WORD == 0 && at + |data| <= |r.bytes| then
              var clean := AllBlank(r, at, |data|);
              && ok == faults(r.ops).ok && q.ops == r.ops + 1 && q.refused == r.refused
              && q.overwrites == r.overwrites + (if clean then 0 else 1)
              && forall i: nat :: i < |r.bytes| ==>
                   q.bytes[i] == if !(at <= i < at + |data|) then r.bytes[i]
                                 else if ok && clean then data[i - at] else faults(r.ops).left(i)
            else !ok && q == r.(refused := r.refused + 1)
  {
    hide AllBlank;
    var q := Program(r, faults, at, data).0;
    if at % WORD == 0 && |data| % WORD == 0 && at + |data| <= |r.bytes| {
      forall i: nat | at <= i < at + |data|
        ensures q.bytes[i] == if faults(r.ops).ok && AllBlank(r, at, |data|) then data[i - at]
                              else faults(r.ops).left(i)
      {
        assert q.bytes[at..at + |data|][i - at] == q.bytes[i];
      }
    }
  }

  lemma ReadExactly(r: Region, faults: Faults, at: nat, len: nat)
    requires r.Valid()
    ensures var (q, data) := Read(r, faults, at, len);
            if at + len <= |r.bytes| then
              q == r.(ops := r.ops + 1) && data == if faults(r.ops).ok then Some(r.bytes[at..at + len]) else None
            else q == r.(refused := r.refused + 1) && data.None?
  {
  }

  // Erasing from `at` on got to `to`, and changed nothing below.
  ghost predicate Erased(r: Region, q: Region, at: nat, to: nat, from: int)
    requires r.Valid() && q.Valid()
  {
    && |q.bytes| == |r.bytes| && q.overwrites == r.overwrites && q.refused == r.refused
    && to % PAGE == 0 && at <= to <= |r.bytes|
    && q.bytes[..at] == r.bytes[..at]
    && q.blank[..at / WORD] == r.blank[..at / WORD]
    && (BlankBetween(r, from, at) ==> BlankBetween(q, from, to))
  }

  // So does how far flash has been programmed.
  lemma ErasedKeepsBlank(r: Region, q: Region, at: nat, to: nat, from: nat, tried: nat)
    requires r.Valid() && q.Valid() && Erased(r, q, at, to, tried) && at % WORD == 0 && from <= tried <= at
    requires BlankFrom(r, from, tried, at)
    ensures BlankFrom(q, from, tried, to)
  {
    assert BlankBetween(r, tried, at);
    forall w | 0 <= w < |q.blank| && from <= w * WORD && w * WORD < to ensures q.blank[w] <==> tried <= w * WORD {
      if w * WORD < tried {
        assert q.blank[..at / WORD][w] == r.blank[..at / WORD][w];
      }
    }
  }

  lemma ErasedOn(r: Region, q: Region, s: Region, a: nat, b: nat, c: nat, from: int)
    requires r.Valid() && q.Valid() && s.Valid()
    requires Erased(r, q, a, b, from) && Erased(q, s, b, c, from)
    ensures Erased(r, s, a, c, from)
  {
    assert s.bytes[..a] == s.bytes[..b][..a] && q.bytes[..a] == q.bytes[..b][..a];
    assert a / WORD <= b / WORD;
    assert s.blank[..a / WORD] == s.blank[..b / WORD][..a / WORD];
    assert q.blank[..a / WORD] == q.blank[..b / WORD][..a / WORD];
  }

  // What a call leaves, and of which words it is known that they are blank.
  lemma EraseLeaves(r: Region, faults: Faults, page: nat)
    requires r.Valid() && page % PAGE == 0 && page + PAGE <= |r.bytes|
    ensures var (q, ok) := Erase(r, faults, page);
            && q.overwrites == r.overwrites && q.refused == r.refused && |q.bytes| == |r.bytes|
            && q.bytes[..page] == r.bytes[..page] && q.blank[..page / WORD] == r.blank[..page / WORD]
            && q.blank == Splice(r.blank, page / WORD, seq(PAGE / WORD, i => ok))
  {
  }

  lemma EraseFacts(r: Region, faults: Faults, page: nat, from: int)
    requires r.Valid() && page % PAGE == 0 && page + PAGE <= |r.bytes|
    ensures var (q, ok) := Erase(r, faults, page);
            Erased(r, q, page, if ok then page + PAGE else page, from)
  {
    hide Erase, BlankBetween, Splice;
    EraseLeaves(r, faults, page);
    var (q, ok) := Erase(r, faults, page);
    if BlankBetween(r, from, page) { BlankAfterErase(r, q, page, ok, from); }
  }

  lemma BlankAfterErase(r: Region, q: Region, page: nat, ok: bool, from: int)
    requires r.Valid() && q.Valid() && page % PAGE == 0 && page + PAGE <= |r.bytes| && BlankBetween(r, from, page)
    requires q.blank == Splice(r.blank, page / WORD, seq(PAGE / WORD, i => ok))
    ensures BlankBetween(q, from, if ok then page + PAGE else page)
  {
    hide Splice;
    BlankGrows(r.blank, q.blank, page / WORD, seq(PAGE / WORD, i => ok), from, page, ok);
  }

  lemma BlankGrows(before: seq<bool>, after: seq<bool>, at: nat, words: seq<bool>, from: int, page: nat, ok: bool)
    requires at + |words| <= |before| && after == Splice(before, at, words) && page == at * WORD
    requires forall w :: 0 <= w < |words| ==> words[w] == ok
    requires forall w :: from <= w * WORD && w * WORD < page && 0 <= w < |before| ==> before[w]
    ensures var to := if ok then page + |words| * WORD else page;
            forall w :: from <= w * WORD && w * WORD < to && 0 <= w < |after| ==> after[w]
  {
    var to := if ok then page + |words| * WORD else page;
    forall w | from <= w * WORD && w * WORD < to && 0 <= w < |after| ensures after[w] {
      if w < at {
        assert before[w];
      } else {
        assert after[at..at + |words|][w - at] == words[w - at];
      }
    }
  }

  // Programming overwrites exactly if it starts below where programming has been
  // tried already.
  lemma ProgramTried(r: Region, faults: Faults, at: nat, data: seq<byte>, from: nat, tried: nat, to: nat)
    requires r.Valid() && at % WORD == 0 && |data| % WORD == 0 && data != [] && at + |data| <= to <= |r.bytes|
    requires from <= at <= tried && tried % WORD == 0 && BlankFrom(r, from, tried, to)
    ensures var (q, ok) := Program(r, faults, at, data);
            && q.refused == r.refused && q.bytes[..at] == r.bytes[..at]
            && q.overwrites == r.overwrites + (if at < tried then 1 else 0)
            && (ok && at == tried ==> q.bytes[at..at + |data|] == data)
            && BlankFrom(q, from, Max(tried, at + |data|), to)
  {
    hide Program, AllBlank;
    var first, words := at / WORD, |data| / WORD;
    TriedIsNotBlank(r, at, |data|, from, tried, to);
    ProgramLeaves(r, faults, at, data);
    var q := Program(r, faults, at, data).0;
    TriedGrows(r.blank, q.blank, first, words, from, tried, to);
  }

  lemma TriedGrows(
    before: seq<bool>, after: seq<bool>, first: nat, words: nat, from: nat, tried: nat, to: nat)
    requires |after| == |before| && first + words <= |before| && first * WORD <= tried
    requires forall w :: 0 <= w < |before| && from <= w * WORD && w * WORD < to ==> (before[w] <==> tried <= w * WORD)
    requires forall w :: 0 <= w < |after| ==> after[w] == (if first <= w < first + words then false else before[w])
    ensures forall w :: 0 <= w < |after| && from <= w * WORD && w * WORD < to ==>
              (after[w] <==> Max(tried, (first + words) * WORD) <= w * WORD)
  {
  }

  lemma TriedIsNotBlank(r: Region, at: nat, len: nat, from: nat, tried: nat, to: nat)
    requires r.Valid() && at % WORD == 0 && len % WORD == 0 && 0 < len && at + len <= to <= |r.bytes|
    requires from <= at <= tried && tried % WORD == 0 && BlankFrom(r, from, tried, to)
    ensures AllBlank(r, at, len) <==> at == tried
  {
    var first := at / WORD;
    assert r.blank[first] <==> tried <= first * WORD;
    if at == tried {
      forall w | first <= w < (at + len) / WORD ensures r.blank[w] { assert tried <= w * WORD; }
    }
  }

  lemma ProgramLeaves(r: Region, faults: Faults, at: nat, data: seq<byte>)
    requires r.Valid() && at % WORD == 0 && |data| % WORD == 0 && at + |data| <= |r.bytes|
    ensures var (q, ok) := Program(r, faults, at, data); var first, words := at / WORD, |data| / WORD;
            && q.refused == r.refused && q.bytes[..at] == r.bytes[..at]
            && q.overwrites == r.overwrites + (if AllBlank(r, at, |data|) then 0 else 1)
            && (ok && AllBlank(r, at, |data|) ==> q.bytes[at..at + |data|] == data)
            && |q.blank| == |r.blank| && first + words <= |q.blank|
            && forall w :: 0 <= w < |q.blank| ==>
                 q.blank[w] == (if first <= w < first + words then false else r.blank[w])
  {
    hide AllBlank;
    var q := Program(r, faults, at, data).0;
    var first, words := at / WORD, |data| / WORD;
    assert q.blank[first..first + words] == seq(words, i => false);
    forall w | first <= w < first + words ensures !q.blank[w] {
      assert q.blank[first..first + words][w - first] == false;
    }
  }
}
