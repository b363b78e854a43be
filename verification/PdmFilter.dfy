// The microphone's filter: a sinc decimator that adds up look-up table entries, one
// for each nibble of the bitstream, and carries partial sums across blocks, then a
// fixed-point high-pass and low-pass.
module PdmFilter {
  import opened Basics
  import opened Sums
  import opened Sinc

  type i64 = x: int | -0x8000_0000_0000_0000 <= x < 0x8000_0000_0000_0000
  type i16 = x: int | -0x8000 <= x < 0x8000

  // A PCM sample takes so many samples of the bitstream, in so many bytes, and twice as
  // many nibbles.
  const DECIMATION: nat := 128
  const BYTES_PER_SAMPLE: nat := 16
  const NIBBLES: nat := 32
  const SINC_SUM: int := 2097152
  const SUB_CONST: int := 1048576
  const VOLUME: int := 16
  const DIV_CONST: int := 128

  // ---- The bitstream ----

  // The i-th sample of a byte: the most significant bit is the earliest.
  function Bit(b: byte, i: int): (bit: nat)
    requires 0 <= i < 8
  {
    (b / [128, 64, 32, 16, 8, 4, 2, 1][i]) % 2
  }

  // The i-th sample of a bitstream; 0 before its start and after its end.
  ghost function Signal(stream: seq<byte>, i: int): (bit: int)
    ensures 0 <= bit <= 1
  {
    if 0 <= i < 8 * |stream| then Bit(stream[i / 8], i % 8) else 0
  }

  // ---- What the filter is for ----

  // The sinc filter's output for sample k, centred on zero: the triple moving sum.
  ghost function Centred(stream: seq<byte>, k: int): int
  {
    TripleMovingSum(i => Signal(stream, i), DECIMATION, DECIMATION * (k - 2) + 1) - SUB_CONST
  }

  // The state of the high-pass and the low-pass.
  datatype Passes = Passes(oldOut: int, oldIn: int, oldZ: int)

  // One step of the two passes on the centred value z. `/` floors, like `>>`.
  function Pass(p: Passes, z: int, hpAlfa: int, lpAlfa: int): Passes
  {
    var out := (hpAlfa * (p.oldOut + z - p.oldIn)) / 256;
    Passes(out, z, ((256 - lpAlfa) * p.oldZ + lpAlfa * out) / 256)
  }

  // The passes after the first `count` samples of a bitstream.
  ghost function PassesAfter(stream: seq<byte>, count: nat, hpAlfa: int, lpAlfa: int): Passes
  {
    if count == 0 then Passes(0, 0, 0)
    else Pass(PassesAfter(stream, count - 1, hpAlfa, lpAlfa), Centred(stream, count - 1), hpAlfa, lpAlfa)
  }

  // The PCM sample k of a bitstream.
  ghost function Pcm(stream: seq<byte>, k: nat, hpAlfa: int, lpAlfa: int): i16
  {
    Clamp(RoundDiv(PassesAfter(stream, k + 1, hpAlfa, lpAlfa).oldZ * VOLUME, DIV_CONST))
  }

  // The `count` PCM samples of a bitstream from sample `first` on.
  ghost function Pcms(stream: seq<byte>, first: nat, count: nat, hpAlfa: int, lpAlfa: int): (pcm: seq<i16>)
    ensures |pcm| == count
  {
    if count == 0 then []
    else Pcms(stream, first, count - 1, hpAlfa, lpAlfa) + [Pcm(stream, first + count - 1, hpAlfa, lpAlfa)]
  }

  lemma PcmsNext(stream: seq<byte>, first: nat, count: nat, k: nat, hpAlfa: int, lpAlfa: int)
    requires k == first + count
    ensures Pcms(stream, first, count + 1, hpAlfa, lpAlfa)
         == Pcms(stream, first, count, hpAlfa, lpAlfa) + [Pcm(stream, k, hpAlfa, lpAlfa)]
  {
  }

  function Clamp(z: int): i16
  {
    if z < -32700 then -32700 else if z > 32700 then 32700 else z
  }

  // Integer division as in the source language: it truncates towards zero.
  function TruncDiv(a: int, b: int): int
    requires b > 0
  {
    if a >= 0 then a / b else -(-a / b)
  }

  function RoundDiv(a: int, b: int): int
    requires b > 0
  {
    if a > 0 then TruncDiv(a + b / 2, b) else TruncDiv(a - b / 2, b)
  }

  // RoundDiv is the nearest integer, and of two as near the one farther from zero.
  lemma RoundDivIsNearest(a: int, b: int)
    requires b > 0 && b % 2 == 0
    ensures var q := RoundDiv(a, b);
            && -b <= 2 * (a - q * b) <= b
            && (2 * (a - q * b) == b ==> a < 0)
            && (2 * (a - q * b) == -b ==> a > 0)
  {
    var h := b / 2;
    var c := if a > 0 then a + h else h - a;
    assert c == (c / b) * b + c % b;
    if a <= 0 {
      assert RoundDiv(a, b) == -(c / b);
      assert -(c / b) * b == -((c / b) * b);
    }
  }

  // ---- The coefficients ----

  // The array that `new` fills: the sinc coefficients between two zeros.
  ghost predicate IsPaddedSinc(sinc: seq<nat>)
  {
    && |sinc| == 3 * DECIMATION && sinc[0] == 0 && sinc[3 * DECIMATION - 1] == 0
    && HasSinc3(sinc[1..3 * DECIMATION - 1])
  }

  ghost predicate HasSinc3(sinc: seq<nat>)
  {
    exists sinc2, boxcar :: IsSinc3(sinc, sinc2, boxcar, DECIMATION)
  }

  // The padded coefficients weight a signal with the triple moving sum one later.
  lemma PaddedSincIsTripleMovingSum(sinc: seq<nat>, g: int -> int, from: int)
    requires IsPaddedSinc(sinc)
    ensures Sum(j => At(sinc, j) * g(from + j), 3 * DECIMATION) == TripleMovingSum(g, DECIMATION, from + 1)
  {
    var inner := sinc[1..3 * DECIMATION - 1];
    var sinc2, boxcar :| IsSinc3(inner, sinc2, boxcar, DECIMATION);
    SincIsTripleMovingSum(inner, sinc2, boxcar, DECIMATION, g, from + 1);
    Unpad(sinc, g, from);
  }

  lemma Unpad(sinc: seq<nat>, g: int -> int, from: int)
    requires |sinc| >= 2 && sinc[0] == 0 && sinc[|sinc| - 1] == 0
    ensures Sum(j => At(sinc, j) * g(from + j), |sinc|)
         == Sum(n => At(sinc[1..|sinc| - 1], n) * g(from + 1 + n), |sinc| - 2)
  {
    var inner := sinc[1..|sinc| - 1];
    var weighted: int -> int := (j: int) => At(sinc, j) * g(from + j);
    SumWindow(weighted, |sinc|, 1, |inner|);
    SumExt(i => weighted(1 + i), n => At(inner, n) * g(from + 1 + n), |inner|);
    SumExt(weighted, j => At(sinc, j) * g(from + j), |sinc|);
  }

  // The coefficients add up to 128 * 128 * 128.
  lemma PaddedSincSum(sinc: seq<nat>)
    requires IsPaddedSinc(sinc)
    ensures Total(sinc) == SINC_SUM
  {
    var one: int -> int := i => 1;
    ConstantSum(one);
    PaddedSincIsTripleMovingSum(sinc, one, 0);
    FlatWeights(sinc, one, 0);
  }

  lemma ConstantSum(one: int -> int)
    requires forall i :: one(i) == 1
    ensures TripleMovingSum(one, DECIMATION, 1) == SINC_SUM
  {
    TripleMovingSumBounds(one, DECIMATION, 1, 1, 1);
  }

  lemma TripleMovingSumBounds(g: int -> int, width: nat, from: int, lo: int, hi: int)
    requires forall i :: lo <= g(i) <= hi
    ensures lo * width * width * width <= TripleMovingSum(g, width, from) <= hi * width * width * width
  {
    var plain := a => Sum(b => Sum(c => g(from + a + b + c), width), width);
    forall a | 0 <= a < width
      ensures lo * width * width <= plain(a) <= hi * width * width
    {
      TwiceBounds(g, width, from, a, lo, hi);
    }
    SumBounds(plain, lo * width * width, hi * width * width, width);
    SumExt(plain, a => Sum(b => Sum(c => g(from + a + b + c), width), width), width);
  }

  lemma TwiceBounds(g: int -> int, width: nat, from: int, a: int, lo: int, hi: int)
    requires forall i :: lo <= g(i) <= hi
    ensures lo * width * width <= Twice(g, width, from, a) <= hi * width * width
  {
    var inner := b => Sum(c => g(from + a + b + c), width);
    forall b | 0 <= b < width ensures lo * width <= inner(b) <= hi * width {
      SumBounds(c => g(from + a + b + c), lo, hi, width);
    }
    SumBounds(inner, lo * width, hi * width, width);
    SumExt(inner, b => Sum(c => g(from + a + b + c), width), width);
  }

  // Whatever the bitstream, the centred value is at most half of the
  // coefficients' sum away from zero.
  lemma CentredBounds(stream: seq<byte>, k: int)
    ensures -SUB_CONST <= Centred(stream, k) <= SUB_CONST
  {
    TripleMovingSumBounds(i => Signal(stream, i), DECIMATION, DECIMATION * (k - 2) + 1, 0, 1);
  }

  // The high-pass keeps its output within `bound` of its input: floor shifts
  // lose nothing against a whole bound.
  lemma PassKeepsBounds(p: Passes, z: int, hpAlfa: int, lpAlfa: int, bound: int)
    requires 0 <= hpAlfa <= 256 && 0 <= lpAlfa <= 256
    requires -bound <= z <= bound && -bound <= p.oldOut - p.oldIn <= bound
    requires -2 * bound <= p.oldZ <= 2 * bound
    ensures var q := Pass(p, z, hpAlfa, lpAlfa);
            && q.oldIn == z && -bound <= q.oldOut - z <= bound
            && -2 * bound <= q.oldZ <= 2 * bound
  {
    var e := p.oldOut - p.oldIn;
    var q := Pass(p, z, hpAlfa, lpAlfa);
    // 256 * (out - z) = alfa * e - (256 - alfa) * z, rounded down.
    WeightedMean(hpAlfa, e, -z, bound);
    assert hpAlfa * (p.oldOut + z - p.oldIn) == 256 * z + (hpAlfa * e + (256 - hpAlfa) * (-z));
    assert -bound <= q.oldOut - z <= bound;
    WeightedMean(lpAlfa, q.oldOut, p.oldZ, 2 * bound);
  }

  lemma WeightedMean(alfa: int, x: int, y: int, bound: int)
    requires 0 <= alfa <= 256 && -bound <= x <= bound && -bound <= y <= bound
    ensures -256 * bound <= alfa * x + (256 - alfa) * y <= 256 * bound
  {
    Scaled(alfa, x, bound);
    Scaled(256 - alfa, y, bound);
    assert alfa * bound + (256 - alfa) * bound == 256 * bound;
  }

  lemma Scaled(a: int, x: int, bound: int)
    requires 0 <= a && -bound <= x <= bound
    ensures -(a * bound) <= a * x <= a * bound
  {
    assert a * (bound - x) >= 0 && a * (x + bound) >= 0;
  }

  ghost predicate WithinBounds(p: Passes, bound: int)
  {
    && -bound <= p.oldIn <= bound
    && -bound <= p.oldOut - p.oldIn <= bound
    && -2 * bound <= p.oldZ <= 2 * bound
  }

  // In every state of every run the high-pass output is within 2^20 of its
  // input, so it and the low-pass output are within 2^21 of zero.
  lemma {:induction false} PassesBounds(stream: seq<byte>, count: nat, hpAlfa: int, lpAlfa: int)
    requires 0 <= hpAlfa <= 256 && 0 <= lpAlfa <= 256
    ensures WithinBounds(PassesAfter(stream, count, hpAlfa, lpAlfa), SUB_CONST)
  {
    if count > 0 {
      PassesBounds(stream, count - 1, hpAlfa, lpAlfa);
      CentredBounds(stream, count - 1);
      var before := PassesAfter(stream, count - 1, hpAlfa, lpAlfa);
      StaysWithinBounds(before, Centred(stream, count - 1), hpAlfa, lpAlfa, SUB_CONST);
    }
  }

  lemma StaysWithinBounds(p: Passes, z: int, hpAlfa: int, lpAlfa: int, bound: int)
    requires 0 <= hpAlfa <= 256 && 0 <= lpAlfa <= 256
    requires -bound <= z <= bound && WithinBounds(p, bound)
    ensures WithinBounds(Pass(p, z, hpAlfa, lpAlfa), bound)
  {
    PassKeepsBounds(p, z, hpAlfa, lpAlfa, bound);
  }

  // All that one step computes on its way, in the order of its operations, up to the
  // sum that is divided for the output.
  ghost function Intermediates(p: Passes, z: int, hpAlfa: int, lpAlfa: int): seq<int>
  {
    var q := Pass(p, z, hpAlfa, lpAlfa);
    [p.oldOut + z, p.oldOut + z - p.oldIn, hpAlfa * (p.oldOut + z - p.oldIn), q.oldOut,
     256 - lpAlfa, (256 - lpAlfa) * p.oldZ, lpAlfa * q.oldOut, (256 - lpAlfa) * p.oldZ + lpAlfa * q.oldOut,
     q.oldZ * VOLUME, q.oldZ * VOLUME + DIV_CONST / 2, q.oldZ * VOLUME - DIV_CONST / 2]
  }

  // In every run they even fit a 32-bit integer: nothing is lost in 64 bits.
  lemma IntermediatesFit(stream: seq<byte>, count: nat, hpAlfa: int, lpAlfa: int)
    requires 0 <= hpAlfa <= 256 && 0 <= lpAlfa <= 256
    ensures var p := PassesAfter(stream, count, hpAlfa, lpAlfa);
            forall x :: x in Intermediates(p, Centred(stream, count), hpAlfa, lpAlfa) ==>
              -0x8000_0000 <= x < 0x8000_0000
  {
    PassesBounds(stream, count, hpAlfa, lpAlfa);
    CentredBounds(stream, count);
    StepFits(PassesAfter(stream, count, hpAlfa, lpAlfa), Centred(stream, count), hpAlfa, lpAlfa);
  }

  lemma StepFits(p: Passes, z: int, hpAlfa: int, lpAlfa: int)
    requires 0 <= hpAlfa <= 256 && 0 <= lpAlfa <= 256
    requires -SUB_CONST <= z <= SUB_CONST && WithinBounds(p, SUB_CONST)
    ensures forall x :: x in Intermediates(p, z, hpAlfa, lpAlfa) ==> -0x8000_0000 <= x < 0x8000_0000
  {
    StaysWithinBounds(p, z, hpAlfa, lpAlfa, SUB_CONST);
    var q := Pass(p, z, hpAlfa, lpAlfa);
    AtMost256(hpAlfa, p.oldOut + z - p.oldIn, SINC_SUM);
    AtMost256(256 - lpAlfa, p.oldZ, SINC_SUM);
    AtMost256(lpAlfa, q.oldOut, SINC_SUM);
    hide Pass;
  }

  lemma AtMost256(a: int, x: int, bound: int)
    requires 0 <= a <= 256 && -bound <= x <= bound
    ensures -256 * bound <= a * x <= 256 * bound
  {
    Scaled(a, x, bound);
    Scaled(bound, a, 256);
  }

  // ---- What the passes compute ----

  // The weight of value k among the first `count` of a filter of first order that adds w
  // of the new value to r of the last output, in 256ths. Times 256^count, to be whole.
  ghost function Weight(w: int, r: int, count: nat, k: int): int
  {
    if 0 <= k < count then w * (Pow(r, count - 1 - k) * Pow(256, k)) else 0
  }

  // What that filter gives after the first `count` values of f, if nothing is rounded.
  // Times 256^count.
  ghost function Weighted(f: int -> int, w: int, r: int, count: nat): int
  {
    Sum(k => Weight(w, r, count, k) * f(k), count)
  }

  lemma WeightedNext(f: int -> int, w: int, r: int, count: nat)
    ensures Weighted(f, w, r, count + 1) == r * Weighted(f, w, r, count) + Pow(256, count) * (w * f(count))
  {
    var before := k => Weight(w, r, count, k) * f(k);
    var after := k => Weight(w, r, count + 1, k) * f(k);
    SumNext(after, count);
    SumScale(r, before, count);
    forall k | 0 <= k < count ensures after(k) == r * before(k) {
      WeightNext(w, r, count, k);
      Regrouped(r, Weight(w, r, count, k), f(k));
    }
    SumExt(after, k => r * before(k), count);
    SumExt(before, k => Weight(w, r, count, k) * f(k), count);
    SumExt(after, k => Weight(w, r, count + 1, k) * f(k), count + 1);
    LastWeight(w, r, count, f(count));
  }

  lemma WeightNext(w: int, r: int, count: nat, k: int)
    requires 0 <= k < count
    ensures Weight(w, r, count + 1, k) == r * Weight(w, r, count, k)
  {
    var p, q := Pow(r, count - 1 - k), Pow(256, k);
    assert Pow(r, count - k) == r * p;
    Regrouped(r, p, q);
    Regrouped(w, r, p * q);
    Regrouped(r, w, p * q);
  }

  lemma LastWeight(w: int, r: int, count: nat, x: int)
    ensures Weight(w, r, count + 1, count) * x == Pow(256, count) * (w * x)
  {
    var q := Pow(256, count);
    assert Pow(r, 0) == 1;
    Regrouped(w, q, x);
    Regrouped(q, w, x);
  }

  lemma Regrouped(a: int, b: int, c: int)
    ensures (a * b) * c == a * (b * c) && (a * b) * c == (b * a) * c
  {
  }

  // An output is below what it would be without rounding, and by less than 256 / (256 - r)
  // units.
  ghost predicate JustBelow(exact: int, out: int, r: int, count: nat)
  {
    var scale := Pow(256, count);
    0 <= exact - scale * out && (256 - r) * (exact - scale * out) < 256 * scale
  }

  // A floor loses less than one unit, and of what was lost before r / 256 is left.
  lemma FloorStaysBelow(exact: int, out: int, r: int, count: nat, x: int)
    requires 0 <= r < 256 && JustBelow(exact, out, r, count)
    ensures JustBelow(r * exact + Pow(256, count) * x, (r * out + x) / 256, r, count + 1)
  {
    var scale := Pow(256, count);
    var next, lost := (r * out + x) / 256, (r * out + x) % 256;
    PowIsPositive(256, count);
    assert r * out + x == 256 * next + lost;
    NewError(exact, out, r, scale, x, next, lost);
    ErrorStaysSmall(exact - scale * out, r, scale, lost);
  }

  lemma NewError(exact: int, out: int, r: int, scale: int, x: int, next: int, lost: int)
    requires r * out + x == 256 * next + lost
    ensures (r * exact + scale * x) - (256 * scale) * next == r * (exact - scale * out) + scale * lost
  {
    assert scale * (r * out + x) == scale * (256 * next + lost);
  }

  lemma ErrorStaysSmall(error: int, r: int, scale: int, lost: int)
    requires 0 <= r < 256 && 0 < scale && 0 <= lost < 256
    requires 0 <= error && (256 - r) * error < 256 * scale
    ensures 0 <= r * error + scale * lost && (256 - r) * (r * error + scale * lost) < 256 * (256 * scale)
  {
    var d := 256 - r;
    SpreadError(d, r, error, scale, lost);
    AtMost(r, d * error, 256 * scale);
    assert 0 <= r * error && 0 <= scale * lost && 0 < d * scale;
    AtMost(d * scale, lost, 255);
    WholeScale(d, r, scale);
  }

  lemma SpreadError(d: int, r: int, error: int, scale: int, lost: int)
    ensures d * (r * error + scale * lost) == r * (d * error) + (d * scale) * lost
  {
  }

  lemma AtMost(a: int, x: int, y: int)
    requires 0 <= a && x <= y
    ensures a * x <= a * y
  {
  }

  lemma WholeScale(d: int, r: int, scale: int)
    requires d + r == 256
    ensures r * (256 * scale) + (d * scale) * 256 == 256 * (256 * scale)
  {
  }

  // In every run the high-pass output is the weighted sum of all changes of the centred
  // value so far, each one's share falling by hpAlfa / 256 with every sample.
  lemma {:induction false} HighPassIsWeighted(stream: seq<byte>, count: nat, hpAlfa: int, lpAlfa: int)
    requires 0 <= hpAlfa < 256
    ensures JustBelow(Weighted(Changes(stream), hpAlfa, hpAlfa, count),
                      PassesAfter(stream, count, hpAlfa, lpAlfa).oldOut, hpAlfa, count)
  {
    hide Weighted, JustBelow, Change, Changes, PassesAfter;
    var change := Changes(stream);
    if count == 0 {
      NothingWeighted(change, hpAlfa, hpAlfa);
      NothingPassed(stream, hpAlfa, lpAlfa);
    } else {
      var before := PassesAfter(stream, count - 1, hpAlfa, lpAlfa);
      var latest := Change(stream, count - 1);
      HighPassIsWeighted(stream, count - 1, hpAlfa, lpAlfa);
      HighPassStep(stream, count - 1, hpAlfa, lpAlfa);
      WeightedNext(change, hpAlfa, hpAlfa, count - 1);
      FloorStaysBelow(Weighted(change, hpAlfa, hpAlfa, count - 1), before.oldOut, hpAlfa, count - 1, hpAlfa * latest);
    }
  }

  lemma NothingPassed(stream: seq<byte>, hpAlfa: int, lpAlfa: int)
    ensures PassesAfter(stream, 0, hpAlfa, lpAlfa) == Passes(0, 0, 0)
  {
  }

  // By how much the centred value changes at sample k, from 0 at first.
  ghost function Change(stream: seq<byte>, k: int): int
  {
    Centred(stream, k) - if k == 0 then 0 else Centred(stream, k - 1)
  }

  ghost function Changes(stream: seq<byte>): (change: int -> int)
    ensures forall k :: change(k) == Change(stream, k)
  {
    k => Change(stream, k)
  }

  lemma HighPassStep(stream: seq<byte>, k: nat, hpAlfa: int, lpAlfa: int)
    ensures PassesAfter(stream, k + 1, hpAlfa, lpAlfa).oldOut
         == (hpAlfa * PassesAfter(stream, k, hpAlfa, lpAlfa).oldOut + hpAlfa * Change(stream, k)) / 256
  {
    hide Centred;
    var before := PassesAfter(stream, k, hpAlfa, lpAlfa);
    LastCentred(stream, k, hpAlfa, lpAlfa);
    Spread(hpAlfa, before.oldOut, Change(stream, k), before.oldOut + Centred(stream, k) - before.oldIn);
  }

  lemma Spread(a: int, x: int, y: int, sum: int)
    requires sum == x + y
    ensures a * sum == a * x + a * y
  {
  }

  lemma LastCentred(stream: seq<byte>, count: nat, hpAlfa: int, lpAlfa: int)
    ensures PassesAfter(stream, count, hpAlfa, lpAlfa).oldIn == if count == 0 then 0 else Centred(stream, count - 1)
  {
  }

  lemma NothingWeighted(f: int -> int, w: int, r: int)
    ensures JustBelow(Weighted(f, w, r, 0), 0, r, 0)
  {
    SumNone(k => Weight(w, r, 0, k) * f(k));
  }

  // The high-pass output for sample k.
  ghost function HighOut(stream: seq<byte>, k: int, hpAlfa: int, lpAlfa: int): int
  {
    if k < 0 then 0 else PassesAfter(stream, k + 1, hpAlfa, lpAlfa).oldOut
  }

  ghost function HighOuts(stream: seq<byte>, hpAlfa: int, lpAlfa: int): (high: int -> int)
    ensures forall k :: high(k) == HighOut(stream, k, hpAlfa, lpAlfa)
  {
    k => HighOut(stream, k, hpAlfa, lpAlfa)
  }

  // The low-pass output is the weighted sum of the high-pass outputs so far, with lpAlfa of
  // each, and its share falling by the rest with every sample.
  lemma {:induction false} LowPassIsWeighted(stream: seq<byte>, count: nat, hpAlfa: int, lpAlfa: int)
    requires 0 < lpAlfa <= 256
    ensures JustBelow(Weighted(HighOuts(stream, hpAlfa, lpAlfa), lpAlfa, 256 - lpAlfa, count),
                      PassesAfter(stream, count, hpAlfa, lpAlfa).oldZ, 256 - lpAlfa, count)
  {
    hide Weighted, JustBelow, HighOut, HighOuts, PassesAfter;
    var high := HighOuts(stream, hpAlfa, lpAlfa);
    if count == 0 {
      NothingWeighted(high, lpAlfa, 256 - lpAlfa);
      NothingPassed(stream, hpAlfa, lpAlfa);
    } else {
      var before := PassesAfter(stream, count - 1, hpAlfa, lpAlfa);
      LowPassIsWeighted(stream, count - 1, hpAlfa, lpAlfa);
      LowPassStep(stream, count - 1, hpAlfa, lpAlfa);
      WeightedNext(high, lpAlfa, 256 - lpAlfa, count - 1);
      var exact := Weighted(high, lpAlfa, 256 - lpAlfa, count - 1);
      FloorStaysBelow(exact, before.oldZ, 256 - lpAlfa, count - 1, lpAlfa * high(count - 1));
    }
  }

  lemma LowPassStep(stream: seq<byte>, k: nat, hpAlfa: int, lpAlfa: int)
    ensures var before := PassesAfter(stream, k, hpAlfa, lpAlfa);
            PassesAfter(stream, k + 1, hpAlfa, lpAlfa).oldZ
            == ((256 - lpAlfa) * before.oldZ + lpAlfa * HighOut(stream, k, hpAlfa, lpAlfa)) / 256
  {
    hide Centred;
  }

  // The gain is 1/8, rounded to the nearest, and beyond the limits the nearest limit.
  lemma GainIsRounded(stream: seq<byte>, k: nat, hpAlfa: int, lpAlfa: int)
    ensures var z, pcm := PassesAfter(stream, k + 1, hpAlfa, lpAlfa).oldZ, Pcm(stream, k, hpAlfa, lpAlfa);
            if z > 8 * 32700 + 4 then pcm == 32700
            else if z < -8 * 32700 - 4 then pcm == -32700
            else -4 <= 8 * pcm - z <= 4
  {
    hide PassesAfter;
    RoundDivIsNearest(PassesAfter(stream, k + 1, hpAlfa, lpAlfa).oldZ * VOLUME, DIV_CONST);
  }

  // Every sample of every bitstream: the centred triple moving sum, without its mean and
  // smoothed, to within the floors' error, with a gain of 1/8 and clipped.
  lemma SampleIsFiltered(stream: seq<byte>, k: nat, hpAlfa: int, lpAlfa: int) returns (low: int)
    requires 0 <= hpAlfa < 256 && 0 < lpAlfa <= 256
    ensures var exact := Weighted(Changes(stream), hpAlfa, hpAlfa, k + 1);
            JustBelow(exact, HighOut(stream, k, hpAlfa, lpAlfa), hpAlfa, k + 1)
    ensures var exact := Weighted(HighOuts(stream, hpAlfa, lpAlfa), lpAlfa, 256 - lpAlfa, k + 1);
            JustBelow(exact, low, 256 - lpAlfa, k + 1)
    ensures var pcm := Pcm(stream, k, hpAlfa, lpAlfa);
            if low > 8 * 32700 + 4 then pcm == 32700
            else if low < -8 * 32700 - 4 then pcm == -32700
            else -4 <= 8 * pcm - low <= 4
  {
    low := PassesAfter(stream, k + 1, hpAlfa, lpAlfa).oldZ;
    HighPassIsWeighted(stream, k + 1, hpAlfa, lpAlfa);
    LowPassIsWeighted(stream, k + 1, hpAlfa, lpAlfa);
    GainIsRounded(stream, k, hpAlfa, lpAlfa);
    hide JustBelow, Weighted, PassesAfter, Pcm;
  }

  // ---- The bounds are attained ----

  // A bitstream of `blocks` blocks of ones.
  ghost function Ones(blocks: nat): (stream: seq<byte>)
    ensures |stream| == BYTES_PER_SAMPLE * blocks
  {
    seq(BYTES_PER_SAMPLE * blocks, i => 255)
  }

  lemma CentredOnes(blocks: nat, k: nat)
    requires 2 <= k < blocks
    ensures Centred(Ones(blocks), k) == SUB_CONST
  {
    var one: int -> int := i => 1;
    var from := DECIMATION * (k - 2) + 1;
    forall i | from <= i < from + 3 * DECIMATION - 2 ensures Signal(Ones(blocks), i) == one(i) {
      AllOnes(Ones(blocks)[i / 8], i % 8);
    }
    TripleMovingSumExt(i => Signal(Ones(blocks), i), one, DECIMATION, from);
    TripleMovingSumBounds(one, DECIMATION, from, 1, 1);
  }

  lemma AllOnes(b: byte, i: int)
    requires b == 255 && 0 <= i < 8
    ensures Bit(b, i) == 1
  {
  }

  lemma OnesPrefix(blocks: nat, hpAlfa: int, lpAlfa: int)
    ensures PassesAfter(Ones(blocks + 1), blocks, hpAlfa, lpAlfa) == PassesAfter(Ones(blocks), blocks, hpAlfa, lpAlfa)
  {
    var more := seq(BYTES_PER_SAMPLE, i => 255);
    assert Ones(blocks + 1) == Ones(blocks) + more;
    PassesPrefix(Ones(blocks), more, blocks, hpAlfa, lpAlfa);
  }

  // Under a constant input the high-pass output decays to zero, which is the
  // whole bound away from the input: no smaller bound holds for every bitstream.
  lemma {:induction false} HighPassBoundIsAttained(blocks: nat, hpAlfa: int, lpAlfa: int) returns (last: nat)
    requires blocks >= 3 && 0 <= hpAlfa < 256 && 0 <= lpAlfa <= 256
    ensures last >= 3
    ensures var p := PassesAfter(Ones(last), last, hpAlfa, lpAlfa);
            p.oldIn == SUB_CONST && p.oldOut - p.oldIn == -SUB_CONST
    decreases PassesAfter(Ones(blocks), blocks, hpAlfa, lpAlfa).oldOut
  {
    var p := PassesAfter(Ones(blocks), blocks, hpAlfa, lpAlfa);
    PassesBounds(Ones(blocks), blocks, hpAlfa, lpAlfa);
    CentredOnes(blocks, blocks - 1);
    if p.oldOut == 0 {
      last := blocks;
    } else {
      OnesPrefix(blocks, hpAlfa, lpAlfa);
      CentredOnes(blocks + 1, blocks);
      Decays(hpAlfa, p.oldOut);
      last := HighPassBoundIsAttained(blocks + 1, hpAlfa, lpAlfa);
    }
  }

  lemma Decays(alfa: int, out: int)
    requires 0 <= alfa < 256 && out > 0
    ensures 0 <= alfa * out / 256 < out
  {
    assert (255 - alfa) * out >= 0 && alfa * out >= 0;
  }

  // ---- The decimator's parts ----

  // What `count` samples of the bitstream from `from` on contribute through
  // part s of the coefficients.
  ghost function Share(sinc: seq<nat>, stream: seq<byte>, from: int, s: int, count: nat): int
  {
    Sum(j => Signal(stream, from + j) * At(sinc, DECIMATION * s + j), count)
  }

  // The whole share of block k through part s.
  ghost function Part(sinc: seq<nat>, stream: seq<byte>, k: int, s: int): int
  {
    Share(sinc, stream, DECIMATION * k, s, DECIMATION)
  }

  // Three parts of three consecutive blocks make one centred value.
  lemma PartsMakeCentred(sinc: seq<nat>, stream: seq<byte>, k: int)
    requires IsPaddedSinc(sinc)
    ensures Part(sinc, stream, k - 2, 0) + Part(sinc, stream, k - 1, 1) + Part(sinc, stream, k, 2) - SUB_CONST
         == Centred(stream, k)
  {
    PartsSum(sinc, stream, k, DECIMATION * (k - 2));
    WeightedSignal(sinc, stream, DECIMATION * (k - 2));
  }

  lemma CarriedPartsMakeCentred(sinc: seq<nat>, stream: seq<byte>, k: int, carried: int, last: int)
    requires IsPaddedSinc(sinc)
    requires carried == Part(sinc, stream, k - 2, 0) + Part(sinc, stream, k - 1, 1)
    requires last == Part(sinc, stream, k, 2)
    ensures carried + last - SUB_CONST == Centred(stream, k)
  {
    PartsMakeCentred(sinc, stream, k);
  }

  lemma WeightedSignal(sinc: seq<nat>, stream: seq<byte>, from: int)
    requires IsPaddedSinc(sinc)
    ensures Sum(j => At(sinc, j) * Signal(stream, from + j), 3 * DECIMATION)
         == TripleMovingSum(i => Signal(stream, i), DECIMATION, from + 1)
  {
    var signal: int -> int := i => Signal(stream, i);
    PaddedSincIsTripleMovingSum(sinc, signal, from);
    SumExt(j => At(sinc, j) * signal(from + j), j => At(sinc, j) * Signal(stream, from + j), 3 * DECIMATION);
  }

  lemma PartsSum(sinc: seq<nat>, stream: seq<byte>, k: int, from: int)
    requires from == DECIMATION * (k - 2)
    ensures Part(sinc, stream, k - 2, 0) + Part(sinc, stream, k - 1, 1) + Part(sinc, stream, k, 2)
         == Sum(j => At(sinc, j) * Signal(stream, from + j), 3 * DECIMATION)
  {
    hide Signal, At, Part;
    var weighted := j => At(sinc, j) * Signal(stream, from + j);
    SumThirds(weighted, DECIMATION);
    PartOfWeighted(sinc, stream, weighted, k - 2, 0, from);
    PartOfWeighted(sinc, stream, weighted, k - 1, 1, from);
    PartOfWeighted(sinc, stream, weighted, k, 2, from);
    SumExt(weighted, i => weighted(0 * DECIMATION + i), DECIMATION);
    SumExt(i => weighted(DECIMATION + i), i => weighted(1 * DECIMATION + i), DECIMATION);
  }

  lemma PartOfWeighted(sinc: seq<nat>, stream: seq<byte>, weighted: int -> int, k: int, s: int, from: int)
    requires forall j :: weighted(j) == At(sinc, j) * Signal(stream, from + j)
    requires from + DECIMATION * s == DECIMATION * k
    ensures Part(sinc, stream, k, s) == Sum(i => weighted(s * DECIMATION + i), DECIMATION)
  {
    hide Signal, At;
    SumExt(i => weighted(s * DECIMATION + i),
           j => Signal(stream, DECIMATION * k + j) * At(sinc, DECIMATION * s + j), DECIMATION);
  }

  // No share exceeds the coefficients' sum, so the u32 sums do not overflow.
  lemma ShareBounds(sinc: seq<nat>, stream: seq<byte>, from: int, s: int, count: nat)
    requires IsPaddedSinc(sinc) && 0 <= s < 3 && count <= DECIMATION
    ensures 0 <= Share(sinc, stream, from, s, count) <= SINC_SUM
  {
    PaddedSincSum(sinc);
    var all: int -> int := (j: int) => At(sinc, j) as int;
    SumExt(j => At(sinc, j), all, |sinc|);
    var share := j => Signal(stream, from + j) * At(sinc, DECIMATION * s + j);
    SumExt(j => Signal(stream, from + j) * At(sinc, DECIMATION * s + j), share, count);
    forall j | 0 <= j < count ensures 0 <= share(j) <= all(DECIMATION * s + j) {
      assert Signal(stream, from + j) == 0 || Signal(stream, from + j) == 1;
    }
    SumLe(j => 0, share, count);
    SumConst(j => 0, 0, count);
    SumLe(share, j => all(DECIMATION * s + j), count);
    WindowLe(all, |sinc|, DECIMATION * s, count);
  }

  // A window of a sum of natural numbers is at most the sum.
  lemma WindowLe(f: int -> int, n: nat, k: nat, m: nat)
    requires k + m <= n && forall i :: f(i) >= 0
    ensures Sum(j => f(k + j), m) <= Sum(f, n)
  {
    var inside := i => if k <= i < k + m then f(i) else 0;
    SumWindow(inside, n, k, m);
    SumExt(i => inside(k + i), j => f(k + j), m);
    SumLe(inside, f, n);
  }

  // ---- The look-up table ----

  // The bit at position `bit` of a nibble, the most significant first.
  function NibbleBit(n: int, bit: int): nat
    requires 0 <= n < 16 && 0 <= bit < 4
  {
    (n / [8, 4, 2, 1][bit]) % 2
  }

  // The table's entry for nibble value n at nibble position p and part s.
  function Entry(sinc: seq<nat>, p: nat, n: nat, s: nat): nat
    requires n < 16 && s < 3 && p < NIBBLES && |sinc| == 3 * DECIMATION
  {
    var at := s * DECIMATION + p * 4;
    NibbleBit(n, 0) * sinc[at] + NibbleBit(n, 1) * sinc[at + 1]
    + NibbleBit(n, 2) * sinc[at + 2] + NibbleBit(n, 3) * sinc[at + 3]
  }

  lemma NibblesOfByte(b: byte)
    ensures forall i :: 0 <= i < 4 ==> Bit(b, i) == NibbleBit(b / 16, i)
    ensures forall i :: 0 <= i < 4 ==> Bit(b, 4 + i) == NibbleBit(b % 16, i)
  {
    HighNibble(b);
    LowNibble(b / 16, b % 16);
  }

  lemma HighNibble(b: byte)
    ensures b / 16 / 8 == b / 128 && b / 16 / 4 == b / 64 && b / 16 / 2 == b / 32
  {
  }

  lemma LowNibble(hi: int, lo: int)
    requires 0 <= lo < 16
    ensures ((16 * hi + lo) / 8) % 2 == (lo / 8) % 2
    ensures ((16 * hi + lo) / 4) % 2 == (lo / 4) % 2
    ensures ((16 * hi + lo) / 2) % 2 == (lo / 2) % 2
    ensures (16 * hi + lo) % 2 == lo % 2
  {
    var eighths, quarters, halves := lo / 8, lo / 4, lo / 2;
    Quotient(16 * hi + lo, 8, 2 * hi + eighths, lo - 8 * eighths);
    Quotient(16 * hi + lo, 4, 4 * hi + quarters, lo - 4 * quarters);
    Quotient(16 * hi + lo, 2, 8 * hi + halves, lo - 2 * halves);
    EvenMore(hi, eighths);
    EvenMore(2 * hi, quarters);
    EvenMore(4 * hi, halves);
    EvenMore(8 * hi, lo);
  }

  lemma Quotient(n: int, d: int, q: int, r: int)
    requires d in {2, 4, 8} && n == d * q + r && 0 <= r < d
    ensures n / d == q
  {
  }

  lemma EvenMore(half: int, n: int)
    ensures (2 * half + n) % 2 == n % 2
  {
  }

  // The four samples of the bitstream from `at` on are nibble n.
  ghost predicate NibbleAt(stream: seq<byte>, at: int, n: nat)
    requires n < 16
  {
    && Signal(stream, at) == NibbleBit(n, 0) && Signal(stream, at + 1) == NibbleBit(n, 1)
    && Signal(stream, at + 2) == NibbleBit(n, 2) && Signal(stream, at + 3) == NibbleBit(n, 3)
  }

  // Four samples more: one entry of the table.
  lemma NibbleShare(sinc: seq<nat>, stream: seq<byte>, from: int, s: nat, p: nat, n: nat)
    requires |sinc| == 3 * DECIMATION && s < 3 && p < NIBBLES && n < 16
    requires NibbleAt(stream, from + 4 * p, n)
    ensures Share(sinc, stream, from, s, 4 * p + 4) == Share(sinc, stream, from, s, 4 * p) + Entry(sinc, p, n, s)
  {
    hide Signal, NibbleBit;
    var share: int -> int := (j: int) => Signal(stream, from + j) * At(sinc, DECIMATION * s + j);
    var at := s * DECIMATION + p * 4;
    SumFourMore(share, 4 * p);
    assert At(sinc, DECIMATION * s + 4 * p) == sinc[at];
    assert At(sinc, DECIMATION * s + (4 * p + 1)) == sinc[at + 1];
    assert At(sinc, DECIMATION * s + (4 * p + 2)) == sinc[at + 2];
    assert At(sinc, DECIMATION * s + (4 * p + 3)) == sinc[at + 3];
    assert Signal(stream, from + 4 * p) == NibbleBit(n, 0);
    assert Signal(stream, from + (4 * p + 1)) == NibbleBit(n, 1);
    assert Signal(stream, from + (4 * p + 2)) == NibbleBit(n, 2);
    assert Signal(stream, from + (4 * p + 3)) == NibbleBit(n, 3);
    SumExt(share, j => Signal(stream, from + j) * At(sinc, DECIMATION * s + j), 4 * p);
    SumExt(share, j => Signal(stream, from + j) * At(sinc, DECIMATION * s + j), 4 * p + 4);
  }

  // A byte of a block holds eight samples of the bitstream, two nibbles.
  lemma NibblesAt(stream: seq<byte>, at: nat)
    requires at < |stream|
    ensures NibbleAt(stream, 8 * at, stream[at] / 16)
    ensures NibbleAt(stream, 8 * at + 4, stream[at] % 16)
  {
    NibblesOfByte(stream[at]);
    forall k | 0 <= k < 8 ensures Signal(stream, 8 * at + k) == Bit(stream[at], k) {
      assert (8 * at + k) / 8 == at && (8 * at + k) % 8 == k;
    }
    assert Signal(stream, 8 * at + 4 + 0) == Bit(stream[at], 4 + 0);
    assert Signal(stream, 8 * at + 4 + 1) == Bit(stream[at], 4 + 1);
    assert Signal(stream, 8 * at + 4 + 2) == Bit(stream[at], 4 + 2);
    assert Signal(stream, 8 * at + 4 + 3) == Bit(stream[at], 4 + 3);
    assert Signal(stream, 8 * at + 0) == Bit(stream[at], 0);
  }

  // One byte more: an entry for each of its nibbles.
  lemma ByteShare(sinc: seq<nat>, stream: seq<byte>, block: nat, i: nat, s: nat)
    requires |sinc| == 3 * DECIMATION && s < 3 && i < BYTES_PER_SAMPLE
    requires BYTES_PER_SAMPLE * block + i < |stream|
    ensures Share(sinc, stream, DECIMATION * block, s, 8 * (i + 1))
         == Share(sinc, stream, DECIMATION * block, s, 8 * i)
            + Entry(sinc, 2 * i, stream[BYTES_PER_SAMPLE * block + i] / 16, s)
            + Entry(sinc, 2 * i + 1, stream[BYTES_PER_SAMPLE * block + i] % 16, s)
  {
    hide Share, Entry, NibbleAt;
    var at := BYTES_PER_SAMPLE * block + i;
    NibblesAt(stream, at);
    assert 8 * at == DECIMATION * block + 4 * (2 * i);
    NibbleShare(sinc, stream, DECIMATION * block, s, 2 * i, stream[at] / 16);
    NibbleShare(sinc, stream, DECIMATION * block, s, 2 * i + 1, stream[at] % 16);
  }

  // ---- What has been heard settles the samples it covers ----

  lemma SignalPrefix(stream: seq<byte>, more: seq<byte>)
    ensures forall i: int :: i < 8 * |stream| ==> Signal(stream + more, i) == Signal(stream, i)
  {
  }

  lemma SharePrefix(sinc: seq<nat>, stream: seq<byte>, more: seq<byte>, from: int, s: int, count: nat)
    requires from + count <= 8 * |stream|
    ensures Share(sinc, stream + more, from, s, count) == Share(sinc, stream, from, s, count)
  {
    SignalPrefix(stream, more);
    SumExt(j => Signal(stream + more, from + j) * At(sinc, DECIMATION * s + j),
           j => Signal(stream, from + j) * At(sinc, DECIMATION * s + j), count);
  }

  lemma CentredPrefix(stream: seq<byte>, more: seq<byte>, k: int)
    requires BYTES_PER_SAMPLE * (k + 1) <= |stream|
    ensures Centred(stream + more, k) == Centred(stream, k)
  {
    SignalPrefix(stream, more);
    TripleMovingSumExt(i => Signal(stream + more, i), i => Signal(stream, i), DECIMATION, DECIMATION * (k - 2) + 1);
  }

  lemma {:induction false} PassesPrefix(stream: seq<byte>, more: seq<byte>, count: nat, hpAlfa: int, lpAlfa: int)
    requires BYTES_PER_SAMPLE * count <= |stream|
    ensures PassesAfter(stream + more, count, hpAlfa, lpAlfa) == PassesAfter(stream, count, hpAlfa, lpAlfa)
  {
    if count > 0 {
      PassesPrefix(stream, more, count - 1, hpAlfa, lpAlfa);
      CentredPrefix(stream, more, count - 1);
    }
  }

  // A PCM sample is settled by the bitstream up to it: what follows, and how the
  // bitstream is cut into calls, makes no difference.
  lemma PcmPrefix(stream: seq<byte>, more: seq<byte>, k: nat, hpAlfa: int, lpAlfa: int)
    requires BYTES_PER_SAMPLE * (k + 1) <= |stream|
    ensures Pcm(stream + more, k, hpAlfa, lpAlfa) == Pcm(stream, k, hpAlfa, lpAlfa)
  {
    PassesPrefix(stream, more, k + 1, hpAlfa, lpAlfa);
  }

  // ---- The filter ----

  // No sum of a convolution's terms overflows: all its values add up to the product of
  // the factors' sums.
  ghost predicate FitU32(s: seq<nat>, t: seq<nat>)
  {
    Total(s) * Total(t) < 0x1_0000_0000
  }

  lemma ConvAtMost(s: seq<nat>, t: seq<nat>, n: nat)
    requires s != [] && t != []
    ensures Conv(s, t, n) <= Total(s) * Total(t)
  {
    if n + 1 < |s| + |t| {
      OneOfAll(s, t, n, |s| + |t| - 1);
    } else {
      forall k | 0 <= k < |s| ensures At(s, k) * At(t, n - k) == 0 {
        assert At(t, n - k) == 0;
      }
      SumConst(k => At(s, k) * At(t, n - k), 0, |s|);
      TotalNotNegative(s);
      TotalNotNegative(t);
    }
  }

  lemma OneOfAll(s: seq<nat>, t: seq<nat>, n: nat, count: nat)
    requires s != [] && t != [] && n < count && count + 1 == |s| + |t|
    ensures Conv(s, t, n) <= Total(s) * Total(t)
  {
    var conv: int -> int := (i: int) => Conv(s, t, i);
    ConvSumLaw(s, t, count);
    SumExt(conv, i => Conv(s, t, i), count);
    forall i ensures conv(i) >= 0 { ConvNotNegative(s, t, i); }
    WindowLe(conv, count, n, 1);
    SumNone(j => conv(n + j));
    SumNext(j => conv(n + j), 0);
  }

  lemma ConvNotNegative(s: seq<nat>, t: seq<nat>, n: int)
    ensures Conv(s, t, n) >= 0
  {
    forall k ensures At(s, k) * At(t, n - k) >= 0 { TermNotNegative(s, t, k, n - k); }
    SumConst(k => 0, 0, |s|);
    SumLe(k => 0, k => At(s, k) * At(t, n - k), |s|);
  }

  lemma TotalNotNegative(s: seq<nat>)
    ensures Total(s) >= 0
  {
    SumConst(k => 0, 0, |s|);
    SumLe(k => 0, k => At(s, k), |s|);
  }

  lemma PartialSumFits(s: seq<nat>, t: seq<nat>, n: nat, kmin: nat, count: nat, product: int -> int)
    requires s != [] && t != [] && FitU32(s, t) && kmin + count <= |s|
    requires forall k :: product(k) == At(s, k) * At(t, n - k)
    ensures 0 <= Sum(i => product(kmin + i), count) < 0x1_0000_0000
  {
    ConvAtMost(s, t, n);
    SumExt(product, k => At(s, k) * At(t, n - k), |s|);
    forall k ensures product(k) >= 0 { TermNotNegative(s, t, k, n - k); }
    WindowLe(product, |s|, kmin, count);
    SumConst(i => 0, 0, count);
    SumLe(i => 0, i => product(kmin + i), count);
  }

  lemma TermNotNegative(s: seq<nat>, t: seq<nat>, i: int, j: int)
    ensures At(s, i) * At(t, j) >= 0
  {
  }

  // Neither a sum on its way nor what is added to it overflows.
  lemma TermFits(s: seq<nat>, t: seq<nat>, n: nat, kmin: nat, k: nat, product: int -> int)
    requires s != [] && t != [] && FitU32(s, t) && kmin <= k < |s| && k <= n < k + |t|
    requires forall k :: product(k) == At(s, k) * At(t, n - k)
    ensures 0 <= s[k] * t[n - k] < 0x1_0000_0000
    ensures 0 <= Sum(i => product(kmin + i), k - kmin) + s[k] * t[n - k] < 0x1_0000_0000
    ensures Sum(i => product(kmin + i), k + 1 - kmin) == Sum(i => product(kmin + i), k - kmin) + s[k] * t[n - k]
  {
    PartialSumFits(s, t, n, kmin, k - kmin, product);
    PartialSumFits(s, t, n, kmin, k + 1 - kmin, product);
    SumNext(i => product(kmin + i), k - kmin);
    assert product(kmin + (k - kmin)) == product(k) == s[k] * t[n - k];
    TermNotNegative(s, t, k, n - k);
  }

  // The n-th value of the convolution, over the indices where both have one.
  method ConvolveAt(signal: seq<u32>, kernel: seq<u32>, n: nat) returns (sum: u32)
    requires signal != [] && kernel != [] && FitU32(signal, kernel)
    ensures sum == Conv(signal, kernel, n)
  {
    var kmin := if n < |kernel| - 1 then 0 else n - (|kernel| - 1);
    var kmax := if n < |signal| - 1 then n else |signal| - 1;
    ghost var product: int -> int := (k: int) => At(signal, k) * At(kernel, n - k);
    hide FitU32, At, Conv;
    sum := 0;
    var k := kmin;
    SumNone(i => product(kmin + i));
    while k <= kmax
      invariant kmin <= k && (k <= kmax + 1 || k == kmin)
      invariant sum == Sum(i => product(kmin + i), k - kmin)
    {
      TermFits(signal, kernel, n, kmin, k, product);
      var term: u32 := signal[k] * kernel[n - k];
      sum := sum + term;
      k := k + 1;
    }
    ConvWindow(signal, kernel, n, kmin, k - kmin, product);
  }

  // Writes `signal` convolved with `kernel` to the `len` values of `result` from
  // `start` on.
  method Convolve(signal: seq<u32>, kernel: seq<u32>, result: array<u32>, start: nat, len: nat)
    requires signal != [] && kernel != [] && FitU32(signal, kernel) && start + len <= result.Length
    modifies result
    ensures forall i :: start <= i < start + len ==> result[i] == Conv(signal, kernel, i - start)
    ensures forall i :: 0 <= i < result.Length && !(start <= i < start + len) ==> result[i] == old(result[i])
  {
    for n := 0 to len
      invariant forall i :: start <= i < start + n ==> result[i] == Conv(signal, kernel, i - start)
      invariant forall i :: 0 <= i < result.Length && !(start <= i < start + n) ==> result[i] == old(result[i])
    {
      var sum := ConvolveAt(signal, kernel, n);
      result[start + n] := sum;
    }
  }

  // The terms outside the loop's range are zero.
  lemma ConvWindow(signal: seq<nat>, kernel: seq<nat>, n: nat, kmin: nat, count: nat, product: int -> int)
    requires forall k :: product(k) == At(signal, k) * At(kernel, n - k)
    requires kmin == if n < |kernel| - 1 then 0 else n - (|kernel| - 1)
    requires count > 0 ==> kmin + count - 1 == if n < |signal| - 1 then n else |signal| - 1
    requires count == 0 ==> kmin > if n < |signal| - 1 then n else |signal| - 1
    requires signal != [] && kernel != []
    ensures Sum(i => product(kmin + i), count) == Conv(signal, kernel, n)
  {
    SumExt(product, k => At(signal, k) * At(kernel, n - k), |signal|);
    forall k | 0 <= k < |signal| && !(kmin <= k < kmin + count) ensures product(k) == 0 {
      assert At(kernel, n - k) == 0;
    }
    if count == 0 {
      SumConst(product, 0, |signal|);
      SumNone(i => product(kmin + i));
    } else {
      SumWindow(product, |signal|, kmin, count);
    }
  }

  class Filter {
    // At [p, n, s]: what nibble n adds to part s of the sum from position p.
    const lut: array3<u32>
    const lpAlfa: int
    const hpAlfa: int
    var coef0: i64
    var coef1: i64
    var oldOut: i64
    var oldIn: i64
    var oldZ: i64
    // The coefficients the table was made from, and the bitstream since the
    // last reset.
    ghost const sinc: seq<nat>
    ghost var heard: seq<byte>
    ghost var blocks: nat

    ghost predicate TableOk()
      reads lut
    {
      && IsPaddedSinc(sinc) && 0 <= hpAlfa <= 254 && 0 <= lpAlfa <= 256
      && lut.Length0 == NIBBLES && lut.Length1 == 16 && lut.Length2 == 3
      && forall p, n, s :: 0 <= p < NIBBLES && 0 <= n < 16 && 0 <= s < 3 ==> lut[p, n, s] == Entry(sinc, p, n, s)
    }

    // The fields after the first `blocks` blocks of `stream`.
    ghost predicate StateAfter(stream: seq<byte>, blocks: nat)
      reads this
    {
      && coef0 == Part(sinc, stream, blocks - 1, 0)
      && coef1 == Part(sinc, stream, blocks - 2, 0) + Part(sinc, stream, blocks - 1, 1)
      && Passes(oldOut, oldIn, oldZ) == PassesAfter(stream, blocks, hpAlfa, lpAlfa)
    }

    ghost predicate Valid()
      reads this, lut
    {
      TableOk() && |heard| == BYTES_PER_SAMPLE * blocks && StateAfter(heard, blocks)
    }

    // lpAlfa and hpAlfa are computed in floating point; here they are given.
    constructor (lpAlfa: int, hpAlfa: int)
      requires 0 <= hpAlfa <= 254 && 0 <= lpAlfa <= 256
      ensures Valid() && fresh(lut) && heard == []
      ensures this.lpAlfa == lpAlfa && this.hpAlfa == hpAlfa
    {
      var coefficients := SincCoefficients();
      var table := BuildTable(coefficients);
      this.lut := table;
      this.lpAlfa, this.hpAlfa := lpAlfa, hpAlfa;
      coef0, coef1, oldOut, oldIn, oldZ := 0, 0, 0, 0, 0;
      sinc := coefficients;
      heard, blocks := [], 0;
      new;
      NothingHeard(sinc, lpAlfa, hpAlfa);
    }

    // The next bitstream starts anew.
    method Reset()
      requires Valid()
      modifies this
      ensures Valid() && heard == []
    {
      coef0, coef1 := 0, 0;
      oldOut, oldIn, oldZ := 0, 0, 0;
      heard, blocks := [], 0;
      NothingHeard(sinc, lpAlfa, hpAlfa);
    }

    // Every output is the PCM sample of the whole bitstream since the reset, however
    // that was split across calls.
    method Process(pdm: seq<byte>, pcm: array<i16>)
      requires Valid() && |pdm| == pcm.Length * BYTES_PER_SAMPLE
      modifies this, pcm
      ensures Valid() && heard == old(heard) + pdm
      ensures blocks == old(blocks) + pcm.Length
      ensures pcm[..] == Pcms(heard, old(blocks), pcm.Length, hpAlfa, lpAlfa)
    {
      hide Part, PassesAfter, Pcm;
      ghost var stream := heard + pdm;
      ghost var first := blocks;
      HearMore(pdm);
      for i := 0 to pcm.Length
        invariant blocks == first + i && heard == old(heard)
        invariant TableOk() && StateAfter(stream, blocks)
        invariant pcm[..i] == Pcms(stream, first, i, hpAlfa, lpAlfa)
      {
        BlockOf(heard, pdm, first, i, blocks);
        ghost var before := pcm[..i];
        var out := Sample(pdm[i * BYTES_PER_SAMPLE..(i + 1) * BYTES_PER_SAMPLE], stream);
        pcm[i] := out;
        PcmsNext(stream, first, i, blocks - 1, hpAlfa, lpAlfa);
        assert pcm[..i + 1] == before + [out];
      }
      assert pcm[..pcm.Length] == pcm[..];
      heard := stream;
    }

    // More bitstream leaves what the fields hold as it is.
    lemma HearMore(more: seq<byte>)
      requires Valid()
      ensures StateAfter(heard + more, blocks)
    {
      hide Part, PassesAfter;
      Carry(sinc, heard, more, blocks, hpAlfa, lpAlfa);
    }

    // One block of the bitstream: one PCM sample.
    method Sample(bytes: seq<byte>, ghost stream: seq<byte>) returns (out: i16)
      requires TableOk() && StateAfter(stream, blocks) && BYTES_PER_SAMPLE * (blocks + 1) <= |stream|
      requires bytes == stream[BYTES_PER_SAMPLE * blocks..BYTES_PER_SAMPLE * (blocks + 1)]
      modifies this
      ensures heard == old(heard) && blocks == old(blocks) + 1 && StateAfter(stream, blocks)
      ensures out == Pcm(stream, old(blocks), hpAlfa, lpAlfa)
    {
      hide Part, Centred;
      var z0, z1, z2 := Shares(bytes, stream, blocks);
      CarriedPartsMakeCentred(sinc, stream, blocks, coef1, z2);
      PartBounds(sinc, stream, blocks);
      Filtered(z0, z1, z2, stream);
      out := Clamp(RoundDiv(oldZ * VOLUME, DIV_CONST));
    }

    // The part of the step after the look-up: no i64 overflows.
    method Filtered(z0: u32, z1: u32, z2: u32, ghost stream: seq<byte>)
      requires 0 <= hpAlfa <= 254 && 0 <= lpAlfa <= 256 && StateAfter(stream, blocks)
      requires z0 == Part(sinc, stream, blocks, 0) && z1 == Part(sinc, stream, blocks, 1)
      requires coef1 + z2 - SUB_CONST == Centred(stream, blocks)
      requires 0 <= coef0 <= SINC_SUM && z0 <= SINC_SUM && z1 <= SINC_SUM
      modifies this
      ensures heard == old(heard) && blocks == old(blocks) + 1 && StateAfter(stream, blocks)
    {
      hide Part, Centred;
      ghost var before := PassesAfter(stream, blocks, hpAlfa, lpAlfa);
      CentredBounds(stream, blocks);
      PassesBounds(stream, blocks, hpAlfa, lpAlfa);
      var whole: i64 := coef1 + z2;
      var z: i64 := whole - SUB_CONST;
      StepFits(before, z, hpAlfa, lpAlfa);
      StaysWithinBounds(before, z, hpAlfa, lpAlfa, SUB_CONST);
      assert PassesAfter(stream, blocks + 1, hpAlfa, lpAlfa) == Pass(before, z, hpAlfa, lpAlfa);
      coef1 := coef0 + z1;
      coef0 := z0;
      oldOut := (hpAlfa * (oldOut + z - oldIn)) / 256;
      oldIn := z;
      oldZ := ((256 - lpAlfa) * oldZ + lpAlfa * oldOut) / 256;
      blocks := blocks + 1;
    }

    // The block's three shares, a byte at a time.
    method Shares(bytes: seq<byte>, ghost stream: seq<byte>, ghost block: nat) returns (z0: u32, z1: u32, z2: u32)
      requires TableOk() && BYTES_PER_SAMPLE * (block + 1) <= |stream|
      requires bytes == stream[BYTES_PER_SAMPLE * block..BYTES_PER_SAMPLE * (block + 1)]
      ensures z0 == Part(sinc, stream, block, 0)
      ensures z1 == Part(sinc, stream, block, 1)
      ensures z2 == Part(sinc, stream, block, 2)
    {
      z0, z1, z2 := 0, 0, 0;
      ghost var from := DECIMATION * block;
      NoShare(sinc, stream, from);
      for i := 0 to BYTES_PER_SAMPLE
        invariant z0 == Share(sinc, stream, from, 0, 8 * i)
        invariant z1 == Share(sinc, stream, from, 1, 8 * i)
        invariant z2 == Share(sinc, stream, from, 2, 8 * i)
      {
        var b := bytes[i];
        assert b == stream[BYTES_PER_SAMPLE * block + i];
        var hi, lo := b / 16, b % 16;
        NextShare(sinc, stream, block, i, 0);
        NextShare(sinc, stream, block, i, 1);
        NextShare(sinc, stream, block, i, 2);
        z0 := z0 + lut[2 * i, hi, 0] + lut[2 * i + 1, lo, 0];
        z1 := z1 + lut[2 * i, hi, 1] + lut[2 * i + 1, lo, 1];
        z2 := z2 + lut[2 * i, hi, 2] + lut[2 * i + 1, lo, 2];
      }
    }
  }

  // The coefficients as `new` makes them, between two zeros.
  method SincCoefficients() returns (sinc: seq<u32>)
    ensures IsPaddedSinc(sinc)
  {
    hide FitU32, Conv, IsPaddedSinc;
    var boxcar: seq<u32> := seq(DECIMATION, i => 1);
    BoxcarTotal(boxcar);
    var sinc2 := new u32[2 * DECIMATION - 1];
    Convolve(boxcar, boxcar, sinc2, 0, 2 * DECIMATION - 1);
    Sinc2Total(boxcar, sinc2[..]);
    var padded := new u32[3 * DECIMATION](i => 0);
    Convolve(sinc2[..], boxcar, padded, 1, 3 * DECIMATION - 2);
    sinc := padded[..];
    Padded(boxcar, sinc2[..], sinc);
  }

  lemma Padded(boxcar: seq<nat>, sinc2: seq<nat>, sinc: seq<nat>)
    requires IsBoxcar(boxcar, DECIMATION) && IsConv(sinc2, boxcar, boxcar)
    requires |sinc| == 3 * DECIMATION && sinc[0] == 0 && sinc[3 * DECIMATION - 1] == 0
    requires forall i :: 1 <= i < 3 * DECIMATION - 1 ==> sinc[i] == Conv(sinc2, boxcar, i - 1)
    ensures IsPaddedSinc(sinc)
  {
    hide Conv;
    assert IsSinc3(sinc[1..3 * DECIMATION - 1], sinc2, boxcar, DECIMATION);
  }

  lemma BoxcarTotal(boxcar: seq<nat>)
    requires IsBoxcar(boxcar, DECIMATION)
    ensures Total(boxcar) == DECIMATION && FitU32(boxcar, boxcar)
  {
    SumConst(k => At(boxcar, k), 1, DECIMATION);
  }

  lemma Sinc2Total(boxcar: seq<nat>, sinc2: seq<nat>)
    requires IsBoxcar(boxcar, DECIMATION) && IsConv(sinc2, boxcar, boxcar)
    ensures Total(sinc2) == DECIMATION * DECIMATION && FitU32(sinc2, boxcar)
  {
    BoxcarTotal(boxcar);
    ConvSumLaw(boxcar, boxcar, |sinc2|);
    SumExt(k => At(sinc2, k), n => Conv(boxcar, boxcar, n), |sinc2|);
  }

  // An entry of the table is at most the coefficients' sum.
  lemma EntryFits(sinc: seq<nat>, p: nat, n: nat, s: nat)
    requires IsPaddedSinc(sinc) && p < NIBBLES && n < 16 && s < 3
    ensures Entry(sinc, p, n, s) <= SINC_SUM
  {
    PaddedSincSum(sinc);
    var all: int -> int := (j: int) => At(sinc, j) as int;
    var at := s * DECIMATION + p * 4;
    SumExt(j => At(sinc, j), all, |sinc|);
    WindowLe(all, |sinc|, at, 4);
    SumNone(j => all(at + j));
    SumFourMore(j => all(at + j), 0);
    BitTimes(n, 0, sinc[at]);
    BitTimes(n, 1, sinc[at + 1]);
    BitTimes(n, 2, sinc[at + 2]);
    BitTimes(n, 3, sinc[at + 3]);
    hide NibbleBit;
  }

  lemma BitTimes(n: nat, bit: nat, c: nat)
    requires n < 16 && bit < 4
    ensures NibbleBit(n, bit) * c <= c
  {
    assert NibbleBit(n, bit) == 0 || NibbleBit(n, bit) == 1;
  }

  method BuildTable(sinc: seq<u32>) returns (lut: array3<u32>)
    requires |sinc| == 3 * DECIMATION && IsPaddedSinc(sinc)
    ensures fresh(lut) && lut.Length0 == NIBBLES && lut.Length1 == 16 && lut.Length2 == 3
    ensures forall p, n, s :: 0 <= p < NIBBLES && 0 <= n < 16 && 0 <= s < 3 ==> lut[p, n, s] == Entry(sinc, p, n, s)
  {
    hide Entry, IsPaddedSinc;
    lut := new u32[NIBBLES, 16, 3];
    for p := 0 to NIBBLES
      invariant forall q, n, s :: 0 <= q < p && 0 <= n < 16 && 0 <= s < 3 ==> lut[q, n, s] == Entry(sinc, q, n, s)
    {
      for m := 0 to 16
        invariant forall q, n, s :: 0 <= q < p && 0 <= n < 16 && 0 <= s < 3 ==> lut[q, n, s] == Entry(sinc, q, n, s)
        invariant forall n, s :: 0 <= n < m && 0 <= s < 3 ==> lut[p, n, s] == Entry(sinc, p, n, s)
      {
        for r := 0 to 3
          invariant forall q, n, s :: 0 <= q < p && 0 <= n < 16 && 0 <= s < 3 ==> lut[q, n, s] == Entry(sinc, q, n, s)
          invariant forall n, s :: 0 <= n < m && 0 <= s < 3 ==> lut[p, n, s] == Entry(sinc, p, n, s)
          invariant forall s :: 0 <= s < r ==> lut[p, m, s] == Entry(sinc, p, m, s)
        {
          EntryFits(sinc, p, m, r);
          lut[p, m, r] := Entry(sinc, p, m, r);
        }
      }
    }
  }

  lemma PartBounds(sinc: seq<nat>, stream: seq<byte>, block: int)
    requires IsPaddedSinc(sinc)
    ensures forall k, s :: 0 <= s < 3 ==> 0 <= Part(sinc, stream, k, s) <= SINC_SUM
  {
    forall k, s | 0 <= s < 3 ensures 0 <= Part(sinc, stream, k, s) <= SINC_SUM {
      ShareBounds(sinc, stream, DECIMATION * k, s, DECIMATION);
    }
  }

  // Before the start of the bitstream every sample is 0.
  lemma NothingHeard(sinc: seq<nat>, lpAlfa: int, hpAlfa: int)
    ensures Part(sinc, [], -1, 0) == 0 && Part(sinc, [], -2, 0) == 0 && Part(sinc, [], -1, 1) == 0
  {
    forall k, s ensures Part(sinc, [], k, s) == 0 {
      var share := j => Signal([], DECIMATION * k + j) * At(sinc, DECIMATION * s + j);
      forall j ensures share(j) == 0 {
        assert Signal([], DECIMATION * k + j) == 0;
      }
      SumConst(share, 0, DECIMATION);
    }
  }

  lemma BlockOf(stream: seq<byte>, more: seq<byte>, blocks: nat, i: nat, block: nat)
    requires |stream| == BYTES_PER_SAMPLE * blocks && BYTES_PER_SAMPLE * (i + 1) <= |more| && block == blocks + i
    ensures BYTES_PER_SAMPLE * (block + 1) <= |stream + more|
    ensures more[i * BYTES_PER_SAMPLE..(i + 1) * BYTES_PER_SAMPLE]
         == (stream + more)[BYTES_PER_SAMPLE * block..BYTES_PER_SAMPLE * (block + 1)]
  {
  }

  // Hearing more leaves what the fields hold as it is.
  lemma Carry(sinc: seq<nat>, stream: seq<byte>, more: seq<byte>, blocks: nat, hpAlfa: int, lpAlfa: int)
    requires BYTES_PER_SAMPLE * blocks <= |stream|
    ensures Part(sinc, stream + more, blocks - 1, 0) == Part(sinc, stream, blocks - 1, 0)
    ensures Part(sinc, stream + more, blocks - 2, 0) == Part(sinc, stream, blocks - 2, 0)
    ensures Part(sinc, stream + more, blocks - 1, 1) == Part(sinc, stream, blocks - 1, 1)
    ensures PassesAfter(stream + more, blocks, hpAlfa, lpAlfa) == PassesAfter(stream, blocks, hpAlfa, lpAlfa)
  {
    SharePrefix(sinc, stream, more, DECIMATION * (blocks - 1), 0, DECIMATION);
    SharePrefix(sinc, stream, more, DECIMATION * (blocks - 2), 0, DECIMATION);
    SharePrefix(sinc, stream, more, DECIMATION * (blocks - 1), 1, DECIMATION);
    PassesPrefix(stream, more, blocks, hpAlfa, lpAlfa);
  }

  lemma NoShare(sinc: seq<nat>, stream: seq<byte>, from: int)
    ensures forall s :: Share(sinc, stream, from, s, 0) == 0
  {
    forall s ensures Share(sinc, stream, from, s, 0) == 0 {
      SumNone(j => Signal(stream, from + j) * At(sinc, DECIMATION * s + j));
    }
  }

  lemma NextShare(sinc: seq<nat>, stream: seq<byte>, block: nat, i: nat, s: nat)
    requires IsPaddedSinc(sinc) && s < 3 && i < BYTES_PER_SAMPLE
    requires BYTES_PER_SAMPLE * block + i < |stream|
    ensures Share(sinc, stream, DECIMATION * block, s, 8 * (i + 1))
         == Share(sinc, stream, DECIMATION * block, s, 8 * i)
            + Entry(sinc, 2 * i, stream[BYTES_PER_SAMPLE * block + i] / 16, s)
            + Entry(sinc, 2 * i + 1, stream[BYTES_PER_SAMPLE * block + i] % 16, s)
    ensures 0 <= Share(sinc, stream, DECIMATION * block, s, 8 * (i + 1)) <= SINC_SUM
  {
    ByteShare(sinc, stream, block, i, s);
    ShareBounds(sinc, stream, DECIMATION * block, s, 8 * (i + 1));
  }
}
