// The third-order sinc filter as mathematics: convolution, the law that moves a
// convolution from the coefficients to the signal, and the triple moving sum.
module Sinc {
  import opened Sums

  // s[i], and zero outside the sequence.
  function At(s: seq<nat>, i: int): nat
  {
    if 0 <= i < |s| then s[i] else 0
  }

  // The n-th value of `s` convolved with `t`.
  ghost function Conv(s: seq<nat>, t: seq<nat>, n: int): int
  {
    Sum(k => At(s, k) * At(t, n - k), |s|)
  }

  // One term of a signal weighted with a convolution: s[k] * t[n-k] * g(n).
  ghost function Term(s: seq<nat>, t: seq<nat>, g: int -> int, n: int, k: int): int
  {
    At(s, k) * (At(t, n - k) * g(n))
  }

  lemma Reassociated(a: int, b: int, c: int)
    ensures c * (a * b) == a * (b * c)
  {
  }

  lemma WeightedConv(s: seq<nat>, t: seq<nat>, g: int -> int, n: int)
    ensures Conv(s, t, n) * g(n) == Sum(k => Term(s, t, g, n, k), |s|)
  {
    hide At;
    var product := k => At(s, k) * At(t, n - k);
    SumExt(k => At(s, k) * At(t, n - k), product, |s|);
    SumScale(g(n), product, |s|);
    forall k ensures g(n) * product(k) == Term(s, t, g, n, k) {
      Reassociated(At(s, k), At(t, n - k), g(n));
    }
    SumExt(k => g(n) * product(k), k => Term(s, t, g, n, k), |s|);
  }

  // The terms of one coefficient of `s`: `t` weights the signal from k on.
  lemma Column(s: seq<nat>, t: seq<nat>, g: int -> int, count: nat, k: nat)
    requires k < |s| && count + 1 == |s| + |t| && t != []
    ensures Sum(n => Term(s, t, g, n, k), count) == At(s, k) * Sum(j => At(t, j) * g(k + j), |t|)
  {
    var shifted := n => At(t, n - k) * g(n);
    SumScale(At(s, k), shifted, count);
    SumExt(n => Term(s, t, g, n, k), n => At(s, k) * shifted(n), count);
    forall n | 0 <= n < k || k + |t| <= n < count ensures shifted(n) == 0 {
      assert At(t, n - k) == 0;
    }
    SumWindow(shifted, count, k, |t|);
    SumExt(i => shifted(k + i), j => At(t, j) * g(k + j), |t|);
  }

  // Weighting a signal with a convolution is weighting it with each factor in turn.
  lemma Transfer(s: seq<nat>, t: seq<nat>, g: int -> int, count: nat)
    requires count + 1 == |s| + |t| && s != [] && t != []
    ensures Sum(n => Conv(s, t, n) * g(n), count)
         == Sum(k => At(s, k) * Sum(j => At(t, j) * g(k + j), |t|), |s|)
  {
    var term := (n, k) => Term(s, t, g, n, k);
    var row := n => Sum(k => term(n, k), |s|);
    var column := k => Sum(n => term(n, k), count);
    var weighted := k => At(s, k) * Sum(j => At(t, j) * g(k + j), |t|);
    SumSwap(term, count, |s|);
    forall n | 0 <= n < count ensures Conv(s, t, n) * g(n) == row(n) {
      WeightedConv(s, t, g, n);
      SumExt(k => Term(s, t, g, n, k), k => term(n, k), |s|);
    }
    SumExt(n => Conv(s, t, n) * g(n), row, count);
    forall k | 0 <= k < |s| ensures column(k) == weighted(k) {
      Column(s, t, g, count, k);
      SumExt(n => Term(s, t, g, n, k), n => term(n, k), count);
    }
    SumExt(column, weighted, |s|);
    SumExt(weighted, k => At(s, k) * Sum(j => At(t, j) * g(k + j), |t|), |s|);
    SumExt(n => Sum(k => term(n, k), |s|), row, count);
    SumExt(k => Sum(n => term(n, k), count), column, |s|);
  }

  ghost function Total(s: seq<nat>): int
  {
    Sum(k => At(s, k), |s|)
  }

  // The coefficients of a convolution add up to the product of the factors' sums.
  lemma ConvSumLaw(s: seq<nat>, t: seq<nat>, count: nat)
    requires count + 1 == |s| + |t| && s != [] && t != []
    ensures Sum(n => Conv(s, t, n), count) == Total(s) * Total(t)
  {
    var one: int -> int := i => 1;
    Transfer(s, t, one, count);
    SumExt(n => Conv(s, t, n) * one(n), n => Conv(s, t, n), count);
    forall k | 0 <= k < |s| ensures At(s, k) * Sum(j => At(t, j) * one(k + j), |t|) == Total(t) * At(s, k) {
      FlatWeights(t, one, k);
    }
    SumExt(k => At(s, k) * Sum(j => At(t, j) * one(k + j), |t|), k => Total(t) * At(s, k), |s|);
    ScaledTotal(s, Total(t));
  }

  lemma FlatWeights(t: seq<nat>, one: int -> int, k: int)
    requires forall i :: one(i) == 1
    ensures Sum(j => At(t, j) * one(k + j), |t|) == Total(t)
  {
    SumExt(j => At(t, j) * one(k + j), j => At(t, j), |t|);
  }

  lemma ScaledTotal(s: seq<nat>, c: int)
    ensures Sum(k => c * At(s, k), |s|) == c * Total(s)
  {
    var coefficient: int -> int := (k: int) => At(s, k) as int;
    SumScale(c, coefficient, |s|);
    SumExt(k => c * coefficient(k), k => c * At(s, k), |s|);
    SumExt(coefficient, k => At(s, k), |s|);
  }

  // The moving sum of `width` values of `g`, from i on.
  ghost function MovingSum(g: int -> int, width: nat, i: int): int
  {
    Sum(c => g(i + c), width)
  }

  // The moving sum of the moving sum of the moving sum of `g`, from i on: the
  // sum of g(i + a + b + c) over all a, b and c below `width`.
  ghost function TripleMovingSum(g: int -> int, width: nat, i: int): int
  {
    Sum(a => Sum(b => Sum(c => g(i + a + b + c), width), width), width)
  }

  // `width` ones.
  ghost predicate IsBoxcar(s: seq<nat>, width: nat)
  {
    |s| == width && forall i :: 0 <= i < width ==> s[i] == 1
  }

  ghost predicate IsConv(r: seq<nat>, s: seq<nat>, t: seq<nat>)
  {
    && |r| + 1 == |s| + |t|
    && forall n :: 0 <= n < |r| ==> r[n] == Conv(s, t, n)
  }

  // A sinc filter of third order: the boxcar, convolved with the boxcar two times.
  ghost predicate IsSinc3(sinc: seq<nat>, sinc2: seq<nat>, boxcar: seq<nat>, width: nat)
  {
    width > 0 && IsBoxcar(boxcar, width) && IsConv(sinc2, boxcar, boxcar) && IsConv(sinc, sinc2, boxcar)
  }

  // Weighting with a boxcar is the moving sum.
  lemma BoxcarWeights(boxcar: seq<nat>, g: int -> int, width: nat, k: int)
    requires IsBoxcar(boxcar, width)
    ensures Sum(j => At(boxcar, j) * g(k + j), width) == MovingSum(g, width, k)
  {
    SumExt(j => At(boxcar, j) * g(k + j), c => g(k + c), width);
  }

  // Weighting with a convolution by a boxcar: first sum `g` over the boxcar.
  lemma WeightedByBoxcarConv(r: seq<nat>, s: seq<nat>, boxcar: seq<nat>, g: int -> int, width: nat)
    requires width > 0 && s != [] && IsBoxcar(boxcar, width) && IsConv(r, s, boxcar)
    ensures Sum(n => At(r, n) * g(n), |r|) == Sum(k => At(s, k) * MovingSum(g, width, k), |s|)
  {
    Transfer(s, boxcar, g, |r|);
    SumExt(n => At(r, n) * g(n), n => Conv(s, boxcar, n) * g(n), |r|);
    forall k ensures Sum(j => At(boxcar, j) * g(k + j), width) == MovingSum(g, width, k) {
      BoxcarWeights(boxcar, g, width, k);
    }
    SumExt(k => At(s, k) * Sum(j => At(boxcar, j) * g(k + j), |boxcar|),
           k => At(s, k) * MovingSum(g, width, k), |s|);
  }

  // The fast form refines the simple one: weighting a signal, from `from` on,
  // with the sinc filter's coefficients is its triple moving sum.
  lemma SincIsTripleMovingSum(sinc: seq<nat>, sinc2: seq<nat>, boxcar: seq<nat>, width: nat, g: int -> int, from: int)
    requires IsSinc3(sinc, sinc2, boxcar, width)
    ensures Sum(n => At(sinc, n) * g(from + n), |sinc|) == TripleMovingSum(g, width, from)
  {
    var later := n => g(from + n);
    SumExt(n => At(sinc, n) * g(from + n), n => At(sinc, n) * later(n), |sinc|);
    UnfoldSinc(sinc, sinc2, boxcar, width, later);
    FoldTriple(boxcar, width, g, from);
  }

  lemma FoldTriple(boxcar: seq<nat>, width: nat, g: int -> int, from: int)
    requires IsBoxcar(boxcar, width)
    ensures Sum(a => At(boxcar, a) * MovingSum(k => MovingSum(n => g(from + n), width, k), width, a), width)
         == TripleMovingSum(g, width, from)
  {
    var weighted := a => At(boxcar, a) * MovingSum(k => MovingSum(n => g(from + n), width, k), width, a);
    var plain := a => Sum(b => Sum(c => g(from + a + b + c), width), width);
    forall a | 0 <= a < width ensures weighted(a) == plain(a) {
      MovingTwice(g, width, from, a);
    }
    SumExt(weighted, plain, width);
  }

  lemma UnfoldSinc(sinc: seq<nat>, sinc2: seq<nat>, boxcar: seq<nat>, width: nat, g: int -> int)
    requires IsSinc3(sinc, sinc2, boxcar, width)
    ensures Sum(n => At(sinc, n) * g(n), |sinc|)
         == Sum(a => At(boxcar, a) * MovingSum(k => MovingSum(g, width, k), width, a), width)
  {
    var once := k => MovingSum(g, width, k);
    WeightedByBoxcarConv(sinc, sinc2, boxcar, g, width);
    SumExt(k => At(sinc2, k) * MovingSum(g, width, k), k => At(sinc2, k) * once(k), |sinc2|);
    WeightedByBoxcarConv(sinc2, boxcar, boxcar, once, width);
  }

  ghost function Twice(g: int -> int, width: nat, from: int, a: int): int
  {
    Sum(b => Sum(c => g(from + a + b + c), width), width)
  }

  lemma MovingTwice(g: int -> int, width: nat, from: int, a: int)
    ensures MovingSum(k => MovingSum(n => g(from + n), width, k), width, a) == Twice(g, width, from, a)
  {
    var later := n => g(from + n);
    var once := k => MovingSum(later, width, k);
    var inner := b => Sum(c => g(from + a + b + c), width);
    forall b | 0 <= b < width ensures once(a + b) == inner(b) {
      SumExt(c => later((a + b) + c), c => g(from + a + b + c), width);
    }
    SumExt(c => once(a + c), inner, width);
    SumExt(inner, b => Sum(c => g(from + a + b + c), width), width);
  }

  // The triple moving sum from `from` on only looks at 3 * width - 2 values.
  lemma TripleMovingSumExt(f: int -> int, g: int -> int, width: nat, from: int)
    requires forall i :: from <= i < from + 3 * width - 2 ==> f(i) == g(i)
    ensures TripleMovingSum(f, width, from) == TripleMovingSum(g, width, from)
  {
    var plainF := a => Sum(b => Sum(c => f(from + a + b + c), width), width);
    var plainG := a => Sum(b => Sum(c => g(from + a + b + c), width), width);
    forall a | 0 <= a < width ensures plainF(a) == plainG(a) {
      TwiceExt(f, g, width, from, a);
    }
    SumExt(plainF, plainG, width);
  }

  lemma TwiceExt(f: int -> int, g: int -> int, width: nat, from: int, a: int)
    requires 0 <= a < width
    requires forall i :: from <= i < from + 3 * width - 2 ==> f(i) == g(i)
    ensures Twice(f, width, from, a) == Twice(g, width, from, a)
  {
    var innerF := b => Sum(c => f(from + a + b + c), width);
    var innerG := b => Sum(c => g(from + a + b + c), width);
    forall b | 0 <= b < width ensures innerF(b) == innerG(b) {
      SumExt(c => f(from + a + b + c), c => g(from + a + b + c), width);
    }
    SumExt(innerF, innerG, width);
  }
}
