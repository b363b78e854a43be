// Finite sums over an integer-valued function, and the laws the sinc filter's
// proof rests on: scaling, splitting, and exchanging two sums.
module Sums {

  ghost function SeqSum(s: seq<int>): int
  {
    if s == [] then 0 else SeqSum(s[..|s| - 1]) + s[|s| - 1]
  }

  ghost function Pow(b: int, n: nat): int
  {
    if n == 0 then 1 else b * Pow(b, n - 1)
  }

  lemma {:induction false} PowIsPositive(b: int, n: nat)
    requires b > 0
    ensures Pow(b, n) > 0
  {
    if n > 0 { PowIsPositive(b, n - 1); }
  }

  // f(0) + f(1) + ... + f(n-1). Only SumNone and SumNext look inside.
  ghost function Sum(f: int -> int, n: nat): int
  {
    SeqSum(seq(n, i => f(i)))
  }

  lemma SumNone(f: int -> int)
    ensures Sum(f, 0) == 0
  {
  }

  lemma SumNext(f: int -> int, n: nat)
    ensures Sum(f, n + 1) == Sum(f, n) + f(n)
  {
    assert seq(n + 1, i => f(i))[..n] == seq(n, i => f(i));
  }

  lemma {:induction false} SumExt(f: int -> int, g: int -> int, n: nat)
    requires forall i :: 0 <= i < n ==> f(i) == g(i)
    ensures Sum(f, n) == Sum(g, n)
  {
    assert seq(n, i => f(i)) == seq(n, i => g(i));
  }

  lemma {:induction false} SumBounds(f: int -> int, lo: int, hi: int, n: nat)
    requires forall i :: 0 <= i < n ==> lo <= f(i) <= hi
    ensures lo * n <= Sum(f, n) <= hi * n
    decreases n
  {
    if n > 0 {
      SumNext(f, n - 1);
      SumBounds(f, lo, hi, n - 1);
    }
  }

  lemma {:induction false} SumLe(f: int -> int, g: int -> int, n: nat)
    requires forall i :: 0 <= i < n ==> f(i) <= g(i)
    ensures Sum(f, n) <= Sum(g, n)
    decreases n
  {
    if n > 0 {
      SumNext(f, n - 1);
      SumNext(g, n - 1);
      SumLe(f, g, n - 1);
    }
  }

  lemma {:induction false} SumConst(f: int -> int, c: int, n: nat)
    requires forall i :: 0 <= i < n ==> f(i) == c
    ensures Sum(f, n) == c * n
  {
    SumBounds(f, c, c, n);
  }

  lemma {:induction false} SumAdd(f: int -> int, g: int -> int, n: nat)
    ensures Sum(i => f(i) + g(i), n) == Sum(f, n) + Sum(g, n)
    decreases n
  {
    if n > 0 {
      SumNext(f, n - 1);
      SumNext(g, n - 1);
      SumNext(i => f(i) + g(i), n - 1);
      SumAdd(f, g, n - 1);
    }
  }

  lemma {:induction false} SumScale(c: int, f: int -> int, n: nat)
    ensures Sum(i => c * f(i), n) == c * Sum(f, n)
    decreases n
  {
    if n > 0 {
      SumNext(f, n - 1);
      SumNext(i => c * f(i), n - 1);
      SumScale(c, f, n - 1);
    }
  }

  lemma {:induction false} SumSplit(f: int -> int, m: nat, n: nat)
    ensures Sum(f, m + n) == Sum(f, m) + Sum(i => f(m + i), n)
    decreases n
  {
    if n > 0 {
      SumNext(f, m + n - 1);
      SumNext(i => f(m + i), n - 1);
      SumSplit(f, m, n - 1);
    }
  }

  lemma SumThirds(f: int -> int, n: nat)
    ensures Sum(f, 3 * n) == Sum(f, n) + Sum(i => f(n + i), n) + Sum(i => f(2 * n + i), n)
  {
    SumSplit(f, 2 * n, n);
    SumSplit(f, n, n);
  }

  lemma SumFourMore(f: int -> int, n: nat)
    ensures Sum(f, n + 4) == Sum(f, n) + f(n) + f(n + 1) + f(n + 2) + f(n + 3)
  {
    SumNext(f, n);
    SumNext(f, n + 1);
    SumNext(f, n + 2);
    SumNext(f, n + 3);
  }

  // A sum whose terms are zero outside [k, k+m) is the sum of that window.
  lemma {:induction false} SumWindow(f: int -> int, n: nat, k: nat, m: nat)
    requires k + m <= n
    requires forall i :: 0 <= i < k || k + m <= i < n ==> f(i) == 0
    ensures Sum(f, n) == Sum(i => f(k + i), m)
  {
    SumSplit(f, k, n - k);
    SumConst(f, 0, k);
    var g := i => f(k + i);
    SumSplit(g, m, n - k - m);
    SumConst(i => g(m + i), 0, n - k - m);
    SumExt(g, i => f(k + i), m);
    SumExt(i => f(k + i), g, n - k);
  }

  // Fubini for finite sums.
  lemma {:induction false} SumSwap(f: (int, int) -> int, m: nat, n: nat)
    ensures Sum(i => Sum(j => f(i, j), n), m) == Sum(j => Sum(i => f(i, j), m), n)
    decreases m
  {
    if m == 0 {
      SumConst(j => Sum(i => f(i, j), m), 0, n);
    } else {
      SumSwap(f, m - 1, n);
      SumNext(i => Sum(j => f(i, j), n), m - 1);
      AddRow(f, m - 1, n);
    }
  }

  lemma AddRow(f: (int, int) -> int, m: nat, n: nat)
    ensures Sum(j => Sum(i => f(i, j), m + 1), n) == Sum(j => Sum(i => f(i, j), m), n) + Sum(j => f(m, j), n)
  {
    var before := j => Sum(i => f(i, j), m);
    var last := j => f(m, j);
    SumAdd(before, last, n);
    forall j | 0 <= j < n ensures Sum(i => f(i, j), m + 1) == before(j) + last(j) {
      SumNext(i => f(i, j), m);
    }
    SumExt(j => Sum(i => f(i, j), m + 1), j => before(j) + last(j), n);
    SumExt(j => f(m, j), last, n);
    SumExt(j => Sum(i => f(i, j), m), before, n);
  }
}
