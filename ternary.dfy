/** Balanced-ternary digit streams as the GeoHex v3 encoder writes them and
    the decoder reads them back.

    A digit is 0, 1 or 2 and stands for -1, 0 or +1 times its place value;
    streams are most significant first, so the digit at position i of an
    n-digit stream has place value 3^(n-1-i). */
module Ternary {

  /** 3^n (Ruby's `3**n`). Always odd, which is what makes the encoder's
      rounding threshold `ceil(pow / 2)` a clean midpoint. */
  function Pow3(n: nat): (p: nat)
    ensures p >= 1 && p % 2 == 1
  {
    if n == 0 then 1
    else
      var q := Pow3(n - 1);
      TripleOfOdd(q);
      3 * q
  }

  /** Three times an odd number is odd. */
  lemma TripleOfOdd(q: nat)
    requires q % 2 == 1
    ensures (3 * q) % 2 == 1
  {
    var k := q / 2;
    assert q == 2 * k + 1;
    assert 3 * q == 2 * (3 * k + 1) + 1;
  }

  /** ceil(pow / 2): the threshold `half_h_pow` of the encoder's digit loop,
      the least integer whose double is at least pow. */
  function Half(pow: nat): (h: int)
    ensures pow <= 2 * h <= pow + 1
  {
    (pow + 1) / 2
  }

  /** The digit the encoder emits for running remainder v at place value pow. */
  function Digit(v: int, pow: nat): (d: nat)
    ensures d <= 2
  {
    if v >= Half(pow) then 2 else if v <= -Half(pow) then 0 else 1
  }

  /** The running remainder after that digit is emitted: the digit's share
      of the place value is taken off. */
  function Remainder(v: int, pow: nat): (r: int)
    ensures r == v - Weight(Digit(v, pow)) * pow
  {
    if v >= Half(pow) then v - pow else if v <= -Half(pow) then v + pow else v
  }

  /** The signed weight the decoder gives a digit: 0 subtracts the place
      value, 2 adds it, anything else leaves the total alone. */
  function Weight(d: nat): (w: int)
    ensures -1 <= w <= 1
    ensures d <= 2 ==> w == d - 1
  {
    if d == 0 then -1 else if d == 2 then 1 else 0
  }

  /** The n digits the encoder's loop emits for v, most significant first. */
  function Trits(v: int, n: nat): (ds: seq<nat>)
    decreases n
    ensures |ds| == n
    ensures forall i :: 0 <= i < n ==> ds[i] <= 2
  {
    if n == 0 then []
    else [Digit(v, Pow3(n - 1))] + Trits(Remainder(v, Pow3(n - 1)), n - 1)
  }

  /** What is left of v once the encoder's loop has emitted n digits. */
  function Residue(v: int, n: nat): int
    decreases n
  {
    if n == 0 then v else Residue(Remainder(v, Pow3(n - 1)), n - 1)
  }

  /** The decoder's running total after i of the n positions: the sum of
      Weight(ds[j]) * 3^(n-1-j) over j < i. */
  function Partial(ds: seq<nat>, n: nat, i: nat): int
    requires i <= n && i <= |ds|
  {
    if i == 0 then 0 else Partial(ds, n, i - 1) + Weight(ds[i - 1]) * Pow3(n - i)
  }

  /** The value a whole digit stream stands for; n digits never stand for
      more than Bound(n) in magnitude. */
  function Value(ds: seq<nat>): (v: int)
    ensures -Bound(|ds|) <= v <= Bound(|ds|)
  {
    PartialBound(ds, |ds|, |ds|);
    Partial(ds, |ds|, |ds|)
  }

  /** After i of n positions the running total is at most 3^(n-i) times
      the range of i digits. */
  lemma {:induction false} PartialBound(ds: seq<nat>, n: nat, i: nat)
    requires i <= n && i <= |ds|
    ensures -(Pow3(n - i) * Bound(i)) <= Partial(ds, n, i) <= Pow3(n - i) * Bound(i)
  {
    if i > 0 {
      PartialBound(ds, n, i - 1);
      BoundStep(i);
      ScaledStep(Pow3(n - i), Pow3(n - (i - 1)), Bound(i - 1), Bound(i),
                 Weight(ds[i - 1]), Partial(ds, n, i - 1));
    } else {
      assert Bound(0) == 0;
    }
  }

  /** One more signed digit at place value p widens the bound q·b, where
      q = 3p, to p·c, where c = 3b + 1. */
  lemma ScaledStep(p: int, q: int, b: int, c: int, w: int, a: int)
    requires p >= 0 && q == 3 * p && c == 3 * b + 1 && -1 <= w <= 1
    requires -(q * b) <= a <= q * b
    ensures -(p * c) <= a + w * p <= p * c
  {
    assert p * c == q * b + p;
    if w == -1 {
      assert w * p == -p;
    } else if w == 1 {
      assert w * p == p;
    } else {
      assert w * p == 0;
    }
  }

  /** Largest magnitude n balanced-ternary digits can represent: (3^n - 1) / 2. */
  function Bound(n: nat): int
  {
    (Pow3(n) - 1) / 2
  }

  /** The partial sums of a stream with a leading digit d: that digit's share
      plus the partial sums of the rest, one place lower. */
  lemma {:induction false} PartialCons(d: nat, rest: seq<nat>, m: nat, i: nat)
    requires i <= m && i <= |rest|
    ensures Partial([d] + rest, m + 1, i + 1) == Weight(d) * Pow3(m) + Partial(rest, m, i)
  {
    if i > 0 {
      PartialCons(d, rest, m, i - 1);
      assert ([d] + rest)[i] == rest[i - 1];
    }
  }

  /** Value of a stream with a leading digit d. */
  lemma ValueCons(d: nat, rest: seq<nat>)
    ensures Value([d] + rest) == Weight(d) * Pow3(|rest|) + Value(rest)
  {
    PartialCons(d, rest, |rest|, |rest|);
  }

  /** Partial sums only look at the first n digits. */
  lemma {:induction false} PartialPrefix(ds: seq<nat>, n: nat, i: nat)
    requires i <= n <= |ds|
    ensures Partial(ds, n, i) == Partial(ds[..n], n, i)
  {
    if i > 0 {
      PartialPrefix(ds, n, i - 1);
    }
  }

  /** Changing the leading digit of a stream from d to e moves its value by
      (Weight(e) - Weight(d)) times the leading place value. */
  lemma ValueReplaceHead(ds: seq<nat>, e: nat)
    requires |ds| >= 1
    ensures Value(ds[0 := e]) == Value(ds) + (Weight(e) - Weight(ds[0])) * Pow3(|ds| - 1)
  {
    var rest := ds[1..];
    assert ds[0 := e] == [e] + rest;
    assert ds == [ds[0]] + rest;
    ValueCons(ds[0], rest);
    ValueCons(e, rest);
  }

  /** Emitted digits and residue together always account for v exactly. */
  lemma {:induction false} TritsValue(v: int, n: nat)
    decreases n
    ensures Value(Trits(v, n)) + Residue(v, n) == v
  {
    if n > 0 {
      var p := Pow3(n - 1);
      var r := Remainder(v, p);
      TritsValue(r, n - 1);
      ValueCons(Digit(v, p), Trits(r, n - 1));
    }
  }

  /** One digit step at odd place value p = 2k + 1 maps the range of one
      more digit, [-(3k + 1), 3k + 1], into [-k, k]. */
  lemma RemainderRange(v: int, p: nat, k: int)
    requires k >= 0 && p == 2 * k + 1
    requires -(3 * k + 1) <= v <= 3 * k + 1
    ensures -k <= Remainder(v, p) <= k
  {
    assert Half(p) == k + 1;
  }

  /** The place value 3^(n-1) and the ranges of n - 1 and n digits:
      p = 2·Bound(n-1) + 1 and Bound(n) = 3·Bound(n-1) + 1. */
  lemma BoundStep(n: nat)
    requires n >= 1
    ensures Pow3(n - 1) == 2 * Bound(n - 1) + 1
    ensures Bound(n) == 3 * Bound(n - 1) + 1
  {
    var p := Pow3(n - 1);
    assert Pow3(n) == 3 * p;
    HalfOfOdd(p);
  }

  /** For odd p with k = (p - 1) / 2: p = 2k + 1 and (3p - 1) / 2 = 3k + 1. */
  lemma HalfOfOdd(p: int)
    requires p % 2 == 1
    ensures p == 2 * ((p - 1) / 2) + 1 && (3 * p - 1) / 2 == 3 * ((p - 1) / 2) + 1
  {
    var k := (p - 1) / 2;
    assert p == 2 * k + 1;
    assert 3 * p - 1 == 2 * (3 * k + 1);
  }

  /** One digit step keeps a value inside the range of the remaining digits. */
  lemma StepBound(v: int, n: nat)
    requires n >= 1
    requires -Bound(n) <= v <= Bound(n)
    ensures -Bound(n - 1) <= Remainder(v, Pow3(n - 1)) <= Bound(n - 1)
  {
    BoundStep(n);
    RemainderRange(v, Pow3(n - 1), Bound(n - 1));
  }

  /** Inside the representable range the encoder's loop leaves nothing over. */
  lemma {:induction false} ResidueZero(v: int, n: nat)
    requires -Bound(n) <= v <= Bound(n)
    decreases n
    ensures Residue(v, n) == 0
  {
    if n > 0 {
      StepBound(v, n);
      ResidueZero(Remainder(v, Pow3(n - 1)), n - 1);
    }
  }

  /** Inside the representable range the digits spell v exactly, so the
      decoder's accumulation over them gives v back. */
  lemma TritsExact(v: int, n: nat)
    requires -Bound(n) <= v <= Bound(n)
    ensures Value(Trits(v, n)) == v
  {
    TritsValue(v, n);
    ResidueZero(v, n);
  }
}
