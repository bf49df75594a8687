/** The integer part of `get_zone_by_xy`: grid pair and level to zone code.

    Two floating-point values enter this part. The sign test on the cell
    centre's longitude (`z_loc_x == -180 || z_loc_x >= 0`) is the parameter
    `east`; on the seam the source forces the longitude to -180, so there the
    test holds whatever `east` says. The digit threshold
    `(h_pow / 2.0).ceil` is taken as the exact integer ceiling `Half`, which
    is what the float gives while 3^(level+2) < 2^53, that is up to level 31. */
module Encoder {
  import opened Ternary
  import opened Edge
  import opened Text

  /** The x and y digit streams of a code, side by side. */
  datatype Streams = Streams(xs: seq<nat>, ys: seq<nat>)

  predicate WellFormed(s: Streams, n: nat)
  {
    |s.xs| == n && |s.ys| == n &&
    (forall i :: 0 <= i < n ==> s.xs[i] <= 2) &&
    (forall i :: 0 <= i < n ==> s.ys[i] <= 2)
  }

  /** The pair the digit loop starts from: on the seam the smaller
      coordinate goes first. */
  function SeamPair(x: int, y: int, level: nat): (p: (int, int))
    ensures p.0 + p.1 == x + y && Abs(p.0 - p.1) == Abs(x - y)
    ensures Abs(x - y) == MaxSteps(level) ==> p.0 < p.1
    ensures Abs(x - y) != MaxSteps(level) ==> p == (x, y)
  {
    if Abs(x - y) == MaxSteps(level) && x > y then (y, x) else (x, y)
  }

  /** Whether the position-2 correction is enabled: always on the seam,
      where the longitude is forced to -180, and elsewhere as the longitude
      test says. */
  function EastOrSeam(x: int, y: int, level: nat, east: bool): (e: bool)
    ensures Abs(x - y) == MaxSteps(level) ==> e
    ensures Abs(x - y) != MaxSteps(level) ==> e == east
  {
    east || Abs(x - y) == MaxSteps(level)
  }

  /** Whether the position-2 correction rewrites the first digit pair. */
  predicate CorrectionFires(s: Streams, enabled: bool)
    requires |s.xs| >= 3 && |s.ys| >= 3
  {
    enabled && s.xs[1] == s.ys[1] && s.xs[2] == s.ys[2] &&
    ((s.xs[0] == 2 && s.ys[0] == 1) || (s.xs[0] == 1 && s.ys[0] == 0))
  }

  /** The position-2 correction: the first pair (2,1) becomes (1,2) and
      (1,0) becomes (0,1) when the next two pairs are equal digits. */
  function Correct(s: Streams, enabled: bool): (c: Streams)
    requires |s.xs| >= 3 && |s.ys| >= 3
    ensures |c.xs| == |s.xs| && |c.ys| == |s.ys|
    ensures c.xs == s.xs[0 := c.xs[0]] && c.ys == s.ys[0 := c.ys[0]]
  {
    if enabled && s.xs[0] == 2 && s.ys[0] == 1 && s.xs[1] == s.ys[1] && s.xs[2] == s.ys[2] then
      Streams(s.xs[0 := 1], s.ys[0 := 2])
    else if enabled && s.xs[0] == 1 && s.ys[0] == 0 && s.xs[1] == s.ys[1] && s.xs[2] == s.ys[2] then
      Streams(s.xs[0 := 0], s.ys[0 := 1])
    else
      s
  }

  /** The correction changes the streams exactly when it fires, and then
      moves the first x digit down by one and the first y digit up by one. */
  lemma CorrectionEffect(s: Streams, enabled: bool)
    requires |s.xs| >= 3 && |s.ys| >= 3
    ensures var c := Correct(s, enabled);
            (CorrectionFires(s, enabled) <==> c != s) &&
            (CorrectionFires(s, enabled) ==> c.xs[0] + 1 == s.xs[0] && c.ys[0] == s.ys[0] + 1)
  {
    var c := Correct(s, enabled);
    if CorrectionFires(s, enabled) {
      assert c.xs[0] != s.xs[0];
    }
  }

  /** The digit streams of the code for (x, y) at a level. */
  function CodeStreams(x: int, y: int, level: nat, east: bool): (c: Streams)
    ensures WellFormed(c, level + 3)
  {
    var (hx, hy) := SeamPair(x, y, level);
    var s := Streams(Trits(hx, level + 3), Trits(hy, level + 3));
    Correct(s, EastOrSeam(x, y, level, east))
  }

  /** `"#{xd}#{yd}".to_i(3).to_s` for each pair: one base-9 digit per position. */
  function Pack(s: Streams): (r: string)
    requires |s.ys| == |s.xs|
    requires forall i :: 0 <= i < |s.xs| ==> s.xs[i] <= 2 && s.ys[i] <= 2
    ensures |r| == |s.xs|
    ensures forall i :: 0 <= i < |r| ==> '0' <= r[i] <= '8' && CharToI(r[i]) == 3 * s.xs[i] + s.ys[i]
  {
    seq(|s.xs|, i requires 0 <= i < |s.xs| => DigitChar(3 * s.xs[i] + s.ys[i]))
  }

  predicate Base9Digits(s: string)
  {
    forall i :: 0 <= i < |s| ==> '0' <= s[i] <= '8'
  }

  /** The first three base-9 digits read as a decimal number: `h_code[0, 3].to_i`. */
  function Prefix(s: string): (v: nat)
    requires |s| >= 3 && Base9Digits(s)
    ensures v <= 888
    ensures v == 100 * CharToI(s[0]) + 10 * CharToI(s[1]) + CharToI(s[2])
  {
    var p := s[..3];
    assert p[..2][..1][..0] == [];
    assert DecimalValue(p[..2][..1]) == CharToI(s[0]);
    assert DecimalValue(p[..2]) == 10 * CharToI(s[0]) + CharToI(s[1]);
    DecimalValue(p)
  }

  /** The code: two key letters for the prefix (value / 30 and value % 30),
      then the remaining base-9 digits unchanged. */
  function Assemble(s: string): (code: string)
    requires |s| >= 3 && Base9Digits(s)
    ensures |code| == |s| - 1
    ensures code[0] in HKey[..30] && code[1] in HKey[..30]
    ensures code[0] == HKey[Prefix(s) / 30] && code[1] == HKey[Prefix(s) % 30]
    ensures code[2..] == s[3..]
  {
    var v := Prefix(s);
    HKeyAt(v / 30);
    [HKey[v / 30], HKey[v % 30]] + s[3..]
  }

  /** The code `get_zone_by_xy` builds for (x, y) at a level. */
  function EncodeCode(x: int, y: int, level: nat, east: bool): (code: string)
    ensures |code| == level + 2
    ensures code[0] in HKey[..30] && code[1] in HKey[..30]
    ensures forall i :: 2 <= i < |code| ==> '0' <= code[i] <= '8'
  {
    var s := Pack(CodeStreams(x, y, level, east));
    var code := Assemble(s);
    assert forall i :: 2 <= i < |code| ==> code[i] == s[i + 1];
    code
  }

  /** Appending a digit pair commutes with the correction, which only
      reads and writes the first three positions. */
  lemma CorrectAppend(s: Streams, enabled: bool, d: nat, e: nat)
    requires |s.xs| >= 3 && |s.ys| >= 3
    ensures var c := Correct(s, enabled);
            Correct(Streams(s.xs + [d], s.ys + [e]), enabled) == Streams(c.xs + [d], c.ys + [e])
  {
    var t := Streams(s.xs + [d], s.ys + [e]);
    assert t.xs[..3] == s.xs[..3] && t.ys[..3] == s.ys[..3];
    assert t.xs[1..] == s.xs[1..] + [d] && t.ys[1..] == s.ys[1..] + [e];
  }

  /** The running remainder of the digit loop after i of n steps. */
  function RemAfter(v: int, n: nat, i: nat): int
    requires i <= n
  {
    if i == 0 then v else Remainder(RemAfter(v, n, i - 1), Pow3(n - i))
  }

  /** The first i digits the loop emits. */
  function DigitsUpTo(v: int, n: nat, i: nat): (ds: seq<nat>)
    requires i <= n
    ensures |ds| == i
  {
    if i == 0 then [] else DigitsUpTo(v, n, i - 1) + [Digit(RemAfter(v, n, i - 1), Pow3(n - i))]
  }

  /** Digits emitted so far and those still to come make up the whole stream. */
  lemma {:induction false} DigitsUpToTrits(v: int, n: nat, i: nat)
    requires i <= n
    ensures DigitsUpTo(v, n, i) + Trits(RemAfter(v, n, i), n - i) == Trits(v, n)
  {
    if i > 0 {
      DigitsUpToTrits(v, n, i - 1);
      var r := RemAfter(v, n, i - 1);
      var p := Pow3(n - i);
      assert Trits(r, n - (i - 1)) == [Digit(r, p)] + Trits(Remainder(r, p), n - i);
    }
  }

  /** One digit of the loop, the same rule for x and y: digit 2 and
      subtract the place value at or above half of it, digit 0 and add it at
      or below minus half, digit 1 otherwise. */
  method DigitStep(v: int, pow: nat) returns (d: nat, rest: int)
    ensures d == Digit(v, pow) && rest == Remainder(v, pow)
    ensures d <= 2 && rest == v - Weight(d) * pow
  {
    var half := Half(pow);
    if v >= half {
      d, rest := 2, v - pow;
    } else if v <= -half {
      d, rest := 0, v + pow;
    } else {
      d, rest := 1, v;
    }
  }

  /** The position-2 correction, applied in place to the first digit pair. */
  method CorrectFirstPair(code3x: array<nat>, code3y: array<nat>, enabled: bool)
    requires code3x.Length >= 3 && code3y.Length >= 3 && code3x != code3y
    modifies code3x, code3y
    ensures Streams(code3x[..3], code3y[..3]) == Correct(Streams(old(code3x[..3]), old(code3y[..3])), enabled)
    ensures code3x[3..] == old(code3x[3..]) && code3y[3..] == old(code3y[3..])
  {
    ghost var s := Streams(code3x[..3], code3y[..3]);
    if enabled {
      if code3x[0] == 2 && code3y[0] == 1 && code3x[1] == code3y[1] && code3x[2] == code3y[2] {
        code3x[0] := 1;
        code3y[0] := 2;
      } else if code3x[0] == 1 && code3y[0] == 0 && code3x[1] == code3y[1] && code3x[2] == code3y[2] {
        code3x[0] := 0;
        code3y[0] := 1;
      }
    }
    assert code3x[..3] == [code3x[0]] + s.xs[1..] && code3y[..3] == [code3y[0]] + s.ys[1..];
  }

  /** Step i of the digit loop for both coordinates at place value
      3^(n-1-i): the two digits and the two new running remainders. */
  method NextDigits(hx: int, hy: int, n: nat, i: nat, modX: int, modY: int)
    returns (dx: nat, dy: nat, nextX: int, nextY: int)
    requires i < n && modX == RemAfter(hx, n, i) && modY == RemAfter(hy, n, i)
    ensures dx == Digit(RemAfter(hx, n, i), Pow3(n - 1 - i)) && dy == Digit(RemAfter(hy, n, i), Pow3(n - 1 - i))
    ensures nextX == RemAfter(hx, n, i + 1) && nextY == RemAfter(hy, n, i + 1)
  {
    var pow := Pow3(n - 1 - i);
    dx, nextX := DigitStep(modX, pow);
    dy, nextY := DigitStep(modY, pow);
  }

  /** The digit pairs the loop has written after i of n steps: the
      emitted digits, corrected once position 2 is written. */
  ghost function Emitted(hx: int, hy: int, n: nat, i: nat, enabled: bool): Streams
    requires i <= n
  {
    var s := Streams(DigitsUpTo(hx, n, i), DigitsUpTo(hy, n, i));
    if i < 3 then s else Correct(s, enabled)
  }

  /** One step of the digit loop: append the next digit pair, and apply the
      correction when the pair at position 2 has just been written. */
  lemma EmittedStep(hx: int, hy: int, n: nat, i: nat, enabled: bool)
    requires i < n
    ensures var e := Emitted(hx, hy, n, i, enabled);
            var t := Streams(e.xs + [Digit(RemAfter(hx, n, i), Pow3(n - 1 - i))],
                             e.ys + [Digit(RemAfter(hy, n, i), Pow3(n - 1 - i))]);
            Emitted(hx, hy, n, i + 1, enabled) == if i == 2 then Correct(t, enabled) else t
  {
    if i >= 3 {
      var dx := Digit(RemAfter(hx, n, i), Pow3(n - 1 - i));
      var dy := Digit(RemAfter(hy, n, i), Pow3(n - 1 - i));
      CorrectAppend(Streams(DigitsUpTo(hx, n, i), DigitsUpTo(hy, n, i)), enabled, dx, dy);
    }
  }

  /** After all n steps the loop has written the corrected streams. */
  lemma EmittedAll(hx: int, hy: int, n: nat, enabled: bool)
    requires n >= 3
    ensures Emitted(hx, hy, n, n, enabled) == Correct(Streams(Trits(hx, n), Trits(hy, n)), enabled)
  {
    DigitsUpToTrits(hx, n, n);
    DigitsUpToTrits(hy, n, n);
  }

  /** The body of the digit loop: write pair i, then apply the correction
      when position 2 has just been written. */
  method WritePair(code3x: array<nat>, code3y: array<nat>, i: nat, dx: nat, dy: nat, enabled: bool)
    requires i < code3x.Length && i < code3y.Length && code3x != code3y
    modifies code3x, code3y
    ensures var t := Streams(old(code3x[..i]) + [dx], old(code3y[..i]) + [dy]);
            Streams(code3x[..i + 1], code3y[..i + 1]) == if i == 2 then Correct(t, enabled) else t
    ensures code3x[i + 1..] == old(code3x[i + 1..]) && code3y[i + 1..] == old(code3y[i + 1..])
  {
    ghost var prefix := Streams(code3x[..i], code3y[..i]);
    code3x[i] := dx;
    code3y[i] := dy;
    assert code3x[..i + 1] == prefix.xs + [dx] && code3y[..i + 1] == prefix.ys + [dy];
    if i == 2 {
      CorrectFirstPair(code3x, code3y, enabled);
    }
  }

  /** The digit loop of `get_zone_by_xy`: fills `code3_x` and `code3_y` and
      applies the position-2 correction once position 2 is written. */
  method DigitLoop(hx: int, hy: int, level: nat, enabled: bool) returns (code3x: array<nat>, code3y: array<nat>)
    ensures Streams(code3x[..], code3y[..])
            == Correct(Streams(Trits(hx, level + 3), Trits(hy, level + 3)), enabled)
  {
    var n := level + 3;
    code3x := new nat[n];
    code3y := new nat[n];
    var modX, modY := hx, hy;
    var i := 0;
    while i < n
      invariant 0 <= i <= n
      invariant modX == RemAfter(hx, n, i) && modY == RemAfter(hy, n, i)
      invariant Streams(code3x[..i], code3y[..i]) == Emitted(hx, hy, n, i, enabled)
    {
      var dx, dy;
      dx, dy, modX, modY := NextDigits(hx, hy, n, i, modX, modY);
      WritePair(code3x, code3y, i, dx, dy, enabled);
      EmittedStep(hx, hy, n, i, enabled);
      i := i + 1;
    }
    EmittedAll(hx, hy, n, enabled);
    assert code3x[..n] == code3x[..] && code3y[..n] == code3y[..];
  }

  /** The packing loop: one base-9 digit character per position. */
  method PackLoop(code3x: array<nat>, code3y: array<nat>) returns (hCode: string)
    requires code3y.Length == code3x.Length
    requires forall i :: 0 <= i < code3x.Length ==> code3x[i] <= 2 && code3y[i] <= 2
    ensures hCode == Pack(Streams(code3x[..], code3y[..]))
  {
    hCode := "";
    var i := 0;
    while i < code3x.Length
      invariant 0 <= i <= code3x.Length
      invariant hCode == Pack(Streams(code3x[..i], code3y[..i]))
    {
      hCode := hCode + [DigitChar(3 * code3x[i] + code3y[i])];
      i := i + 1;
    }
    assert code3x[..i] == code3x[..] && code3y[..i] == code3y[..];
  }

  /** The seam step of `get_zone_by_xy`: on the seam the pair is put in
      increasing order and the longitude is forced to -180, which enables
      the correction. */
  method SeamSwap(x: int, y: int, level: nat, east: bool) returns (hx: int, hy: int, enabled: bool)
    ensures (hx, hy) == SeamPair(x, y, level) && enabled == EastOrSeam(x, y, level, east)
    ensures Abs(hx - hy) == MaxSteps(level) ==> hx < hy
  {
    hx, hy := x, y;
    enabled := east;
    if Abs(hx - hy) == MaxSteps(level) {
      if hx > hy {
        hx, hy := hy, hx;
      }
      enabled := true;
    }
  }

  /** The last step of `get_zone_by_xy`: the first three digits become two
      key letters. */
  method LetterCode(hCode: string) returns (code: string)
    requires |hCode| >= 3 && Base9Digits(hCode)
    ensures code == Assemble(hCode)
    ensures KeyIndex(code[0]).Some? && KeyIndex(code[1]).Some?
    ensures KeyIndex(code[0]).value * 30 + KeyIndex(code[1]).value == DecimalValue(hCode[..3])
  {
    var h2 := hCode[3..];
    var h1 := DecimalValue(hCode[..3]);
    assert h1 == Prefix(hCode);
    var a1 := h1 / 30;
    var a2 := h1 % 30;
    HKeyAt(a1);
    code := [HKey[a1], HKey[a2]] + h2;
    LetterPairRoundTrip(h1);
  }

  /** The integer part of `get_zone_by_xy`: the seam swap, the digit loop,
      the packing loop and the two key letters. */
  method ZoneCode(x: int, y: int, level: nat, east: bool) returns (code: string)
    ensures code == EncodeCode(x, y, level, east)
    ensures |code| == level + 2
  {
    var hx, hy, enabled := SeamSwap(x, y, level, east);
    var code3x, code3y := DigitLoop(hx, hy, level, enabled);
    assert WellFormed(Streams(code3x[..], code3y[..]), level + 3);
    var hCode := PackLoop(code3x, code3y);
    assert hCode == Pack(CodeStreams(x, y, level, east));
    code := LetterCode(hCode);
  }

  /** The two key letters give the three-digit prefix back through `index`:
      H_KEY.index(H_KEY[v / 30]) * 30 + H_KEY.index(H_KEY[v % 30]) == v. */
  lemma LetterPairRoundTrip(v: nat)
    requires v <= 888
    ensures KeyIndex(HKey[v / 30]).Some? && KeyIndex(HKey[v % 30]).Some?
    ensures KeyIndex(HKey[v / 30]).value * 30 + KeyIndex(HKey[v % 30]).value == v
  {
    KeyIndexOfKey(v / 30);
    KeyIndexOfKey(v % 30);
  }

  /** On the seam the two coordinate orders give the same code, whatever the
      longitude test would have said. */
  lemma SeamSymmetry(x: int, y: int, level: nat, east1: bool, east2: bool)
    requires Abs(x - y) == MaxSteps(level)
    ensures EncodeCode(x, y, level, east1) == EncodeCode(y, x, level, east2)
  {
    assert Abs(y - x) == Abs(x - y);
    assert SeamPair(x, y, level) == SeamPair(y, x, level);
  }

  /** The digit streams of the test vector (-60, 366) at level 4. */
  lemma StreamsRU6064()
    ensures CodeStreams(-60, 366, 4, false) == Streams([1, 1, 0, 2, 0, 2, 1], [2, 0, 0, 0, 0, 0, 1])
  {
    assert MaxSteps(4) == 729;
    assert Pow3(6) == 729 && Pow3(5) == 243 && Pow3(4) == 81 && Pow3(3) == 27;
    assert Trits(-60, 7) == [1, 1, 0, 2, 0, 2, 1];
    assert Trits(366, 7) == [2, 0, 0, 0, 0, 0, 1];
  }

  /** The packed base-9 digits of the test vector. */
  lemma PackRU6064()
    ensures Pack(Streams([1, 1, 0, 2, 0, 2, 1], [2, 0, 0, 0, 0, 0, 1])) == "5306064"
  {
    var q := Pack(Streams([1, 1, 0, 2, 0, 2, 1], [2, 0, 0, 0, 0, 0, 1]));
    assert q[0] == DigitChar(5) == '5';
    assert q[1] == DigitChar(3) == '3';
    assert q[2] == DigitChar(0) == '0';
    assert q[3] == DigitChar(6) == '6';
    assert q[4] == '0' && q[5] == '6';
    assert q[6] == DigitChar(4) == '4';
  }

  /** The test vector: (-60, 366) at level 4, west of the meridian, is "RU6064". */
  lemma EncodeRU6064()
    ensures EncodeCode(-60, 366, 4, false) == "RU6064"
  {
    StreamsRU6064();
    PackRU6064();
    AssembleRU6064();
  }

  /** The prefix 530 is 17 · 30 + 20, the letters R and U. */
  lemma AssembleRU6064()
    ensures Assemble("5306064") == "RU6064"
  {
    var p := "5306064";
    assert CharToI(p[0]) == 5 && CharToI(p[1]) == 3 && CharToI(p[2]) == 0;
    assert Prefix(p) == 530;
    HKeyAt(17);
    HKeyAt(20);
  }
}
