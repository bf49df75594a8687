/** `get_xy_by_code`: zone code back to a grid pair.

    The source has no error handling. A code shorter than two characters, or a
    first or second character outside the key, makes `H_KEY.index` return nil
    and the arithmetic on it raises. A short digit string can make the remap
    test read past its end and raise. Here each of these is an `Err`. */
module Decoder {
  import opened Ternary
  import opened Edge
  import opened Text

  datatype Grid = Grid(x: int, y: int)

  datatype DecodeError =
    | CodeTooShort   // fewer than two characters
    | UnknownLetter  // code[0] or code[1] is not in the key
    | MissingDigit   // the remap test reads a character past the end

  datatype Result<T> = Ok(value: T) | Err(error: DecodeError)

  /** `h_dec9` as first built: the letter value in decimal (no leading
      zeros), then the rest of the code. */
  function Dec9(code: string): (r: Result<string>)
    ensures r.Ok? ==> |code| >= 2 && |r.value| >= 1 && |r.value| >= |code| - 1
  {
    if |code| < 2 then Err(CodeTooShort)
    else
      match (KeyIndex(code[0]), KeyIndex(code[1]))
      case (Some(a), Some(b)) => Ok(DecimalString(a * 30 + b) + code[2..])
      case _ => Err(UnknownLetter)
  }

  /** The first digit rewritten: 5 becomes 7, 1 becomes 3. */
  function RemapFirst(s: string): (r: string)
    requires |s| >= 1
    ensures |r| == |s| && r[1..] == s[1..]
  {
    if s[0] == '5' then "7" + s[1..] else if s[0] == '1' then "3" + s[1..] else s
  }

  /** The remap condition: first digit 1 or 5, next two digits not 1, 2 or 5. */
  predicate RemapApplies(s: string)
    requires |s| >= 3
  {
    (s[0] == '1' || s[0] == '5') && s[1] !in "125" && s[2] !in "125"
  }

  /** The remap on a string long enough for the test to read three digits. */
  function Remap(s: string): (r: string)
    requires |s| >= 3
    ensures |r| == |s|
  {
    if RemapApplies(s) then RemapFirst(s) else s
  }

  /** The remap test as the source evaluates it, on a string of any length:
      the second and third characters are only read when the earlier tests
      passed, and reading one past the end raises. */
  function RemapChecked(s: string): (r: Result<string>)
    requires |s| >= 1
    ensures r.Ok? ==> |r.value| == |s|
    ensures |s| >= 3 ==> r == Ok(Remap(s))
  {
    if s[0] != '1' && s[0] != '5' then Ok(s)
    else if |s| < 2 then Err(MissingDigit)
    else if s[1] in "125" then Ok(s)
    else if |s| < 3 then Err(MissingDigit)
    else if s[2] in "125" then Ok(s)
    else Ok(RemapFirst(s))
  }

  /** Zeros prepended until the string is n characters long. */
  function PadZeros(s: string, n: nat): (r: string)
    ensures |r| == if |s| >= n then |s| else n
  {
    if |s| >= n then s else Zeros(n - |s|) + s
  }

  /** `h_dec9[i].to_i.to_s(3)`, with a zero in front when it is one
      character long. */
  function TernaryPair(c: char): (t: string)
    ensures |t| >= 2
    ensures forall i :: 0 <= i < |t| ==> '0' <= t[i] <= '2'
  {
    var t := Base3String(CharToI(c));
    if |t| == 1 then "0" + t else t
  }

  /** `h_dec3`: the ternary pairs of every character, concatenated. */
  function Dec3(s: string): (t: string)
    ensures |t| >= 2 * |s|
  {
    if s == [] then [] else Dec3(s[..|s| - 1]) + TernaryPair(s[|s| - 1])
  }

  /** `h_decx`: the characters of `h_dec3` at even positions, as integers. */
  function EvenDigits(t: string): (ds: seq<nat>)
    ensures |ds| == |t| / 2
  {
    seq(|t| / 2, i requires 0 <= i < |t| / 2 => CharToI(t[2 * i]))
  }

  /** `h_decy`: the characters of `h_dec3` at odd positions, as integers. */
  function OddDigits(t: string): (ds: seq<nat>)
    ensures |ds| == |t| / 2
  {
    seq(|t| / 2, i requires 0 <= i < |t| / 2 => CharToI(t[2 * i + 1]))
  }

  /** The i-th x and y digits are read from characters 2i and 2i + 1. */
  lemma SplitDigitAt(t: string, i: nat)
    requires i < |t| / 2
    ensures EvenDigits(t)[i] == CharToI(t[2 * i]) && OddDigits(t)[i] == CharToI(t[2 * i + 1])
  {
  }

  /** The accumulation over the first level + 3 digit pairs of a padded
      digit string, then `adjust_xy`. */
  function Finish(d9: string, level: nat): (g: Grid)
    requires |d9| >= level + 3
    ensures Canonical(g.x, g.y, level)
  {
    var t := Dec3(d9);
    var n := level + 3;
    var x := Value(EvenDigits(t)[..n]);
    var y := Value(OddDigits(t)[..n]);
    AdjustLandsCanonical(x, y, level);
    var a := AdjustXY(x, y, level);
    Grid(a.x, a.y)
  }

  /** `get_xy_by_code` as written: remap on the unpadded digit string, then
      pad to level + 3 digits. */
  function GetXYByCodeAsWritten(code: string): (r: Result<Grid>)
    ensures r.Ok? ==> |code| >= 2 && Canonical(r.value.x, r.value.y, |code| - 2)
  {
    match Dec9(code)
    case Err(e) => Err(e)
    case Ok(u) =>
      match RemapChecked(u)
      case Err(e) => Err(e)
      case Ok(r) => Ok(Finish(PadZeros(r, |code| + 1), |code| - 2))
  }

  /** The decoder with the two steps in the intended order: pad to
      level + 3 digits first, so that the remap test always reads the
      first three base-9 digits the encoder wrote. */
  function GetXYByCodeFixed(code: string): (r: Result<Grid>)
    ensures r.Err? <==> |code| < 2 || KeyIndex(code[0]).None? || KeyIndex(code[1]).None?
    ensures r.Err? ==> r.error != MissingDigit
    ensures r.Ok? ==> |code| >= 2 && Canonical(r.value.x, r.value.y, |code| - 2)
  {
    match Dec9(code)
    case Err(e) => Err(e)
    case Ok(u) => Ok(Finish(Remap(PadZeros(u, |code| + 1)), |code| - 2))
  }

  /** The two decoders differ only in the order of remap and padding, so
      they agree whenever the letter value already has three digits. */
  lemma DecodersAgreeOnFullPrefix(code: string)
    requires |code| >= 2 && KeyIndex(code[0]).Some? && KeyIndex(code[1]).Some?
    requires KeyIndex(code[0]).value * 30 + KeyIndex(code[1]).value >= 100
    ensures GetXYByCodeAsWritten(code) == GetXYByCodeFixed(code)
  {
    var v := KeyIndex(code[0]).value * 30 + KeyIndex(code[1]).value;
    DecimalStringLength(v);
  }

  /** A number of at least 100 has at least three decimal digits. */
  lemma DecimalStringLength(v: nat)
    ensures v >= 100 ==> |DecimalString(v)| >= 3
  {
    if v >= 100 {
      assert DecimalString(v) == DecimalString(v / 10) + [DigitChar(v % 10)];
      assert DecimalString(v / 10) == DecimalString(v / 100) + [DigitChar((v / 10) % 10)];
    }
  }

  /** The as-written decoder fails wherever the corrected one does, with
      the same error, and beyond that only when the remap test reads a
      missing digit, which needs a code of at most three characters. */
  lemma DecodeErrors(code: string)
    ensures GetXYByCodeFixed(code).Err? ==> GetXYByCodeAsWritten(code) == GetXYByCodeFixed(code)
    ensures GetXYByCodeAsWritten(code) == Err(MissingDigit) ==>
              GetXYByCodeFixed(code).Ok? && |code| <= 3
  {
  }

  /** Appending one character to the decoded string appends its ternary pair. */
  lemma Dec3Snoc(s: string, c: char)
    ensures Dec3(s + [c]) == Dec3(s) + TernaryPair(c)
  {
    assert (s + [c])[..|s|] == s;
  }

  /** `h_dec3` after i + 1 characters extends `h_dec3` after i by the
      pair of character i. */
  lemma Dec3Step(s: string, i: nat)
    requires i < |s|
    ensures Dec3(s[..i + 1]) == Dec3(s[..i]) + TernaryPair(s[i])
  {
    assert s[..i + 1] == s[..i] + [s[i]];
    Dec3Snoc(s[..i], s[i]);
  }

  /** The padding loop of `get_xy_by_code`. */
  method PadLoop(h: string, level: nat) returns (hDec9: string)
    ensures hDec9 == PadZeros(h, level + 3)
  {
    hDec9 := h;
    var d9xlen := |h|;
    var k := 0;
    while k < level + 3 - |h|
      invariant 0 <= k && (k <= level + 3 - |h| || k == 0)
      invariant hDec9 == Zeros(k) + h && d9xlen == |hDec9|
    {
      assert "0" + (Zeros(k) + h) == Zeros(k + 1) + h;
      hDec9 := "0" + hDec9;
      d9xlen := d9xlen + 1;
      k := k + 1;
    }
    assert |h| < level + 3 ==> k == level + 3 - |h|;
    assert |h| >= level + 3 ==> hDec9 == h;
  }

  /** The loop building `h_dec3`. */
  method TernaryLoop(hDec9: string) returns (hDec3: string)
    ensures hDec3 == Dec3(hDec9)
  {
    hDec3 := "";
    var i := 0;
    while i < |hDec9|
      invariant 0 <= i <= |hDec9|
      invariant hDec3 == Dec3(hDec9[..i])
    {
      var hDec0 := Base3String(CharToI(hDec9[i]));
      ghost var before := hDec3;
      if |hDec0| == 1 {
        hDec3 := hDec3 + "0";
      }
      hDec3 := hDec3 + hDec0;
      assert hDec3 == before + TernaryPair(hDec9[i]);
      Dec3Step(hDec9, i);
      i := i + 1;
    }
    assert hDec9[..i] == hDec9;
  }

  /** The loop splitting `h_dec3` into `h_decx` and `h_decy`. */
  method SplitLoop(hDec3: string) returns (hDecX: array<nat>, hDecY: array<nat>)
    ensures hDecX[..] == EvenDigits(hDec3) && hDecY[..] == OddDigits(hDec3)
  {
    var half := |hDec3| / 2;
    hDecX := new nat[half];
    hDecY := new nat[half];
    var i := 0;
    while i < half
      invariant 0 <= i <= half
      invariant hDecX[..i] == EvenDigits(hDec3)[..i]
      invariant hDecY[..i] == OddDigits(hDec3)[..i]
    {
      hDecX[i] := CharToI(hDec3[i * 2]);
      hDecY[i] := CharToI(hDec3[i * 2 + 1]);
      i := i + 1;
    }
  }

  /** The accumulation loop: for each position add or subtract its place
      value according to the digit. */
  method AccumulateLoop(hDecX: array<nat>, hDecY: array<nat>, level: nat) returns (hx: int, hy: int)
    requires hDecX.Length >= level + 3 && hDecY.Length >= level + 3
    ensures hx == Value(hDecX[..level + 3]) && hy == Value(hDecY[..level + 3])
  {
    var n := level + 3;
    hx, hy := 0, 0;
    var i := 0;
    while i <= level + 2
      invariant 0 <= i <= n
      invariant hx == Partial(hDecX[..n], n, i) && hy == Partial(hDecY[..n], n, i)
    {
      var pow := Pow3(level + 2 - i);
      if hDecX[i] == 0 {
        hx := hx - pow;
      } else if hDecX[i] == 2 {
        hx := hx + pow;
      }
      if hDecY[i] == 0 {
        hy := hy - pow;
      } else if hDecY[i] == 2 {
        hy := hy + pow;
      }
      assert hDecX[..n][i] == hDecX[i] && hDecY[..n][i] == hDecY[i];
      i := i + 1;
    }
  }

  /** Everything after the padding: ternary expansion, split, accumulation
      and `adjust_xy`. */
  method FinishSteps(hDec9: string, level: nat) returns (g: Grid)
    requires |hDec9| >= level + 3
    ensures g == Finish(hDec9, level)
  {
    var hDec3 := TernaryLoop(hDec9);
    var hDecX, hDecY := SplitLoop(hDec3);
    var hx, hy := AccumulateLoop(hDecX, hDecY, level);
    var adjusted := AdjustXY(hx, hy, level);
    g := Grid(adjusted.x, adjusted.y);
  }

  /** `get_xy_by_code`, step by step as the source runs it: `h_dec9`
      (line 114), the remap on the unpadded string (lines 116-122), the
      padding loop and the rest. */
  method GetXYByCode(code: string) returns (r: Result<Grid>)
    ensures r == GetXYByCodeAsWritten(code)
  {
    var d := Dec9(code);
    if d.Err? {
      return Err(d.error);
    }
    var level := |code| - 2;
    var checked := RemapChecked(d.value);
    if checked.Err? {
      return Err(checked.error);
    }
    var g := PadAndFinish(checked.value, level);
    AsWrittenOk(code);
    r := Ok(g);
  }

  /** The as-written decoder once both the letters and the remap test
      succeed. */
  lemma AsWrittenOk(code: string)
    requires Dec9(code).Ok? && RemapChecked(Dec9(code).value).Ok?
    ensures GetXYByCodeAsWritten(code) ==
              Ok(Finish(PadZeros(RemapChecked(Dec9(code).value).value, |code| - 2 + 3), |code| - 2))
  {
  }

  /** The padding loop followed by the rest of the decoder. */
  method PadAndFinish(h: string, level: nat) returns (g: Grid)
    ensures g == Finish(PadZeros(h, level + 3), level)
  {
    var hDec9 := PadLoop(h, level);
    g := FinishSteps(hDec9, level);
  }

  /** `get_xy_by_code` with the padding moved ahead of the remap. */
  method GetXYByCodeCorrected(code: string) returns (r: Result<Grid>)
    ensures r == GetXYByCodeFixed(code)
  {
    var d := Dec9(code);
    if d.Err? {
      return Err(d.error);
    }
    var level := |code| - 2;
    var hDec9 := PadLoop(d.value, level);
    hDec9 := Remap(hDec9);
    var g := FinishSteps(hDec9, level);
    r := Ok(g);
  }
}
