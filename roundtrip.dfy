/** How the encoder and the decoder fit together.

    Inside the lattice (both coordinates within the range that level + 3
    balanced-ternary digits can represent) and inside the diamond, decoding
    a code gives back the canonical pair `adjust_xy` picks. This holds with
    the corrected decoder, which pads before it remaps. The decoder as
    written agrees with it whenever the first base-9 digit of the code is
    not 0, and can return a different cell when that digit is 0. */
module RoundTrip {
  import opened Ternary
  import opened Edge
  import opened Text
  import opened Encoder
  import opened Decoder

  /** Both coordinates within what level + 3 digits represent. */
  predicate InLattice(x: int, y: int, level: nat)
  {
    -Bound(level + 3) <= x <= Bound(level + 3) && -Bound(level + 3) <= y <= Bound(level + 3)
  }

  // ---------------------------------------------------------------------
  // The letter prefix and the zero padding

  lemma DigitCharOfCharToI(c: char)
    requires '0' <= c <= '9'
    ensures DigitChar(CharToI(c)) == c
  {
  }

  /** Writing the prefix value in decimal and padding to the full length
      gives the packed digits back, leading zeros included. */
  lemma PadRestoresPrefix(s: string)
    requires |s| >= 3 && Base9Digits(s)
    ensures PadZeros(DecimalString(Prefix(s)) + s[3..], |s|) == s
  {
    var a, b, c := CharToI(s[0]), CharToI(s[1]), CharToI(s[2]);
    var v := Prefix(s);
    DigitCharOfCharToI(s[0]);
    DigitCharOfCharToI(s[1]);
    DigitCharOfCharToI(s[2]);
    assert v % 10 == c && v / 10 == 10 * a + b;
    assert DecimalString(c) == [s[2]];
    if a > 0 {
      assert (10 * a + b) % 10 == b && (10 * a + b) / 10 == a;
      assert DecimalString(10 * a + b) == [s[0], s[1]];
      assert DecimalString(v) == [s[0], s[1], s[2]];
      assert s == [s[0], s[1], s[2]] + s[3..];
    } else if b > 0 {
      assert v == 10 * b + c;
      assert DecimalString(v) == [s[1], s[2]];
      assert s == Zeros(1) + ([s[1], s[2]] + s[3..]);
    } else {
      assert v == c;
      assert s == Zeros(2) + ([s[2]] + s[3..]);
    }
  }

  /** The decoder's first step on an encoded code: the letters give the
      prefix value back, followed by the remaining digits. */
  lemma Dec9OfAssemble(s: string)
    requires |s| >= 3 && Base9Digits(s)
    ensures Dec9(Assemble(s)) == Ok(DecimalString(Prefix(s)) + s[3..])
  {
    var code := Assemble(s);
    var v := Prefix(s);
    var a, b := v / 30, v % 30;
    assert a * 30 + b == v;
    Dec9OfLetters(code, a, b);
    assert code[2..] == s[3..];
  }

  /** The key letters at positions a and b read back as a · 30 + b. */
  lemma Dec9OfLetters(code: string, a: nat, b: nat)
    requires |code| >= 2 && a < 30 && b < 30
    requires code[0] == HKey[a] && code[1] == HKey[b]
    ensures Dec9(code) == Ok(DecimalString(a * 30 + b) + code[2..])
  {
    KeyIndexOfKey(a);
    KeyIndexOfKey(b);
  }

  // ---------------------------------------------------------------------
  // The remap seen on digit pairs

  /** The remap test on the first three digit pairs. A base-9 digit is 1, 2
      or 5 exactly when its pair is (0,1), (0,2) or (1,2). */
  predicate RemapFiresOn(c: Streams)
    requires |c.xs| >= 3 && |c.ys| >= 3
  {
    ((c.xs[0] == 0 && c.ys[0] == 1) || (c.xs[0] == 1 && c.ys[0] == 2)) &&
    !((c.xs[1] == 0 && c.ys[1] == 1) || (c.xs[1] == 0 && c.ys[1] == 2) || (c.xs[1] == 1 && c.ys[1] == 2)) &&
    !((c.xs[2] == 0 && c.ys[2] == 1) || (c.xs[2] == 0 && c.ys[2] == 2) || (c.xs[2] == 1 && c.ys[2] == 2))
  }

  /** The remap on digit pairs: (0,1) becomes (1,0) and (1,2) becomes (2,1). */
  function RemapStreams(c: Streams): (f: Streams)
    requires |c.xs| >= 3 && |c.ys| >= 3 && c.ys[0] <= 2
    ensures |f.xs| == |c.xs| && |f.ys| == |c.ys|
  {
    if RemapFiresOn(c) then Streams(c.xs[0 := c.xs[0] + 1], c.ys[0 := c.ys[0] - 1]) else c
  }

  lemma CharToIOfPack(c: Streams, k: nat)
    requires WellFormed(c, |c.xs|) && k < |c.xs|
    ensures Pack(c)[k] == DigitChar(3 * c.xs[k] + c.ys[k])
    ensures Pack(c)[k] in "125" <==>
              (c.xs[k] == 0 && c.ys[k] == 1) || (c.xs[k] == 0 && c.ys[k] == 2) || (c.xs[k] == 1 && c.ys[k] == 2)
  {
  }

  /** When the remap fires on the pairs, the string remap test passes on
      the packed string. */
  lemma RemapTestOnPack(c: Streams, n: nat)
    requires n >= 3 && WellFormed(c, n) && RemapFiresOn(c)
    ensures Remap(Pack(c)) == RemapFirst(Pack(c))
  {
    CharToIOfPack(c, 0);
    CharToIOfPack(c, 1);
    CharToIOfPack(c, 2);
  }

  /** The rewritten first character is the packed remapped pair:
      1 + 2 = 3 and 5 + 2 = 7. */
  lemma RemapFirstOnPack(c: Streams, n: nat)
    requires n >= 3 && WellFormed(c, n) && RemapFiresOn(c)
    ensures RemapFirst(Pack(c))[0] == Pack(RemapStreams(c))[0]
  {
    CharToIOfPack(c, 0);
    CharToIOfPack(RemapStreams(c), 0);
  }

  /** Past the first position the remapped pairs pack as before. */
  lemma PackRemapTail(c: Streams, n: nat, k: nat)
    requires n >= 3 && WellFormed(c, n) && 1 <= k < n
    ensures WellFormed(RemapStreams(c), n)
    ensures Pack(RemapStreams(c))[k] == Pack(c)[k]
  {
  }

  lemma RemapPackFires(c: Streams, n: nat)
    requires n >= 3 && WellFormed(c, n) && RemapFiresOn(c)
    ensures Remap(Pack(c)) == Pack(RemapStreams(c))
  {
    RemapTestOnPack(c, n);
    RemapFirstOnPack(c, n);
    var r := RemapFirst(Pack(c));
    forall k | 1 <= k < n
      ensures r[k] == Pack(RemapStreams(c))[k]
    {
      PackRemapTail(c, n, k);
    }
  }

  /** When the remap does not fire on the pairs, it leaves the packed
      string alone. */
  lemma RemapPackQuiet(c: Streams, n: nat)
    requires n >= 3 && WellFormed(c, n) && !RemapFiresOn(c)
    ensures Remap(Pack(c)) == Pack(c)
  {
    CharToIOfPack(c, 0);
    CharToIOfPack(c, 1);
    CharToIOfPack(c, 2);
  }

  /** Remapping the packed string is packing the remapped pairs. */
  lemma RemapPack(c: Streams, n: nat)
    requires n >= 3 && WellFormed(c, n)
    ensures WellFormed(RemapStreams(c), n)
    ensures Remap(Pack(c)) == Pack(RemapStreams(c))
  {
    if RemapFiresOn(c) {
      RemapPackFires(c, n);
    } else {
      RemapPackQuiet(c, n);
    }
  }

  // ---------------------------------------------------------------------
  // The base-3 split of base-9 digits

  /** For a base-9 digit the ternary pair is its two ternary digits. */
  lemma TernaryPairOfBase9(c: char)
    requires '0' <= c <= '8'
    ensures TernaryPair(c) == [DigitChar(CharToI(c) / 3), DigitChar(CharToI(c) % 3)]
  {
    var d := CharToI(c);
    if d >= 3 {
      assert Base3String(d / 3) == [DigitChar(d / 3)];
    }
  }

  /** `h_dec3` for a string of base-9 digits: two ternary digits per digit. */
  lemma {:induction false} Dec3OfBase9(s: string)
    requires Base9Digits(s)
    ensures |Dec3(s)| == 2 * |s|
    ensures forall i :: 0 <= i < |s| ==>
              Dec3(s)[2 * i] == DigitChar(CharToI(s[i]) / 3) &&
              Dec3(s)[2 * i + 1] == DigitChar(CharToI(s[i]) % 3)
  {
    if s != [] {
      var init := s[..|s| - 1];
      var last := s[|s| - 1];
      Dec3OfBase9(init);
      TernaryPairOfBase9(last);
      var head := Dec3(init);
      var t := Dec3(s);
      assert t == head + TernaryPair(last);
      forall i | 0 <= i < |s|
        ensures t[2 * i] == DigitChar(CharToI(s[i]) / 3) && t[2 * i + 1] == DigitChar(CharToI(s[i]) % 3)
      {
        if i < |s| - 1 {
          assert s[i] == init[i];
          assert t[2 * i] == head[2 * i] && t[2 * i + 1] == head[2 * i + 1];
        } else {
          assert t[2 * i] == TernaryPair(last)[0] && t[2 * i + 1] == TernaryPair(last)[1];
        }
      }
    }
  }

  /** The two ternary digits of a packed digit 3·a + b are a and b. */
  lemma DivMod3(a: nat, b: nat)
    requires b < 3
    ensures (3 * a + b) / 3 == a && (3 * a + b) % 3 == b
  {
  }

  /** The two ternary characters of the i-th packed pair, as the split
      reads them back. */
  lemma Dec3OfPackAt(f: Streams, n: nat, i: nat)
    requires WellFormed(f, n) && i < n
    ensures |Dec3(Pack(f))| == 2 * n
    ensures Dec3(Pack(f))[2 * i] == DigitChar(f.xs[i]) && Dec3(Pack(f))[2 * i + 1] == DigitChar(f.ys[i])
  {
    var s := Pack(f);
    Dec3OfBase9(s);
    var d := CharToI(s[i]);
    assert Dec3(s)[2 * i] == DigitChar(d / 3) && Dec3(s)[2 * i + 1] == DigitChar(d % 3);
    assert d == 3 * f.xs[i] + f.ys[i];
    DivMod3(f.xs[i], f.ys[i]);
    assert d / 3 == f.xs[i] && d % 3 == f.ys[i];
  }

  lemma SplitPackAt(f: Streams, n: nat, i: nat)
    requires WellFormed(f, n) && i < n
    ensures |Dec3(Pack(f))| == 2 * n
    ensures EvenDigits(Dec3(Pack(f)))[i] == f.xs[i] && OddDigits(Dec3(Pack(f)))[i] == f.ys[i]
  {
    Dec3OfPackAt(f, n, i);
    var t := Dec3(Pack(f));
    CharToIOfDigit(f.xs[i]);
    CharToIOfDigit(f.ys[i]);
    assert |t| / 2 == n;
    SplitDigitAt(t, i);
  }

  /** Splitting the ternary form of a packed string gives the pairs back. */
  lemma SplitPack(f: Streams, n: nat)
    requires WellFormed(f, n)
    ensures EvenDigits(Dec3(Pack(f)))[..n] == f.xs
    ensures OddDigits(Dec3(Pack(f)))[..n] == f.ys
  {
    var t := Dec3(Pack(f));
    if n > 0 {
      Dec3OfPackAt(f, n, 0);
    } else {
      assert |Pack(f)| == 0;
    }
    assert |EvenDigits(t)| >= n && |OddDigits(t)| >= n;
    forall i | 0 <= i < n
      ensures EvenDigits(t)[i] == f.xs[i] && OddDigits(t)[i] == f.ys[i]
    {
      SplitPackAt(f, n, i);
    }
    assert EvenDigits(t)[..n] == f.xs;
    assert OddDigits(t)[..n] == f.ys;
  }

  /** The decoder's last step on a packed string: the values of the pairs,
      then `adjust_xy`. */
  lemma FinishPack(f: Streams, level: nat)
    requires WellFormed(f, level + 3)
    ensures var a := AdjustXY(Value(f.xs), Value(f.ys), level);
            Finish(Pack(f), level) == Grid(a.x, a.y)
  {
    SplitPack(f, level + 3);
  }

  // ---------------------------------------------------------------------
  // The digit-level round trip

  /** The pair the digit loop starts from is the canonical pair of an
      in-diamond input. */
  lemma SeamPairIsAdjusted(x: int, y: int, level: nat)
    requires InDiamond(x, y, level)
    ensures var (hx, hy) := SeamPair(x, y, level);
            var a := AdjustXY(x, y, level);
            hx == a.x && hy == a.y && Canonical(hx, hy, level)
  {
  }

  /** The remap after a correction that fired restores the digits the
      correction changed: the two following pairs are equal digits, so
      neither base-9 digit is 1, 2 or 5. */
  lemma RemapUndoesCorrection(s: Streams, n: nat, enabled: bool)
    requires n >= 3 && WellFormed(s, n) && CorrectionFires(s, enabled)
    ensures RemapStreams(Correct(s, enabled)) == s
  {
    var c := Correct(s, enabled);
    CorrectionEffect(s, enabled);
    assert RemapFiresOn(c);
    var f := RemapStreams(c);
    assert f.xs == s.xs && f.ys == s.ys;
  }

  /** Without a correction, a remap that fires moves the pair values by
      (+M, -M). */
  lemma RemapHalfTurn(s: Streams, n: nat)
    requires n >= 3 && WellFormed(s, n) && RemapFiresOn(s)
    ensures var f := RemapStreams(s);
            Value(f.xs) == Value(s.xs) + Pow3(n - 1) && Value(f.ys) == Value(s.ys) - Pow3(n - 1)
  {
    ValueReplaceHead(s.xs, s.xs[0] + 1);
    ValueReplaceHead(s.ys, s.ys[0] - 1);
  }

  /** After the correction and the remap, the pair values are either the
      canonical pair itself or that pair moved by (+M, -M); either way
      `adjust_xy` returns the canonical pair. */
  lemma DigitRoundTrip(s: Streams, level: nat, enabled: bool)
    requires WellFormed(s, level + 3) && Canonical(Value(s.xs), Value(s.ys), level)
    ensures var f := RemapStreams(Correct(s, enabled));
            WellFormed(f, level + 3) &&
            var a := AdjustXY(Value(f.xs), Value(f.ys), level);
            a.x == Value(s.xs) && a.y == Value(s.ys)
  {
    var n := level + 3;
    var c := Correct(s, enabled);
    CorrectionEffect(s, enabled);
    RemapPack(c, n);
    var f := RemapStreams(c);
    if CorrectionFires(s, enabled) {
      RemapUndoesCorrection(s, n, enabled);
      assert f == s;
      AdjustFixesExactlyCanonical(Value(s.xs), Value(s.ys), level);
    } else if RemapFiresOn(s) {
      HalfTurnCase(s, level);
      assert f == RemapStreams(s);
    } else {
      assert f == s;
      AdjustFixesExactlyCanonical(Value(s.xs), Value(s.ys), level);
    }
  }

  lemma HalfTurnCase(s: Streams, level: nat)
    requires WellFormed(s, level + 3) && Canonical(Value(s.xs), Value(s.ys), level) && RemapFiresOn(s)
    ensures var f := RemapStreams(s);
            var a := AdjustXY(Value(f.xs), Value(f.ys), level);
            a.x == Value(s.xs) && a.y == Value(s.ys)
  {
    RemapHalfTurn(s, level + 3);
    assert Pow3(level + 2) == MaxSteps(level);
    AdjustUndoesHalfTurn(Value(s.xs), Value(s.ys), level);
  }

  /** Decoding (with the remap after the padding) what the encoder wrote
      gives the canonical pair back, for every lattice pair in the diamond
      and either answer of the longitude test. */
  lemma EncodeDecodeRoundTrip(x: int, y: int, level: nat, east: bool)
    requires InDiamond(x, y, level) && InLattice(x, y, level)
    ensures var a := AdjustXY(x, y, level);
            GetXYByCodeFixed(EncodeCode(x, y, level, east)) == Ok(Grid(a.x, a.y))
  {
    var c := CodeStreams(x, y, level, east);
    assert EncodeCode(x, y, level, east) == Assemble(Pack(c));
    FixedDecodeOfPack(c, level);
    StreamsRoundTrip(x, y, level, east);
  }

  /** The corrected decoder on the code of any well-formed streams: the
      letters and padding give the packed digits back, the remap acts on
      the pairs, and the rest sums and adjusts. */
  lemma FixedDecodeOfPack(c: Streams, level: nat)
    requires WellFormed(c, level + 3)
    ensures WellFormed(RemapStreams(c), level + 3)
    ensures var f := RemapStreams(c);
            var a := AdjustXY(Value(f.xs), Value(f.ys), level);
            GetXYByCodeFixed(Assemble(Pack(c))) == Ok(Grid(a.x, a.y))
  {
    var n := level + 3;
    var s := Pack(c);
    var code := Assemble(s);
    Dec9OfAssemble(s);
    PadRestoresPrefix(s);
    assert |code| + 1 == n;
    RemapPack(c, n);
    FinishPack(RemapStreams(c), level);
  }

  /** The encoder's streams, remapped, sum and adjust to the canonical
      form of the encoded pair. */
  lemma StreamsRoundTrip(x: int, y: int, level: nat, east: bool)
    requires InDiamond(x, y, level) && InLattice(x, y, level)
    ensures var f := RemapStreams(CodeStreams(x, y, level, east));
            var a := AdjustXY(Value(f.xs), Value(f.ys), level);
            var b := AdjustXY(x, y, level);
            a.x == b.x && a.y == b.y
  {
    var n := level + 3;
    SeamPairIsAdjusted(x, y, level);
    var (hx, hy) := SeamPair(x, y, level);
    assert InLattice(hx, hy, level);
    TritsExact(hx, n);
    TritsExact(hy, n);
    DigitRoundTrip(Streams(Trits(hx, n), Trits(hy, n)), level, EastOrSeam(x, y, level, east));
  }

  /** The other direction: re-encoding the decoded pair gives the same code. */
  lemma DecodeEncodeRoundTrip(x: int, y: int, level: nat, east: bool)
    requires InDiamond(x, y, level) && InLattice(x, y, level)
    ensures var code := EncodeCode(x, y, level, east);
            GetXYByCodeFixed(code).Ok? &&
            var g := GetXYByCodeFixed(code).value;
            EncodeCode(g.x, g.y, level, east) == code
  {
    EncodeDecodeRoundTrip(x, y, level, east);
    if Abs(x - y) == MaxSteps(level) && x > y {
      SeamSymmetry(y, x, level, east, east);
    }
  }

  /** The decoder as written gives the same answer whenever the first
      digit pair of the code is not (0,0), i.e. its first base-9 digit is
      not 0. */
  lemma EncodeDecodeAsWritten(x: int, y: int, level: nat, east: bool)
    requires InDiamond(x, y, level) && InLattice(x, y, level)
    requires var c := CodeStreams(x, y, level, east); c.xs[0] != 0 || c.ys[0] != 0
    ensures var a := AdjustXY(x, y, level);
            GetXYByCodeAsWritten(EncodeCode(x, y, level, east)) == Ok(Grid(a.x, a.y))
  {
    var c := CodeStreams(x, y, level, east);
    var s := Pack(c);
    var code := EncodeCode(x, y, level, east);
    assert code == Assemble(s);
    CharToIOfPack(c, 0);
    Dec9OfAssemble(s);
    LetterPairRoundTrip(Prefix(s));
    DecodersAgreeOnFullPrefix(code);
    EncodeDecodeRoundTrip(x, y, level, east);
  }

  // ---------------------------------------------------------------------
  // Test vectors and the counterexample

  /** "RU6064" decodes to (-60, 366): the remap turns the leading 5 into 7,
      the digits then stand for (669, -363), and `adjust_xy` folds that
      back to (-60, 366). */
  lemma DecodeRU6064()
    ensures GetXYByCodeAsWritten("RU6064") == Ok(Grid(-60, 366))
  {
    RangeRU6064();
    EncodeRU6064();
    EncodeDecodeAsWritten(-60, 366, 4, false);
  }

  /** (-60, 366) at level 4 is canonical, representable in seven digits and
      packs to a first digit other than 0. */
  lemma RangeRU6064()
    ensures InDiamond(-60, 366, 4) && InLattice(-60, 366, 4)
    ensures CodeStreams(-60, 366, 4, false).xs[0] != 0
    ensures AdjustXY(-60, 366, 4) == Adjusted(-60, 366, 0)
  {
    StreamsRU6064();
    assert MaxSteps(4) == 729;
    assert Bound(7) == 1093;
  }

  /** The route of "RU6064" through the decoder: the remap turns 5306064
      into 7306064, whose digit pairs stand for (669, -363), outside the
      diamond; the fold brings them back to (-60, 366). */
  lemma FoldRU6064()
    ensures RemapChecked("5306064") == Ok("7306064")
    ensures Value([2, 1, 0, 2, 0, 2, 1]) == 669 && Value([1, 0, 0, 0, 0, 0, 1]) == -363
    ensures AdjustXY(669, -363, 4) == Adjusted(-60, 366, 0)
    ensures Finish("7306064", 4) == Grid(-60, 366)
  {
    RemapRU6064();
    ValuesRU6064Remapped();
    AdjustRU6064();
    FinishRU6064Remapped();
  }

  lemma AdjustRU6064()
    ensures AdjustXY(669, -363, 4) == Adjusted(-60, 366, 0)
  {
    assert MaxSteps(4) == 729;
  }

  lemma FinishRU6064Remapped()
    ensures Finish("7306064", 4) == Grid(-60, 366)
  {
    var f := Streams([2, 1, 0, 2, 0, 2, 1], [1, 0, 0, 0, 0, 0, 1]);
    PackRU6064Remapped();
    ValuesRU6064Remapped();
    AdjustRU6064();
    FinishPack(f, 4);
  }

  /** The first digit 5 is followed by 3 and 0, so the remap fires. */
  lemma RemapRU6064()
    ensures RemapChecked("5306064") == Ok("7306064")
  {
    var s := "5306064";
    assert s[1] !in "125" && s[2] !in "125";
    assert RemapFirst(s) == "7306064";
  }

  /** The pairs of 7306064 are (2,1), (1,0), (0,0), (2,0), (0,0), (2,0),
      (1,1). */
  lemma PackRU6064Remapped()
    ensures WellFormed(Streams([2, 1, 0, 2, 0, 2, 1], [1, 0, 0, 0, 0, 0, 1]), 7)
    ensures Pack(Streams([2, 1, 0, 2, 0, 2, 1], [1, 0, 0, 0, 0, 0, 1])) == "7306064"
  {
    var p := Pack(Streams([2, 1, 0, 2, 0, 2, 1], [1, 0, 0, 0, 0, 0, 1]));
    assert p[0] == DigitChar(7) && p[1] == DigitChar(3) && p[2] == DigitChar(0);
    assert p[3] == DigitChar(6) && p[4] == DigitChar(0) && p[5] == DigitChar(6) && p[6] == DigitChar(4);
  }

  /** The x digits sum to 729 - 81 + 27 - 9 + 3 and the y digits to
      -(243 + 81 + 27 + 9 + 3). */
  lemma ValuesRU6064Remapped()
    ensures Value([2, 1, 0, 2, 0, 2, 1]) == 669 && Value([1, 0, 0, 0, 0, 0, 1]) == -363
  {
    assert Pow3(6) == 729 && Pow3(5) == 243 && Pow3(4) == 81;
    assert Pow3(3) == 27 && Pow3(2) == 9 && Pow3(1) == 3;
    var xs: seq<nat> := [2, 1, 0, 2, 0, 2, 1];
    var ys: seq<nat> := [1, 0, 0, 0, 0, 0, 1];
    assert Partial(xs, 7, 3) == 648 && Partial(ys, 7, 3) == -324;
    assert Partial(xs, 7, 5) == 666 && Partial(ys, 7, 5) == -360;
    assert Partial(xs, 7, 7) == 669 && Partial(ys, 7, 7) == -363;
  }

  /** The digits of "BY4" after the remap and the padding. */
  lemma FinishBY4()
    ensures Finish("0744", 1) == Grid(-18, -27)
  {
    var f := Streams([0, 2, 1, 1], [0, 1, 1, 1]);
    PackBY4Remapped();
    ValuesBY4Remapped();
    FinishPack(f, 1);
    assert MaxSteps(1) == 27;
  }

  /** The pairs (0,0), (2,1), (1,1), (1,1) pack to 0744. */
  lemma PackBY4Remapped()
    ensures WellFormed(Streams([0, 2, 1, 1], [0, 1, 1, 1]), 4)
    ensures Pack(Streams([0, 2, 1, 1], [0, 1, 1, 1])) == "0744"
  {
    var p := Pack(Streams([0, 2, 1, 1], [0, 1, 1, 1]));
    assert p[0] == DigitChar(0) && p[1] == DigitChar(7) && p[2] == DigitChar(4) && p[3] == DigitChar(4);
  }

  /** Those streams stand for (-18, -27). */
  lemma ValuesBY4Remapped()
    ensures Value([0, 2, 1, 1]) == -18 && Value([0, 1, 1, 1]) == -27
  {
    assert Pow3(3) == 27 && Pow3(2) == 9;
    var xs: seq<nat> := [0, 2, 1, 1];
    var ys: seq<nat> := [0, 1, 1, 1];
    assert Partial(xs, 4, 2) == -18 && Partial(ys, 4, 2) == -27;
    assert Partial(xs, 4, 4) == -18 && Partial(ys, 4, 4) == -27;
  }

  /** The remap on the unpadded string misreads a code whose first base-9
      digit is 0: (-27, -18) at level 1 encodes to "BY4" (digits 0544),
      the unpadded string "544" is remapped to "744", and the code decodes
      to (-18, -27), another cell. The corrected decoder gives (-27, -18). */
  lemma RemapBeforePaddingMisreadsBY4()
    ensures EncodeCode(-27, -18, 1, false) == "BY4"
    ensures GetXYByCodeAsWritten("BY4") == Ok(Grid(-18, -27))
    ensures GetXYByCodeFixed("BY4") == Ok(Grid(-27, -18))
  {
    EncodeBY4();
    DecodeBY4AsWritten();
    RangeBY4();
    EncodeDecodeRoundTrip(-27, -18, 1, false);
  }

  /** (-27, -18) at level 1 lies in the diamond, fits four digits and is
      its own canonical form. */
  lemma RangeBY4()
    ensures InDiamond(-27, -18, 1) && InLattice(-27, -18, 1)
    ensures AdjustXY(-27, -18, 1) == Adjusted(-27, -18, 0)
  {
    assert MaxSteps(1) == 27;
    assert Bound(4) == 40;
  }

  lemma StreamsBY4()
    ensures CodeStreams(-27, -18, 1, false) == Streams([0, 1, 1, 1], [0, 2, 1, 1])
  {
    assert MaxSteps(1) == 27;
    assert Pow3(3) == 27 && Pow3(2) == 9 && Pow3(1) == 3;
    assert Trits(-27, 4) == [0, 1, 1, 1];
    assert Trits(-18, 4) == [0, 2, 1, 1];
  }

  lemma EncodeBY4()
    ensures EncodeCode(-27, -18, 1, false) == "BY4"
  {
    StreamsBY4();
    var c := Streams([0, 1, 1, 1], [0, 2, 1, 1]);
    var p := Pack(c);
    assert p[0] == DigitChar(0) && p[1] == DigitChar(5) && p[2] == DigitChar(4) && p[3] == DigitChar(4);
    assert p == "0544";
    assert Prefix(p) == 54;
    HKeyAt(1);
    HKeyAt(24);
    assert Assemble(p) == "BY4";
  }

  lemma DecodeBY4AsWritten()
    ensures GetXYByCodeAsWritten("BY4") == Ok(Grid(-18, -27))
  {
    KeyIndexOfKey(1);
    KeyIndexOfKey(24);
    HKeyAt(1);
    HKeyAt(24);
    var code := "BY4";
    assert code[0] == HKey[1] && code[1] == HKey[24];
    assert KeyIndex(code[0]) == Some(1) && KeyIndex(code[1]) == Some(24);
    assert DecimalString(54) == "54";
    assert code[2..] == "4";
    assert DecimalString(1 * 30 + 24) + code[2..] == "544";
    assert |code| >= 2;
    assert Dec9(code) == Ok("544");
    var u := "544";
    assert u[1] !in "125" && u[2] !in "125";
    assert RemapFirst(u) == "744";
    assert RemapChecked(u) == Ok("744");
    assert PadZeros("744", 4) == "0744";
    FinishBY4();
  }

  /** As written, `get_zone_by_code` does not give "BY4" back: the decoded
      pair (-18, -27) is encoded as "CO4". Its centre lies east of the
      meridian (x - y > 0), so the source encodes it with the correction
      enabled; the code is "CO4" with the correction off as well. */
  lemma AsWrittenReencodesBY4AsCO4(east: bool)
    ensures GetXYByCodeAsWritten("BY4") == Ok(Grid(-18, -27))
    ensures EncodeCode(-18, -27, 1, true) == "CO4"
    ensures EncodeCode(-18, -27, 1, east) == "CO4"
  {
    DecodeBY4AsWritten();
    EncodeCO4(true);
    EncodeCO4(east);
  }

  /** The first pair (0, 0) is not one the correction rewrites, so the
      streams are the same for either longitude. */
  lemma StreamsCO4(east: bool)
    ensures CodeStreams(-18, -27, 1, east) == Streams([0, 2, 1, 1], [0, 1, 1, 1])
  {
    assert MaxSteps(1) == 27;
    assert Pow3(3) == 27 && Pow3(2) == 9 && Pow3(1) == 3;
    assert Trits(-18, 4) == [0, 2, 1, 1];
    assert Trits(-27, 4) == [0, 1, 1, 1];
  }

  lemma EncodeCO4(east: bool)
    ensures EncodeCode(-18, -27, 1, east) == "CO4"
  {
    StreamsCO4(east);
    PackBY4Remapped();
    AssembleCO4();
  }

  lemma AssembleCO4()
    ensures Base9Digits("0744") && Assemble("0744") == "CO4"
  {
    var p := "0744";
    assert Prefix(p) == 74;
    HKeyAt(2);
    HKeyAt(14);
    var a := Assemble(p);
    assert a[0] == 'C' && a[1] == 'O' && a[2..] == "4";
  }

  /** The same order of steps makes the source raise on a code its own
      encoder writes: (-13, -12) at level 0 encodes to "AB", whose digit
      string "1" is too short for the remap test. With the padding first
      the code decodes to (-13, -12). */
  lemma AsWrittenRejectsAB()
    ensures EncodeCode(-13, -12, 0, false) == "AB"
    ensures GetXYByCodeAsWritten("AB") == Err(MissingDigit)
    ensures GetXYByCodeFixed("AB") == Ok(Grid(-13, -12))
  {
    EncodeAB();
    DecodeABAsWritten();
    RangeAB();
    EncodeDecodeRoundTrip(-13, -12, 0, false);
  }

  lemma StreamsAB()
    ensures CodeStreams(-13, -12, 0, false) == Streams([0, 0, 0], [0, 0, 1])
  {
    assert MaxSteps(0) == 9;
    assert Pow3(2) == 9 && Pow3(1) == 3;
    assert Trits(-13, 3) == [0, 0, 0];
    assert Trits(-12, 3) == [0, 0, 1];
  }

  lemma EncodeAB()
    ensures EncodeCode(-13, -12, 0, false) == "AB"
  {
    StreamsAB();
    PackAB();
    AssembleAB();
  }

  lemma PackAB()
    ensures Pack(Streams([0, 0, 0], [0, 0, 1])) == "001"
  {
    var p := Pack(Streams([0, 0, 0], [0, 0, 1]));
    assert p[0] == DigitChar(0) && p[1] == DigitChar(0) && p[2] == DigitChar(1);
  }

  lemma AssembleAB()
    ensures Base9Digits("001") && Assemble("001") == "AB"
  {
    var p := "001";
    assert Prefix(p) == 1;
    HKeyAt(0);
    HKeyAt(1);
    var a := Assemble(p);
    assert a[0] == 'A' && a[1] == 'B';
  }

  lemma DecodeABAsWritten()
    ensures GetXYByCodeAsWritten("AB") == Err(MissingDigit)
  {
    KeyIndexOfKey(0);
    KeyIndexOfKey(1);
    HKeyAt(0);
    HKeyAt(1);
    var code := "AB";
    assert code[0] == HKey[0] && code[1] == HKey[1];
    assert KeyIndex(code[0]) == Some(0) && KeyIndex(code[1]) == Some(1);
    assert DecimalString(1) == "1";
    assert code[2..] == "";
    assert DecimalString(0 * 30 + 1) + code[2..] == "1";
    assert |code| >= 2;
    assert Dec9(code) == Ok("1");
    assert RemapChecked("1") == Err(MissingDigit);
  }

  /** (-13, -12) at level 0 lies in the diamond, fits three digits and is
      its own canonical form. */
  lemma RangeAB()
    ensures InDiamond(-13, -12, 0) && InLattice(-13, -12, 0)
    ensures AdjustXY(-13, -12, 0) == Adjusted(-13, -12, 0)
  {
    assert MaxSteps(0) == 9;
    assert Bound(3) == 13;
  }
}
