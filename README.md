# GeoHex v3 cell codes in Dafny

GeoHex divides the map into hexagonal cells. A cell at level L is named by a
code: two letters from `H_KEY`, followed by L base-9 digits. This project
models the exact integer and string part of the Ruby library
(`lib/geohex.rb`):

- **Edge folding (`adjust_xy`).** An integer grid pair is brought back onto
  the diamond |x - y| <= M, where M = 3^(level+2). On the seam, pairs with
  x > y are swapped. Pairs outside the diamond are folded back along
  x + y = const. Modelled as the function `Edge.AdjustXY`.
- **The encoder (the integer part of `get_zone_by_xy`).** It runs in four
  steps:
  - the seam swap;
  - balanced-ternary digit streams of level + 3 digits for x and y, where a
    digit d stands for d - 1, most significant first;
  - the position-2 correction of the first digit pair;
  - packing each pair into the base-9 digit 3·xd + yd, then turning the
    first three decimal digits into two key letters.

  `Encoder.EncodeCode` is the specification. The methods `Encoder.ZoneCode`,
  `DigitLoop` and `PackLoop` run the source's loops over arrays and are
  proved equal to it; `CorrectFirstPair` and `WritePair` are the in-place
  writes the digit loop makes.
- **The decoder (`get_xy_by_code`).** It turns the letters back into a
  number and writes it in decimal, then:
  - applies the 5→7 / 1→3 remap of the first digit;
  - left-pads with zeros to level + 3 digits;
  - splits every digit into two ternary digits;
  - sums ±3^k;
  - finishes with `adjust_xy`.

  Two versions are modelled:
  - `Decoder.GetXYByCodeAsWritten` (run by the method `Decoder.GetXYByCode`)
    keeps the source's order, remap before padding.
  - `Decoder.GetXYByCodeFixed` (run by the method
    `Decoder.GetXYByCodeCorrected`) pads first. See "## Findings".

  Ruby's crashes are error values:
  - `CodeTooShort` is a code shorter than two characters;
  - `UnknownLetter` is a letter that `index` cannot find;
  - `MissingDigit` is the remap test reading a digit past the end.

  A '9' digit is decoded as the source decodes it: `to_s(3)` gives three
  characters.
- **Zones and the zone cache.**
  - `Zones.Zone` keeps the caller's x, y and the code. Its `Level()` is the
    code length minus two.
  - `Zones.ZoneCache` holds the `@cache_on` flag and the `ZONE_CACHE` map.
    `cache_on` (the getter) is a read of the field `cacheOn`.
  - `Zones.ZoneCache.GetZoneByCode` decodes with the as-written decoder, as
    `get_zone_by_code` does. `Zones.ZoneCache.GetZoneByCodeCorrected` is the
    same operation over the corrected decoder.

The longitude test in the encoder (`z_loc_x == -180 || z_loc_x >= 0`) works
on a float centre, so it becomes the boolean parameter `east`. On the seam
the source forces the longitude to -180, and the model enables the
correction there whatever `east` says.

The central results are in `RoundTrip`:
- `EncodeDecodeRoundTrip`: for every pair inside the diamond that level + 3
  digits can represent, and for either value of `east`, the corrected
  decoder returns the canonical pair `adjust_xy` picks for the encoder's
  input.
- `DecodeEncodeRoundTrip`: with the corrected decoder, re-encoding that
  pair gives the same code.
- `EncodeDecodeAsWritten`: the decoder as written gives the same answer
  whenever the first packed digit is not 0.

## Model

| member | source | states |
|---|---|---|
| Ternary.Pow3 | lib/geohex.rb:214 | every place value 3^k is odd and positive |
| Ternary.Half | lib/geohex.rb:215 | the threshold is the least integer whose double is at least the place value, which is `(h_pow / 2.0).ceil` while 3^k is below 2^53 |
| Ternary.Digit | lib/geohex.rb:217-225 | the digit chosen by the half-place-value thresholds is 0, 1 or 2 |
| Ternary.Remainder | lib/geohex.rb:217-225 | after a digit is emitted, the remainder has lost that digit's weight times the place value |
| Ternary.Weight | lib/geohex.rb:153-167 | the decoder's weight of a digit is between -1 and 1, and is d - 1 for a digit d in 0..2 |
| Ternary.Value | lib/geohex.rb:153-167 | the accumulated total of n digits is at most (3^n - 1)/2 in magnitude |
| Ternary.PartialBound | lib/geohex.rb:153-167 | after i of n positions the running total is at most 3^(n-i)·(3^i - 1)/2 in magnitude |
| Ternary.ScaledStep | lib/geohex.rb:153-167 | one more signed digit at place value p turns the bound 3p·b into p·(3b + 1) |
| Ternary.Trits | lib/geohex.rb:212-235 | the digit loop emits exactly n digits, each in {0, 1, 2} |
| Ternary.PartialCons | lib/geohex.rb:153-167 | the accumulation over a stream with one more leading digit adds that digit's weight times the top place value |
| Ternary.ValueCons | lib/geohex.rb:153-167 | the value of d followed by rest is (d - 1)·3^|rest| plus the value of rest |
| Ternary.PartialPrefix | lib/geohex.rb:153-167 | the accumulation over the first n digits ignores the digits after them |
| Ternary.ValueReplaceHead | lib/geohex.rb:153-167 | changing only the leading digit changes the value by the weight difference times 3^(n-1) |
| Ternary.TritsValue | lib/geohex.rb:212-235 | for every integer v, the emitted digits' value plus the final remainder equals v |
| Ternary.StepBound | lib/geohex.rb:217-225 | one step keeps the remainder within the range the remaining digits can represent |
| Ternary.BoundStep | lib/geohex.rb:214-225 | one more digit triples the range and adds one: Bound(n) = 3·Bound(n-1) + 1, and the place value 3^(n-1) is 2·Bound(n-1) + 1 |
| Ternary.RemainderRange | lib/geohex.rb:217-225 | at an odd place value 2k + 1, a remainder within 3k + 1 in magnitude leaves the step within k |
| Ternary.ResidueZero | lib/geohex.rb:212-235 | for \|v\| <= (3^n - 1)/2 the loop's final remainder is 0 |
| Ternary.TritsExact | lib/geohex.rb:153-167 | in that range the decoder's accumulation of the emitted digits recovers v exactly |
| Edge.AdjustXY | lib/geohex.rb:269-307 | the result keeps x + y, and rev is 1 exactly when \|x - y\| = M and x > y |
| Edge.AdjustFixesExactlyCanonical | lib/geohex.rb:273-281 | the pair comes back unchanged with rev 0 if and only if \|x - y\| < M, or \|x - y\| = M and x < y |
| Edge.AdjustSeamSwap | lib/geohex.rb:276-280 | on the seam with x > y the coordinates are swapped with rev 1, and the result is canonical |
| Edge.AdjustFold | lib/geohex.rb:281-303 | for d = \|x - y\| - M > 0 the result is (y + d, x - d) when x > y and (y - d, x + d) when y > x, so x - y moves by 2M towards the diamond |
| Edge.AdjustIdempotent | lib/geohex.rb:281-303 | for \|x - y\| < 3M the result is canonical and a second call returns it unchanged |
| Edge.AdjustLandsCanonical | lib/geohex.rb:153-171 | two values that level + 3 digits can represent land on a canonical pair after one `adjust_xy` |
| Edge.AdjustNotIdempotentFarOut | lib/geohex.rb:281-303 | (27, 0) at level 0 folds to (18, 9), which a second call swaps to (9, 18) |
| Edge.AdjustUndoesHalfTurn | lib/geohex.rb:281-303 | a canonical pair shifted by (+M, -M) is folded back onto itself |
| Text.HKeyIsTheKeyString | lib/geohex.rb:6 | the key alphabet is the 52 letters A-Z then a-z |
| Text.HKeyAt | lib/geohex.rb:6 | the code point of the i-th key letter |
| Text.KeyIndex | lib/geohex.rb:114 | `index` finds a position holding the letter, or reports nil only for characters not in the key |
| Text.KeyIndexOfKey | lib/geohex.rb:114 | `index` finds every key letter at its own position |
| Text.CharToI | lib/geohex.rb:135 | `to_i` of one character is below 10 and is the digit's value for a decimal digit |
| Text.CharToIOfDigit | lib/geohex.rb:149-150 | `to_i` undoes writing a digit |
| Text.DigitChar | lib/geohex.rb:149-150 | a digit below 10 is written as one of the characters 0..9 |
| Text.DecimalString | lib/geohex.rb:114 | `to_s` gives at least one decimal digit and no leading zero |
| Text.Base3String | lib/geohex.rb:135 | `to_s(3)` gives at least one digit, each in 0..2 |
| Text.DecimalStringValue | lib/geohex.rb:256 | reading the decimal string of n with `to_i` gives n back |
| Text.Zeros | lib/geohex.rb:126-130 | k zero characters |
| Encoder.SeamPair | lib/geohex.rb:195-200 | the swap keeps x + y and \|x - y\|; on the seam the smaller coordinate comes first; off the seam the pair is untouched |
| Encoder.EastOrSeam | lib/geohex.rb:237 | the correction is always enabled on the seam, where line 201 forces the longitude to -180, and elsewhere exactly when the longitude test says east |
| Encoder.Correct | lib/geohex.rb:237-245 | the correction changes only the first digit pair: lengths and every later digit stay |
| Encoder.CorrectionEffect | lib/geohex.rb:237-245 | the streams change if and only if the correction fires, and then the first x digit drops by one and the first y digit rises by one |
| Encoder.CodeStreams | lib/geohex.rb:192-246 | both streams have level + 3 digits in {0, 1, 2} |
| Encoder.Pack | lib/geohex.rb:248-253 | one base-9 character per position, in '0'..'8', whose value is 3·xd + yd |
| Encoder.Prefix | lib/geohex.rb:256 | `h_code[0, 3].to_i` (the digit reading `Text.DecimalValue` applied to the first three characters) is 100·d0 + 10·d1 + d2 and at most 888 |
| Encoder.Assemble | lib/geohex.rb:255-259 | two letters from the first 30 key letters, followed by the digits after the third unchanged |
| Encoder.EncodeCode | lib/geohex.rb:192-259 | the code has length level + 2 (so `Zone#level` is level), starts with two letters from A-Z, a-d and continues with digits 0..8 |
| Encoder.CorrectAppend | lib/geohex.rb:237-245 | applying the correction at step 2 and then emitting more digits equals correcting the full streams |
| Encoder.DigitsUpTo | lib/geohex.rb:212-235 | after i steps the loop has emitted i digits |
| Encoder.DigitsUpToTrits | lib/geohex.rb:212-235 | the digits emitted so far, then the digits of the running remainder, are the full stream |
| Encoder.DigitStep | lib/geohex.rb:217-225 | one step: the digit, and the remainder moved by the digit's weight times the place value |
| Encoder.NextDigits | lib/geohex.rb:212-235 | one loop step gives the next balanced-ternary digit of each coordinate and moves both remainders on by one place |
| Encoder.EmittedStep | lib/geohex.rb:237-245 | one more step appends the next digit pair to what was emitted; at the third step the correction is applied at once |
| Encoder.EmittedAll | lib/geohex.rb:212-246 | after all level + 3 steps the emitted digits are the corrected full streams |
| Encoder.WritePair | lib/geohex.rb:218-245 | storing the pair at index i extends the arrays' prefix by that pair, corrected when i is 2; entries past i are untouched |
| Encoder.CorrectFirstPair | lib/geohex.rb:237-245 | the first three entries of the digit arrays become their correction; entries from index 3 on are untouched |
| Encoder.DigitLoop | lib/geohex.rb:212-246 | the arrays the loop fills are the corrected balanced-ternary streams of x and y |
| Encoder.PackLoop | lib/geohex.rb:248-253 | the appended string is the packing of the two arrays |
| Encoder.SeamSwap | lib/geohex.rb:192-202 | the pair handed to the digit loop is the seam-swapped pair, lower coordinate first on the seam, and the correction is on exactly for east or seam |
| Encoder.LetterCode | lib/geohex.rb:255-259 | the letters built are the specified ones, both key letters, and their key positions give back the three-digit prefix |
| Encoder.ZoneCode | lib/geohex.rb:192-259 | the code built step by step is the specified code, of length level + 2 |
| Encoder.LetterPairRoundTrip | lib/geohex.rb:255-259 | for v <= 888, index(H_KEY[v / 30]) · 30 + index(H_KEY[v % 30]) = v |
| Encoder.SeamSymmetry | lib/geohex.rb:192-202 | on the seam (x, y) and (y, x) get the same code, whatever the longitude test says |
| Encoder.StreamsRU6064 | lib/geohex.rb:212-246 | the digit streams of (-60, 366) at level 4 |
| Encoder.PackRU6064 | lib/geohex.rb:248-253 | those streams pack to 5306064 |
| Encoder.AssembleRU6064 | lib/geohex.rb:255-259 | the packed string 5306064 gets the letters "RU" |
| Encoder.EncodeRU6064 | test/test.rb:80-83 | (-60, 366) at level 4, west, encodes to "RU6064" |
| Decoder.Dec9 | lib/geohex.rb:114 | the rebuilt digit string is non-empty and at least as long as the code minus one |
| Decoder.RemapFirst | lib/geohex.rb:117-121 | the first digit is rewritten and the rest kept |
| Decoder.Remap | lib/geohex.rb:116-122 | the remap keeps the length |
| Decoder.RemapChecked | lib/geohex.rb:116-122 | on strings of three or more digits the test is the remap and never fails; it keeps the length |
| Decoder.PadZeros | lib/geohex.rb:124-130 | the padded string has at least n characters |
| Decoder.TernaryPair | lib/geohex.rb:135-141 | each digit becomes at least two ternary characters |
| Decoder.Dec3 | lib/geohex.rb:132-142 | the ternary string is at least twice as long as the digit string |
| Decoder.EvenDigits | lib/geohex.rb:147-151 | one x digit per character pair |
| Decoder.OddDigits | lib/geohex.rb:147-151 | one y digit per character pair |
| Decoder.DecodersAgreeOnFullPrefix | lib/geohex.rb:116-130 | when the letter value is at least 100, remapping before or after the padding gives the same result |
| Decoder.DecimalStringLength | lib/geohex.rb:114 | a value of at least 100 is written with at least three digits |
| Decoder.Finish | lib/geohex.rb:132-171 | the accumulation of the padded digits followed by `adjust_xy` always gives a canonical pair |
| Decoder.GetXYByCodeAsWritten | lib/geohex.rb:107-174 | a successful decode is a canonical pair at level \|code\| - 2 |
| Decoder.GetXYByCodeFixed | lib/geohex.rb:107-174 | with padding first, decoding fails exactly for a code shorter than two characters or an unknown letter, never with a missing digit, and otherwise gives a canonical pair at level \|code\| - 2 |
| Decoder.DecodeErrors | lib/geohex.rb:114-122 | wherever the corrected decoder fails the as-written one fails with the same error; the as-written decoder's extra failure, a missing digit, happens only on codes of at most 3 characters, which the corrected decoder decodes |
| Decoder.Dec3Snoc | lib/geohex.rb:132-142 | the ternary string of one more digit is extended by that digit's pair |
| Decoder.Dec3Step | lib/geohex.rb:132-142 | the ternary string of one more prefix character is the old one followed by that character's pair |
| Decoder.SplitDigitAt | lib/geohex.rb:147-151 | the i-th x digit is the character at 2i and the i-th y digit the one at 2i + 1 |
| Decoder.PadLoop | lib/geohex.rb:124-130 | the prepending loop gives the padded string |
| Decoder.FinishSteps | lib/geohex.rb:132-171 | ternary expansion, split, accumulation and `adjust_xy` together give the specified final pair |
| Decoder.TernaryLoop | lib/geohex.rb:132-142 | the appending loop gives the ternary string |
| Decoder.SplitLoop | lib/geohex.rb:144-151 | the arrays hold the even and odd ternary digits |
| Decoder.AccumulateLoop | lib/geohex.rb:153-167 | the sums are the balanced-ternary values of the first level + 3 digits |
| Decoder.GetXYByCode | lib/geohex.rb:107-174 | the step-by-step decoder gives the as-written result, errors included |
| Decoder.PadAndFinish | lib/geohex.rb:124-171 | the padding loop followed by the rest of the decoder gives the specified pair for the padded string |
| Decoder.GetXYByCodeCorrected | lib/geohex.rb:107-174 | the step-by-step decoder with padding first gives the corrected result |
| RoundTrip.PadRestoresPrefix | lib/geohex.rb:124-130 | the decimal prefix value followed by the rest, padded to full length, is the packed string again |
| RoundTrip.Dec9OfAssemble | lib/geohex.rb:114 | decoding the letters of an assembled code gives the prefix value back, followed by the remaining digits |
| RoundTrip.Dec9OfLetters | lib/geohex.rb:114 | two key letters at positions a, b below 30 are read back as the decimal value a · 30 + b followed by the rest of the code |
| RoundTrip.DigitCharOfCharToI | lib/geohex.rb:149-150 | writing back the value `to_i` reads from a decimal digit gives the same character |
| RoundTrip.RemapStreams | lib/geohex.rb:116-122 | the remap on digit pairs keeps the stream lengths |
| RoundTrip.CharToIOfPack | lib/geohex.rb:248-253 | a packed digit is 1, 2 or 5 exactly when its pair is (0,1), (0,2) or (1,2) |
| RoundTrip.RemapTestOnPack | lib/geohex.rb:116-122 | when the first pair is (0,1) or (1,2) and the next two pairs are not (0,1), (0,2) or (1,2), the string test passes and the remap rewrites the first character |
| RoundTrip.RemapFirstOnPack | lib/geohex.rb:116-122 | the rewritten first character is the packing of the first pair shifted by (+1, -1) |
| RoundTrip.PackRemapTail | lib/geohex.rb:248-253 | shifting the first pair leaves every later packed character as it was |
| RoundTrip.RemapPackFires | lib/geohex.rb:116-122 | when the remap fires, the remapped packed string is the packing of the shifted streams |
| RoundTrip.RemapPackQuiet | lib/geohex.rb:116-122 | when the first pair is neither (0,1) nor (1,2), the remap leaves the packed string alone |
| RoundTrip.RemapPack | lib/geohex.rb:116-122 | remapping the packed string is packing the remapped pairs |
| RoundTrip.TernaryPairOfBase9 | lib/geohex.rb:135-141 | a digit 0..8 becomes its two ternary digits |
| RoundTrip.Dec3OfBase9 | lib/geohex.rb:132-142 | the ternary string of base-9 digits holds each digit's /3 and %3 at positions 2i and 2i + 1 |
| RoundTrip.Dec3OfPackAt | lib/geohex.rb:132-142 | the ternary form of a packed string has two characters per pair, the x digit at 2i and the y digit at 2i + 1 |
| RoundTrip.SplitPackAt | lib/geohex.rb:144-151 | splitting the ternary form of a packed string gives the i-th pair back |
| RoundTrip.SplitPack | lib/geohex.rb:144-151 | splitting the ternary form of a packed string gives both streams back |
| RoundTrip.FinishPack | lib/geohex.rb:153-170 | decoding a packed string sums the streams' values and adjusts |
| RoundTrip.SeamPairIsAdjusted | lib/geohex.rb:195-200 | the encoder's seam swap picks the same pair as `adjust_xy`, and that pair is canonical |
| RoundTrip.RemapUndoesCorrection | lib/geohex.rb:237-245 | after a correction that fired, the remap restores the original first pair |
| RoundTrip.RemapHalfTurn | lib/geohex.rb:116-122 | a remap of an uncorrected pair moves the decoded values by (+M, -M) |
| RoundTrip.DigitRoundTrip | lib/geohex.rb:153-170 | after the correction and the remap, summing and adjusting gives the canonical pair back |
| RoundTrip.HalfTurnCase | lib/geohex.rb:169-171 | `adjust_xy` undoes the shift a stray remap causes |
| RoundTrip.EncodeDecodeRoundTrip | lib/geohex.rb:107-174 | within range and diamond, the corrected decoder returns the canonical form of the encoded pair, for either value of `east` |
| RoundTrip.FixedDecodeOfPack | lib/geohex.rb:107-174 | the corrected decoder, on the code of any well-formed digit streams, returns the adjusted values of the remapped streams |
| RoundTrip.StreamsRoundTrip | lib/geohex.rb:192-246 | the encoder's streams, after the remap, sum and adjust to the canonical form of the encoded pair |
| RoundTrip.DecodeEncodeRoundTrip | lib/geohex.rb:66-70 | with the corrected decoder, re-encoding the decoded pair gives the same code |
| RoundTrip.EncodeDecodeAsWritten | lib/geohex.rb:116-130 | the as-written decoder also round-trips when the first packed pair is not (0,0) |
| RoundTrip.DecodeRU6064 | test/test.rb:89-92 | "RU6064" decodes to (-60, 366) |
| RoundTrip.RangeRU6064 | test/test.rb:89-92 | (-60, 366) at level 4 lies in the diamond, fits seven digits, is its own canonical form and its first packed digit is not 0 |
| RoundTrip.FoldRU6064 | lib/geohex.rb:116-171 | the remap turns the digits 5306064 of "RU6064" into 7306064, whose pairs stand for (669, -363), outside the diamond; `adjust_xy` folds that pair at level 4 to (-60, 366) without a swap, and the decoder's tail on 7306064 gives (-60, 366) |
| RoundTrip.RemapRU6064 | lib/geohex.rb:116-122 | the remap test passes on 5306064 and rewrites it to 7306064 |
| RoundTrip.PackRU6064Remapped | lib/geohex.rb:248-253 | the x digits 2102021 and the y digits 1000001 are well formed and pack to 7306064, so they are what the decoder splits 7306064 into |
| RoundTrip.ValuesRU6064Remapped | lib/geohex.rb:153-167 | those digits sum to 669 and -363 |
| RoundTrip.AdjustRU6064 | lib/geohex.rb:281-303 | `adjust_xy` folds (669, -363) at level 4 to (-60, 366) with rev 0 |
| RoundTrip.FinishRU6064Remapped | lib/geohex.rb:132-171 | ternary expansion, split, accumulation and `adjust_xy` on 7306064 at level 4 give (-60, 366) |
| RoundTrip.FinishBY4 | lib/geohex.rb:153-170 | the padded string 0744 at level 1 decodes to (-18, -27) |
| RoundTrip.PackBY4Remapped | lib/geohex.rb:248-253 | the pairs (0,0), (2,1), (1,1), (1,1) pack to 0744 |
| RoundTrip.ValuesBY4Remapped | lib/geohex.rb:153-167 | the x digits 0211 sum to -18 and the y digits 0111 to -27 |
| RoundTrip.StreamsBY4 | lib/geohex.rb:212-246 | the digit streams of (-27, -18) at level 1 |
| RoundTrip.EncodeBY4 | lib/geohex.rb:248-259 | (-27, -18) at level 1, west, encodes to "BY4" |
| RoundTrip.DecodeBY4AsWritten | lib/geohex.rb:116-130 | the as-written decoder turns "BY4" into (-18, -27) |
| RoundTrip.RemapBeforePaddingMisreadsBY4 | lib/geohex.rb:116-130 | the encoder writes "BY4" for (-27, -18); as written it decodes to (-18, -27), corrected to (-27, -18) |
| RoundTrip.RangeBY4 | lib/geohex.rb:269-307 | (-27, -18) at level 1 lies in the diamond, fits four digits and `adjust_xy` leaves it as it is |
| RoundTrip.AsWrittenReencodesBY4AsCO4 | lib/geohex.rb:66-70 | as written, `get_zone_by_code("BY4")` builds its zone from (-18, -27), whose code is "CO4", not "BY4": east of the meridian, as the source places that pair, and with the correction off as well |
| RoundTrip.StreamsCO4 | lib/geohex.rb:212-246 | the digit streams of (-18, -27) at level 1, the same east or west because the first pair (0,0) is never corrected |
| RoundTrip.EncodeCO4 | lib/geohex.rb:248-259 | (-18, -27) at level 1 encodes to "CO4" for either value of the longitude test |
| RoundTrip.AssembleCO4 | lib/geohex.rb:255-259 | the packed string 0744 gets the letters "CO" |
| RoundTrip.AsWrittenRejectsAB | lib/geohex.rb:114-122 | the encoder writes "AB" for (-13, -12) at level 0; as written the remap test reads past the end of "1", corrected the code decodes to (-13, -12) |
| RoundTrip.StreamsAB | lib/geohex.rb:212-246 | the digit streams of (-13, -12) at level 0 |
| RoundTrip.PackAB | lib/geohex.rb:248-253 | the pairs (0,0), (0,0), (0,1) pack to 001 |
| RoundTrip.AssembleAB | lib/geohex.rb:255-259 | the packed string 001 gets the letters "AB" |
| RoundTrip.EncodeAB | lib/geohex.rb:192-259 | (-13, -12) at level 0, west, encodes to "AB" |
| RoundTrip.DecodeABAsWritten | lib/geohex.rb:114-122 | as written, decoding "AB" fails with a missing digit |
| RoundTrip.RangeAB | lib/geohex.rb:269-307 | (-13, -12) at level 0 lies in the diamond, fits three digits and `adjust_xy` leaves it as it is |
| Zones.Zone.constructor | lib/geohex.rb:18-24 | a zone keeps the x, y and code it is given |
| Zones.ZoneCache.constructor | lib/geohex.rb:11-13 | the cache starts switched off and empty |
| Zones.ZoneCache.SetCacheOn | lib/geohex.rb:331-333 | `cache_on=` sets the flag and leaves the entries alone |
| Zones.ZoneCache.GetZoneByXY | lib/geohex.rb:261-266 | cache on and code present: the cached zone, cache unchanged. Cache on and absent: a new zone with the caller's x, y, inserted under its code. Cache off: a new zone, cache untouched. The zone's level is the requested level, and every entry stays filed under its own code |
| Zones.ZoneCache.GetZoneByCode | lib/geohex.rb:66-70 | with the as-written decoder: decoding errors come back unchanged and leave the cache alone. Otherwise, for the decoded pair g and its code c at level \|code\| - 2: cache on and c present, the cached zone with the cache unchanged; cache on and c absent, a new zone at g inserted under c; cache off, a new zone at g with the cache untouched. The zone's code is c and its level \|code\| - 2 |
| Zones.ZoneCache.GetZoneByCodeCorrected | lib/geohex.rb:66-70 | the same three cache cases over the corrected decoder, whose errors are exactly a too-short code or an unknown letter |

## Left out

- The float geometry is not modelled: `loc_2_xy`, `xy_2_loc`,
  `calc_hex_size`, `get_xy_by_location`, `get_zone_by_location`,
  `Zone#hex_size`, `Zone#hex_coods`, the centre latitude and longitude that
  `get_zone_by_xy` computes, and the constants `H_BASE`, `H_DEG`, `H_K`.
  They use log, tan, atan and exp on floats. `Zone#hex_size` and
  `hex_coods` also call helpers that `Zone` does not define.
- The longitude test (line 237) is the parameter `east`. The model does not
  link it to x and y.
- `Zones.Zone` keeps no `lat` and `lon`. Its fields are constants: the
  `attr_accessor` setters are not modelled. So the model does not capture a
  caller changing the `code` of a zone the cache shares, which in Ruby
  would leave that zone filed under a code it no longer has.
- `ZONE_CACHE` and `@cache_on` are module globals in Ruby. Here they are the
  fields of one `ZoneCache` object that callers pass around.
- Ruby's exceptions are modelled as the values `Err(CodeTooShort)`,
  `Err(UnknownLetter)` and `Err(MissingDigit)`.
- The `rev` field of `adjust_xy`'s result is computed (and its meaning
  stated in `Edge.AdjustXY`'s contract), but no caller reads it.
- The `!h_dec0` branch of the ternary step (line 137) cannot be taken,
  because `to_s(3)` never returns nil, so it has no counterpart.
- Ternary.Half: the source computes the threshold as `(h_pow / 2.0).ceil`
  on a double. That equals the exact (3^k + 1) / 2 only while 3^k < 2^53,
  that is for level <= 31. From level 32 on (3^34 is above 2^53) Ruby
  rounds the place value, and the model's exact threshold can differ from
  the source's.
- RoundTrip.EncodeDecodeRoundTrip: proved only for pairs that level + 3
  digits can represent (|x|, |y| <= (3^(level+3) - 1)/2) and that lie in
  the diamond. Outside that range the digit loop leaves a non-zero
  remainder and the code stands for another pair.
- RoundTrip.EncodeDecodeAsWritten: proved only for codes whose first packed
  digit is not 0. "## Findings" shows a code with a leading 0 that the
  as-written decoder gets wrong.
- Edge.AdjustIdempotent: proved only for |x - y| < 3M. Further out a second
  call can still change the pair, because the code folds only once;
  `Edge.AdjustNotIdempotentFarOut` gives such an input.

## Findings

| source | as written | input that shows it | evidently intended | confidence | as-written member | corrected member |
|---|---|---|---|---|---|---|
| lib/geohex.rb:116-130 | `get_xy_by_code` applies the 5→7 / 1→3 remap to the digit string before padding it with leading zeros. When the first packed digit is 0, the letter value has fewer than three digits, so the test reads the second and third packed digits as if they were the first and second | (-27, -18) at level 1, west of the meridian, encodes to "BY4" (packed digits 0544). The decoder remaps "544" to "744", pads it to "0744" and returns (-18, -27), a different cell | pad to level + 3 digits first, then apply the remap test to the first three digits the encoder wrote; with that order every in-range pair in the diamond round-trips | high; not executed | RoundTrip.RemapBeforePaddingMisreadsBY4 | RoundTrip.EncodeDecodeRoundTrip |
| lib/geohex.rb:66-70 | `get_zone_by_code` rebuilds the zone from the decoded pair, so the misread above gives a zone with another code | "BY4" decodes to (-18, -27), which lies east of the meridian, and `get_zone_by_xy` gives the zone "CO4" | the zone of the code asked for, "BY4" | high; not executed | RoundTrip.AsWrittenReencodesBY4AsCO4 | RoundTrip.DecodeEncodeRoundTrip |
| lib/geohex.rb:116 | the remap test runs on the unpadded digit string, so when that string starts with 1 or 5 and ends before the test has read its second or third character, `match` is called on nil and raises; this needs a code of at most 3 characters (`Decoder.DecodeErrors`) | (-13, -12) at level 0, west, encodes to "AB"; its digit string is "1", the test reads `h_dec9[1]`, which is nil, and decoding raises instead of giving (-13, -12) | pad first; then "AB" decodes to (-13, -12) | high; not executed | RoundTrip.AsWrittenRejectsAB | RoundTrip.EncodeDecodeRoundTrip |
