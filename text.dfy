/** The string primitives the codec leans on: the 52-letter key alphabet and
    its `index`, Ruby's `Integer#to_s` in base 10 and 3, and `String#to_i`. */
module Text {

  datatype Option<T> = None | Some(value: T)

  const Upper: string := "ABCDEFGHIJKLMNOPQRSTUVWXYZ"
  const Lower: string := "abcdefghijklmnopqrstuvwxyz"

  /** `H_KEY`, spelled in two halves so that indexing into it stays cheap. */
  const HKey: string := Upper + Lower

  lemma HKeyIsTheKeyString()
    ensures HKey == "ABCDEFGHIJKLMNOPQRSTUVWXYZabcdefghijklmnopqrstuvwxyz"
  {
  }

  /** The code point of `H_KEY[i]`. */
  lemma HKeyAt(i: nat)
    requires i < 52
    ensures |HKey| == 52
    ensures HKey[i] as int == if i < 26 then 65 + i else 71 + i
  {
  }

  /** `H_KEY.index(c)`: the position of c in the key, or nil. */
  function KeyIndex(c: char): (r: Option<nat>)
    ensures r.Some? ==> r.value < |HKey| && HKey[r.value] == c
    ensures r.None? ==> c !in HKey
  {
    if 'A' <= c <= 'Z' then
      var i := c as int - 65;
      HKeyAt(i);
      Some(i)
    else if 'a' <= c <= 'z' then
      var i := c as int - 71;
      HKeyAt(i);
      Some(i)
    else
      assert forall i :: 0 <= i < 52 ==> HKey[i] != c by {
        forall i | 0 <= i < 52 ensures HKey[i] != c { HKeyAt(i); }
      }
      None
  }

  /** `index` finds every key letter at its own position. */
  lemma KeyIndexOfKey(i: nat)
    requires i < 52
    ensures KeyIndex(HKey[i]) == Some(i)
  {
    HKeyAt(i);
  }

  function DigitChar(d: nat): (c: char)
    requires d < 10
    ensures '0' <= c <= '9'
  {
    (48 + d) as char
  }

  predicate IsDigit(c: char)
  {
    '0' <= c <= '9'
  }

  /** `c.to_i` for a one-character string: its digit value, 0 for anything
      that is not a decimal digit. */
  function CharToI(c: char): (n: nat)
    ensures n < 10
    ensures IsDigit(c) ==> DigitChar(n) == c
  {
    if IsDigit(c) then c as int - 48 else 0
  }

  lemma CharToIOfDigit(d: nat)
    requires d < 10
    ensures CharToI(DigitChar(d)) == d
  {
  }

  /** `n.to_s`: decimal digits, no leading zeros. */
  function DecimalString(n: nat): (s: string)
    ensures 1 <= |s|
    ensures forall i :: 0 <= i < |s| ==> IsDigit(s[i])
    ensures n >= 10 ==> s[0] != '0'
  {
    if n < 10 then [DigitChar(n)] else DecimalString(n / 10) + [DigitChar(n % 10)]
  }

  /** `n.to_s(3)`: ternary digits, no leading zeros. */
  function Base3String(n: nat): (s: string)
    ensures 1 <= |s|
    ensures forall i :: 0 <= i < |s| ==> '0' <= s[i] <= '2'
  {
    if n < 3 then [DigitChar(n)] else Base3String(n / 3) + [DigitChar(n % 3)]
  }

  /** `s.to_i` for a string of decimal digits. */
  function DecimalValue(s: string): nat
    requires forall i :: 0 <= i < |s| ==> IsDigit(s[i])
  {
    if s == [] then 0 else 10 * DecimalValue(s[..|s| - 1]) + CharToI(s[|s| - 1])
  }

  /** `to_s` and `to_i` undo each other. */
  lemma {:induction false} DecimalStringValue(n: nat)
    ensures DecimalValue(DecimalString(n)) == n
  {
    var s := DecimalString(n);
    if n >= 10 {
      DecimalStringValue(n / 10);
      assert s[..|s| - 1] == DecimalString(n / 10);
    }
  }

  /** A run of k zero characters. */
  function Zeros(k: nat): (z: string)
    ensures |z| == k && forall i :: 0 <= i < k ==> z[i] == '0'
  {
    seq(k, _ => '0')
  }
}
