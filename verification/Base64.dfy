/** The Base64 codec over the bits of byte sequences: what the encoder and the decoder compute. A string
    is a sequence of 16-bit code units, with no condition on surrogates. */
module Base64 {
  import opened Bits
  import opened Wrappers

  type Unit = u: nat | u < 0x1_0000
  type Byte = b: nat | b < 0x100

  /** `BASE64_MAPPING`, two rows at a time. */
  const FIRST := "ABCDEFGHIJKLMNOP"
  const SECOND := "QRSTUVWXYZabcdef"
  const THIRD := "ghijklmnopqrstuv"
  const FOURTH := "wxyz0123456789+/"
  const ALPHABET: seq<char> := FIRST + SECOND + (THIRD + FOURTH)

  /* ---- Encoding ---- */

  /** The bits of one code unit, in one, two or three bytes. */
  function UnitBits(u: Unit): seq<Bit> {
    if u < 0x80 then Fixed(u, 8)
    else if u < 0x800 then [1, 1, 0] + Fixed(u / 64, 5) + [1, 0] + Fixed(u % 64, 6)
    else [1, 1, 1, 0] + Fixed(u / 4096, 4) + [1, 0] + Fixed(u / 64 % 64, 6) + [1, 0] + Fixed(u % 64, 6)
  }

  function AllBits(s: seq<Unit>): seq<Bit> {
    if s == [] then [] else AllBits(s[..|s| - 1]) + UnitBits(s[|s| - 1])
  }

  /** The first `m` bits, with zeros past the end. */
  function Padded(bits: seq<Bit>, m: nat): (p: seq<Bit>)
    ensures |p| == m
  {
    seq(m, i requires 0 <= i < m => if i < |bits| then bits[i] else 0)
  }

  /** The `k`th group of six bits. */
  function Sextet(bits: seq<Bit>, k: nat): (six: seq<Bit>)
    ensures |six| == 6
  {
    seq(6, i requires 0 <= i < 6 => if 6 * k + i < |bits| then bits[6 * k + i] else 0)
  }

  function DigitAt(bits: seq<Bit>, k: nat): (d: nat)
    ensures d < 64
  {
    FixedFrom(Sextet(bits, k));
    assert Pow2(6) == 64 by { Powers(); }
    FromBits(Sextet(bits, k))
  }

  function Letter(d: nat): char
    requires d < 64
  {
    AlphabetSize();
    ALPHABET[d]
  }

  /** The characters of the first `k` groups. */
  function Chars(bits: seq<Bit>, k: nat): (cs: seq<char>)
    ensures |cs| == k
  {
    seq(k, i requires 0 <= i < k => Letter(DigitAt(bits, i)))
  }

  /** How many groups `n` bits take, the last one perhaps filled up. */
  function Groups(n: nat): (k: nat)
    ensures n <= 6 * k < n + 6
  {
    if n == 0 then 0 else if n <= 6 then 1 else 1 + Groups(n - 6)
  }

  /** An equals sign for every two zeros. */
  function Equals(zeros: nat): seq<char> {
    if zeros < 2 then [] else Equals(zeros - 2) + ['=']
  }

  function Text(bits: seq<Bit>): seq<char> {
    var k := Groups(|bits|);
    Chars(bits, k) + Equals(6 * k - |bits|)
  }

  function Encode(s: seq<Unit>): seq<char> {
    Text(AllBits(s))
  }

  /* ---- Decoding ---- */

  /** The place of a character in the alphabet. */
  function DigitOf(c: char): Option<nat> {
    if 'A' <= c <= 'Z' then Some(c as nat - 'A' as nat)
    else if 'a' <= c <= 'z' then Some(c as nat - 'a' as nat + 26)
    else if '0' <= c <= '9' then Some(c as nat - '0' as nat + 52)
    else if c == '+' then Some(62)
    else if c == '/' then Some(63)
    else None
  }

  /** How many zero bits the trailing equals signs stand for. */
  function ExtraZeros(text: seq<char>): nat {
    var n := |text|;
    if n == 0 || text[n - 1] != '=' then 0 else if n >= 2 && text[n - 2] == '=' then 4 else 2
  }

  /** Six bits for each character of the alphabet; other characters are skipped. */
  function TextBits(text: seq<char>): seq<Bit> {
    if text == [] then [] else
      TextBits(text[..|text| - 1]) +
      match DigitOf(text[|text| - 1])
      case Some(d) => Fixed(d, 6)
      case None => []
  }

  /** `bits.slice( from, to )`, cut off at the end of the array. */
  function Slice(bits: seq<Bit>, from: nat, to: nat): seq<Bit> {
    var end := if to < |bits| then to else |bits|;
    if from < end then seq(end - from, i requires 0 <= i < end - from => bits[from + i]) else []
  }

  /** How many ones follow one another from `i` on. */
  function Ones(bits: seq<Bit>, i: nat): (n: nat)
    ensures i < |bits| && bits[i] == 1 ==> n >= 1
    decreases |bits| - i
  {
    if i < |bits| && bits[i] == 1 then 1 + Ones(bits, i + 1) else 0
  }

  /** The low six bits of `m` bytes from `at` on. */
  function Tails(bits: seq<Bit>, at: nat, m: nat): seq<Bit> {
    if m == 0 then [] else Tails(bits, at, m - 1) + Slice(bits, at + 8 * (m - 1) + 2, at + 8 * m)
  }

  /** The payload bits of a sequence of `n` bytes that begins at `i`. */
  function SequencePayload(bits: seq<Bit>, i: nat, n: nat): seq<Bit>
    requires n > 0
  {
    Slice(bits, i + n + 1, i + 8) + Tails(bits, i + 8, n - 1)
  }

  /** The payload bits of what begins at `i`. */
  function UnitPayload(bits: seq<Bit>, i: nat): seq<Bit>
    requires i < |bits|
  {
    if bits[i] == 0 then Slice(bits, i, i + 8) else SequencePayload(bits, i, Ones(bits, i))
  }

  function NextUnit(bits: seq<Bit>, i: nat): nat
    requires i < |bits|
  {
    FromBits(UnitPayload(bits, i))
  }

  /** Every iteration of the decoder's loop advances by at least eight bits. */
  function NextIndex(bits: seq<Bit>, i: nat): (j: nat)
    requires i < |bits|
    ensures j >= i + 8
  {
    if bits[i] == 0 then i + 8 else i + 8 * Ones(bits, i)
  }

  function Units(bits: seq<Bit>, i: nat): seq<nat>
    decreases |bits| - i
  {
    if i >= |bits| then [] else [NextUnit(bits, i)] + Units(bits, NextIndex(bits, i))
  }

  /** The bits that the text stands for, without the zeros that filled it up. */
  function Payload(text: seq<char>): seq<Bit> {
    var extra := ExtraZeros(text);
    var bits := TextBits(text[..|text| - extra / 2]);
    if extra <= |bits| then bits[..|bits| - extra] else []
  }

  function Decode(text: seq<char>): seq<nat> {
    Units(Payload(text), 0)
  }

  /* ---- The alphabet ---- */

  lemma {:induction false} AlphabetSize()
    ensures |ALPHABET| == 64
  {
  }

  lemma {:induction false} Powers()
    ensures Pow2(1) == 2 && Pow2(2) == 4 && Pow2(3) == 8 && Pow2(4) == 16 && Pow2(5) == 32 && Pow2(6) == 64
    ensures Pow2(7) == 128 && Pow2(8) == 256 && Pow2(11) == 2048 && Pow2(12) == 4096 && Pow2(16) == 65536
  {
    assert Pow2(0) == 1;
    assert Pow2(2) == 2 * Pow2(1);
    assert Pow2(4) == 2 * Pow2(3);
    assert Pow2(6) == 2 * Pow2(5);
    assert Pow2(8) == 2 * Pow2(7);
    assert Pow2(10) == 2 * Pow2(9);
    assert Pow2(12) == 2 * Pow2(11);
    assert Pow2(14) == 2 * Pow2(13);
    assert Pow2(16) == 2 * Pow2(15);
  }

  lemma {:induction false} RowDigit(row: seq<char>, base: nat, k: nat)
    requires k < 16
    requires (row == FIRST && base == 0) || (row == SECOND && base == 16) || (row == THIRD && base == 32) ||
      (row == FOURTH && base == 48)
    ensures |row| == 16 && DigitOf(row[k]) == Some(base + k)
  {
    match k
    case 0 | 1 | 2 | 3 | 4 | 5 | 6 | 7 | 8 | 9 | 10 | 11 | 12 | 13 | 14 | 15 =>
    case _ =>
  }

  lemma {:induction false} AlphabetDigit(d: nat)
    requires d < 64
    ensures |ALPHABET| == 64 && DigitOf(ALPHABET[d]) == Some(d)
  {
    if d < 16 {
      RowDigit(FIRST, 0, d);
    } else if d < 32 {
      RowDigit(SECOND, 16, d - 16);
    } else if d < 48 {
      RowDigit(THIRD, 32, d - 32);
    } else {
      RowDigit(FOURTH, 48, d - 48);
    }
  }

  lemma {:induction false} DigitAlphabet(c: char)
    requires DigitOf(c).Some?
    ensures DigitOf(c).value < |ALPHABET| == 64 && ALPHABET[DigitOf(c).value] == c
  {
    AlphabetDigit(DigitOf(c).value);
  }
}
