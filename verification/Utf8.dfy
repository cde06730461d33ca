/** UTF-8 of a string of 16-bit units, as the standards have it, and when the encoder agrees. */
module Utf8 {
  import opened Bits
  import opened Base64
  import opened Base64Laws
  import opened Wrappers

  type CodePoint = c: nat | c < 0x11_0000

  predicate IsHigh(u: Unit) {
    0xD800 <= u < 0xDC00
  }

  predicate IsLow(u: Unit) {
    0xDC00 <= u < 0xE000
  }

  predicate Surrogate(u: Unit) {
    0xD800 <= u <= 0xDFFF
  }

  /** The character that a pair of surrogates stands for (section 2.1 of RFC 2781). */
  function Paired(high: Unit, low: Unit): CodePoint
    requires IsHigh(high) && IsLow(low)
  {
    0x1_0000 + 0x400 * (high - 0xD800) + (low - 0xDC00)
  }

  /** The table of section 3 of RFC 3629. */
  function CharBytes(c: CodePoint): (bytes: seq<Byte>)
    ensures |bytes| == if c < 0x80 then 1 else if c < 0x800 then 2 else if c < 0x1_0000 then 3 else 4
  {
    if c < 0x80 then [c]
    else if c < 0x800 then [0xC0 + c / 64, 0x80 + c % 64]
    else if c < 0x1_0000 then [0xE0 + c / 4096, 0x80 + c / 64 % 64, 0x80 + c % 64]
    else [0xF0 + c / 0x4_0000, 0x80 + c / 4096 % 64, 0x80 + c / 64 % 64, 0x80 + c % 64]
  }

  /** UTF-8 of a string: a pair of surrogates is one character, and a lone one has no form. */
  function Utf8Of(s: seq<Unit>): Option<seq<Byte>> {
    var n := |s|;
    if n == 0 then Some([])
    else if !Surrogate(s[n - 1]) then After(Utf8Of(s[..n - 1]), s[n - 1])
    else if n >= 2 && IsHigh(s[n - 2]) && IsLow(s[n - 1]) then After(Utf8Of(s[..n - 2]), Paired(s[n - 2], s[n - 1]))
    else None
  }

  function After(before: Option<seq<Byte>>, c: CodePoint): Option<seq<Byte>> {
    if before.Some? then Some(before.value + CharBytes(c)) else None
  }

  predicate NoSurrogates(s: seq<Unit>) {
    forall i :: 0 <= i < |s| ==> !Surrogate(s[i])
  }

  lemma SameForm(u: Unit)
    ensures CharBytes(u) == UnitBytes(u)
  {
  }

  lemma PairForm(high: Unit, low: Unit)
    requires IsHigh(high) && IsLow(low)
    ensures |UnitBytes(high)| == 3 && |UnitBytes(low)| == 3 && |CharBytes(Paired(high, low))| == 4
  {
  }

  lemma {:induction false} Utf8IsBytes(s: seq<Unit>)
    requires NoSurrogates(s)
    ensures Utf8Of(s) == Some(Bytes(s))
    decreases |s|
  {
    if s != [] {
      Utf8IsBytes(s[..|s| - 1]);
      SameForm(s[|s| - 1]);
    }
  }

  lemma SingleStep(s: seq<Unit>)
    requires s != [] && !Surrogate(s[|s| - 1]) && Utf8Of(s).Some?
    ensures var init := s[..|s| - 1];
      Utf8Of(init).Some? && |Bytes(s)| - |Utf8Of(s).value| == |Bytes(init)| - |Utf8Of(init).value|
  {
    SameForm(s[|s| - 1]);
  }

  lemma PairStep(s: seq<Unit>)
    requires s != [] && Surrogate(s[|s| - 1]) && Utf8Of(s).Some?
    ensures |s| >= 2
    ensures var init := s[..|s| - 2];
      Utf8Of(init).Some? && |Bytes(s)| - |Utf8Of(s).value| == |Bytes(init)| - |Utf8Of(init).value| + 2
  {
    PairForm(s[|s| - 2], s[|s| - 1]);
    BytesOfTwo(s);
  }

  /** The encoder spends six bytes on a pair of surrogates, for which UTF-8 has four. */
  lemma {:induction false} PairsAreLonger(s: seq<Unit>)
    requires Utf8Of(s).Some?
    ensures |Utf8Of(s).value| <= |Bytes(s)|
    ensures !NoSurrogates(s) ==> |Utf8Of(s).value| < |Bytes(s)|
    decreases |s|
  {
    if s != [] {
      if !Surrogate(s[|s| - 1]) {
        SingleStep(s);
        PairsAreLonger(s[..|s| - 1]);
      } else {
        PairStep(s);
        PairsAreLonger(s[..|s| - 2]);
      }
    }
  }

  lemma BytesOfTwo(s: seq<Unit>)
    requires |s| >= 2
    ensures |Bytes(s)| == |Bytes(s[..|s| - 2])| + |UnitBytes(s[|s| - 2])| + |UnitBytes(s[|s| - 1])|
  {
    assert s[..|s| - 1][..|s| - 2] == s[..|s| - 2];
  }

  lemma EightPerByte(bytes: seq<Byte>)
    ensures |ByteBits(bytes)| % 8 == 0
  {
    Eightfold(|bytes|);
  }

  lemma Eightfold(n: nat)
    ensures 8 * n % 8 == 0
  {
  }

  lemma SameBits(a: seq<Bit>, b: seq<Bit>)
    requires |a| % 8 == 0 && |b| % 8 == 0 && Text(a) == Text(b)
    ensures a == b
  {
    TextOfBits(a);
    TextOfBits(b);
  }

  lemma SameLength(a: seq<Byte>, b: seq<Byte>)
    requires ByteBits(a) == ByteBits(b)
    ensures |a| == |b|
  {
  }

  /** Strings of bytes with the same Base64 are of the same length. */
  lemma SameText(a: seq<Byte>, b: seq<Byte>, x: seq<Bit>, y: seq<Bit>)
    requires x == ByteBits(a) && y == ByteBits(b) && |x| % 8 == 0 && |y| % 8 == 0 && Text(x) == Text(y)
    ensures |a| == |b|
  {
    SameBits(x, y);
    SameLength(a, b);
  }

  lemma LongerDiffers(s: seq<Unit>, bytes: seq<Byte>)
    requires |bytes| < |Bytes(s)|
    ensures Encode(s) != Rfc4648(bytes)
  {
    TextIsRfc4648(bytes);
    BitsOfBytes(s);
    EightPerByte(bytes);
    AllBitsLength(s);
    if Text(AllBits(s)) == Text(ByteBits(bytes)) {
      SameText(Bytes(s), bytes, AllBits(s), ByteBits(bytes));
    }
  }

  /** The encoder follows the standards, section 4 of RFC 4648 applied to UTF-8, exactly on the
      strings without surrogates: a pair is encoded otherwise, and a lone one has no UTF-8. */
  lemma EncoderFollowsTheStandards(s: seq<Unit>)
    ensures Utf8Of(s).Some? && Encode(s) == Rfc4648(Utf8Of(s).value) <==> NoSurrogates(s)
    ensures NoSurrogates(s) ==> |Encode(s)| == 4 * ((|Utf8Of(s).value| + 2) / 3)
  {
    if NoSurrogates(s) {
      EncodesBytes(s);
      Utf8IsBytes(s);
    } else if Utf8Of(s).Some? {
      PairsAreLonger(s);
      LongerDiffers(s, Utf8Of(s).value);
    }
  }

  lemma TwoUnits(a: Unit, b: Unit)
    ensures Bytes([a, b]) == UnitBytes(a) + UnitBytes(b)
    ensures IsHigh(a) && IsLow(b) ==> Utf8Of([a, b]) == Some(CharBytes(Paired(a, b)))
  {
    var s: seq<Unit> := [a, b];
    assert s[..1] == [a] && s[..0] == [] && [a][..0] == [];
    assert Bytes([a]) == Bytes([]) + UnitBytes(a);
    assert [] + UnitBytes(a) == UnitBytes(a);
    if IsHigh(a) && IsLow(b) {
      assert Utf8Of([]) == Some([]) && [] + CharBytes(Paired(a, b)) == CharBytes(Paired(a, b));
    }
  }

  lemma PairBytes(high: Unit, low: Unit)
    requires high == 0xD83D && low == 0xDE00
    ensures UnitBytes(high) == [0xED, 0xA0, 0xBD] && UnitBytes(low) == [0xED, 0xB8, 0x80]
    ensures CharBytes(Paired(high, low)) == [0xF0, 0x9F, 0x98, 0x80]
  {
    assert Paired(high, low) == 0x1_F600;
  }

  lemma PairForms(s: seq<Unit>)
    requires s == [0xD83D, 0xDE00]
    ensures Utf8Of(s) == Some([0xF0, 0x9F, 0x98, 0x80]) && Bytes(s) == [0xED, 0xA0, 0xBD, 0xED, 0xB8, 0x80]
  {
    TwoUnits(s[0], s[1]);
    PairBytes(s[0], s[1]);
  }

  /** The pair D83D DE00, the character U+1F600: UTF-8 has F0 9F 98 80, the encoder something else. */
  lemma PairIsNotUtf8(s: seq<Unit>, utf8: seq<Byte>)
    requires s == [0xD83D, 0xDE00] && utf8 == [0xF0, 0x9F, 0x98, 0x80]
    ensures Utf8Of(s) == Some(utf8) && Encode(s) != Rfc4648(utf8)
    ensures Encode(s) == Rfc4648([0xED, 0xA0, 0xBD, 0xED, 0xB8, 0x80])
  {
    PairForms(s);
    EncodesBytes(s);
    LongerDiffers(s, utf8);
  }
}
