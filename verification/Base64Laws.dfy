/** The laws of the codec: the round trip, and that the encoder is RFC 4648 of the bytes that it makes of
    the units. */
module Base64Laws {
  import opened Bits
  import opened Base64
  import opened Sequences

  /* ---- Characters and six-bit groups ---- */

  lemma {:induction false} SextetDigit(bits: seq<Bit>, k: nat)
    ensures Fixed(DigitAt(bits, k), 6) == Sextet(bits, k)
  {
    FixedFrom(Sextet(bits, k));
  }

  /** Decoding the characters of `k` groups gives their bits back, with the padding. */
  lemma {:induction false} CharsBits(bits: seq<Bit>, k: nat)
    ensures TextBits(Chars(bits, k)) == Padded(bits, 6 * k)
    decreases k
  {
    if k > 0 {
      CharsBits(bits, k - 1);
      AlphabetDigit(DigitAt(bits, k - 1));
      SextetDigit(bits, k - 1);
      assert Chars(bits, k)[..k - 1] == Chars(bits, k - 1);
      PaddedMore(bits, k - 1);
    }
  }

  lemma {:induction false} PaddedMore(bits: seq<Bit>, k: nat)
    ensures Padded(bits, 6 * (k + 1)) == Padded(bits, 6 * k) + Sextet(bits, k)
  {
  }

  lemma {:induction false} NoEquals(bits: seq<Bit>, k: nat)
    ensures forall i :: 0 <= i < k ==> Chars(bits, k)[i] != '='
  {
    forall i | 0 <= i < k ensures Chars(bits, k)[i] != '=' {
      AlphabetDigit(DigitAt(bits, i));
    }
  }

  lemma {:induction false} EqualsTwo()
    ensures Equals(0) == [] && Equals(2) == ['='] && Equals(4) == ['=', '=']
  {
    assert Equals(2) == Equals(0) + ['='];
    assert Equals(4) == Equals(2) + ['='];
  }

  /** A string of whole bytes is padded by no, two or four bits. */
  lemma {:induction false} PaddingOfBytes(bits: seq<Bit>)
    requires |bits| % 8 == 0
    ensures 6 * Groups(|bits|) - |bits| in {0, 2, 4}
  {
  }

  lemma {:induction false} EqualsAreCounted(text: seq<char>, zeros: nat)
    requires zeros in {0, 2, 4} && forall i :: 0 <= i < |text| ==> text[i] != '='
    ensures |Equals(zeros)| == zeros / 2 && ExtraZeros(text + Equals(zeros)) == zeros &&
      (text + Equals(zeros))[..|text|] == text
  {
    EqualsTwo();
  }

  /** The decoder recovers the bits from the text. */
  lemma {:induction false} TextOfBits(bits: seq<Bit>)
    requires |bits| % 8 == 0
    ensures Payload(Text(bits)) == bits
  {
    PaddingOfBytes(bits);
    TextOfGroups(bits, Groups(|bits|));
  }

  lemma {:induction false} TextOfGroups(bits: seq<Bit>, k: nat)
    requires k == Groups(|bits|) && 6 * k - |bits| in {0, 2, 4}
    ensures Payload(Text(bits)) == bits
  {
    var extra := 6 * k - |bits|;
    NoEquals(bits, k);
    EqualsAreCounted(Chars(bits, k), extra);
    CharsBits(bits, k);
    Unpadded(bits, extra);
    PayloadIs(Text(bits), Chars(bits, k), Padded(bits, |bits| + extra), extra);
  }

  lemma {:induction false} PayloadIs(text: seq<char>, cs: seq<char>, padded: seq<Bit>, extra: nat)
    requires ExtraZeros(text) == extra && extra / 2 <= |text| && text[..|text| - extra / 2] == cs
    requires TextBits(cs) == padded && extra <= |padded|
    ensures Payload(text) == padded[..|padded| - extra]
  {
  }

  lemma {:induction false} Unpadded(bits: seq<Bit>, extra: nat)
    ensures Padded(bits, |bits| + extra)[..|bits|] == bits
  {
  }

  /* ---- Code units and their bits ---- */

  lemma {:induction false} UnitBitsLength(u: Unit)
    ensures |UnitBits(u)| == if u < 0x80 then 8 else if u < 0x800 then 16 else 24
  {
  }

  lemma {:induction false} AllBitsLength(s: seq<Unit>)
    ensures |AllBits(s)| % 8 == 0
    decreases |s|
  {
    if s != [] {
      UnitBitsLength(s[|s| - 1]);
      AllBitsLength(s[..|s| - 1]);
      WholeBytes(AllBits(s[..|s| - 1]), UnitBits(s[|s| - 1]));
    }
  }

  lemma {:induction false} WholeBytes(a: seq<Bit>, b: seq<Bit>)
    requires |a| % 8 == 0 && |b| in {8, 16, 24}
    ensures |a + b| % 8 == 0
  {
  }

  /** A slice that lies inside one part of the bits. */
  lemma {:induction false} SliceInside(before: seq<Bit>, part: seq<Bit>, rest: seq<Bit>, a: nat, b: nat)
    requires a <= b <= |part|
    ensures Slice(before + part + rest, |before| + a, |before| + b) == part[a..b]
  {
    var bits := before + part + rest;
    assert |Slice(bits, |before| + a, |before| + b)| == b - a;
    forall i | 0 <= i < b - a ensures Slice(bits, |before| + a, |before| + b)[i] == part[a..b][i] {
      assert bits[|before| + a + i] == part[a + i];
    }
    assert Slice(bits, |before| + a, |before| + b) == part[a..b];
  }

  /** A part that begins with `n` ones is read as that many bytes. */
  lemma {:induction false} ReadsSequence(bits: seq<Bit>, i: nat, n: nat)
    requires i < |bits| && bits[i] == 1 && n > 0 && Ones(bits, i) == n
    ensures UnitPayload(bits, i) == SequencePayload(bits, i, n) && NextIndex(bits, i) == i + 8 * n
  {
  }

  lemma {:induction false} OneByte(before: seq<Bit>, u: Unit, rest: seq<Bit>)
    requires u < 0x80
    ensures var bits := before + UnitBits(u) + rest;
      UnitPayload(bits, |before|) == Fixed(u, 8) && NextIndex(bits, |before|) == |before| + 8
  {
    LeadingZero(u);
    assert (before + UnitBits(u) + rest)[|before|] == Fixed(u, 8)[0];
    SliceInside(before, UnitBits(u), rest, 0, 8);
  }

  lemma {:induction false} LeadingZero(u: Unit)
    requires u < 0x80
    ensures Fixed(u, 8)[0] == 0
  {
    Powers();
    FixedSplits(u, 0, u, 1, 7);
    assert Fixed(0, 1) == [0];
  }

  /** The run of ones, when the part begins with ones and a zero. */
  lemma {:induction false} CountsOnes(before: seq<Bit>, part: seq<Bit>, rest: seq<Bit>, i: nat, n: nat)
    requires i <= n < |part| && part[n] == 0 && forall j :: i <= j < n ==> part[j] == 1
    ensures Ones(before + part + rest, |before| + i) == n - i
    decreases n - i
  {
    assert (before + part + rest)[|before| + i] == part[i];
    if i < n {
      CountsOnes(before, part, rest, i + 1, n);
    }
  }

  /** A part that begins with `n` ones and a zero is read as `n` bytes, wherever it stands. */
  lemma {:induction false} SequenceAt(before: seq<Bit>, part: seq<Bit>, rest: seq<Bit>, n: nat)
    requires 0 < n < |part| && part[n] == 0 && forall j :: 0 <= j < n ==> part[j] == 1
    ensures var bits, p := before + part + rest, |before|;
      UnitPayload(bits, p) == SequencePayload(bits, p, n) && NextIndex(bits, p) == p + 8 * n
  {
    var bits := before + part + rest;
    assert bits[|before|] == part[0];
    CountsOnes(before, part, rest, 0, n);
    ReadsSequence(bits, |before|, n);
  }

  lemma {:induction false} PayloadOfTwo(bits: seq<Bit>, p: nat)
    ensures SequencePayload(bits, p, 2) == Slice(bits, p + 3, p + 8) + Slice(bits, p + 10, p + 16)
  {
    OneTail(bits, p + 8);
  }

  lemma {:induction false} ReadsTwo(before: seq<Bit>, part: seq<Bit>, rest: seq<Bit>)
    requires |part| == 16
    ensures var bits := before + part + rest;
      SequencePayload(bits, |before|, 2) == part[3..8] + part[10..16]
  {
    PayloadOfTwo(before + part + rest, |before|);
    SliceInside(before, part, rest, 3, 8);
    SliceInside(before, part, rest, 10, 16);
  }

  lemma {:induction false} TwoBytes(before: seq<Bit>, u: Unit, rest: seq<Bit>)
    requires 0x80 <= u < 0x800
    ensures var bits := before + UnitBits(u) + rest;
      UnitPayload(bits, |before|) == Fixed(u / 64, 5) + Fixed(u % 64, 6) && NextIndex(bits, |before|) == |before| + 16
  {
    TwoParts(u);
    SequenceAt(before, UnitBits(u), rest, 2);
    ReadsTwo(before, UnitBits(u), rest);
  }

  lemma {:induction false} OneTail(bits: seq<Bit>, at: nat)
    ensures Tails(bits, at, 1) == Slice(bits, at + 2, at + 8)
  {
    assert Tails(bits, at, 0) == [];
    NothingBefore(Slice(bits, at + 2, at + 8));
  }

  lemma {:induction false} TwoParts(u: Unit)
    requires 0x80 <= u < 0x800
    ensures var part := UnitBits(u);
      |part| == 16 && part[0] == 1 && part[1] == 1 && part[2] == 0 && part[3..8] == Fixed(u / 64, 5) &&
        part[10..16] == Fixed(u % 64, 6)
  {
  }

  lemma {:induction false} TwoPayloads(u: Unit)
    requires u < 0x800
    ensures FromBits(Fixed(u / 64, 5) + Fixed(u % 64, 6)) == u
  {
    SplitAt6(u, 5);
    Powers();
    FromFixed(u, 11);
  }

  lemma {:induction false} PayloadOfThree(bits: seq<Bit>, p: nat)
    ensures SequencePayload(bits, p, 3) ==
      Slice(bits, p + 4, p + 8) + (Slice(bits, p + 10, p + 16) + Slice(bits, p + 18, p + 24))
  {
    OneTail(bits, p + 8);
    assert Tails(bits, p + 8, 2) == Tails(bits, p + 8, 1) + Slice(bits, p + 18, p + 24);
  }

  lemma {:induction false} ReadsThree(before: seq<Bit>, part: seq<Bit>, rest: seq<Bit>)
    requires |part| == 24
    ensures var bits := before + part + rest;
      SequencePayload(bits, |before|, 3) == part[4..8] + (part[10..16] + part[18..24])
  {
    PayloadOfThree(before + part + rest, |before|);
    SliceInside(before, part, rest, 4, 8);
    SliceInside(before, part, rest, 10, 16);
    SliceInside(before, part, rest, 18, 24);
  }

  lemma {:induction false} ThreeBytes(before: seq<Bit>, u: Unit, rest: seq<Bit>)
    requires 0x800 <= u
    ensures var bits := before + UnitBits(u) + rest;
      UnitPayload(bits, |before|) == Fixed(u / 4096, 4) + (Fixed(u / 64 % 64, 6) + Fixed(u % 64, 6)) &&
        NextIndex(bits, |before|) == |before| + 24
  {
    ThreeParts(u);
    SequenceAt(before, UnitBits(u), rest, 3);
    ReadsThree(before, UnitBits(u), rest);
  }

  lemma {:induction false} ThreePayloads(u: Unit)
    ensures FromBits(Fixed(u / 4096, 4) + (Fixed(u / 64 % 64, 6) + Fixed(u % 64, 6))) == u
  {
    SplitAt6(u / 64, 4);
    SplitAt6(u, 10);
    assert u / 64 / 64 == u / 4096;
    Assoc(Fixed(u / 4096, 4), Fixed(u / 64 % 64, 6), Fixed(u % 64, 6));
    Powers();
    FromFixed(u, 16);
  }

  lemma {:induction false} ThreeParts(u: Unit)
    requires 0x800 <= u
    ensures var part := UnitBits(u);
      |part| == 24 && part[0] == 1 && part[1] == 1 && part[2] == 1 && part[3] == 0 &&
        part[4..8] == Fixed(u / 4096, 4) && part[10..16] == Fixed(u / 64 % 64, 6) && part[18..24] == Fixed(u % 64, 6)
  {
  }

  /** The decoder reads one unit off the bits, wherever they stand. */
  lemma {:induction false} ReadsUnit(before: seq<Bit>, u: Unit, rest: seq<Bit>)
    ensures var bits := before + UnitBits(u) + rest;
      NextUnit(bits, |before|) == u && NextIndex(bits, |before|) == |before| + |UnitBits(u)|
  {
    UnitBitsLength(u);
    if u < 0x80 {
      OneByte(before, u, rest);
      Powers();
      FromFixed(u, 8);
    } else if u < 0x800 {
      TwoBytes(before, u, rest);
      TwoPayloads(u);
    } else {
      ThreeBytes(before, u, rest);
      ThreePayloads(u);
    }
  }

  /** The bits of the first `k` units come first. */
  lemma {:induction false} PrefixBits(s: seq<Unit>, k: nat) returns (rest: seq<Bit>)
    requires k <= |s|
    ensures AllBits(s) == AllBits(s[..k]) + rest
    decreases |s|
  {
    if k == |s| {
      assert s[..k] == s && AllBits(s) + [] == AllBits(s);
      rest := [];
    } else {
      var init := PrefixBits(s[..|s| - 1], k);
      assert s[..|s| - 1][..k] == s[..k];
      Assoc(AllBits(s[..k]), init, UnitBits(s[|s| - 1]));
      rest := init + UnitBits(s[|s| - 1]);
    }
  }

  /** The units from the `k`th on. */
  function From(s: seq<Unit>, k: nat): seq<nat>
    decreases |s| - k
  {
    if k >= |s| then [] else [s[k]] + From(s, k + 1)
  }

  lemma {:induction false} FromCompletes(s: seq<Unit>, k: nat)
    requires k <= |s|
    ensures s[..k] + From(s, k) == s
    decreases |s| - k
  {
    if k < |s| {
      FromCompletes(s, k + 1);
      assert s[..k + 1] == s[..k] + [s[k]];
    }
  }

  lemma {:induction false} ReadsAll(s: seq<Unit>, k: nat)
    requires k <= |s|
    ensures Units(AllBits(s), |AllBits(s[..k])|) == From(s, k)
    decreases |s| - k
  {
    if k == |s| {
      assert s[..k] == s;
    } else {
      var rest := PrefixBits(s, k + 1);
      ReadsNext(s, k, rest);
      ReadsAll(s, k + 1);
    }
  }

  lemma {:induction false} ReadsNext(s: seq<Unit>, k: nat, rest: seq<Bit>)
    requires k < |s| && AllBits(s) == AllBits(s[..k + 1]) + rest
    ensures Units(AllBits(s), |AllBits(s[..k])|) == [s[k]] + Units(AllBits(s), |AllBits(s[..k + 1])|)
  {
    assert s[..k + 1][..k] == s[..k];
    assert AllBits(s[..k + 1]) == AllBits(s[..k]) + UnitBits(s[k]);
    UnitBitsLength(s[k]);
    ReadsUnit(AllBits(s[..k]), s[k], rest);
  }

  /** The round trip, for every sequence of code units. */
  lemma {:induction false} RoundTrip(s: seq<Unit>)
    ensures Decode(Encode(s)) == s
  {
    AllBitsLength(s);
    TextOfBits(AllBits(s));
    ReadsAll(s, 0);
    FromCompletes(s, 0);
    NothingBefore(From(s, 0));
  }

  /** So different strings have different encodings. */
  lemma {:induction false} EncodeIsInjective(s: seq<Unit>, t: seq<Unit>)
    requires Encode(s) == Encode(t)
    ensures s == t
  {
    RoundTrip(s);
    RoundTrip(t);
  }

  /* ---- The standards ---- */

  /** The bytes that the encoder makes of one code unit, whatever unit it is. */
  function UnitBytes(u: Unit): seq<Byte> {
    if u < 0x80 then [u]
    else if u < 0x800 then [0xC0 + u / 64, 0x80 + u % 64]
    else [0xE0 + u / 4096, 0x80 + u / 64 % 64, 0x80 + u % 64]
  }

  function Bytes(s: seq<Unit>): seq<Byte> {
    if s == [] then [] else Bytes(s[..|s| - 1]) + UnitBytes(s[|s| - 1])
  }

  /* The four six-bit values of three bytes. */

  function High(a: Byte): (d: nat)
    ensures d < 64
  {
    a / 4
  }

  function Middle(a: Byte, b: Byte): (d: nat)
    ensures d < 64
  {
    a % 4 * 16 + b / 16
  }

  function Lower(b: Byte, c: Byte): (d: nat)
    ensures d < 64
  {
    b % 16 * 4 + c / 64
  }

  function Low(c: Byte): (d: nat)
    ensures d < 64
  {
    c % 64
  }

  function OneLetters(a: Byte): (quad: seq<char>)
    ensures |quad| == 4
  {
    [Letter(High(a)), Letter(Middle(a, 0)), '=', '=']
  }

  function TwoLetters(a: Byte, b: Byte): (quad: seq<char>)
    ensures |quad| == 4
  {
    [Letter(High(a)), Letter(Middle(a, b)), Letter(Lower(b, 0)), '=']
  }

  function ThreeLetters(a: Byte, b: Byte, c: Byte): (quad: seq<char>)
    ensures |quad| == 4
  {
    [Letter(High(a)), Letter(Middle(a, b)), Letter(Lower(b, c)), Letter(Low(c))]
  }

  /** The four characters for the three bytes from `3 * k` on, fewer at the end. */
  function Quad(bytes: seq<Byte>, k: nat): (quad: seq<char>)
    requires 3 * k < |bytes|
    ensures |quad| == 4
  {
    var i, n := 3 * k, |bytes|;
    if n == i + 1 then OneLetters(bytes[i])
    else if n == i + 2 then TwoLetters(bytes[i], bytes[i + 1])
    else ThreeLetters(bytes[i], bytes[i + 1], bytes[i + 2])
  }

  function Quads(bytes: seq<Byte>, k: nat): (cs: seq<char>)
    requires 3 * k < |bytes| + 3
    ensures |cs| == 4 * k
  {
    if k == 0 then [] else Quads(bytes, k - 1) + Quad(bytes, k - 1)
  }

  /** Section 4 of RFC 4648. */
  function Rfc4648(bytes: seq<Byte>): (cs: seq<char>)
    ensures |cs| == 4 * ((|bytes| + 2) / 3)
  {
    Quads(bytes, (|bytes| + 2) / 3)
  }

  function ByteBits(bytes: seq<Byte>): (bits: seq<Bit>)
    ensures |bits| == 8 * |bytes|
  {
    if bytes == [] then [] else ByteBits(bytes[..|bytes| - 1]) + Fixed(bytes[|bytes| - 1], 8)
  }

  lemma {:induction false} ByteBitsConcat(a: seq<Byte>, b: seq<Byte>)
    ensures ByteBits(a + b) == ByteBits(a) + ByteBits(b)
    decreases |b|
  {
    if b == [] {
      assert a + b == a && ByteBits(a) + [] == ByteBits(a);
    } else {
      var k := |b| - 1;
      assert (a + b)[..|a + b| - 1] == a + b[..k];
      ByteBitsConcat(a, b[..k]);
      Assoc(ByteBits(a), ByteBits(b[..k]), Fixed(b[k], 8));
    }
  }

  /* One unit, byte by byte. */

  lemma {:induction false} Marks()
    ensures Fixed(6, 3) == [1, 1, 0] && Fixed(14, 4) == [1, 1, 1, 0] && Fixed(2, 2) == [1, 0] && Fixed(0, 2) == [0, 0]
  {
    assert Fixed(14, 4) == Fixed(7, 3) + [0];
    assert Fixed(7, 3) == Fixed(3, 2) + [1];
    assert Fixed(6, 3) == Fixed(3, 2) + [0];
    assert Fixed(3, 2) == Fixed(1, 1) + [1];
    assert Fixed(2, 2) == Fixed(1, 1) + [0];
    assert Fixed(0, 2) == Fixed(0, 1) + [0];
  }

  lemma {:induction false} TailByte(d: nat)
    requires d < 64
    ensures Fixed(0x80 + d, 8) == [1, 0] + Fixed(d, 6)
  {
    Powers();
    FixedSplits(0x80 + d, 2, d, 2, 6);
    Marks();
  }

  lemma {:induction false} HeadOfTwo(q: nat)
    requires q < 32
    ensures Fixed(0xC0 + q, 8) == [1, 1, 0] + Fixed(q, 5)
  {
    Powers();
    FixedSplits(0xC0 + q, 6, q, 3, 5);
    Marks();
  }

  lemma {:induction false} HeadOfThree(p: nat)
    requires p < 16
    ensures Fixed(0xE0 + p, 8) == [1, 1, 1, 0] + Fixed(p, 4)
  {
    Powers();
    FixedSplits(0xE0 + p, 14, p, 4, 4);
    Marks();
  }

  lemma {:induction false} TwoByteForm(q: nat, r: nat)
    requires q < 32 && r < 64
    ensures ByteBits([0xC0 + q, 0x80 + r]) == [1, 1, 0] + Fixed(q, 5) + [1, 0] + Fixed(r, 6)
  {
    HeadOfTwo(q);
    TailByte(r);
    TwoByteBits(0xC0 + q, 0x80 + r);
    Assoc([1, 1, 0] + Fixed(q, 5), [1, 0], Fixed(r, 6));
  }

  lemma {:induction false} ThreeByteForm(p: nat, q: nat, r: nat)
    requires p < 16 && q < 64 && r < 64
    ensures ByteBits([0xE0 + p, 0x80 + q, 0x80 + r]) ==
      [1, 1, 1, 0] + Fixed(p, 4) + [1, 0] + Fixed(q, 6) + [1, 0] + Fixed(r, 6)
  {
    HeadOfThree(p);
    TailByte(q);
    TailByte(r);
    ThreeByteBits(0xE0 + p, 0x80 + q, 0x80 + r);
    Flatten([1, 1, 1, 0] + Fixed(p, 4), [1, 0], Fixed(q, 6), Fixed(r, 6));
  }

  lemma {:induction false} Flatten<T>(head: seq<T>, mark: seq<T>, a: seq<T>, b: seq<T>)
    ensures head + (mark + a) + (mark + b) == head + mark + a + mark + b
  {
  }

  lemma {:induction false} UnitBytesBits(u: Unit)
    ensures ByteBits(UnitBytes(u)) == UnitBits(u)
  {
    if u < 0x80 {
      OneByteBits(u);
    } else if u < 0x800 {
      TwoByteForm(u / 64, u % 64);
    } else {
      ThreeByteForm(u / 4096, u / 64 % 64, u % 64);
    }
  }

  lemma {:induction false} OneByteBits(a: Byte)
    ensures ByteBits([a]) == Fixed(a, 8)
  {
    assert [a][..0] == [] && ByteBits([]) == [];
    NothingBefore(Fixed(a, 8));
  }

  lemma {:induction false} TwoByteBits(a: Byte, b: Byte)
    ensures ByteBits([a, b]) == Fixed(a, 8) + Fixed(b, 8)
  {
    assert [a, b][..1] == [a];
    OneByteBits(a);
  }

  lemma {:induction false} ThreeByteBits(a: Byte, b: Byte, c: Byte)
    ensures ByteBits([a, b, c]) == Fixed(a, 8) + Fixed(b, 8) + Fixed(c, 8)
  {
    assert [a, b, c][..2] == [a, b];
    TwoByteBits(a, b);
  }

  /** The encoder's bits are those of the bytes, unit by unit. */
  lemma {:induction false} BitsOfBytes(s: seq<Unit>)
    ensures ByteBits(Bytes(s)) == AllBits(s)
    decreases |s|
  {
    if s != [] {
      BitsOfBytes(s[..|s| - 1]);
      UnitBytesBits(s[|s| - 1]);
      ByteBitsConcat(Bytes(s[..|s| - 1]), UnitBytes(s[|s| - 1]));
    }
  }

  /* Six bits at a time. */

  lemma {:induction false} SextetAfter(before: seq<Bit>, part: seq<Bit>, k: nat, j: nat)
    requires |before| == 6 * k
    ensures Sextet(before + part, k + j) == Sextet(part, j)
  {
  }

  lemma {:induction false} SextetBefore(before: seq<Bit>, part: seq<Bit>, k: nat, j: nat)
    requires |before| == 6 * k && j < k
    ensures Sextet(before + part, j) == Sextet(before, j)
  {
  }

  /** Whole groups are encoded on their own. */
  lemma {:induction false} CharsConcat(before: seq<Bit>, part: seq<Bit>, k: nat, j: nat)
    requires |before| == 6 * k
    ensures Chars(before + part, k + j) == Chars(before, k) + Chars(part, j)
  {
    forall i | 0 <= i < k + j ensures Chars(before + part, k + j)[i] == (Chars(before, k) + Chars(part, j))[i] {
      if i < k {
        SextetBefore(before, part, k, i);
      } else {
        SextetAfter(before, part, k, i - k);
      }
    }
  }

  lemma {:induction false} TextConcat(before: seq<Bit>, part: seq<Bit>, k: nat)
    requires |before| == 6 * k
    ensures Text(before + part) == Text(before) + Text(part)
  {
    var j := Groups(|part|);
    assert Groups(|before|) == k && Groups(|before + part|) == k + j;
    CharsConcat(before, part, k, j);
    NothingAfter(Chars(before, k));
    Assoc(Chars(before, k), Chars(part, j), Equals(6 * j - |part|));
  }

  lemma {:induction false} OneGroup(bits: seq<Bit>, d: nat)
    requires 0 < |bits| <= 6 && d < 64 && Sextet(bits, 0) == Fixed(d, 6)
    ensures Text(bits) == [Letter(d)] + Equals(6 - |bits|)
  {
    Powers();
    FromFixed(d, 6);
    assert Groups(|bits|) == 1;
    assert Chars(bits, 1) == [Letter(d)];
  }

  lemma {:induction false} SixBits(d: nat)
    requires d < 64
    ensures Text(Fixed(d, 6)) == [Letter(d)]
  {
    var bits := Fixed(d, 6);
    assert Sextet(bits, 0) == bits;
    OneGroup(bits, d);
    EqualsTwo();
  }

  lemma {:induction false} FourBits(d: nat)
    requires d < 16
    ensures Text(Fixed(d, 4)) == [Letter(4 * d), '=']
  {
    Powers();
    FixedShifted(d, 4, 2, 4 * d);
    OneGroup(Fixed(d, 4), 4 * d);
    EqualsTwo();
  }

  lemma {:induction false} TwoBits(d: nat)
    requires d < 4
    ensures Text(Fixed(d, 2)) == [Letter(16 * d), '=', '=']
  {
    Powers();
    FixedShifted(d, 2, 4, 16 * d);
    OneGroup(Fixed(d, 2), 16 * d);
    EqualsTwo();
  }

  /** Filling up with zeros multiplies by a power of two. */
  lemma {:induction false} FixedShifted(d: nat, j: nat, k: nat, e: nat)
    requires j + k == 6 && e == d * Pow2(k)
    ensures Sextet(Fixed(d, j), 0) == Fixed(e, 6)
  {
    FixedSplits(e, d, 0, j, k);
    ZeroIsZeros(k);
    assert Sextet(Fixed(d, j), 0) == Fixed(d, j) + Zeros(k);
  }

  lemma {:induction false} SixFirst(d: nat, rest: seq<Bit>)
    requires d < 64
    ensures Text(Fixed(d, 6) + rest) == [Letter(d)] + Text(rest)
  {
    SixBits(d);
    TextConcat(Fixed(d, 6), rest, 1);
  }

  lemma {:induction false} SplitHigh(a: Byte)
    ensures Fixed(a, 8) == Fixed(High(a), 6) + Fixed(a % 4, 2)
  {
    SplitAt2(a, 6);
  }

  lemma {:induction false} JoinMiddle(a: Byte, b: Byte)
    ensures Fixed(a % 4, 2) + Fixed(b / 16, 4) == Fixed(Middle(a, b), 6)
  {
    Powers();
    FixedSplits(Middle(a, b), a % 4, b / 16, 2, 4);
  }

  lemma {:induction false} JoinLower(b: Byte, c: Byte)
    ensures Fixed(b % 16, 4) + Fixed(c / 64, 2) == Fixed(Lower(b, c), 6)
  {
    Powers();
    FixedSplits(Lower(b, c), b % 16, c / 64, 4, 2);
  }

  lemma {:induction false} SplitLow(c: Byte)
    ensures Fixed(c, 8) == Fixed(c / 64, 2) + Fixed(Low(c), 6)
  {
    SplitAt6(c, 2);
  }

  lemma {:induction false} EncodesOne(a: Byte)
    ensures Text(Fixed(a, 8)) == OneLetters(a)
  {
    SplitHigh(a);
    SixFirst(High(a), Fixed(a % 4, 2));
    TwoBits(a % 4);
  }

  /** The low two bits of a byte and the high four of the next form a group. */
  lemma {:induction false} EncodesMiddle(a: Byte, b: Byte, rest: seq<Bit>)
    ensures Text(Fixed(a, 8) + (Fixed(b, 8) + rest)) ==
      [Letter(High(a)), Letter(Middle(a, b))] + Text(Fixed(b % 16, 4) + rest)
  {
    SplitHigh(a);
    JoinMiddle(a, b);
    SplitAt4(b, 4);
    TwoGroups(High(a), Fixed(a % 4, 2), Fixed(b / 16, 4), Middle(a, b), Fixed(b % 16, 4), rest);
  }

  lemma {:induction false} TwoGroups(d: nat, x: seq<Bit>, y: seq<Bit>, e: nat, z: seq<Bit>, rest: seq<Bit>)
    requires d < 64 && e < 64 && x + y == Fixed(e, 6)
    ensures Text((Fixed(d, 6) + x) + ((y + z) + rest)) == [Letter(d), Letter(e)] + Text(z + rest)
  {
    Regroup(Fixed(d, 6), x, y, z, rest);
    SixFirst(d, Fixed(e, 6) + (z + rest));
    SixFirst(e, z + rest);
    Assoc([Letter(d)], [Letter(e)], Text(z + rest));
  }

  lemma {:induction false} Regroup<T>(a: seq<T>, b: seq<T>, c: seq<T>, d: seq<T>, e: seq<T>)
    ensures (a + b) + ((c + d) + e) == a + ((b + c) + (d + e))
  {
  }

  lemma {:induction false} EncodesTwo(a: Byte, b: Byte)
    ensures Text(Fixed(a, 8) + Fixed(b, 8)) == TwoLetters(a, b)
  {
    EncodesMiddle(a, b, []);
    NothingAfter(Fixed(b, 8));
    NothingAfter(Fixed(b % 16, 4));
    FourBits(b % 16);
  }

  lemma {:induction false} EncodesThree(a: Byte, b: Byte, c: Byte)
    ensures Text(Fixed(a, 8) + (Fixed(b, 8) + Fixed(c, 8))) == ThreeLetters(a, b, c)
  {
    EncodesMiddle(a, b, Fixed(c, 8));
    JoinLower(b, c);
    SplitLow(c);
    LastGroups(Fixed(b % 16, 4), Fixed(c / 64, 2), Lower(b, c), Low(c));
    Join([Letter(High(a)), Letter(Middle(a, b))], [Letter(Lower(b, c)), Letter(Low(c))]);
  }

  lemma {:induction false} Join<T>(s: seq<T>, t: seq<T>)
    requires |s| == 2 && |t| == 2
    ensures s + t == [s[0], s[1], t[0], t[1]]
  {
  }

  lemma {:induction false} LastGroups(x: seq<Bit>, y: seq<Bit>, d: nat, e: nat)
    requires d < 64 && e < 64 && x + y == Fixed(d, 6)
    ensures Text(x + (y + Fixed(e, 6))) == [Letter(d), Letter(e)]
  {
    Assoc(x, y, Fixed(e, 6));
    SixFirst(d, Fixed(e, 6));
    SixBits(e);
  }

  lemma {:induction false} TwoLast(bytes: seq<Byte>)
    requires |bytes| >= 2
    ensures var n := |bytes|;
      ByteBits(bytes) == ByteBits(bytes[..n - 2]) + (Fixed(bytes[n - 2], 8) + Fixed(bytes[n - 1], 8))
  {
    var n := |bytes|;
    assert bytes[..n - 1][..n - 2] == bytes[..n - 2];
    Assoc(ByteBits(bytes[..n - 2]), Fixed(bytes[n - 2], 8), Fixed(bytes[n - 1], 8));
  }

  lemma {:induction false} ThreeLast(bytes: seq<Byte>)
    requires |bytes| >= 3
    ensures var n := |bytes|;
      ByteBits(bytes) == ByteBits(bytes[..n - 3]) +
        (Fixed(bytes[n - 3], 8) + (Fixed(bytes[n - 2], 8) + Fixed(bytes[n - 1], 8)))
  {
    var n := |bytes|;
    TwoLast(bytes);
    assert bytes[..n - 2][..n - 3] == bytes[..n - 3];
    Assoc(ByteBits(bytes[..n - 3]), Fixed(bytes[n - 3], 8), Fixed(bytes[n - 2], 8) + Fixed(bytes[n - 1], 8));
  }

  /** Three bytes make four groups. */
  lemma {:induction false} WholeGroups(bytes: seq<Byte>, m: nat, part: seq<Bit>)
    requires |bytes| == 3 * m
    ensures Text(ByteBits(bytes) + part) == Text(ByteBits(bytes)) + Text(part)
  {
    TextConcat(ByteBits(bytes), part, 4 * m);
  }

  lemma {:induction false} EndsWithOne(bytes: seq<Byte>, m: nat)
    requires |bytes| == 3 * m + 1
    ensures Text(ByteBits(bytes)) == Text(ByteBits(bytes[..3 * m])) + OneLetters(bytes[3 * m])
  {
    WholeGroups(bytes[..3 * m], m, Fixed(bytes[3 * m], 8));
    EncodesOne(bytes[3 * m]);
  }

  lemma {:induction false} EndsWithTwo(bytes: seq<Byte>, m: nat)
    requires |bytes| == 3 * m + 2
    ensures Text(ByteBits(bytes)) == Text(ByteBits(bytes[..3 * m])) + TwoLetters(bytes[3 * m], bytes[3 * m + 1])
  {
    TwoLast(bytes);
    WholeGroups(bytes[..3 * m], m, Fixed(bytes[3 * m], 8) + Fixed(bytes[3 * m + 1], 8));
    EncodesTwo(bytes[3 * m], bytes[3 * m + 1]);
  }

  lemma {:induction false} EndsWithThree(bytes: seq<Byte>, m: nat)
    requires |bytes| == 3 * m + 3
    ensures Text(ByteBits(bytes)) ==
      Text(ByteBits(bytes[..3 * m])) + ThreeLetters(bytes[3 * m], bytes[3 * m + 1], bytes[3 * m + 2])
  {
    var a, b, c := bytes[3 * m], bytes[3 * m + 1], bytes[3 * m + 2];
    ThreeLast(bytes);
    WholeGroups(bytes[..3 * m], m, Fixed(a, 8) + (Fixed(b, 8) + Fixed(c, 8)));
    EncodesThree(a, b, c);
  }

  lemma {:induction false} EndsWithQuad(bytes: seq<Byte>, k: nat)
    requires 3 * k < |bytes| <= 3 * k + 3
    ensures Text(ByteBits(bytes)) == Text(ByteBits(bytes[..3 * k])) + Quad(bytes, k)
  {
    if |bytes| == 3 * k + 1 {
      EndsWithOne(bytes, k);
    } else if |bytes| == 3 * k + 2 {
      EndsWithTwo(bytes, k);
    } else {
      EndsWithThree(bytes, k);
    }
  }

  lemma {:induction false} QuadOfPrefix(bytes: seq<Byte>, k: nat)
    requires 3 * k + 3 <= |bytes|
    ensures Quad(bytes[..3 * k + 3], k) == Quad(bytes, k)
  {
  }

  lemma {:induction false} NextQuad(bytes: seq<Byte>, k: nat)
    requires 3 * k + 3 <= |bytes|
    ensures Text(ByteBits(bytes[..3 * k + 3])) == Text(ByteBits(bytes[..3 * k])) + Quad(bytes, k)
  {
    EndsWithQuad(bytes[..3 * k + 3], k);
    assert bytes[..3 * k + 3][..3 * k] == bytes[..3 * k];
    QuadOfPrefix(bytes, k);
  }

  lemma {:induction false} QuadsGrow(bytes: seq<Byte>, k: nat, text: seq<char>)
    requires 3 * k < |bytes| && text == Quads(bytes, k)
    ensures text + Quad(bytes, k) == Quads(bytes, k + 1)
  {
  }

  /** The text of the first `i` bytes is the first `k` groups. */
  predicate Agrees(bytes: seq<Byte>, k: nat, i: nat) {
    i == 3 * k <= |bytes| && Text(ByteBits(bytes[..i])) == Quads(bytes, k)
  }

  lemma {:induction false} FirstQuads(bytes: seq<Byte>)
    ensures Agrees(bytes, 0, 0)
  {
    NoText();
    assert bytes[..0] == [];
  }

  lemma {:induction false} QuadsStep(bytes: seq<Byte>, k: nat, j: nat)
    requires Agrees(bytes, k, j) && j + 3 <= |bytes|
    ensures Agrees(bytes, k + 1, j + 3)
  {
    NextQuad(bytes, k);
    QuadsGrow(bytes, k, Text(ByteBits(bytes[..j])));
  }

  lemma {:induction false} TextIsQuads(bytes: seq<Byte>, k: nat, i: nat)
    requires i == 3 * k <= |bytes|
    ensures Agrees(bytes, k, i)
  {
    var m, j: nat := 0, 0;
    FirstQuads(bytes);
    while m < k
      invariant 0 <= m <= k && j == 3 * m && Agrees(bytes, m, j)
    {
      QuadsStep(bytes, m, j);
      m, j := m + 1, j + 3;
    }
  }

  lemma {:induction false} NoText()
    ensures Text(ByteBits([])) == []
  {
    EqualsTwo();
    assert Groups(0) == 0 && Chars([], 0) == [];
  }

  /** Cutting bits into sextets and padding with zeros is what section 4 of RFC 4648 asks for. */
  lemma {:induction false} TextIsRfc4648(bytes: seq<Byte>)
    ensures Text(ByteBits(bytes)) == Rfc4648(bytes)
  {
    TextIsAllQuads(bytes, (|bytes| + 2) / 3);
  }

  lemma {:induction false} TextIsAllQuads(bytes: seq<Byte>, k: nat)
    requires 3 * k < |bytes| + 3 <= 3 * k + 3
    ensures Text(ByteBits(bytes)) == Quads(bytes, k)
  {
    if k == 0 {
      NoText();
      assert bytes == [];
    } else {
      var j := k - 1;
      TextIsQuads(bytes, j, 3 * j);
      EndsWithQuad(bytes, j);
      QuadsGrow(bytes, j, Text(ByteBits(bytes[..3 * j])));
    }
  }

  /** The encoder is Base64 of the bytes that it makes unit by unit. */
  lemma {:induction false} EncodesBytes(s: seq<Unit>)
    ensures Encode(s) == Rfc4648(Bytes(s)) && |Encode(s)| == 4 * ((|Bytes(s)| + 2) / 3)
  {
    BitsOfBytes(s);
    TextIsRfc4648(Bytes(s));
  }
}
