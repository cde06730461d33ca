/** Texts with foreign characters in them, and texts known from elsewhere. */
module Base64Texts {
  import opened Base64
  import opened Base64Codec
  import opened Base64Laws
  import opened Bits
  import opened Sequences
  import opened Utf8
  import opened Utf8Decoding

  /** The character U+1F600, which has four bytes, is one character for the decoder. */
  lemma {:induction false} DecodesEmoji()
    ensures Decode("8J+YgA==") == [0x1_F600]
  {
    var bytes: seq<Byte> := [0xF0, 0x9F, 0x98, 0x80];
    assert [0x1_F600][..0] == [] && [] + CharBytes(0x1_F600) == CharBytes(0x1_F600);
    assert TextBytes([0x1_F600]) == CharBytes(0x1_F600) == bytes;
    EmojiText(bytes);
    DecodesUtf8([0x1_F600]);
  }

  lemma {:induction false} EmojiText(bytes: seq<Byte>)
    requires bytes == [0xF0, 0x9F, 0x98, 0x80]
    ensures Rfc4648(bytes) == "8J+YgA=="
  {
    assert Quads(bytes, 2) == Quads(bytes, 1) + Quad(bytes, 1);
    assert Quads(bytes, 1) == Quads(bytes, 0) + Quad(bytes, 0);
    assert Quad(bytes, 0) == ThreeLetters(0xF0, 0x9F, 0x98) && Quad(bytes, 1) == OneLetters(0x80);
    FourLetters();
    LastLetters();
  }

  lemma {:induction false} FourLetters()
    ensures Letter(60) == '8' && Letter(9) == 'J' && Letter(62) == '+' && Letter(24) == 'Y'
  {
  }

  lemma {:induction false} LastLetters()
    ensures Letter(32) == 'g' && Letter(0) == 'A'
  {
  }

  /* ---- Characters that are none of the alphabet ---- */

  lemma {:induction false} BitsAfter(a: seq<char>, b: seq<char>)
    ensures TextBits(a + b) == TextBits(a) + TextBits(b)
    decreases |b|
  {
    if b == [] {
      assert a + b == a && TextBits(a) + [] == TextBits(a);
    } else {
      var init, c := b[..|b| - 1], b[|b| - 1];
      assert (a + b)[..|a + b| - 1] == a + init;
      BitsAfter(a, init);
      Assoc(TextBits(a), TextBits(init), if DigitOf(c).Some? then Fixed(DigitOf(c).value, 6) else []);
    }
  }

  lemma {:induction false} NoBits(c: char)
    requires DigitOf(c).None?
    ensures TextBits([c]) == []
  {
    assert [c][..0] == [];
  }

  lemma {:induction false} BitsWithout(a: seq<char>, c: char, b: seq<char>)
    requires DigitOf(c).None?
    ensures TextBits(a + [c] + b) == TextBits(a + b)
  {
    BitsAfter(a + [c], b);
    BitsAfter(a, [c]);
    NoBits(c);
    NothingAfter(TextBits(a));
    BitsAfter(a, b);
  }

  /** So a line break, or any other character that is not of the alphabet, makes no difference inside the
      text; only the last two characters are looked at for equals signs. */
  lemma {:induction false} SkipsOthers(a: seq<char>, c: char, b: seq<char>)
    requires DigitOf(c).None? && |b| >= 2
    ensures Decode(a + [c] + b) == Decode(a + b)
  {
    SamePayload(a, c, b, b[..|b| - ExtraZeros(b) / 2]);
  }

  lemma {:induction false} SamePayload(a: seq<char>, c: char, b: seq<char>, less: seq<char>)
    requires DigitOf(c).None? && |b| >= 2 && less == b[..|b| - ExtraZeros(b) / 2]
    ensures Payload(a + [c] + b) == Payload(a + b)
  {
    PayloadEnds(a + [c], b, less, TextBits(a + [c] + less));
    PayloadEnds(a, b, less, TextBits(a + less));
    BitsWithout(a, c, less);
  }

  lemma {:induction false} PayloadEnds(a: seq<char>, b: seq<char>, less: seq<char>, bits: seq<Bit>)
    requires |b| >= 2 && less == b[..|b| - ExtraZeros(b) / 2] && bits == TextBits(a + less)
    ensures Payload(a + b) == if ExtraZeros(b) <= |bits| then bits[..|bits| - ExtraZeros(b)] else []
  {
    SameEnd(a, b, less);
    PayloadOf(a + b, |a + less|, ExtraZeros(b), bits);
  }

  lemma {:induction false} SameEnd(a: seq<char>, b: seq<char>, less: seq<char>)
    requires |b| >= 2 && less == b[..|b| - ExtraZeros(b) / 2]
    ensures ExtraZeros(a + b) == ExtraZeros(b)
    ensures (a + b)[..|a + b| - ExtraZeros(b) / 2] == a + less
  {
  }

  /* ---- Texts ---- */

  lemma {:induction false} OneQuad(bytes: seq<Byte>)
    requires 1 <= |bytes| <= 3
    ensures Rfc4648(bytes) == Quad(bytes, 0)
  {
    assert Quads(bytes, 1) == Quads(bytes, 0) + Quad(bytes, 0);
    NothingBefore(Quad(bytes, 0));
  }

  lemma {:induction false} BytesOfOne(u: Unit)
    ensures Bytes([u]) == UnitBytes(u)
  {
    assert [u][..0] == [] && Bytes([]) == [];
    NothingBefore(UnitBytes(u));
  }

  /** The letter M, and the character U+4E2D. */
  lemma {:induction false} EncodesOne()
    ensures Encode([0x4D]) == "TQ==" && Encode([0x4E2D]) == "5Lit"
  {
    EncodesLetter(0x4D, [0x4D]);
    EncodesCharacter(0x4E2D, [0xE4, 0xB8, 0xAD]);
  }

  lemma {:induction false} EncodesLetter(u: Unit, bytes: seq<Byte>)
    requires u == 0x4D && bytes == [0x4D]
    ensures Encode([u]) == "TQ=="
  {
    EncodesUnit(u, bytes);
    LetterText(bytes);
  }

  lemma {:induction false} EncodesCharacter(u: Unit, bytes: seq<Byte>)
    requires u == 0x4E2D && bytes == [0xE4, 0xB8, 0xAD]
    ensures Encode([u]) == "5Lit"
  {
    EncodesUnit(u, bytes);
    CharacterText(bytes);
  }

  lemma {:induction false} EncodesUnit(u: Unit, bytes: seq<Byte>)
    requires bytes == UnitBytes(u)
    ensures Encode([u]) == Quad(bytes, 0)
  {
    BytesOfOne(u);
    EncodesBytes([u]);
    OneQuad(bytes);
  }

  lemma {:induction false} LetterText(bytes: seq<Byte>)
    requires bytes == [0x4D]
    ensures Quad(bytes, 0) == "TQ=="
  {
    assert Quad(bytes, 0) == OneLetters(0x4D);
    SomeLetters();
  }

  lemma {:induction false} CharacterText(bytes: seq<Byte>)
    requires bytes == [0xE4, 0xB8, 0xAD]
    ensures Quad(bytes, 0) == "5Lit"
  {
    assert Quad(bytes, 0) == ThreeLetters(0xE4, 0xB8, 0xAD);
    assert High(0xE4) == 57 && Middle(0xE4, 0xB8) == 11 && Lower(0xB8, 0xAD) == 34 && Low(0xAD) == 45;
    SomeLetters();
  }

  lemma {:induction false} SomeLetters()
    ensures Letter(19) == 'T' && Letter(16) == 'Q'
    ensures Letter(57) == '5' && Letter(11) == 'L' && Letter(34) == 'i' && Letter(45) == 't'
  {
  }
}
