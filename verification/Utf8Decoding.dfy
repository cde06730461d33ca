/** What the decoder makes of byte sequences that it did not write itself: sequences of any length that
    the marks allow, and so the UTF-8 of all characters. */
module Utf8Decoding {
  import opened Base64
  import opened Base64Codec
  import opened Base64Laws
  import opened Bits
  import opened Sequences
  import opened Utf8
  import opened Wrappers

  /* ---- Sequences of up to seven bytes ---- */

  /** How many bits a sequence of `n` bytes holds. */
  function Room(n: nat): nat
    requires 1 <= n <= 7
  {
    7 - n + 6 * (n - 1)
  }

  lemma {:induction false} FramedLength(n: nat, field: seq<Bit>, m: nat)
    requires n <= 7 && 7 - n + 6 * m <= |field|
    ensures |Framed(n, field, m)| == 8 * (m + 1)
    decreases m
  {
    if m > 0 {
      FramedLength(n, field, m - 1);
    }
  }

  /** More bytes leave the ones before them in their places. */
  lemma {:induction false} FramedGrows(n: nat, field: seq<Bit>, j: nat, m: nat)
    requires n <= 7 && 7 - n + 6 * m <= |field| && j <= m
    ensures Framed(n, field, j) <= Framed(n, field, m)
    decreases m
  {
    if j < m {
      FramedGrows(n, field, j, m - 1);
    }
  }

  /** The first byte: `n` ones, a zero, and the first bits of the field. */
  lemma {:induction false} FirstOfFrame(n: nat, field: seq<Bit>, m: nat)
    requires n <= 7 && 7 - n + 6 * m <= |field|
    ensures var part := Framed(n, field, m);
      && |part| == 8 * (m + 1) && (forall j :: 0 <= j < n ==> part[j] == 1) && part[n] == 0
      && part[n + 1..8] == field[..7 - n]
  {
    FramedLength(n, field, m);
    FramedGrows(n, field, 0, m);
    var part := Framed(n, field, m);
    var first := Framed(n, field, 0);
    assert first == Marked(n) + field[..7 - n] && |first| == 8 && part[..8] == first;
    assert forall j :: 0 <= j < 8 ==> part[j] == first[j];
    assert part[n + 1..8] == first[n + 1..8];
  }

  lemma {:induction false} OneMoreByte(n: nat, field: seq<Bit>, j: nat, from: nat)
    requires n <= 7 && from == 7 - n + 6 * j && from + 6 <= |field|
    ensures Framed(n, field, j + 1) == Framed(n, field, j) + [1, 0] + field[from..from + 6]
  {
  }

  lemma {:induction false} LastSix(part: seq<Bit>, head: seq<Bit>, tail: seq<Bit>, at: nat)
    requires |head| == at && |tail| == 6 && head + [1, 0] + tail <= part
    ensures part[at + 2..at + 8] == tail
  {
    var some := head + [1, 0] + tail;
    assert forall k :: 0 <= k < 6 ==> part[at + 2 + k] == some[at + 2 + k] == tail[k];
  }

  /** Byte `j`, counted from 0 behind the first: a one, a zero, and the next six bits of the field. */
  lemma {:induction false} LaterOfFrame(n: nat, field: seq<Bit>, m: nat, j: nat, at: nat, from: nat)
    requires n <= 7 && 7 - n + 6 * m <= |field| && j < m
    requires at == 8 * (j + 1) && from == 7 - n + 6 * j
    ensures |Framed(n, field, m)| == 8 * (m + 1) && Framed(n, field, m)[at + 2..at + 8] == field[from..from + 6]
  {
    FramedLength(n, field, m);
    FramedLength(n, field, j);
    FramedLength(n, field, j + 1);
    FramedGrows(n, field, j + 1, m);
    OneMoreByte(n, field, j, from);
    LastSix(Framed(n, field, m), Framed(n, field, j), field[from..from + 6], at);
  }

  /** The decoder takes these six bits of later byte `j`, when the bytes after the first begin at `at`. */
  predicate TakesTail(bits: seq<Bit>, at: nat, field: seq<Bit>, head: nat, j: nat) {
    var from, place := head + 6 * j, at + 8 * j;
    from + 6 <= |field| && Slice(bits, place + 2, place + 8) == field[from..from + 6]
  }

  lemma {:induction false} JoinFields(field: seq<Bit>, a: nat, b: nat, c: nat)
    requires a <= b <= c <= |field|
    ensures field[a..b] + field[b..c] == field[a..c]
  {
  }

  /** One more tail, with the bits that it is known to give. */
  lemma {:induction false} OneMoreTail(bits: seq<Bit>, at: nat, k: nat, place: nat, x: seq<Bit>, y: seq<Bit>)
    requires place == at + 8 * k && Tails(bits, at, k) == x && Slice(bits, place + 2, place + 8) == y
    ensures Tails(bits, at, k + 1) == x + y
  {
    TailsGrow(bits, at, k);
  }

  lemma {:induction false} UseTail(bits: seq<Bit>, at: nat, field: seq<Bit>, head: nat, j: nat, place: nat, from: nat,
    to: nat)
    requires TakesTail(bits, at, field, head, j) && place == at + 8 * j && from == head + 6 * j && to == from + 6
    ensures to <= |field| && Slice(bits, place + 2, place + 8) == field[from..to]
  {
  }

  lemma {:induction false} TailsAre(bits: seq<Bit>, at: nat, field: seq<Bit>, head: nat, k: nat, end: nat)
    requires end == head + 6 * k <= |field| && forall j: nat :: j < k ==> TakesTail(bits, at, field, head, j)
    ensures Tails(bits, at, k) == field[head..end]
  {
    var j: nat, place, from := 0, at, head;
    assert field[head..head] == [];
    while j < k
      invariant 0 <= j <= k && place == at + 8 * j && from == head + 6 * j && from <= |field|
      invariant Tails(bits, at, j) == field[head..from]
    {
      var to := from + 6;
      UseTail(bits, at, field, head, j, place, from, to);
      OneMoreTail(bits, at, j, place, field[head..from], field[from..to]);
      JoinFields(field, head, from, to);
      j, place, from := j + 1, place + 8, to;
    }
  }

  lemma {:induction false} FrameTakesTail(before: seq<Bit>, n: nat, field: seq<Bit>, m: nat, rest: seq<Bit>, j: nat)
    requires n <= 7 && 7 - n + 6 * m <= |field| && j < m
    ensures TakesTail(before + Framed(n, field, m) + rest, |before| + 8, field, 7 - n, j)
  {
    var at, from := 8 * (j + 1), 7 - n + 6 * j;
    LaterOfFrame(n, field, m, j, at, from);
    SliceInside(before, Framed(n, field, m), rest, at + 2, at + 8);
  }

  lemma {:induction false} TakesAllTails(bits: seq<Bit>, before: seq<Bit>, n: nat, field: seq<Bit>, rest: seq<Bit>,
    at: nat, head: nat)
    requires 1 <= n <= 7 && |field| == Room(n) && bits == before + Framed(n, field, n - 1) + rest
    requires at == |before| + 8 && head == 7 - n
    ensures forall j: nat :: j < n - 1 ==> TakesTail(bits, at, field, head, j)
  {
    forall j: nat | j < n - 1 ensures TakesTail(bits, at, field, head, j) {
      FrameTakesTail(before, n, field, n - 1, rest, j);
    }
  }

  /** What the decoder takes of a sequence is its field. */
  lemma {:induction false} PayloadIsField(bits: seq<Bit>, before: seq<Bit>, n: nat, field: seq<Bit>, rest: seq<Bit>)
    requires 1 <= n <= 7 && |field| == Room(n) && bits == before + Framed(n, field, n - 1) + rest
    ensures SequencePayload(bits, |before|, n) == field
  {
    var at, head, end := |before| + 8, 7 - n, |field|;
    HeadOfPayload(before, n, field, rest);
    TakesAllTails(bits, before, n, field, rest, at, head);
    TailsAre(bits, at, field, head, n - 1, end);
    WholePayload(bits, |before|, n, field, head);
  }

  lemma {:induction false} HeadOfPayload(before: seq<Bit>, n: nat, field: seq<Bit>, rest: seq<Bit>)
    requires 1 <= n <= 7 && |field| == Room(n)
    ensures Slice(before + Framed(n, field, n - 1) + rest, |before| + n + 1, |before| + 8) == field[..7 - n]
  {
    FirstOfFrame(n, field, n - 1);
    SliceInside(before, Framed(n, field, n - 1), rest, n + 1, 8);
  }

  lemma {:induction false} WholePayload(bits: seq<Bit>, p: nat, n: nat, field: seq<Bit>, head: nat)
    requires n > 0 && head <= |field|
    requires Slice(bits, p + n + 1, p + 8) == field[..head] && Tails(bits, p + 8, n - 1) == field[head..|field|]
    ensures SequencePayload(bits, p, n) == field
  {
    assert field[..head] + field[head..|field|] == field;
  }

  /** Wherever a sequence of `n` bytes stands, the decoder reads the number that its bits give, and goes on
      behind it. */
  lemma {:induction false} ReadsSequenceOf(before: seq<Bit>, n: nat, field: seq<Bit>, rest: seq<Bit>)
    requires 1 <= n <= 7 && |field| == Room(n)
    ensures var bits := before + Framed(n, field, n - 1) + rest;
      |before| < |bits| && NextUnit(bits, |before|) == FromBits(field) && NextIndex(bits, |before|) == |before| + 8 * n
  {
    FramedMarks(n, field);
    SequenceAt(before, Framed(n, field, n - 1), rest, n);
    PayloadIsField(before + Framed(n, field, n - 1) + rest, before, n, field, rest);
  }

  lemma {:induction false} FramedMarks(n: nat, field: seq<Bit>)
    requires 1 <= n <= 7 && |field| == Room(n)
    ensures var part := Framed(n, field, n - 1);
      n < |part| == 8 * n && part[n] == 0 && forall j :: 0 <= j < n ==> part[j] == 1
  {
    FirstOfFrame(n, field, n - 1);
  }

  /* ---- The UTF-8 of a character ---- */

  lemma {:induction false} FourMarks()
    ensures Fixed(30, 5) == [1, 1, 1, 1, 0]
  {
    assert Fixed(30, 5) == Fixed(15, 4) + [0];
    assert Fixed(15, 4) == Fixed(7, 3) + [1];
    assert Fixed(7, 3) == Fixed(3, 2) + [1];
    assert Fixed(3, 2) == Fixed(1, 1) + [1];
    assert Fixed(1, 1) == Fixed(0, 0) + [1];
  }

  lemma {:induction false} HeadOfFour(p: nat)
    requires p < 8
    ensures Fixed(0xF0 + p, 8) == [1, 1, 1, 1, 0] + Fixed(p, 3)
  {
    assert Pow2(3) == 8 by { Powers(); }
    FixedSplits(0xF0 + p, 30, p, 5, 3);
    FourMarks();
  }

  lemma {:induction false} FourByteBits(a: Byte, b: Byte, c: Byte, d: Byte)
    ensures ByteBits([a, b, c, d]) == Fixed(a, 8) + Fixed(b, 8) + Fixed(c, 8) + Fixed(d, 8)
  {
    assert [a, b, c, d][..3] == [a, b, c];
    ThreeByteBits(a, b, c);
  }

  lemma {:induction false} FourFields(a: seq<Bit>, b: seq<Bit>, c: seq<Bit>, d: seq<Bit>)
    requires |a| == 3 && |b| == 6 && |c| == 6 && |d| == 6
    ensures Framed(4, a + b + c + d, 3) ==
      [1, 1, 1, 1, 0] + a + ([1, 0] + b) + ([1, 0] + c) + ([1, 0] + d)
  {
    var field := a + b + c + d;
    assert field[..3] == a && field[3..9] == b && field[9..15] == c && field[15..21] == d;
    assert Marked(4) == [1, 1, 1, 1, 0];
    var one, two := [1, 1, 1, 1, 0] + a, [1, 1, 1, 1, 0] + a + ([1, 0] + b);
    assert Framed(4, field, 0) == one;
    Assoc(one, [1, 0], b);
    assert Framed(4, field, 1) == two;
    Assoc(two, [1, 0], c);
    assert Framed(4, field, 2) == two + ([1, 0] + c);
    Assoc(two + ([1, 0] + c), [1, 0], d);
  }

  lemma {:induction false} FourSplits(c: nat)
    ensures Fixed(c, 21) == Fixed(c / 0x4_0000, 3) + Fixed(c / 4096 % 64, 6) + Fixed(c / 64 % 64, 6) + Fixed(c % 64, 6)
  {
    SplitAt6(c, 15);
    SplitAt6(c / 64, 9);
    SplitAt6(c / 4096, 3);
    assert c / 64 / 64 == c / 4096 && c / 4096 / 64 == c / 0x4_0000;
  }

  lemma {:induction false} FourForm(p: nat, q: nat, r: nat, t: nat)
    requires p < 8 && q < 64 && r < 64 && t < 64
    ensures ByteBits([0xF0 + p, 0x80 + q, 0x80 + r, 0x80 + t]) ==
      Framed(4, Fixed(p, 3) + Fixed(q, 6) + Fixed(r, 6) + Fixed(t, 6), 3)
  {
    HeadOfFour(p);
    Base64Laws.TailByte(q);
    Base64Laws.TailByte(r);
    Base64Laws.TailByte(t);
    FourByteBits(0xF0 + p, 0x80 + q, 0x80 + r, 0x80 + t);
    FourFields(Fixed(p, 3), Fixed(q, 6), Fixed(r, 6), Fixed(t, 6));
  }

  lemma {:induction false} FourBytesFramed(c: CodePoint)
    requires c >= 0x1_0000
    ensures ByteBits(CharBytes(c)) == Framed(4, Fixed(c, 21), 3)
  {
    FourForm(c / 0x4_0000, c / 4096 % 64, c / 64 % 64, c % 64);
    FourSplits(c);
  }

  lemma {:induction false} Below21(c: CodePoint)
    ensures c < Pow2(21)
  {
    Powers();
    assert Pow2(17) == 2 * Pow2(16) && Pow2(19) == 2 * Pow2(18) && Pow2(21) == 2 * Pow2(20);
  }

  /** Wherever the UTF-8 of a character stands, the decoder reads the character. */
  lemma {:induction false} ReadsChar(before: seq<Bit>, c: CodePoint, rest: seq<Bit>)
    ensures var bits := before + ByteBits(CharBytes(c)) + rest;
      |before| < |bits| && NextUnit(bits, |before|) == c && NextIndex(bits, |before|) == |before| + 8 * |CharBytes(c)|
  {
    if c < 0x1_0000 {
      SameForm(c);
      UnitBytesBits(c);
      UnitBitsLength(c);
      ReadsUnit(before, c, rest);
    } else {
      FourBytesFramed(c);
      ReadsSequenceOf(before, 4, Fixed(c, 21), rest);
      Below21(c);
      FromFixed(c, 21);
    }
  }

  /* ---- The UTF-8 of a text ---- */

  /** The bytes of all characters, one after the other. */
  function TextBytes(chars: seq<CodePoint>): seq<Byte> {
    if chars == [] then [] else TextBytes(chars[..|chars| - 1]) + CharBytes(chars[|chars| - 1])
  }

  lemma {:induction false} FirstBytes(chars: seq<CodePoint>, k: nat) returns (rest: seq<Byte>)
    requires k <= |chars|
    ensures TextBytes(chars) == TextBytes(chars[..k]) + rest
    decreases |chars|
  {
    if k == |chars| {
      assert chars[..k] == chars;
      NothingAfter(TextBytes(chars));
      rest := [];
    } else {
      var init := FirstBytes(chars[..|chars| - 1], k);
      assert chars[..|chars| - 1][..k] == chars[..k];
      Assoc(TextBytes(chars[..k]), init, CharBytes(chars[|chars| - 1]));
      rest := init + CharBytes(chars[|chars| - 1]);
    }
  }

  lemma {:induction false} UnitsStep(bits: seq<Bit>, i: nat, c: nat, j: nat)
    requires i < |bits| && NextUnit(bits, i) == c && NextIndex(bits, i) == j
    ensures Units(bits, i) == [c] + Units(bits, j)
  {
  }

  lemma {:induction false} ThreePartBits(a: seq<Byte>, b: seq<Byte>, c: seq<Byte>)
    ensures ByteBits(a + b + c) == ByteBits(a) + ByteBits(b) + ByteBits(c)
  {
    ByteBitsConcat(a, b);
    ByteBitsConcat(a + b, c);
  }

  lemma {:induction false} LengthAfter(before: seq<Byte>, next: seq<Byte>)
    ensures |ByteBits(before + next)| == |ByteBits(before)| + 8 * |next|
  {
  }

  lemma {:induction false} NextBytes(chars: seq<CodePoint>, k: nat)
    requires k < |chars|
    ensures TextBytes(chars[..k + 1]) == TextBytes(chars[..k]) + CharBytes(chars[k])
  {
    assert chars[..k + 1][..k] == chars[..k];
  }

  /** Where character `k` begins. */
  function Place(chars: seq<CodePoint>, k: nat): nat
    requires k <= |chars|
  {
    if k == 0 then 0 else Place(chars, k - 1) + 8 * |CharBytes(chars[k - 1])|
  }

  lemma {:induction false} PlaceIsLength(chars: seq<CodePoint>, k: nat)
    requires k <= |chars|
    ensures |ByteBits(TextBytes(chars[..k]))| == Place(chars, k)
    decreases k
  {
    if k > 0 {
      PlaceIsLength(chars, k - 1);
      NextBytes(chars, k - 1);
      LengthAfter(TextBytes(chars[..k - 1]), CharBytes(chars[k - 1]));
    }
  }

  lemma {:induction false} ReadsNextChar(chars: seq<CodePoint>, k: nat, bits: seq<Bit>, i: nat, j: nat)
    requires k < |chars| && bits == ByteBits(TextBytes(chars)) && i == Place(chars, k) && j == Place(chars, k + 1)
    ensures i < |bits| && NextUnit(bits, i) == chars[k] && NextIndex(bits, i) == j
  {
    var rest := FirstBytes(chars, k + 1);
    PlaceIsLength(chars, k);
    NextBytes(chars, k);
    ThreePartBits(TextBytes(chars[..k]), CharBytes(chars[k]), rest);
    ReadsChar(ByteBits(TextBytes(chars[..k])), chars[k], ByteBits(rest));
  }

  /** The characters from the `k`th on. */
  function CharsFrom(chars: seq<CodePoint>, k: nat): seq<nat>
    decreases |chars| - k
  {
    if k >= |chars| then [] else [chars[k]] + CharsFrom(chars, k + 1)
  }

  lemma {:induction false} CharsFromCompletes(chars: seq<CodePoint>, k: nat)
    requires k <= |chars|
    ensures chars[..k] + CharsFrom(chars, k) == chars
    decreases |chars| - k
  {
    if k < |chars| {
      CharsFromCompletes(chars, k + 1);
      assert chars[..k + 1] == chars[..k] + [chars[k]];
    }
  }

  /** What the decoder reads from the place of character `k` on. */
  function ReadFrom(bits: seq<Bit>, chars: seq<CodePoint>, k: nat): seq<nat>
    requires k <= |chars|
  {
    Units(bits, Place(chars, k))
  }

  lemma {:induction false} ReadsOne(chars: seq<CodePoint>, k: nat, bits: seq<Bit>)
    requires k < |chars| && bits == ByteBits(TextBytes(chars))
    ensures ReadFrom(bits, chars, k) == [chars[k]] + ReadFrom(bits, chars, k + 1)
  {
    ReadsNextChar(chars, k, bits, Place(chars, k), Place(chars, k + 1));
    UnitsStep(bits, Place(chars, k), chars[k], Place(chars, k + 1));
  }

  lemma {:induction false} NothingRead(bits: seq<Bit>)
    ensures Units(bits, |bits|) == []
  {
  }

  lemma {:induction false} ReadsNothing(chars: seq<CodePoint>, bits: seq<Bit>)
    requires bits == ByteBits(TextBytes(chars))
    ensures ReadFrom(bits, chars, |chars|) == []
  {
    PlaceIsLength(chars, |chars|);
    assert chars[..|chars|] == chars;
    NothingRead(bits);
  }

  lemma {:induction false} InFront(chars: seq<CodePoint>, k: nat, rest: seq<nat>)
    requires k < |chars| && rest == CharsFrom(chars, k + 1)
    ensures [chars[k]] + rest == CharsFrom(chars, k)
  {
  }

  lemma {:induction false} ReadsChars(chars: seq<CodePoint>, bits: seq<Bit>)
    requires bits == ByteBits(TextBytes(chars))
    ensures ReadFrom(bits, chars, 0) == CharsFrom(chars, 0)
  {
    ReadsNothing(chars, bits);
    var k, read: seq<nat> := |chars|, [];
    while k > 0
      invariant 0 <= k <= |chars| && ReadFrom(bits, chars, k) == read && CharsFrom(chars, k) == read
    {
      ReadsOne(chars, k - 1, bits);
      InFront(chars, k - 1, read);
      k, read := k - 1, [chars[k - 1]] + read;
    }
  }

  /** Whoever made it, Base64 of the UTF-8 of a text decodes to the characters of the text. */
  lemma {:induction false} DecodesUtf8(chars: seq<CodePoint>)
    ensures Decode(Rfc4648(TextBytes(chars))) == chars
  {
    var bytes := TextBytes(chars);
    TextIsRfc4648(bytes);
    EightPerByte(bytes);
    TextOfBits(ByteBits(bytes));
    ReadsChars(chars, ByteBits(bytes));
    CharsFromCompletes(chars, 0);
    NothingBefore(CharsFrom(chars, 0));
  }

  /** The characters of a string of 16-bit units, if it has no lone surrogate. */
  function CharsOf(s: seq<Unit>): Option<seq<CodePoint>> {
    var n := |s|;
    if n == 0 then Some([])
    else if !Surrogate(s[n - 1]) then With(CharsOf(s[..n - 1]), s[n - 1])
    else if n >= 2 && IsHigh(s[n - 2]) && IsLow(s[n - 1]) then With(CharsOf(s[..n - 2]), Paired(s[n - 2], s[n - 1]))
    else None
  }

  function With(before: Option<seq<CodePoint>>, c: CodePoint): Option<seq<CodePoint>> {
    if before.Some? then Some(before.value + [c]) else None
  }

  lemma {:induction false} OneMoreChar(chars: seq<CodePoint>, c: CodePoint)
    ensures TextBytes(chars + [c]) == TextBytes(chars) + CharBytes(c)
  {
    assert (chars + [c])[..|chars|] == chars;
  }

  lemma {:induction false} Utf8IsOfChars(s: seq<Unit>)
    ensures Utf8Of(s).Some? <==> CharsOf(s).Some?
    ensures CharsOf(s).Some? ==> Utf8Of(s).value == TextBytes(CharsOf(s).value)
    decreases |s|
  {
    var n := |s|;
    if n > 0 && !Surrogate(s[n - 1]) {
      Utf8IsOfChars(s[..n - 1]);
      if CharsOf(s[..n - 1]).Some? {
        OneMoreChar(CharsOf(s[..n - 1]).value, s[n - 1]);
      }
    } else if n >= 2 && IsHigh(s[n - 2]) && IsLow(s[n - 1]) {
      Utf8IsOfChars(s[..n - 2]);
      if CharsOf(s[..n - 2]).Some? {
        OneMoreChar(CharsOf(s[..n - 2]).value, Paired(s[n - 2], s[n - 1]));
      }
    }
  }

  /** So what another program encodes by the standards, the decoder turns into the characters of the
      string: one for each pair of surrogates, where the string has two units. */
  lemma {:induction false} DecodesStandardText(s: seq<Unit>)
    requires Utf8Of(s).Some?
    ensures CharsOf(s).Some? && Decode(Rfc4648(Utf8Of(s).value)) == CharsOf(s).value
  {
    Utf8IsOfChars(s);
    DecodesUtf8(CharsOf(s).value);
  }
}
