/** `Base64.js` itself: bit arrays that grow by push, unshift and concat, scanned by index loops. */
module Base64Codec {
  import opened Bits
  import opened Base64
  import opened Base64Laws
  import opened Sequences

  /* ---- Numbers and bits ---- */

  function Reversed<T>(s: seq<T>): (r: seq<T>)
    ensures |r| == |s|
  {
    if s == [] then [] else [s[|s| - 1]] + Reversed(s[..|s| - 1])
  }

  lemma {:induction false} ReversedPush<T>(s: seq<T>, x: T)
    ensures Reversed(s + [x]) == [x] + Reversed(s)
  {
    assert (s + [x])[..|s|] == s;
  }

  lemma {:induction false} LowBit(n: nat, b: Bit, done: seq<Bit>)
    requires n > 0 && b == n % 2
    ensures ToBits(n) + Reversed(done) == ToBits(n / 2) + Reversed(done + [b])
  {
    ReversedPush(done, b);
    Assoc(ToBits(n / 2), [b], Reversed(done));
  }

  method ToBinary(ascii: nat) returns (binary: seq<Bit>)
    ensures binary == ToBits(ascii)
  {
    binary := [];
    var rest := ascii;
    NothingAfter(ToBits(ascii));
    while rest > 0
      invariant ToBits(ascii) == ToBits(rest) + Reversed(binary)
    {
      var b: Bit := rest % 2;
      LowBit(rest, b, binary);
      binary := binary + [b];
      rest := rest / 2;
    }
    NothingBefore(Reversed(binary));
    binary := Reversed(binary);
  }

  lemma {:induction false} HighBit(b: Bit, rest: seq<Bit>)
    ensures FromBits([b] + rest) == b * Pow2(|rest|) + FromBits(rest)
  {
    assert [b][..0] == [] && FromBits([]) == 0;
    FromConcat([b], rest);
  }

  method ToDecimal(binary: seq<Bit>) returns (dec: nat)
    ensures dec == FromBits(binary)
  {
    dec := 0;
    var p, i := 0, |binary|;
    ghost var rest := [];
    while i > 0
      invariant 0 <= i <= |binary| && |rest| == p && binary == binary[..i] + rest
      invariant dec == FromBits(rest)
    {
      i := i - 1;
      HighBit(binary[i], rest);
      if binary[i] == 1 {
        dec := dec + Pow2(p);
      }
      p := p + 1;
      rest := [binary[i]] + rest;
    }
    NothingBefore(rest);
  }

  /** Zeros put in front until there are `width` bits. */
  method FillUp(bits: seq<Bit>, width: nat) returns (filled: seq<Bit>)
    requires |bits| <= width
    ensures filled == Zeros(width - |bits|) + bits
  {
    filled := bits;
    var diff := width - |bits|;
    NothingBefore(bits);
    while diff > 0
      invariant 0 <= diff <= width - |bits| && filled == Zeros(width - |bits| - diff) + bits
    {
      ZerosUnshift(width - |bits| - diff);
      Assoc([0], Zeros(width - |bits| - diff), bits);
      diff := diff - 1;
      filled := [0] + filled;
    }
  }

  lemma {:induction false} ZerosUnshift(k: nat)
    ensures [0] + Zeros(k) == Zeros(k + 1)
  {
  }

  /* ---- One code unit ---- */

  /** A sequence of `m + 1` bytes whose first byte is marked by `c` ones. */
  function Framed(c: nat, field: seq<Bit>, m: nat): seq<Bit>
    requires c <= 7 && 7 - c + 6 * m <= |field|
  {
    if m == 0 then Marked(c) + field[..7 - c]
    else Framed(c, field, m - 1) + [1, 0] + field[7 - c + 6 * (m - 1)..7 - c + 6 * (m - 1) + 6]
  }

  /** `c` ones and a zero. */
  function Marked(c: nat): seq<Bit> {
    seq(c, i => 1) + [0]
  }

  /** `_toUTF8Binary`: the bits of a number in `c` bytes. */
  method ToUtf8Binary(c: nat, bits: seq<Bit>) returns (binary: seq<Bit>)
    requires 2 <= c <= 6 && |bits| <= 7 - c + 6 * (c - 1)
    ensures binary == Framed(c, Zeros(7 - c + 6 * (c - 1) - |bits|) + bits, c - 1)
  {
    var mustLen := 7 - c + 6 * (c - 1);
    var field := FillUp(bits, mustLen);
    var i;
    binary, i := FirstByte(c, field);
    var j := 0;
    while j < c - 1
      invariant 0 <= j <= c - 1 && i == 7 - c + 6 * j && i <= |field| == mustLen
      invariant binary == Framed(c, field, j)
    {
      binary, i := TailByte(binary, field, i);
      j := j + 1;
    }
  }

  method FirstByte(c: nat, field: seq<Bit>) returns (binary: seq<Bit>, i: nat)
    requires c <= 7 && 7 - c <= |field|
    ensures i == 7 - c && binary == Marked(c) + field[..i]
  {
    binary := [];
    var ones := c;
    while ones > 0
      invariant 0 <= ones <= c && binary == seq(c - ones, k => 1)
    {
      ones := ones - 1;
      binary := binary + [1];
    }
    binary := binary + [0];
    NothingAfter(binary);
    i := 0;
    while i < 7 - c
      invariant 0 <= i <= 7 - c && binary == Marked(c) + field[..i]
    {
      Assoc(Marked(c), field[..i], [field[i]]);
      assert field[..i + 1] == field[..i] + [field[i]];
      binary := binary + [field[i]];
      i := i + 1;
    }
  }

  method TailByte(before: seq<Bit>, field: seq<Bit>, from: nat) returns (binary: seq<Bit>, i: nat)
    requires from + 6 <= |field|
    ensures i == from + 6 && binary == before + [1, 0] + field[from..from + 6]
  {
    binary := before + [1];
    binary := binary + [0];
    i := from;
    var sum := 6;
    assert binary == before + [1, 0] + field[from..i];
    while sum > 0
      invariant 0 <= sum <= 6 && i == from + 6 - sum && binary == before + [1, 0] + field[from..i]
    {
      Assoc(before + [1, 0], field[from..i], [field[i]]);
      assert field[from..i + 1] == field[from..i] + [field[i]];
      sum := sum - 1;
      binary := binary + [field[i]];
      i := i + 1;
    }
  }

  lemma {:induction false} TwoBytesFramed(u: Unit)
    requires 0x80 <= u < 0x800
    ensures Framed(2, Fixed(u, 11), 1) == UnitBits(u)
  {
    SplitAt6(u, 5);
    TwoFields(Fixed(u / 64, 5), Fixed(u % 64, 6));
  }

  lemma {:induction false} TwoFields(a: seq<Bit>, b: seq<Bit>)
    requires |a| == 5 && |b| == 6
    ensures Framed(2, a + b, 1) == [1, 1, 0] + a + [1, 0] + b
  {
    assert Marked(2) == [1, 1, 0];
    assert Framed(2, a + b, 0) == [1, 1, 0] + a;
  }

  lemma {:induction false} ThreeBytesFramed(u: Unit)
    requires 0x800 <= u
    ensures Framed(3, Fixed(u, 16), 2) == UnitBits(u)
  {
    SplitAt6(u, 10);
    SplitAt6(u / 64, 4);
    assert u / 64 / 64 == u / 4096;
    ThreeFields(Fixed(u / 4096, 4), Fixed(u / 64 % 64, 6), Fixed(u % 64, 6));
  }

  lemma {:induction false} ThreeFields(a: seq<Bit>, b: seq<Bit>, c: seq<Bit>)
    requires |a| == 4 && |b| == 6 && |c| == 6
    ensures Framed(3, a + b + c, 2) == [1, 1, 1, 0] + a + [1, 0] + b + [1, 0] + c
  {
    assert Marked(3) == [1, 1, 1, 0];
    assert Framed(3, a + b + c, 0) == [1, 1, 1, 0] + a;
    assert Framed(3, a + b + c, 1) == [1, 1, 1, 0] + a + [1, 0] + b;
  }

  method UnitBinary(unicode: Unit) returns (binary: seq<Bit>)
    ensures binary == UnitBits(unicode)
  {
    Powers();
    binary := ToBinary(unicode);
    if unicode < 0x80 {
      PaddedIsFixed(unicode, 8);
      binary := FillUp(binary, 8);
    } else if unicode <= 0x7FF {
      PaddedIsFixed(unicode, 11);
      TwoBytesFramed(unicode);
      binary := ToUtf8Binary(2, binary);
    } else {
      PaddedIsFixed(unicode, 16);
      ThreeBytesFramed(unicode);
      binary := ToUtf8Binary(3, binary);
    }
  }

  /* ---- The encoder ---- */

  function Digits(bits: seq<Bit>, k: nat): (digits: seq<nat>)
    ensures |digits| == k && forall i :: 0 <= i < k ==> digits[i] < 64
  {
    seq(k, i requires 0 <= i < k => DigitAt(bits, i))
  }

  /** The second loop of the encoder, with the zeros that it pushes behind the last group. */
  method Group(bits: seq<Bit>) returns (digits: seq<nat>, extra: nat)
    requires |bits| % 8 == 0
    ensures digits == Digits(bits, Groups(|bits|)) && extra == 6 * Groups(|bits|) - |bits|
  {
    var binaryArray := bits;
    digits, extra := [], 0;
    var i, len := 0, |bits|;
    ghost var k := 0;
    NothingAfter(bits);
    while i < len
      invariant i == 6 * k && digits == Digits(bits, k)
      invariant if i < len then extra == 0 else i == len + extra && extra < 6
      invariant binaryArray == bits + Zeros(extra)
      decreases len - i
    {
      LastGroup(len / 8, k);
      var digit;
      binaryArray, digit, extra := NextGroup(bits, binaryArray, i, k);
      DigitsGrow(bits, k);
      digits := digits + [digit];
      i, k := i + 6, k + 1;
    }
    GroupsIs(len, k);
  }

  method NextGroup(ghost bits: seq<Bit>, before: seq<Bit>, i: nat, ghost k: nat)
    returns (binaryArray: seq<Bit>, digit: nat, extra: nat)
    requires before == bits && i == 6 * k < |bits| && (i + 6 - |bits| in {0, 2, 4} || i + 6 < |bits|)
    ensures extra == if i + 6 < |bits| then 0 else i + 6 - |bits|
    ensures binaryArray == bits + Zeros(extra) && digit == DigitAt(bits, k)
  {
    extra := 0;
    var diff := (i + 6) - |before|;
    if diff == 2 {
      extra := 2;
    } else if diff == 4 {
      extra := 4;
    }
    binaryArray := before + Zeros(extra);
    SliceIsSextet(bits, extra, k);
    digit := ToDecimal(Slice(binaryArray, i, i + 6));
  }

  lemma {:induction false} DigitsGrow(bits: seq<Bit>, k: nat)
    ensures Digits(bits, k + 1) == Digits(bits, k) + [DigitAt(bits, k)]
  {
  }

  lemma {:induction false} LastGroup(q: nat, k: nat)
    requires 6 * k < 8 * q
    ensures 6 * k + 6 - 8 * q in {0, 2, 4} || 6 * k + 6 < 8 * q
  {
    var half := 3 * k + 3 - 4 * q;
    assert 6 * k + 6 - 8 * q == 2 * half;
  }

  lemma {:induction false} GroupsIs(n: nat, k: nat)
    requires n <= 6 * k < n + 6
    ensures Groups(n) == k
  {
  }

  lemma {:induction false} SliceIsSextet(bits: seq<Bit>, extra: nat, k: nat)
    requires 6 * k + 6 <= |bits| + extra
    ensures Slice(bits + Zeros(extra), 6 * k, 6 * k + 6) == Sextet(bits, k)
  {
  }

  method Utf8Binary(str: seq<Unit>) returns (binaryArray: seq<Bit>)
    ensures binaryArray == AllBits(str)
  {
    binaryArray := [];
    for i := 0 to |str|
      invariant binaryArray == AllBits(str[..i])
    {
      var unit := UnitBinary(str[i]);
      AllBitsGrow(str, i);
      binaryArray := binaryArray + unit;
    }
    assert str[..|str|] == str;
  }

  lemma {:induction false} AllBitsGrow(s: seq<Unit>, i: nat)
    requires i < |s|
    ensures AllBits(s[..i + 1]) == AllBits(s[..i]) + UnitBits(s[i])
  {
    assert s[..i + 1][..i] == s[..i];
  }

  method Encoder(str: seq<Unit>) returns (base64: seq<char>)
    ensures base64 == Encode(str)
  {
    var binaryArray := Utf8Binary(str);
    AllBitsLength(str);
    var digits, extra := Group(binaryArray);
    PaddingOfBytes(binaryArray);
    base64 := Print(binaryArray, digits, extra);
  }

  method Print(ghost bits: seq<Bit>, digits: seq<nat>, extra: nat) returns (base64: seq<char>)
    requires digits == Digits(bits, Groups(|bits|)) && extra == 6 * Groups(|bits|) - |bits| && extra % 2 == 0
    ensures base64 == Text(bits)
  {
    base64 := [];
    for i := 0 to |digits|
      invariant base64 == Chars(bits, i)
    {
      base64 := base64 + [Letter(digits[i])];
    }
    NothingAfter(base64);
    for i := 0 to extra / 2
      invariant base64 == Chars(bits, |digits|) + Equals(2 * i)
    {
      Assoc(Chars(bits, |digits|), Equals(2 * i), ['=']);
      base64 := base64 + ['='];
    }
  }

  /* ---- The decoder ---- */

  /** The first place of a character in the table, or the table's size. */
  method Scan(mapping: seq<char>, c: char) returns (j: nat)
    ensures j <= |mapping| && (forall k :: 0 <= k < j ==> mapping[k] != c) && (j < |mapping| ==> mapping[j] == c)
  {
    j := 0;
    while j < |mapping| && c != mapping[j]
      invariant 0 <= j <= |mapping| && forall k :: 0 <= k < j ==> mapping[k] != c
    {
      j := j + 1;
    }
  }

  lemma {:induction false} ScanFinds(c: char, j: nat)
    requires j <= |ALPHABET| && (forall k :: 0 <= k < j ==> ALPHABET[k] != c) && (j < |ALPHABET| ==> ALPHABET[j] == c)
    ensures if DigitOf(c).Some? then j == DigitOf(c).value < |ALPHABET| else j == |ALPHABET|
  {
    AlphabetSize();
    if j < |ALPHABET| {
      AlphabetDigit(j);
    } else if DigitOf(c).Some? {
      DigitAlphabet(c);
    }
  }

  /** The six bits of one character. */
  method CharBits(c: char) returns (bits: seq<Bit>)
    ensures bits == TextBits([c])
  {
    OneChar(c);
    bits := [];
    var j := Scan(ALPHABET, c);
    ScanFinds(c, j);
    if j < |ALPHABET| {
      FitsSix(j);
      bits := ToBinary(j);
      bits := FillUp(bits, 6);
    }
  }

  lemma {:induction false} FitsSix(j: nat)
    requires j < |ALPHABET|
    ensures |ToBits(j)| <= 6 && Zeros(6 - |ToBits(j)|) + ToBits(j) == Fixed(j, 6)
  {
    AlphabetSize();
    Powers();
    PaddedIsFixed(j, 6);
  }

  lemma {:induction false} OneChar(c: char)
    ensures TextBits([c]) == if DigitOf(c).Some? then Fixed(DigitOf(c).value, 6) else []
  {
    assert [c][..0] == [] && TextBits([]) == [];
    if DigitOf(c).Some? {
      NothingBefore(Fixed(DigitOf(c).value, 6));
    }
  }

  lemma {:induction false} TextBitsGrow(text: seq<char>, i: nat)
    requires i < |text|
    ensures TextBits(text[..i + 1]) == TextBits(text[..i]) + TextBits([text[i]])
  {
    OneChar(text[i]);
    assert text[..i + 1][..i] == text[..i];
  }

  method ToBitArray(text: seq<char>) returns (binaryArray: seq<Bit>)
    ensures binaryArray == TextBits(text)
  {
    binaryArray := [];
    for i := 0 to |text|
      invariant binaryArray == TextBits(text[..i])
    {
      var bits := CharBits(text[i]);
      TextBitsGrow(text, i);
      binaryArray := binaryArray + bits;
    }
    assert text[..|text|] == text;
  }

  /** How many characters stand before the equals signs, and the zeros that these stand for. */
  method Strip(base64: seq<char>) returns (len: nat, extra: nat)
    ensures extra == ExtraZeros(base64) && len + extra / 2 == |base64|
  {
    len, extra := |base64|, 0;
    if len > 0 && base64[len - 1] == '=' {
      if len > 1 && base64[len - 2] == '=' {
        extra := 4;
        len := len - 2;
      } else {
        extra := 2;
        len := len - 1;
      }
    }
  }

  /** What the decoder does before its main loop. */
  method ToPayload(base64: seq<char>) returns (binaryArray: seq<Bit>)
    ensures binaryArray == Payload(base64)
  {
    var len, extra := Strip(base64);
    binaryArray := ToBitArray(base64[..len]);
    PayloadOf(base64, len, extra, binaryArray);
    if extra > 0 {
      binaryArray := if extra <= |binaryArray| then binaryArray[..|binaryArray| - extra] else [];
    }
  }

  lemma {:induction false} PayloadOf(text: seq<char>, len: nat, extra: nat, bits: seq<Bit>)
    requires extra == ExtraZeros(text) && len + extra / 2 == |text| && bits == TextBits(text[..len])
    ensures Payload(text) == if extra <= |bits| then bits[..|bits| - extra] else []
  {
  }

  /** One iteration of the decoder's main loop. */
  method NextSequence(bits: seq<Bit>, from: nat) returns (unit: nat, i: nat)
    requires from < |bits|
    ensures unit == NextUnit(bits, from) && i == NextIndex(bits, from)
  {
    if bits[from] == 0 {
      unit := ToDecimal(Slice(bits, from, from + 8));
      i := from + 8;
    } else {
      var sum := CountOnes(bits, from);
      ReadsSequence(bits, from, sum);
      var payload;
      payload, i := SequenceBits(bits, from, sum);
      unit := ToDecimal(payload);
    }
  }

  method SequenceBits(bits: seq<Bit>, from: nat, sum: nat) returns (payload: seq<Bit>, i: nat)
    requires sum > 0
    ensures payload == SequencePayload(bits, from, sum) && i == from + 8 * sum
  {
    i := from + sum;
    payload := Slice(bits, i + 1, i + 8 - sum);
    i := i + 8 - sum;
    payload, i := TailBits(bits, payload, i, sum);
  }

  method CountOnes(bits: seq<Bit>, from: nat) returns (sum: nat)
    ensures sum == Ones(bits, from)
  {
    sum := 0;
    var i := from;
    while i < |bits| && bits[i] == 1
      invariant i == from + sum && Ones(bits, from) == sum + Ones(bits, i)
      decreases |bits| - i
    {
      sum := sum + 1;
      i := i + 1;
    }
    assert Ones(bits, i) == 0;
  }

  method TailBits(bits: seq<Bit>, head: seq<Bit>, from: nat, count: nat) returns (payload: seq<Bit>, i: nat)
    requires count > 0
    ensures payload == head + Tails(bits, from, count - 1) && i == from + 8 * (count - 1)
  {
    payload, i := head, from;
    var sum := count;
    ghost var m := 0;
    NothingAfter(head);
    while sum > 1
      invariant sum >= 1 && m + sum == count && i == from + 8 * m && payload == head + Tails(bits, from, m)
    {
      Assoc(head, Tails(bits, from, m), Slice(bits, i + 2, i + 8));
      TailsGrow(bits, from, m);
      payload := payload + Slice(bits, i + 2, i + 8);
      i := i + 8;
      sum, m := sum - 1, m + 1;
    }
  }

  lemma {:induction false} TailsGrow(bits: seq<Bit>, at: nat, m: nat)
    ensures Tails(bits, at, m + 1) == Tails(bits, at, m) + Slice(bits, at + 8 * m + 2, at + 8 * m + 8)
  {
  }

  method Decoder(base64: seq<char>) returns (unicode: seq<nat>)
    ensures unicode == Decode(base64)
  {
    var bits := ToPayload(base64);
    unicode := [];
    var i := 0;
    NothingBefore(Units(bits, 0));
    while i < |bits|
      invariant unicode + Units(bits, i) == Units(bits, 0)
      decreases |bits| - i
    {
      var unit, next := NextSequence(bits, i);
      Assoc(unicode, [unit], Units(bits, next));
      unicode, i := unicode + [unit], next;
    }
    NothingAfter(unicode);
  }
}
