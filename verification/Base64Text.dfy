/**
 The format of section 6.8 of RFC 2045, written out: the alphabet as a text, bits as arithmetic
 on bytes. What the codec of module Base64 produces and accepts is said in these terms alone.
 */
module Base64Text {
  import opened Base64
  import opened Base64Theory
  import opened Options

  const UPPER := "ABCDEFGHIJKLMNOPQRSTUVWXYZ"
  const LOWER := "abcdefghijklmnopqrstuvwxyz"
  const DIGITS := "0123456789"
  const ALPHABET := UPPER + LOWER + DIGITS + "+/"

  /** The byte is the character of the alphabet at this position. */
  predicate IsLetterAt(c: bv8, k: nat) {
    k < |ALPHABET| && c as int == ALPHABET[k] as int
  }

  predicate IsEquals(c: bv8) {
    c as int == '=' as int
  }

  /** The first position of the character from k on; 64 if there is none. */
  function Position(c: bv8, k: nat): (p: nat)
    requires k <= 64
    ensures p <= 64
    decreases 64 - k
  {
    if k == 64 || IsLetterAt(c, k) then k else Position(c, k + 1)
  }

  // Bits as arithmetic.

  /** Bit k of a number; bit 0 is the lowest. */
  predicate LowBit(n: nat, k: nat) {
    if k == 0 then n % 2 == 1 else LowBit(n / 2, k - 1)
  }

  /** The number that some bits spell, the highest first. */
  function Number(bits: seq<bool>): nat {
    if bits == [] then 0
    else 2 * Number(bits[..|bits| - 1]) + if bits[|bits| - 1] then 1 else 0
  }

  /** Bit i of some bytes, counted from the highest bit of the first; behind them there are zeros. */
  predicate DataBit(data: seq<bv8>, i: nat) {
    i / 8 < |data| && LowBit(data[i / 8] as nat, 7 - i % 8)
  }

  /** Bits 6i to 6i + 5. */
  function SixBits(data: seq<bv8>, i: nat): (r: seq<bool>)
    ensures |r| == 6
  {
    seq(6, j requires 0 <= j < 6 => DataBit(data, 6 * i + j))
  }

  // The alphabet.

  lemma UpperAt(k: nat)
    requires k < 26
    ensures UPPER[k] as int == k + 65
  {}

  lemma LowerAt(k: nat)
    requires k < 26
    ensures LOWER[k] as int == k + 97
  {}

  lemma DigitAt(k: nat)
    requires k < 10
    ensures DIGITS[k] as int == k + 48
  {}

  lemma Lengths()
    ensures |UPPER| == |LOWER| == 26 && |DIGITS| == 10 && |ALPHABET| == 64
  {}

  function CodeAt(k: nat): int {
    if k < 26 then k + 65 else if k < 52 then k + 71 else if k < 62 then k - 4 else if k == 62 then 43 else 47
  }

  lemma AlphabetAt(k: nat)
    requires k < 64
    ensures |ALPHABET| == 64 && ALPHABET[k] as int == CodeAt(k)
  {
    Lengths();
    hide UPPER, LOWER, DIGITS;
    if k < 26 {
      UpperAt(k);
    } else if k < 52 {
      LowerAt(k - 26);
    } else if k < 62 {
      DigitAt(k - 52);
    }
  }

  lemma SymbolAt(v: bv8)
    requires v < 64
    ensures v as nat < 64 && Symbol(v) as int == CodeAt(v as nat)
  {}

  lemma SymbolIsLetter(v: bv8)
    requires v < 64
    ensures IsLetterAt(Symbol(v), v as nat)
  {
    hide Symbol, ALPHABET, CodeAt;
    SymbolAt(v);
    AlphabetAt(v as nat);
  }

  lemma {:induction false} PositionIs(c: bv8, v: nat, k: nat)
    requires k <= v < 64 && c as int == CodeAt(v)
    ensures Position(c, k) == v
    decreases v - k
  {
    hide ALPHABET;
    AlphabetAt(k);
    if k < v {
      PositionIs(c, v, k + 1);
    }
  }

  lemma {:induction false} NoPosition(c: bv8, k: nat)
    requires k <= 64 && !InAlphabet(c)
    ensures Position(c, k) == 64
    decreases 64 - k
  {
    if k < 64 {
      NotLetter(c, k);
      NoPosition(c, k + 1);
    }
  }

  lemma NotLetter(c: bv8, k: nat)
    requires k < 64 && !InAlphabet(c)
    ensures !IsLetterAt(c, k)
  {
    hide ALPHABET;
    AlphabetAt(k);
    if IsLetterAt(c, k) {
      CodesAreLetters(c, k);
    }
  }

  lemma CodesAreLetters(c: bv8, k: nat)
    requires k < 64 && c as int == CodeAt(k)
    ensures InAlphabet(c)
  {}

  /** The table of the decoder: positions in the alphabet, 0 for the equals sign, 128 for all else. */
  lemma {:induction false} TableIs(c: bv8)
    ensures Value(c) as int ==
            if Position(c, 0) < 64 then Position(c, 0) else if IsEquals(c) then 0 else 128
    ensures InAlphabet(c) <==> Position(c, 0) < 64
    ensures c == PAD <==> IsEquals(c)
  {
    hide Position, CodeAt, Symbol, ALPHABET;
    TableOfPad(c);
    if InAlphabet(c) {
      ValueSymbol(c);
      SymbolAt(Value(c));
      PositionIs(c, Value(c) as nat, 0);
    } else {
      NoPosition(c, 0);
    }
  }

  lemma TableOfPad(c: bv8)
    ensures c == PAD <==> IsEquals(c)
    ensures !InAlphabet(c) ==> Value(c) as int == if IsEquals(c) then 0 else 128
  {}

  // Bits.

  function One(b: bool, weight: nat): nat {
    if b then weight else 0
  }

  lemma ByteWeights(a: bv8)
    ensures a as int == One(Bit(a, 7), 128) + One(Bit(a, 6), 64) + One(Bit(a, 5), 32) + One(Bit(a, 4), 16)
                        + One(Bit(a, 3), 8) + One(Bit(a, 2), 4) + One(Bit(a, 1), 2) + One(Bit(a, 0), 1)
  {}

  lemma SmallByte(v: bv8)
    requires v < 64
    ensures !Bit(v, 7) && !Bit(v, 6)
  {}

  lemma NumberOfThree(b: seq<bool>)
    requires |b| == 3
    ensures Number(b) == One(b[0], 4) + One(b[1], 2) + One(b[2], 1)
  {
    assert b[..2][..1] == b[..1] && b[..1][..0] == [];
    assert Number(b[..1]) == One(b[0], 1);
    assert Number(b[..2]) == 2 * Number(b[..1]) + One(b[1], 1);
  }

  lemma NumberOfSix(b: seq<bool>)
    requires |b| == 6
    ensures Number(b) == One(b[0], 32) + One(b[1], 16) + One(b[2], 8) + One(b[3], 4) + One(b[4], 2) + One(b[5], 1)
  {
    NumberOfThree(b[..3]);
    assert b[..5][..4] == b[..4] && b[..4][..3] == b[..3];
    assert Number(b[..4]) == 2 * Number(b[..3]) + One(b[3], 1);
    assert Number(b[..5]) == 2 * Number(b[..4]) + One(b[4], 1);
  }

  lemma NumberOfEight(b: seq<bool>)
    requires |b| == 8
    ensures Number(b) == One(b[0], 128) + One(b[1], 64) + One(b[2], 32) + One(b[3], 16)
                         + One(b[4], 8) + One(b[5], 4) + One(b[6], 2) + One(b[7], 1)
  {
    NumberOfSix(b[..6]);
    assert b[..7][..6] == b[..6];
    assert Number(b[..7]) == 2 * Number(b[..6]) + One(b[6], 1);
  }

  lemma {:induction false} NumberBits(b: seq<bool>, k: nat)
    requires k < |b|
    ensures LowBit(Number(b), k) <==> b[|b| - 1 - k]
    decreases k
  {
    var init := b[..|b| - 1];
    assert Number(b) / 2 == Number(init);
    if k > 0 {
      NumberBits(init, k - 1);
    }
  }

  lemma OctetNumber(a: bv8)
    ensures Number(Octet(a)) == a as nat
  {
    hide Bit, Number;
    ByteWeights(a);
    NumberOfEight(Octet(a));
  }

  lemma BitIs(a: bv8, i: nat)
    requires i < 8
    ensures Octet(a)[i] <==> LowBit(a as nat, 7 - i)
  {
    hide LowBit, Number, Octet;
    OctetNumber(a);
    NumberBits(Octet(a), 7 - i);
  }

  lemma {:induction false} DataBitIs(data: seq<bv8>, i: nat)
    requires i < 8 * |data|
    ensures DataBits(data)[i] <==> DataBit(data, i)
  {
    hide Octet, LowBit;
    if i < 8 {
      BitIs(data[0], i);
    } else {
      DataBitIs(data[1..], i - 8);
      assert (i - 8) / 8 == i / 8 - 1 && (i - 8) % 8 == i % 8;
    }
  }

  lemma {:induction false} TextBitIs(t: seq<bv8>, i: nat, j: nat)
    requires i < |t| && j < 6
    ensures TextBits(t)[6 * i + j] == Sextet(t[i])[j]
  {
    hide Sextet;
    if i > 0 {
      TextBitIs(t[1..], i - 1, j);
    }
  }

  /** The six bits of a letter spell its position. */
  lemma SextetNumber(c: bv8)
    requires Value(c) < 64
    ensures Number(Sextet(c)) == Value(c) as nat
  {
    hide Value, Bit, Number;
    ByteWeights(Value(c));
    SmallByte(Value(c));
    NumberOfSix(Sextet(c));
  }

  // The codec.

  lemma {:induction false} LetterBits(b: seq<bv8>, i: nat, j: nat)
    requires i < Letters(|b|) && j < 6
    ensures Letters(|b|) <= |Encode(b)| && (Sextet(Encode(b)[i])[j] <==> DataBit(b, 6 * i + j))
  {
    hide Encode, TextBits, DataBits, Sextet, DataBit;
    var t, n, at := Encode(b), Letters(|b|), 6 * i + j;
    EncodeBits(b);
    TextBitIs(t[..n], i, j);
    if at < 8 * |b| {
      DataBitIs(b, at);
    } else {
      NoDataBit(b, at);
    }
  }

  lemma {:induction false} LetterIs(b: seq<bv8>, i: nat)
    requires i < Letters(|b|)
    ensures Letters(|b|) <= |Encode(b)| && IsLetterAt(Encode(b)[i], Number(SixBits(b, i)))
  {
    hide Encode, Value, Sextet, DataBit, InAlphabet, IsLetterAt, Number;
    EncodeBits(b);
    var c := Encode(b)[i];
    forall j | 0 <= j < 6
      ensures Sextet(c)[j] == SixBits(b, i)[j]
    {
      LetterBits(b, i, j);
    }
    assert Sextet(c) == SixBits(b, i);
    ValueSymbol(c);
    SextetNumber(c);
    SymbolIsLetter(Value(c));
  }

  lemma NoDataBit(b: seq<bv8>, i: nat)
    requires i >= 8 * |b|
    ensures !DataBit(b, i)
  {}

  /**
   Letter i of an encoding is the character of the alphabet at the number that bits 6i to 6i + 5
   of the data spell; there are as many letters as the bits need, and only '=' follows.
   */
  lemma {:induction false} EncodeIsBits(b: seq<bv8>)
    ensures var t, letters := Encode(b), (8 * |b| + 5) / 6;
            && letters <= |t| == (|b| + 2) / 3 * 4
            && (forall i :: 0 <= i < letters ==> IsLetterAt(t[i], Number(SixBits(b, i))))
            && (forall i :: letters <= i < |t| ==> IsEquals(t[i]))
  {
    hide Encode, IsLetterAt, Number, IsEquals, InAlphabet, Canonical, Groups;
    var t := Encode(b);
    EncodeBits(b);
    EncodeShape(b);
    forall i | 0 <= i < Letters(|b|)
      ensures IsLetterAt(t[i], Number(SixBits(b, i)))
    {
      LetterIs(b, i);
    }
    forall i | Letters(|b|) <= i < |t|
      ensures IsEquals(t[i])
    {
      TableIs(t[i]);
    }
  }

  /** The bytes of a text that are in the alphabet or '='. */
  function Kept(src: seq<bv8>): (r: seq<bv8>)
    ensures |r| <= |src|
  {
    if src == [] then []
    else (if Position(src[0], 0) < 64 || IsEquals(src[0]) then [src[0]] else []) + Kept(src[1..])
  }

  lemma {:induction false} KnownIsKept(src: seq<bv8>)
    ensures Known(src) == Kept(src)
  {
    hide Value, Position, IsEquals;
    if src != [] {
      TableIs(src[0]);
      assert Value(src[0]) == FOREIGN <==> Value(src[0]) as int == 128 by { ForeignIs(Value(src[0])); }
      KnownIsKept(src[1..]);
    }
  }

  lemma ForeignIs(v: bv8)
    ensures v == FOREIGN <==> v as int == 128
  {}

  /** Bit i of a text, six a letter: the bits of the letter's position, zeros for '='. */
  predicate TextBit(t: seq<bv8>, i: nat) {
    i / 6 < |t| && Position(t[i / 6], 0) < 64 && LowBit(Position(t[i / 6], 0), 5 - i % 6)
  }

  lemma {:induction false} SextetBit(c: bv8, j: nat)
    requires j < 6 && (Position(c, 0) < 64 || IsEquals(c))
    ensures Sextet(c)[j] <==> Position(c, 0) < 64 && LowBit(Position(c, 0), 5 - j)
  {
    hide Value, Position, LowBit, Number, Bit, InAlphabet, Sextet;
    TableIs(c);
    SextetNumber(c);
    NumberBits(Sextet(c), 5 - j);
    ZeroBit(5 - j);
  }

  lemma {:induction false} ZeroBit(k: nat)
    ensures !LowBit(0, k)
  {
    if k > 0 {
      ZeroBit(k - 1);
    }
  }

  lemma {:induction false} KeptIsKnown(src: seq<bv8>)
    ensures forall i :: 0 <= i < |Kept(src)| ==> Position(Kept(src)[i], 0) < 64 || IsEquals(Kept(src)[i])
  {
    hide Position, IsEquals;
    if src != [] {
      KeptIsKnown(src[1..]);
    }
  }

  lemma {:induction false} TextBitAt(t: seq<bv8>, i: nat)
    requires i < 6 * |t| && forall k :: 0 <= k < |t| ==> Position(t[k], 0) < 64 || IsEquals(t[k])
    ensures TextBits(t)[i] <==> TextBit(t, i)
  {
    hide Position, IsEquals, LowBit, Sextet, TextBits;
    TextBitIs(t, i / 6, i % 6);
    SextetBit(t[i / 6], i % 6);
  }

  /** How many bytes the equals signs of the last group stand for. */
  function Dropped(t: seq<bv8>): nat {
    var n := |t|;
    if n >= 2 && IsEquals(t[n - 2]) then 2 else if n >= 2 && IsEquals(t[n - 1]) then 1 else 0
  }

  /**
   A text decodes if and only if what it has of the alphabet and of '=' is a multiple of four. The
   data then are the bits of the letters' positions, without the last two bytes when the third
   place of the last group is '=', else without the last one when the fourth is.
   */
  lemma {:induction false} DecodeIsBits(src: seq<bv8>)
    ensures var t, n, d := Kept(src), |Kept(src)|, Decode(src);
            && (d.Some? <==> n % 4 == 0)
            && (d.Some? ==>
                  && |d.value| == n / 4 * 3 - Dropped(t)
                  && forall i :: 0 <= i < 8 * |d.value| ==> (DataBit(d.value, i) <==> TextBit(t, i)))
  {
    hide Groups, Known, Kept, IsEquals, Position, TextBit, DataBit, DataBits, TextBits;
    var t := Kept(src);
    KnownIsKept(src);
    if |t| % 4 == 0 {
      var d := Decode(src).value;
      DecodeBits(src);
      KeptIsKnown(src);
      if t != [] {
        TableIs(t[|t| - 2]);
        TableIs(t[|t| - 1]);
      }
      forall i | 0 <= i < 8 * |d|
        ensures DataBit(d, i) <==> TextBit(t, i)
      {
        DataBitIs(d, i);
        TextBitAt(t, i);
        assert DataBits(d)[i] == TextBits(t)[i];
      }
    }
  }

  /** One byte, 'M', is "TQ==". */
  lemma {:induction false} OneByte()
    ensures Encode([77]) == [84, 81, 61, 61]
  {}
}
