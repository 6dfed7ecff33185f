/** What the codec of module Base64 is for: the format, the round trips, and which texts are canonical. */
module Base64Theory {
  import opened Base64
  import opened Options

  // Section 6.8 of RFC 2045: the text is the bit string of the data, cut into sixes.

  /** Bit k of a byte; bit 0 is the least significant. */
  predicate Bit(v: bv8, k: nat)
    requires k < 8
  {
    match k
    case 0 => v & 1 != 0
    case 1 => v & 2 != 0
    case 2 => v & 4 != 0
    case 3 => v & 8 != 0
    case 4 => v & 16 != 0
    case 5 => v & 32 != 0
    case 6 => v & 64 != 0
    case _ => v & 128 != 0
  }

  /** The bits of a byte, most significant first. */
  function Octet(a: bv8): (r: seq<bool>)
    ensures |r| == 8
  {
    seq(8, i requires 0 <= i < 8 => Bit(a, 7 - i))
  }

  /** The low six bits, most significant first. */
  function Six(v: bv8): (r: seq<bool>)
    ensures |r| == 6
  {
    seq(6, i requires 0 <= i < 6 => Bit(v, 5 - i))
  }

  /** The six bits a text byte stands for. */
  function Sextet(c: bv8): (r: seq<bool>)
    ensures |r| == 6
  {
    Six(Value(c))
  }

  function DataBits(data: seq<bv8>): (r: seq<bool>)
    ensures |r| == 8 * |data|
  {
    if data == [] then [] else Octet(data[0]) + DataBits(data[1..])
  }

  function TextBits(text: seq<bv8>): (r: seq<bool>)
    ensures |r| == 6 * |text|
  {
    if text == [] then [] else Sextet(text[0]) + TextBits(text[1..])
  }

  function Zeros(n: nat): (r: seq<bool>)
    ensures |r| == n
  {
    seq(n, _ => false)
  }

  /** How many letters carry data; what follows them is padding. */
  function Letters(len: nat): nat {
    (8 * len + 5) / 6
  }

  lemma {:induction false} DataBitsAppend(a: seq<bv8>, b: seq<bv8>)
    ensures DataBits(a + b) == DataBits(a) + DataBits(b)
  {
    hide Octet;
    if a == [] {
      assert a + b == b;
    } else {
      assert (a + b)[1..] == a[1..] + b;
      DataBitsAppend(a[1..], b);
    }
  }

  lemma {:induction false} TextBitsAppend(a: seq<bv8>, b: seq<bv8>)
    ensures TextBits(a + b) == TextBits(a) + TextBits(b)
  {
    hide Sextet;
    if a == [] {
      assert a + b == b;
    } else {
      assert (a + b)[1..] == a[1..] + b;
      TextBitsAppend(a[1..], b);
    }
  }

  // Where the bits of three bytes lie in four letters.

  predicate FirstBits(d: bv8, p: bv8, q: bv8) {
    && (forall k :: 0 <= k < 6 ==> Bit(d, k + 2) == Bit(p, k))
    && (forall k :: 4 <= k < 6 ==> Bit(d, k - 4) == Bit(q, k))
  }

  predicate MiddleBits(d: bv8, q: bv8, r: bv8) {
    && (forall k :: 0 <= k < 4 ==> Bit(d, k + 4) == Bit(q, k))
    && (forall k :: 2 <= k < 6 ==> Bit(d, k - 2) == Bit(r, k))
  }

  predicate LastBits(d: bv8, r: bv8, s: bv8) {
    && (forall k :: 0 <= k < 2 ==> Bit(d, k + 6) == Bit(r, k))
    && (forall k :: 0 <= k < 6 ==> Bit(d, k) == Bit(s, k))
  }

  lemma BitsMove(p: bv8, q: bv8, r: bv8, s: bv8)
    requires p < 64 && q < 64 && r < 64 && s < 64
    ensures FirstBits((p << 2) | (q >> 4), p, q)
    ensures MiddleBits((q << 4) | (r >> 2), q, r)
    ensures LastBits((r << 6) | s, r, s)
  {}

  lemma GroupBits(p: bv8, q: bv8, r: bv8, s: bv8)
    requires Value(p) < 64 && Value(q) < 64 && Value(r) < 64 && Value(s) < 64
    ensures var d := Decode4(Value(p), Value(q), Value(r), Value(s));
            Octet(d[0]) + Octet(d[1]) + Octet(d[2]) == Sextet(p) + Sextet(q) + Sextet(r) + Sextet(s)
  {
    hide Value, FirstBits, MiddleBits, LastBits, Octet, Six;
    BitsMove(Value(p), Value(q), Value(r), Value(s));
    var d := Decode4(Value(p), Value(q), Value(r), Value(s));
    FirstOctet(d[0], Value(p), Value(q));
    MiddleOctet(d[1], Value(q), Value(r));
    LastOctet(d[2], Value(r), Value(s));
    Rejoin(Sextet(p), Sextet(q), Sextet(r), Sextet(s));
  }

  lemma FirstOctet(d: bv8, p: bv8, q: bv8)
    requires FirstBits(d, p, q)
    ensures Octet(d) == Six(p) + Six(q)[..2]
  {
    hide Bit;
  }

  lemma MiddleOctet(d: bv8, q: bv8, r: bv8)
    requires MiddleBits(d, q, r)
    ensures Octet(d) == Six(q)[2..] + Six(r)[..4]
  {
    hide Bit;
  }

  lemma LastOctet(d: bv8, r: bv8, s: bv8)
    requires LastBits(d, r, s)
    ensures Octet(d) == Six(r)[4..] + Six(s)
  {
    hide Bit;
  }

  lemma Rejoin(p: seq<bool>, q: seq<bool>, r: seq<bool>, s: seq<bool>)
    requires |q| == |r| == 6
    ensures (p + q[..2]) + (q[2..] + r[..4]) + (r[4..] + s) == p + q + r + s
  {
    assert q[..2] + q[2..] == q && r[..4] + r[4..] == r;
  }

  lemma DataBits3(d: seq<bv8>)
    requires |d| == 3
    ensures DataBits(d) == Octet(d[0]) + Octet(d[1]) + Octet(d[2])
  {
    hide Octet;
    EmptyBits();
    assert DataBits(d[2..]) == Octet(d[2]) + DataBits(d[3..]);
    assert d[1..][1..] == d[2..] && d[3..] == [];
    assert DataBits(d[1..]) == Octet(d[1]) + DataBits(d[2..]);
  }

  lemma TextBits2(a: bv8, b: bv8)
    ensures TextBits([a, b]) == Sextet(a) + Sextet(b)
  {
    hide Sextet;
    EmptyBits();
    assert [a, b][1..] == [b] && [b][1..] == [];
    assert TextBits([b]) == Sextet(b) + [];
  }

  lemma TextBits4(t: seq<bv8>)
    requires |t| == 4
    ensures TextBits(t) == Sextet(t[0]) + Sextet(t[1]) + Sextet(t[2]) + Sextet(t[3])
  {
    hide Sextet, TextBits;
    TextBits2(t[0], t[1]);
    TextBits2(t[2], t[3]);
    TextBitsAppend([t[0], t[1]], [t[2], t[3]]);
    assert t == [t[0], t[1]] + [t[2], t[3]];
  }

  predicate AllKnown(t: seq<bv8>) {
    forall i :: 0 <= i < |t| ==> Value(t[i]) != FOREIGN
  }

  lemma ValueSmall(c: bv8)
    ensures Value(c) == FOREIGN || Value(c) < 64
  {}

  /** Decoding regroups the bits: six a letter in, eight a byte out. */
  lemma {:induction false} GroupsBits(t: seq<bv8>)
    requires |t| % 4 == 0 && AllKnown(t)
    ensures DataBits(Groups(t)) == TextBits(t)
  {
    hide Value, Decode4, Octet, Sextet, DataBits, TextBits;
    if t == [] {
      EmptyBits();
    } else {
      ValueSmall(t[0]); ValueSmall(t[1]); ValueSmall(t[2]); ValueSmall(t[3]);
      GroupBits(t[0], t[1], t[2], t[3]);
      var d := Decode4(Value(t[0]), Value(t[1]), Value(t[2]), Value(t[3]));
      DataBits3(d);
      TextBits4(t[..4]);
      GroupsBits(t[4..]);
      DataBitsAppend(d, Groups(t[4..]));
      TextBitsAppend(t[..4], t[4..]);
      assert t == t[..4] + t[4..];
    }
  }

  lemma EmptyBits()
    ensures DataBits([]) == [] && TextBits([]) == []
  {}

  /** What the decoder returns is the text's bit string, cut where the padding says. */
  lemma {:induction false} DecodeBits(src: seq<bv8>)
    requires Decode(src).Some?
    ensures DataBits(Decode(src).value) <= TextBits(Known(src))
    ensures |Decode(src).value| == |Known(src)| / 4 * 3 - Trim(Known(src))
  {
    hide Value, DataBits, TextBits;
    var t := Known(src);
    var all, d := Groups(t), Decode(src).value;
    GroupsBits(t);
    DataBitsAppend(d, all[|d|..]);
    assert all == d + all[|d|..];
  }

  // Encoding.

  lemma SymbolKnown(v: bv8)
    requires v < 64
    ensures Value(Symbol(v)) == v && InAlphabet(Symbol(v))
  {
    TableInverse();
  }

  lemma ValueSymbol(c: bv8)
    requires InAlphabet(c)
    ensures Value(c) < 64 && Symbol(Value(c)) == c
  {
    TableInverse();
  }

  /** Cutting three bytes into sixes and joining them again. */
  lemma CutJoin(a: bv8, b: bv8, c: bv8)
    ensures var p, q, r, s := a >> 2, ((a & 3) << 4) | (b >> 4), ((b & 15) << 2) | (c >> 6), c & 63;
            && p < 64 && q < 64 && r < 64 && s < 64
            && (p << 2) | (q >> 4) == a && (q << 4) | (r >> 2) == b && (r << 6) | s == c
  {}

  /** Joining four sixes and cutting the bytes again. */
  lemma JoinCut(p: bv8, q: bv8, r: bv8, s: bv8)
    requires p < 64 && q < 64 && r < 64 && s < 64
    ensures var a, b, c := (p << 2) | (q >> 4), (q << 4) | (r >> 2), (r << 6) | s;
            && a >> 2 == p && ((a & 3) << 4) | (b >> 4) == q && ((b & 15) << 2) | (c >> 6) == r && c & 63 == s
            && (q & 15 == 0 ==> (a & 3) << 4 == q)
            && (r & 3 == 0 ==> (b & 15) << 2 == r)
  {}

  lemma ZeroTails(a: bv8, b: bv8)
    ensures ((a & 3) << 4) | ((0 as bv8) >> 4) == (a & 3) << 4 && ((a & 3) << 4) & 15 == 0
    ensures ((b & 15) << 2) | ((0 as bv8) >> 6) == (b & 15) << 2 && ((b & 15) << 2) & 3 == 0
  {}

  lemma Encode3Decodes(a: bv8, b: bv8, c: bv8)
    ensures var e := Encode3(a, b, c);
            && Decode4(Value(e[0]), Value(e[1]), Value(e[2]), Value(e[3])) == [a, b, c]
            && InAlphabet(e[0]) && InAlphabet(e[1]) && InAlphabet(e[2]) && InAlphabet(e[3])
  {
    hide Value, Symbol, InAlphabet;
    CutJoin(a, b, c);
    SymbolKnown(a >> 2);
    SymbolKnown(((a & 3) << 4) | (b >> 4));
    SymbolKnown(((b & 15) << 2) | (c >> 6));
    SymbolKnown(c & 63);
  }

  lemma Encode2Decodes(a: bv8, b: bv8)
    ensures var e := Encode2(a, b);
            && Decode4(Value(e[0]), Value(e[1]), Value(e[2]), Value(e[3])) == [a, b, 0]
            && InAlphabet(e[0]) && InAlphabet(e[1]) && InAlphabet(e[2]) && e[3] == PAD
            && Value(e[2]) & 3 == 0
  {
    PadIsKnown();
    hide Value, Symbol, InAlphabet;
    CutJoin(a, b, 0);
    ZeroTails(a, b);
    SymbolKnown(a >> 2);
    SymbolKnown(((a & 3) << 4) | (b >> 4));
    SymbolKnown((b & 15) << 2);
  }

  lemma Encode1Decodes(a: bv8)
    ensures var e := Encode1(a);
            && Decode4(Value(e[0]), Value(e[1]), Value(e[2]), Value(e[3])) == [a, 0, 0]
            && InAlphabet(e[0]) && InAlphabet(e[1]) && e[2] == PAD && e[3] == PAD
            && Value(e[1]) & 15 == 0
  {
    PadIsKnown();
    hide Value, Symbol, InAlphabet;
    CutJoin(a, 0, 0);
    ZeroTails(a, 0);
    SymbolKnown(a >> 2);
    SymbolKnown((a & 3) << 4);
  }

  lemma Decode4Cut(p: bv8, q: bv8, r: bv8, s: bv8)
    requires p < 64 && q < 64 && r < 64 && s < 64
    ensures var d := Decode4(p, q, r, s);
            && Encode3(d[0], d[1], d[2]) == [Symbol(p), Symbol(q), Symbol(r), Symbol(s)]
            && (r & 3 == 0 ==> Encode2(d[0], d[1]) == [Symbol(p), Symbol(q), Symbol(r), PAD])
            && (q & 15 == 0 ==> Encode1(d[0]) == [Symbol(p), Symbol(q), PAD, PAD])
  {
    hide Symbol;
    JoinCut(p, q, r, s);
  }

  lemma Decode4Encodes(p: bv8, q: bv8, r: bv8, s: bv8)
    requires InAlphabet(p) && InAlphabet(q)
    ensures var d := Decode4(Value(p), Value(q), Value(r), Value(s));
            && (InAlphabet(r) && InAlphabet(s) ==> Encode3(d[0], d[1], d[2]) == [p, q, r, s])
            && (InAlphabet(r) && s == PAD && Value(r) & 3 == 0 ==> Encode2(d[0], d[1]) == [p, q, r, s])
            && (r == PAD && s == PAD && Value(q) & 15 == 0 ==> Encode1(d[0]) == [p, q, r, s])
  {
    PadIsKnown();
    ValueSymbol(p);
    ValueSymbol(q);
    hide Value, Symbol, InAlphabet, Decode4, Encode1, Encode2, Encode3;
    if InAlphabet(r) {
      ValueSymbol(r);
      if InAlphabet(s) {
        ValueSymbol(s);
        Decode4Cut(Value(p), Value(q), Value(r), Value(s));
      } else if s == PAD {
        Decode4Cut(Value(p), Value(q), Value(r), 0);
      }
    } else if r == PAD && s == PAD {
      Decode4Cut(Value(p), Value(q), 0, 0);
    }
  }

  /** The texts the encoder writes, said without it. */
  predicate Canonical(t: seq<bv8>) {
    var n := |t|;
    n % 4 == 0 &&
    (n > 0 ==>
       && (forall i :: 0 <= i < n - 2 ==> InAlphabet(t[i]))
       && (|| (InAlphabet(t[n - 2]) && InAlphabet(t[n - 1]))
           || (InAlphabet(t[n - 2]) && t[n - 1] == PAD && Value(t[n - 2]) & 3 == 0)
           || (t[n - 2] == PAD && t[n - 1] == PAD && Value(t[n - 3]) & 15 == 0)))
  }

  lemma {:induction false} CanonicalIsKnown(t: seq<bv8>)
    requires AllKnown(t)
    ensures Known(t) == t
  {
    if t != [] {
      CanonicalIsKnown(t[1..]);
    }
  }

  lemma PadIsKnown()
    ensures Value(PAD) == 0 && !InAlphabet(PAD)
    ensures forall c: bv8 :: InAlphabet(c) ==> Value(c) != FOREIGN && c != PAD
    ensures forall c: bv8 :: Value(c) != FOREIGN && c != PAD ==> InAlphabet(c)
  {}

  /** The zero bytes that pad the data out to whole groups. */
  function Fill(len: nat): (z: seq<bv8>)
    ensures |z| <= 2 && (len + |z|) % 3 == 0
  {
    if len % 3 == 0 then [] else if len % 3 == 1 then [0, 0] else [0]
  }

  lemma Encode1Shape(a: bv8)
    ensures Canonical(Encode1(a)) && Trim(Encode1(a)) == 2 && Groups(Encode1(a)) == [a, 0, 0]
  {
    Encode1Decodes(a);
    PadIsKnown();
    hide Encode1, Value, Decode4, InAlphabet;
    var e := Encode1(a);
    GroupOfFour(e[0], e[1], e[2], e[3]);
    assert e == [e[0], e[1], e[2], e[3]];
  }

  lemma Encode2Shape(a: bv8, b: bv8)
    ensures Canonical(Encode2(a, b)) && Trim(Encode2(a, b)) == 1 && Groups(Encode2(a, b)) == [a, b, 0]
  {
    Encode2Decodes(a, b);
    PadIsKnown();
    hide Encode2, Value, Decode4, InAlphabet;
    var e := Encode2(a, b);
    GroupOfFour(e[0], e[1], e[2], e[3]);
    assert e == [e[0], e[1], e[2], e[3]];
  }

  lemma EncodeUnfold(b: seq<bv8>)
    requires |b| >= 3
    ensures Encode(b) == Encode3(b[0], b[1], b[2]) + Encode(b[3..])
  {
    hide Encode1, Encode2, Encode3;
    var rest := b[3..];
  }

  lemma LengthStep(len: nat)
    requires len >= 3
    ensures Fill(len) == Fill(len - 3) && EncodedLength(len) == 4 + EncodedLength(len - 3)
  {
    assert len % 3 == (len - 3) % 3;
  }

  lemma EmptyShape()
    ensures Canonical([]) && Trim([]) == 0 && Groups([]) == []
  {}

  /** Everything about an encoding that the round trips need. */
  lemma {:induction false} EncodeShape(b: seq<bv8>)
    ensures Canonical(Encode(b)) && |Encode(b)| == EncodedLength(|b|)
    ensures Groups(Encode(b)) == b + Fill(|b|)
    ensures Trim(Encode(b)) == |Fill(|b|)|
    decreases b, 1
  {
    if |b| < 3 {
      hide Encode1, Encode2, Encode3, Value, Decode4, InAlphabet, Groups, Canonical, Trim;
      EmptyShape();
      if |b| == 1 {
        Encode1Shape(b[0]);
      } else if |b| == 2 {
        Encode2Shape(b[0], b[1]);
      }
    } else {
      EncodeShapeStep(b);
    }
  }

  lemma {:induction false} EncodeShapeStep(b: seq<bv8>)
    requires |b| >= 3
    ensures Canonical(Encode(b)) && |Encode(b)| == EncodedLength(|b|)
    ensures Groups(Encode(b)) == b + Fill(|b|)
    ensures Trim(Encode(b)) == |Fill(|b|)|
    decreases b, 0
  {
    hide *;
    var e, rest := Encode3(b[0], b[1], b[2]), Encode(b[3..]);
    EncodeUnfold(b);
    LengthStep(|b|);
    Encode3Decodes(b[0], b[1], b[2]);
    EncodeShape(b[3..]);
    ConsGroup(e, rest);
    assert b == [b[0], b[1], b[2]] + b[3..];
    assert b + Fill(|b|) == [b[0], b[1], b[2]] + (b[3..] + Fill(|b|));
  }

  /** Putting a group of letters in front. */
  lemma ConsGroup(e: seq<bv8>, rest: seq<bv8>)
    requires |e| == 4 && Canonical(rest)
    requires InAlphabet(e[0]) && InAlphabet(e[1]) && InAlphabet(e[2]) && InAlphabet(e[3])
    ensures Canonical(e + rest) && Trim(e + rest) == Trim(rest)
    ensures Groups(e + rest) == Decode4(Value(e[0]), Value(e[1]), Value(e[2]), Value(e[3])) + Groups(rest)
  {
    PadIsKnown();
    hide Value, Decode4, InAlphabet;
    var t := e + rest;
    assert t[4..] == rest;
    assert forall i :: 0 <= i < |t| ==> t[i] == if i < 4 then e[i] else rest[i - 4];
  }

  lemma CanonicalKnown(t: seq<bv8>)
    requires Canonical(t)
    ensures AllKnown(t)
  {
    PadIsKnown();
    hide Value, InAlphabet;
  }

  /** Decoding an encoding gives the data back, whatever the data and its length. */
  lemma {:induction false} DecodeEncode(b: seq<bv8>)
    ensures Decode(Encode(b)) == Some(b)
  {
    var t := Encode(b);
    EncodeShape(b);
    CanonicalKnown(t);
    CanonicalIsKnown(t);
    hide Encode, Groups, Known, Value, Canonical;
    assert Groups(t)[..|Groups(t)| - Trim(t)] == b;
  }

  /** The letters of an encoding carry the data's bits and then zeros; only padding follows. */
  lemma {:induction false} EncodeBits(b: seq<bv8>)
    ensures Letters(|b|) <= |Encode(b)| && |Encode(b)| % 4 == 0
    ensures forall i :: 0 <= i < Letters(|b|) ==> InAlphabet(Encode(b)[i])
    ensures forall i :: Letters(|b|) <= i < |Encode(b)| ==> Encode(b)[i] == PAD
    ensures TextBits(Encode(b)[..Letters(|b|)]) == DataBits(b) + Zeros(6 * Letters(|b|) - 8 * |b|)
  {
    hide Encode, Groups, DataBits, TextBits, Value;
    var t, n := Encode(b), Letters(|b|);
    EncodeShape(b);
    PadIsKnown();
    assert |t| - n == Trim(t) by { LettersCount(|b|); }
    CanonicalKnown(t);
    GroupsBits(t);
    TextBitsAppend(t[..n], t[n..]);
    assert t == t[..n] + t[n..];
    DataBitsAppend(b, Fill(|b|));
    FillBits(|b|);
    var all := TextBits(t);
    assert TextBits(t[..n]) == all[..6 * n];
  }

  lemma LettersCount(len: nat)
    ensures EncodedLength(len) - Letters(len) == |Fill(len)|
  {}

  lemma FillBits(len: nat)
    ensures DataBits(Fill(len)) == Zeros(8 * |Fill(len)|)
  {
    var z: bv8 := 0;
    assert forall k :: 0 <= k < 8 ==> !Bit(z, k);
    assert Octet(z) == Zeros(8);
    if len % 3 == 1 {
      assert DataBits([z, z]) == Octet(z) + DataBits([z, z][1..]);
      assert DataBits([z]) == Octet(z) + DataBits([z][1..]);
    } else if len % 3 == 2 {
      assert DataBits([z]) == Octet(z) + DataBits([z][1..]);
    }
  }

  /** The decoded bytes without those that stand for padding. */
  function Trimmed(t: seq<bv8>): seq<bv8>
    requires |t| % 4 == 0
  {
    Groups(t)[..|Groups(t)| - Trim(t)]
  }

  lemma {:induction false} CanonicalEncodes(t: seq<bv8>)
    requires Canonical(t)
    ensures Encode(Trimmed(t)) == t
  {
    hide *;
    CanonicalLength(t);
    if t == [] {
      NothingEncodes();
    } else if |t| == 4 {
      CanonicalFour(t);
    } else {
      CanonicalTail(t);
      CanonicalEncodes(t[4..]);
      CanonicalMore(t);
    }
  }

  lemma NothingEncodes()
    ensures Encode(Trimmed([])) == []
  {}

  lemma CanonicalFour(t: seq<bv8>)
    requires Canonical(t) && |t| == 4
    ensures Encode(Trimmed(t)) == t
  {
    hide Value, Decode4, Encode1, Encode2, Encode3, InAlphabet, Groups;
    PadIsKnown();
    Decode4Encodes(t[0], t[1], t[2], t[3]);
    GroupOfFour(t[0], t[1], t[2], t[3]);
    assert t == [t[0], t[1], t[2], t[3]];
    var kept := Trimmed(t);
    assert |kept| == 3 ==> kept[3..] == [];
  }

  lemma CanonicalMore(t: seq<bv8>)
    requires Canonical(t) && |t| > 4 && Canonical(t[4..]) && |t| % 4 == 0
    requires InAlphabet(t[0]) && InAlphabet(t[1]) && InAlphabet(t[2]) && InAlphabet(t[3])
    requires Encode(Trimmed(t[4..])) == t[4..]
    ensures Encode(Trimmed(t)) == t
  {
    hide Value, Decode4, Encode, InAlphabet, Groups, Canonical, Trim;
    var front, rest := t[..4], t[4..];
    var d := Decode4(Value(t[0]), Value(t[1]), Value(t[2]), Value(t[3]));
    assert t == front + rest;
    ConsGroup(front, rest);
    assert Trimmed(t) == d + Trimmed(rest);
    Decode4Encodes(t[0], t[1], t[2], t[3]);
    EncodeUnfold(d + Trimmed(rest));
    assert (d + Trimmed(rest))[3..] == Trimmed(rest);
  }

  lemma CanonicalTail(t: seq<bv8>)
    requires Canonical(t) && |t| > 4
    ensures Canonical(t[4..]) && |t| % 4 == 0
    ensures InAlphabet(t[0]) && InAlphabet(t[1]) && InAlphabet(t[2]) && InAlphabet(t[3])
  {
    hide Value, InAlphabet;
    var r := t[4..];
    assert |r| % 4 == 0;
    assert forall i :: 0 <= i < |r| ==> r[i] == t[i + 4];
  }

  /** Encoding a decoding gives the text back for the canonical texts and for no other. */
  lemma {:induction false} EncodeDecode(t: seq<bv8>)
    ensures Decode(t).Some? && Encode(Decode(t).value) == t <==> Canonical(t)
  {
    hide Encode, Groups, Known, Value, Canonical;
    if Canonical(t) {
      CanonicalKnown(t);
      CanonicalIsKnown(t);
      assert |t| % 4 == 0 by { CanonicalLength(t); }
      CanonicalEncodes(t);
    } else if Decode(t).Some? {
      EncodeShape(Decode(t).value);
    }
  }

  lemma CanonicalLength(t: seq<bv8>)
    requires Canonical(t)
    ensures |t| % 4 == 0
  {}

  lemma {:induction false} KnownIsKnown(src: seq<bv8>)
    ensures AllKnown(Known(src)) && Known(Known(src)) == Known(src)
  {
    CanonicalIsKnown(Known(src));
  }

  /** Bytes outside the alphabet, wherever they stand, make no difference to the decoder. */
  lemma {:induction false} ForeignBytesSkipped(a: seq<bv8>, junk: seq<bv8>, b: seq<bv8>)
    requires forall i :: 0 <= i < |junk| ==> Value(junk[i]) == FOREIGN
    ensures Decode(a + junk + b) == Decode(a + b)
  {
    hide Value, Groups, Trim, Known;
    KnownAppend(a + junk, b);
    KnownAppend(a, junk);
    KnownAppend(a, b);
    JunkUnknown(junk);
    assert Known(a) + [] == Known(a);
  }

  /** Decoding a text is decoding it with every byte outside the alphabet and '=' taken out. */
  lemma {:induction false} DecodeOfKnown(src: seq<bv8>)
    ensures Decode(src) == Decode(Known(src))
  {
    hide Value, Groups, Trim, Known;
    KnownIsKnown(src);
  }

  lemma {:induction false} JunkUnknown(junk: seq<bv8>)
    requires forall i :: 0 <= i < |junk| ==> Value(junk[i]) == FOREIGN
    ensures Known(junk) == []
  {
    if junk != [] {
      JunkUnknown(junk[1..]);
    }
  }

  /** The code looks at two places only: a pad in the third place drops two bytes even without one in the fourth. */
  lemma LonePadDropsTwo()
    ensures Decode([65, 65, PAD, 65]) == Some([0])
    ensures !Canonical([65, 65, PAD, 65])
  {
    var t: seq<bv8> := [65, 65, PAD, 65];
    CanonicalIsKnown(t);
    GroupOfFour(65, 65, PAD, 65);
    assert Groups(t) == [0, 0, 0];
    var cut: seq<bv8> := [0];
    assert Groups(t)[..1] == cut;
  }
}
