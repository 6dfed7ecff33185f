/**
 The base64 codec of the XML-RPC daemon: the "Base64" transfer encoding of section 6.8
 of RFC 2045, without line breaks. Bytes, of data and of text alike, are bv8.
 */
module Base64 {

  import opened Options

  const PAD: bv8 := 61       // '='
  const FOREIGN: bv8 := 0x80 // dtable's mark for a byte outside the alphabet

  /** base64_table: A-Z a-z 0-9 + / */
  function Symbol(v: bv8): (c: bv8)
    requires v < 64
  {
    if v < 26 then v + 65
    else if v < 52 then v + 71
    else if v < 62 then v - 4
    else if v == 62 then 43
    else 47
  }

  /** dtable: the position in the table; 0 for '='; FOREIGN for every other byte. */
  function Value(c: bv8): (v: bv8)
    ensures v == FOREIGN || v < 64
  {
    if 65 <= c <= 90 then c - 65
    else if 97 <= c <= 122 then c - 71
    else if 48 <= c <= 57 then c + 4
    else if c == 43 then 62
    else if c == 47 then 63
    else if c == PAD then 0
    else FOREIGN
  }

  predicate InAlphabet(c: bv8) {
    Value(c) != FOREIGN && c != PAD
  }

  function Encode3(a: bv8, b: bv8, c: bv8): (r: seq<bv8>)
    ensures |r| == 4
  {
    [Symbol(a >> 2), Symbol(((a & 3) << 4) | (b >> 4)), Symbol(((b & 15) << 2) | (c >> 6)), Symbol(c & 63)]
  }

  function Encode2(a: bv8, b: bv8): (r: seq<bv8>)
    ensures |r| == 4
  {
    [Symbol(a >> 2), Symbol(((a & 3) << 4) | (b >> 4)), Symbol((b & 15) << 2), PAD]
  }

  function Encode1(a: bv8): (r: seq<bv8>)
    ensures |r| == 4
  {
    [Symbol(a >> 2), Symbol((a & 3) << 4), PAD, PAD]
  }

  function Encode(src: seq<bv8>): seq<bv8> {
    if src == [] then []
    else if |src| == 1 then Encode1(src[0])
    else if |src| == 2 then Encode2(src[0], src[1])
    else Encode3(src[0], src[1], src[2]) + Encode(src[3..])
  }

  function Decode4(p: bv8, q: bv8, r: bv8, s: bv8): (d: seq<bv8>)
    ensures |d| == 3
  {
    [(p << 2) | (q >> 4), (q << 4) | (r >> 2), (r << 6) | s]
  }

  /** The bytes the decoder does not skip. */
  function Known(src: seq<bv8>): (r: seq<bv8>)
    ensures |r| <= |src|
    ensures forall i :: 0 <= i < |r| ==> Value(r[i]) != FOREIGN
  {
    if src == [] then []
    else (if Value(src[0]) == FOREIGN then [] else [src[0]]) + Known(src[1..])
  }

  /** All complete groups of four, three bytes each. */
  function Groups(t: seq<bv8>): (r: seq<bv8>)
    ensures |r| == |t| / 4 * 3
  {
    if |t| < 4 then []
    else Decode4(Value(t[0]), Value(t[1]), Value(t[2]), Value(t[3])) + Groups(t[4..])
  }

  /** How many bytes the last group gives back to padding. */
  function Trim(t: seq<bv8>): (n: nat)
    requires |t| % 4 == 0
    ensures n <= 2 && n <= |t|
  {
    if t == [] then 0
    else if t[|t| - 2] == PAD then 2
    else if t[|t| - 1] == PAD then 1
    else 0
  }

  function Decode(src: seq<bv8>): Option<seq<bv8>> {
    var t := Known(src);
    if |t| % 4 != 0 then None
    else Some(Groups(t)[..|Groups(t)| - Trim(t)])
  }

  lemma TableInverse()
    ensures forall v: bv8 :: v < 64 ==> InAlphabet(Symbol(v)) && Value(Symbol(v)) == v
    ensures forall c: bv8 :: InAlphabet(c) ==> Symbol(Value(c)) == c
  {}

  /** The 256-entry table, one entry per unsigned char. */
  type DecodeTable = bv8 -> bv8

  function Store(dtable: DecodeTable, at: bv8, v: bv8): DecodeTable {
    c => if c == at then v else dtable(c)
  }

  method BuildTable() returns (dtable: DecodeTable)
    ensures forall c: bv8 :: dtable(c) == Value(c)
  {
    TableInverse();
    dtable := c => FOREIGN;
    var i: bv8 := 0;
    while i < 64
      invariant i <= 64
      invariant forall c: bv8 :: dtable(c) == if InAlphabet(c) && Value(c) < i then Value(c) else FOREIGN
    {
      dtable := Store(dtable, Symbol(i), i);
      i := i + 1;
    }
    dtable := Store(dtable, PAD, 0);
  }

  /** The allocation of the encoder: groups of four, room for line feeds, the NUL. */
  function EncodeCapacity(len: nat): nat {
    var olen := len * 4 / 3 + 4;
    olen + olen / 72 + 1
  }

  /** The allocation holds every encoding and its terminator. */
  lemma CapacityEnough(len: nat)
    ensures EncodedLength(len) < EncodeCapacity(len)
  {}

  function EncodedLength(len: nat): nat {
    (len + 2) / 3 * 4
  }

  /** Successive `*pos++ = ...` stores. */
  method Put(out: array<bv8>, pos: nat, bytes: seq<bv8>) returns (next: nat)
    requires pos + |bytes| <= out.Length
    modifies out
    ensures next == pos + |bytes|
    ensures out[..next] == old(out[..pos]) + bytes
  {
    forall k | 0 <= k < |bytes| {
      out[pos + k] := bytes[k];
    }
    next := pos + |bytes|;
  }

  method Base64Encode(src: seq<bv8>) returns (out: array<bv8>, outLen: nat)
    ensures fresh(out) && out.Length == EncodeCapacity(|src|)
    ensures outLen < out.Length && out[..outLen] == Encode(src) && out[outLen] == 0
    ensures outLen == EncodedLength(|src|)
  {
    hide *;
    CapacityEnough(|src|);
    out := new bv8[EncodeCapacity(|src|)];
    var i, pos := PutBlocks(src, out);
    LengthAt(|src|, i, pos);
    outLen := PutTail(src, i, out, pos);
    out[outLen] := 0;
  }

  /** The loop over blocks of three. */
  method PutBlocks(src: seq<bv8>, out: array<bv8>) returns (i: nat, pos: nat)
    requires EncodedLength(|src|) <= out.Length
    modifies out
    ensures i <= |src| < i + 3 && 3 * pos == 4 * i && pos <= out.Length
    ensures out[..pos] + Encode(src[i..]) == Encode(src)
  {
    hide *;
    i, pos := 0, 0;
    assert src[0..] == src;
    while |src| - i >= 3
      invariant i <= |src| && 3 * pos == 4 * i && pos <= out.Length
      invariant out[..pos] + Encode(src[i..]) == Encode(src)
    {
      LengthAt(|src|, i, pos);
      EncodeStep(src, i);
      pos := Put(out, pos, Encode3(src[i], src[i + 1], src[i + 2]));
      i := i + 3;
    }
  }

  lemma LengthAt(len: nat, i: nat, pos: nat)
    requires i <= len && 3 * pos == 4 * i
    ensures len >= i + 3 ==> pos + 4 <= EncodedLength(len)
    ensures len < i + 3 ==> EncodedLength(len) == if len == i then pos else pos + 4
  {
    assert i == 3 * (i / 3) && pos == 4 * (i / 3);
  }

  /** The one or two bytes behind the last full block, padded. */
  method PutTail(src: seq<bv8>, i: nat, out: array<bv8>, pos: nat) returns (next: nat)
    requires i <= |src| < i + 3 && (if |src| == i then pos else pos + 4) <= out.Length
    modifies out
    ensures next == if |src| == i then pos else pos + 4
    ensures out[..next] == old(out[..pos]) + Encode(src[i..])
  {
    next := pos;
    if |src| - i == 1 {
      next := Put(out, pos, Encode1(src[i]));
    } else if |src| - i == 2 {
      next := Put(out, pos, Encode2(src[i], src[i + 1]));
    }
  }

  lemma EncodeStep(src: seq<bv8>, i: nat)
    requires i + 3 <= |src|
    ensures Encode(src[i..]) == Encode3(src[i], src[i + 1], src[i + 2]) + Encode(src[i + 3..])
  {
    assert src[i..][3..] == src[i + 3..];
  }

  /** The first pass of the decoder: how many bytes it will not skip. */
  method CountKnown(src: seq<bv8>, dtable: DecodeTable) returns (count: nat)
    requires forall c: bv8 :: dtable(c) == Value(c)
    ensures count == |Known(src)|
  {
    hide *;
    count := 0;
    assert src[0..] == src;
    for i := 0 to |src|
      invariant count + |Known(src[i..])| == |Known(src)|
    {
      KnownStep(src, i);
      if dtable(src[i]) != FOREIGN {
        count := count + 1;
      }
    }
  }

  method Base64Decode(src: seq<bv8>) returns (result: Option<array<bv8>>, outLen: nat)
    ensures result.Some? <==> Decode(src).Some?
    ensures result.Some? ==>
              && fresh(result.value) && result.value.Length == |Known(src)| / 4 * 3
              && outLen <= result.value.Length
              && Decode(src) == Some(result.value[..outLen])
  {
    hide Known, Groups;
    var dtable := BuildTable();
    var count := CountKnown(src, dtable);
    if count % 4 != 0 {
      return None, 0;
    }
    var out, last := DecodeGroups(src, dtable, count);
    outLen := out.Length;
    if outLen > 0 {
      if last[2] == PAD {
        outLen := outLen - 2;
      } else if last[3] == PAD {
        outLen := outLen - 1;
      }
    }
    result := Some(out);
  }

  /** What the decoder holds while it works through the known bytes `taken`. */
  ghost predicate Holds(taken: seq<bv8>, g: nat, count: nat, seen: seq<bv8>, block: seq<bv8>) {
    && |seen| == |block| == 4
    && count < 4 && |taken| == 4 * g + count
    && (forall k :: 0 <= k < count ==> seen[k] == taken[4 * g + k] && block[k] == Value(seen[k]))
    && (g > 0 ==> forall k :: count <= k < 4 ==> seen[k] == taken[4 * g - 4 + k])
  }

  lemma HoldsNext(taken: seq<bv8>, g: nat, count: nat, seen: seq<bv8>, block: seq<bv8>, c: bv8)
    requires Holds(taken, g, count, seen, block)
    ensures count < 3 ==> Holds(taken + [c], g, count + 1, seen[count := c], block[count := Value(c)])
    ensures count == 3 ==> Holds(taken + [c], g + 1, 0, seen[3 := c], block[3 := Value(c)])
  {
    hide Value;
    assert forall k :: 0 <= k < |taken| ==> (taken + [c])[k] == taken[k];
  }

  lemma GroupsNext(taken: seq<bv8>, g: nat, count: nat, seen: seq<bv8>, block: seq<bv8>, c: bv8)
    requires Holds(taken, g, count, seen, block)
    ensures Groups(taken + [c]) ==
            if count < 3 then Groups(taken)
            else Groups(taken) + Decode4(block[0], block[1], block[2], Value(c))
  {
    hide Value, Decode4, Groups;
    var start, tail := taken[..4 * g], taken[4 * g..];
    assert taken == start + tail;
    GroupsTail(start, tail, c);
    ShortGroups(tail);
    if count < 3 {
      ShortGroups(tail + [c]);
    } else {
      assert tail == seen[..3];
      FourthOfGroup(seen[..3], c);
    }
  }

  lemma FourthOfGroup(tail: seq<bv8>, c: bv8)
    requires |tail| == 3
    ensures Groups(tail + [c]) == Decode4(Value(tail[0]), Value(tail[1]), Value(tail[2]), Value(c))
  {
    hide Value, Decode4, Groups;
    GroupOfFour(tail[0], tail[1], tail[2], c);
    assert tail + [c] == [tail[0], tail[1], tail[2], c];
  }

  lemma GroupsTail(start: seq<bv8>, tail: seq<bv8>, c: bv8)
    requires |start| % 4 == 0
    ensures Groups(start + tail) == Groups(start) + Groups(tail)
    ensures Groups(start + tail + [c]) == Groups(start) + Groups(tail + [c])
  {
    hide *;
    GroupsAppend(start, tail);
    GroupsAppend(start, tail + [c]);
    Reassociate(start, tail, [c]);
  }

  lemma Reassociate(a: seq<bv8>, b: seq<bv8>, c: seq<bv8>)
    ensures (a + b) + c == a + (b + c)
  {}

  lemma ShortGroups(t: seq<bv8>)
    requires |t| < 4
    ensures Groups(t) == []
  {}

  lemma GroupOfFour(a: bv8, b: bv8, c: bv8, d: bv8)
    ensures Groups([a, b, c, d]) == Decode4(Value(a), Value(b), Value(c), Value(d))
  {
    hide Value, Decode4;
    var t := [a, b, c, d];
    assert t[4..] == [];
  }

  lemma GroupsUnfold(t: seq<bv8>)
    requires |t| >= 4
    ensures Groups(t) == Decode4(Value(t[0]), Value(t[1]), Value(t[2]), Value(t[3])) + Groups(t[4..])
  {
    hide Value, Decode4;
  }

  lemma NoGroups(t: seq<bv8>)
    requires t == []
    ensures Groups(t) == []
  {}

  /** Complete groups decode on their own. */
  lemma {:induction false} GroupsAppend(a: seq<bv8>, b: seq<bv8>)
    requires |a| % 4 == 0
    ensures Groups(a + b) == Groups(a) + Groups(b)
  {
    hide *;
    if a == [] {
      NoGroups(a);
      assert a + b == b;
    } else {
      assert (a + b)[4..] == a[4..] + b;
      GroupsUnfold(a);
      GroupsUnfold(a + b);
      GroupsAppend(a[4..], b);
      Reassociate(Decode4(Value(a[0]), Value(a[1]), Value(a[2]), Value(a[3])), Groups(a[4..]), Groups(b));
    }
  }

  /** The second pass: decode every group of four; `seen` ends up holding the last one. */
  method DecodeGroups(src: seq<bv8>, dtable: DecodeTable, total: nat) returns (out: array<bv8>, seen: seq<bv8>)
    requires forall c: bv8 :: dtable(c) == Value(c)
    requires total == |Known(src)| && total % 4 == 0
    ensures fresh(out) && out.Length == total / 4 * 3 && out[..] == Groups(Known(src))
    ensures |seen| == 4 && (total > 0 ==> seen == Known(src)[total - 4..])
  {
    hide *;
    out := new bv8[total / 4 * 3];
    seen := [0, 0, 0, 0];
    var block: seq<bv8> := [0, 0, 0, 0];
    var pos, count := 0, 0;
    ghost var taken, g: nat := [], 0;
    Start(seen, block);
    assert src[..0] == [];
    for i := 0 to |src|
      invariant Holds(taken, g, count, seen, block) && count < 4 && |seen| == |block| == 4
      invariant taken == Known(src[..i])
      invariant pos == 3 * g <= out.Length && out[..pos] == Groups(taken)
    {
      KnownNext(src, i);
      var tmp := dtable(src[i]);
      if tmp != FOREIGN {
        HoldsNext(taken, g, count, seen, block, src[i]);
        GroupsNext(taken, g, count, seen, block, src[i]);
        seen := seen[count := src[i]];
        block := block[count := tmp];
        count := count + 1;
        taken := taken + [src[i]];
        if count == 4 {
          HoldsRoom(taken, g + 1, 0, seen, block, total);
          pos := Put(out, pos, Decode4(block[0], block[1], block[2], block[3]));
          g, count := g + 1, 0;
        }
      }
    }
    assert src[..|src|] == src;
    HoldsEnd(taken, g, count, seen, block);
    assert out[..pos] == out[..];
  }

  lemma Start(seen: seq<bv8>, block: seq<bv8>)
    requires |seen| == |block| == 4
    ensures Known([]) == Groups([]) == []
    ensures Holds([], 0, 0, seen, block)
  {}

  lemma HoldsRoom(taken: seq<bv8>, g: nat, count: nat, seen: seq<bv8>, block: seq<bv8>, total: nat)
    requires Holds(taken, g, count, seen, block) && |taken| <= total
    ensures 3 * g <= total / 4 * 3
  {}

  lemma HoldsEnd(taken: seq<bv8>, g: nat, count: nat, seen: seq<bv8>, block: seq<bv8>)
    requires Holds(taken, g, count, seen, block) && |taken| % 4 == 0
    ensures 3 * g == |taken| / 4 * 3
    ensures taken != [] ==> seen == taken[|taken| - 4..]
  {}

  lemma {:induction false} KnownAppend(a: seq<bv8>, b: seq<bv8>)
    ensures Known(a + b) == Known(a) + Known(b)
  {
    if a == [] {
      assert a + b == b;
    } else {
      assert (a + b)[1..] == a[1..] + b;
      KnownAppend(a[1..], b);
    }
  }

  lemma KnownNext(src: seq<bv8>, i: nat)
    requires i < |src|
    ensures Known(src[..i + 1]) == Known(src[..i]) + if Value(src[i]) == FOREIGN then [] else [src[i]]
    ensures |Known(src[..i + 1])| <= |Known(src)|
  {
    KnownAppend(src[..i], [src[i]]);
    assert src[..i + 1] == src[..i] + [src[i]];
    KnownAppend(src[..i + 1], src[i + 1..]);
    assert src == src[..i + 1] + src[i + 1..];
    assert Known([src[i]]) == if Value(src[i]) == FOREIGN then [] else [src[i]];
  }

  lemma KnownStep(src: seq<bv8>, i: nat)
    requires i < |src|
    ensures Known(src[i..]) ==
            if Value(src[i]) == FOREIGN then Known(src[i + 1..]) else [src[i]] + Known(src[i + 1..])
  {
    assert src[i..][1..] == src[i + 1..];
  }
}
