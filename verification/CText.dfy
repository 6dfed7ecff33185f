/**
 The pieces of the C library's text handling that the modelled programs lean on:
 character classes of the "C" locale, decimal printing, strtol, atoi and the %d of scanf.
 A C string is the sequence of its characters before the NUL; a `char *` into it is
 the suffix that starts there.
 */
module CText {

  const NUL: char := '\0'

  const INT_MIN := -0x8000_0000
  const INT_MAX := 0x7FFF_FFFF
  const LONG_MIN := -0x8000_0000_0000_0000
  const LONG_MAX := 0x7FFF_FFFF_FFFF_FFFF

  predicate IsInt32(x: int) {
    INT_MIN <= x <= INT_MAX
  }

  /** Conversion of a wider value to `int`: the low 32 bits, read as signed. */
  function ToInt32(x: int): (r: int)
    ensures IsInt32(r)
    ensures IsInt32(x) ==> r == x
    ensures (r - x) % 0x1_0000_0000 == 0
  {
    (x - INT_MIN) % 0x1_0000_0000 + INT_MIN
  }

  /** Conversion to `unsigned int`. */
  function ToUint32(x: int): (r: nat)
    ensures r < 0x1_0000_0000
    ensures 0 <= x < 0x1_0000_0000 ==> r == x
  {
    x % 0x1_0000_0000
  }

  predicate IsDigit(c: char) {
    '0' <= c <= '9'
  }

  predicate IsSpace(c: char) {
    c == ' ' || '\t' <= c <= '\r'
  }

  predicate AllDigits(s: string) {
    forall i :: 0 <= i < |s| ==> IsDigit(s[i])
  }

  predicate StartsWithDigit(s: string) {
    s != [] && IsDigit(s[0])
  }

  predicate StartsWith(s: string, c: char) {
    s != [] && s[0] == c
  }

  function DigitValue(c: char): (d: nat)
    requires IsDigit(c)
    ensures d < 10
  {
    c as int - '0' as int
  }

  function DigitChar(d: nat): (c: char)
    requires d < 10
    ensures IsDigit(c) && DigitValue(c) == d
  {
    '0' + d as char
  }

  /** %u of a value. */
  function PrintNat(n: nat): (s: string)
    ensures s != [] && AllDigits(s)
    ensures s[0] == '0' ==> n == 0
  {
    if n < 10 then [DigitChar(n)] else PrintNat(n / 10) + [DigitChar(n % 10)]
  }

  /** %d of a value. */
  function PrintInt(x: int): (s: string)
    ensures s != []
  {
    if x < 0 then "-" + PrintNat(-x) else PrintNat(x)
  }

  function NatValue(s: string): nat
    requires AllDigits(s)
  {
    if s == [] then 0 else NatValue(s[..|s| - 1]) * 10 + DigitValue(s[|s| - 1])
  }

  /** Length of the digits a text starts with. */
  function DigitRun(s: string): (n: nat)
    ensures n <= |s| && AllDigits(s[..n])
    ensures n < |s| ==> !IsDigit(s[n])
  {
    if !StartsWithDigit(s) then 0
    else
      var n := DigitRun(s[1..]);
      assert s[..n + 1] == [s[0]] + s[1..][..n];
      n + 1
  }

  /** Length of the text in front of the first c. */
  function Before(s: string, c: char): (n: nat)
    ensures n <= |s|
    ensures n < |s| ==> s[n] == c
    ensures forall i :: 0 <= i < n ==> s[i] != c
  {
    if s == [] || s[0] == c then 0
    else
      var n := Before(s[1..], c);
      assert forall i :: 1 <= i < n + 1 ==> s[i] == s[1..][i - 1];
      n + 1
  }

  function SkipSpaces(s: string): (r: string)
    ensures |r| <= |s|
    ensures r != [] ==> !IsSpace(r[0])
  {
    if s != [] && IsSpace(s[0]) then SkipSpaces(s[1..]) else s
  }

  /** strtol saturates at the bounds of `long`. */
  function Saturate(x: int): (r: int)
    ensures LONG_MIN <= r <= LONG_MAX
    ensures LONG_MIN <= x <= LONG_MAX ==> r == x
  {
    if x < LONG_MIN then LONG_MIN else if x > LONG_MAX then LONG_MAX else x
  }

  /** What a conversion leaves: the value and the text behind it. */
  datatype Scan = Scan(value: int, rest: string)

  /** strtol(s, &rest, 10): no digits means value 0 and an unmoved pointer. */
  function Strtol(s: string): (r: Scan)
    ensures |r.rest| <= |s|
    ensures LONG_MIN <= r.value <= LONG_MAX
  {
    var t := SkipSpaces(s);
    var u := if StartsWith(t, '-') || StartsWith(t, '+') then t[1..] else t;
    var n := DigitRun(u);
    if n == 0 then Scan(0, s)
    else
      var v: int := NatValue(u[..n]);
      Scan(Saturate(if StartsWith(t, '-') then -v else v), u[n..])
  }

  function Atoi(s: string): (r: int)
    ensures IsInt32(r)
  {
    ToInt32(Strtol(s).value)
  }

  // Facts about printing and reading back.

  lemma {:induction false} DigitRunOfPrefix(d: string, rest: string)
    requires AllDigits(d) && !StartsWithDigit(rest)
    ensures DigitRun(d + rest) == |d|
  {
    if d != [] {
      assert (d + rest)[1..] == d[1..] + rest;
      DigitRunOfPrefix(d[1..], rest);
    } else {
      assert d + rest == rest;
    }
  }

  lemma {:induction false} PrintNatReads(n: nat)
    ensures NatValue(PrintNat(n)) == n
  {
    if n < 10 {
      var s := PrintNat(n);
      assert s[..|s| - 1] == [];
    } else {
      PrintNatReads(n / 10);
      var s := PrintNat(n);
      assert s[..|s| - 1] == PrintNat(n / 10);
    }
  }

  lemma {:induction false} StrtolDigits(d: string, rest: string)
    requires d != [] && AllDigits(d) && !StartsWithDigit(rest)
    ensures Strtol(d + rest) == Scan(Saturate(NatValue(d)), rest)
  {
    var s := d + rest;
    DigitRunOfPrefix(d, rest);
    assert IsDigit(s[0]) by { assert s[0] == d[0]; }
    assert s[..|d|] == d && s[|d|..] == rest;
  }

  lemma {:induction false} StrtolMinusDigits(d: string, rest: string)
    requires d != [] && AllDigits(d) && !StartsWithDigit(rest)
    ensures Strtol("-" + d + rest) == Scan(Saturate(-(NatValue(d) as int)), rest)
  {
    var s := "-" + d + rest;
    var u := d + rest;
    DigitRunOfPrefix(d, rest);
    assert s == ['-'] + u;
    assert u[..|d|] == d && u[|d|..] == rest;
  }

  lemma DigitsAre(d: nat)
    requires d < 10
    ensures DigitChar(d) == "0123456789"[d] && DigitValue("0123456789"[d]) == d
  {}

  predicate IsBlankChar(c: char) {
    c == ' ' || c == '\t' || c == '\n' || c as int == 11 || c as int == 12 || c == '\r'
  }

  lemma {:induction false} SpacesSkipped(blanks: string, s: string)
    requires forall i :: 0 <= i < |blanks| ==> IsBlankChar(blanks[i])
    ensures SkipSpaces(blanks + s) == SkipSpaces(s)
  {
    if blanks == "" {
      assert blanks + s == s;
    } else {
      assert (blanks + s)[1..] == blanks[1..] + s;
      SpacesSkipped(blanks[1..], s);
    }
  }

  /** Behind the blanks and the sign stand the digits. */
  lemma SignPassed(blanks: string, sign: string, u: string)
    requires forall i :: 0 <= i < |blanks| ==> IsBlankChar(blanks[i])
    requires sign in {"", "+", "-"}
    requires sign == "" && u != "" ==> !IsBlankChar(u[0]) && u[0] != '+' && u[0] != '-'
    ensures var t := SkipSpaces(blanks + (sign + u));
            && t == sign + u && (StartsWith(t, '-') <==> sign == "-") && (StartsWith(t, '+') <==> sign == "+")
            && (if sign == "" then t else t[1..]) == u
  {
    var t := sign + u;
    SpacesSkipped(blanks, t);
    if sign == "" {
      assert t == u;
    } else {
      assert t[0] == sign[0] && t[1..] == u;
    }
  }

  /** strtol of blanks, an optional sign of either kind, and digits. */
  lemma {:induction false} StrtolReads(blanks: string, sign: string, d: string, rest: string)
    requires forall i :: 0 <= i < |blanks| ==> IsBlankChar(blanks[i])
    requires sign in {"", "+", "-"} && d != "" && AllDigits(d) && !StartsWithDigit(rest)
    ensures Strtol(blanks + (sign + (d + rest))) ==
            Scan(Saturate(if sign == "-" then -(NatValue(d) as int) else NatValue(d)), rest)
  {
    hide NatValue, Saturate, SkipSpaces, DigitRun;
    var u := d + rest;
    assert u[0] == d[0];
    SignPassed(blanks, sign, u);
    DigitRunOfPrefix(d, rest);
    assert u[..|d|] == d && u[|d|..] == rest;
  }

  /** Where no digits follow blanks and sign, the value is 0 and nothing is passed. */
  lemma {:induction false} StrtolNothing(blanks: string, sign: string, rest: string)
    requires forall i :: 0 <= i < |blanks| ==> IsBlankChar(blanks[i])
    requires sign in {"", "+", "-"} && !StartsWithDigit(rest)
    requires sign == "" && rest != "" ==> !IsBlankChar(rest[0]) && rest[0] != '+' && rest[0] != '-'
    ensures Strtol(blanks + (sign + rest)) == Scan(0, blanks + (sign + rest))
  {
    hide SkipSpaces;
    SignPassed(blanks, sign, rest);
  }

  lemma {:induction false} StrtolPrintedNat(n: nat, rest: string)
    requires n <= LONG_MAX
    requires !StartsWithDigit(rest)
    ensures Strtol(PrintNat(n) + rest) == Scan(n, rest)
  {
    PrintNatReads(n);
    StrtolDigits(PrintNat(n), rest);
  }

  lemma {:induction false} StrtolPrintedMinus(n: nat, rest: string)
    requires n <= -LONG_MIN
    requires !StartsWithDigit(rest)
    ensures Strtol("-" + PrintNat(n) + rest) == Scan(-(n as int), rest)
  {
    PrintNatReads(n);
    StrtolMinusDigits(PrintNat(n), rest);
  }

  /** Reading a printed number gives it back and stops right behind it. */
  lemma {:induction false} StrtolPrinted(x: int, rest: string)
    requires LONG_MIN <= x <= LONG_MAX
    requires !StartsWithDigit(rest)
    ensures Strtol(PrintInt(x) + rest) == Scan(x, rest)
  {
    if x < 0 {
      StrtolPrintedMinus(-x, rest);
    } else {
      StrtolPrintedNat(x, rest);
    }
  }

  lemma {:induction false} AtoiPrinted(x: int, rest: string)
    requires IsInt32(x)
    requires !StartsWithDigit(rest)
    ensures Atoi(PrintInt(x) + rest) == x
  {
    StrtolPrinted(x, rest);
  }

  lemma {:induction false} PrintNatInjective(m: nat, n: nat)
    requires PrintNat(m) == PrintNat(n)
    ensures m == n
  {
    PrintNatReads(m);
    PrintNatReads(n);
  }

  /** k digits are enough below ten to the k. */
  lemma {:induction false} PrintNatLength(n: nat, k: nat)
    requires 0 < k && n < Pow10(k)
    ensures |PrintNat(n)| <= k
  {
    if n >= 10 {
      assert Pow10(k) == 10 * Pow10(k - 1);
      assert k > 1;
      PrintNatLength(n / 10, k - 1);
    }
  }

  function Pow10(k: nat): (r: nat)
    ensures r > 0
  {
    if k == 0 then 1 else 10 * Pow10(k - 1)
  }
}
