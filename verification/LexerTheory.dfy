/** What the lexer of module LineLexer is for: quoting is undone exactly. */
module LexerTheory {
  import opened CText
  import opened LineLexer
  import opened Tokens

  predicate IsQuote(q: char) {
    q == '"' || q == '\''
  }

  /** A word inside quotes: the quote and '\' get a backslash. */
  function Escape(q: char, t: string): string {
    if t == [] then []
    else (if t[0] == q || t[0] == '\\' then ['\\', t[0]] else [t[0]]) + Escape(q, t[1..])
  }

  function Quote(q: char, t: string): string {
    [q] + Escape(q, t) + [q]
  }

  /** Quoted words with one space between them. */
  function QuoteLine(ts: seq<string>): string {
    if ts == [] then [] else if |ts| == 1 then Quote('"', ts[0]) else Quote('"', ts[0]) + [' '] + QuoteLine(ts[1..])
  }

  /** What fits into a line: anything but the newline, the NUL being no character of a string. */
  predicate Writable(t: string) {
    forall i :: 0 <= i < |t| ==> t[i] != '\n'
  }

  predicate AllWritable(ts: seq<string>) {
    forall i :: 0 <= i < |ts| ==> Writable(ts[i])
  }

  lemma {:induction false} ReadEscaped(q: char, t: string, tail: string)
    requires IsQuote(q) && Writable(t)
    ensures var w, r := ReadWord(tail, false, q), ReadWord(Escape(q, t) + tail, false, q);
            r.text == t + w.text && r.rest == w.rest && (w.ahead ==> r.ahead)
  {
    hide ReadWord, Escape;
    EscapeNext(q, t, tail);
    if t == [] {
      assert [] + ReadWord(tail, false, q).text == ReadWord(tail, false, q).text;
    } else {
      var c, more := t[0], Escape(q, t[1..]) + tail;
      var w := ReadWord(tail, false, q);
      ReadEscaped(q, t[1..], tail);
      if c == q || c == '\\' {
        ReadBackslash(c, more, q);
      } else {
        ReadPlain(c, more, q);
      }
      assert [c] + (t[1..] + w.text) == t + w.text;
    }
  }

  lemma EscapeNext(q: char, t: string, tail: string)
    ensures t == [] ==> Escape(q, t) + tail == tail
    ensures t != [] ==>
              var more := Escape(q, t[1..]) + tail;
              Escape(q, t) + tail ==
              if t[0] == q || t[0] == '\\' then ['\\'] + ([t[0]] + more) else [t[0]] + more
  {}

  lemma ReadBackslash(c: char, more: string, quote: char)
    requires c != '\n'
    ensures ReadWord(['\\'] + ([c] + more), false, quote) == Skip(Keep(c, ReadWord(more, false, quote)))
  {
    assert (['\\'] + ([c] + more))[1..] == [c] + more;
    assert ([c] + more)[1..] == more;
    assert ReadWord([c] + more, true, quote) == Keep(c, ReadWord(more, false, quote));
  }

  lemma ReadPlain(c: char, more: string, q: char)
    requires IsQuote(q) && c != '\n' && c != q && c != '\\'
    ensures ReadWord([c] + more, false, q) == Keep(c, ReadWord(more, false, q))
  {
    assert ([c] + more)[1..] == more;
  }

  /** What is read behind a complete word: the blank that ends it, or nothing. */
  predicate EndsWord(rest: string) {
    rest == [] || IsSpace(rest[0])
  }

  function BehindWord(rest: string): Word {
    if rest == [] || rest[0] == '\n' then Word([], rest, false) else Word([], rest[1..], true)
  }

  lemma ReadEnd(rest: string)
    requires EndsWord(rest)
    ensures ReadWord(rest, false, NUL) == BehindWord(rest)
  {}

  /** A quoted word is read as the word; the reader then stands behind the blank, or at the newline or the end. */
  lemma {:induction false} ReadQuoted(q: char, t: string, tail: string)
    requires IsQuote(q) && Writable(t) && EndsWord(tail)
    ensures ReadWord(Quote(q, t) + tail, false, NUL) == Word(t, BehindWord(tail).rest, true)
  {
    hide Escape, IsSpace;
    var inner := Escape(q, t) + ([q] + tail);
    assert Quote(q, t) + tail == [q] + inner;
    assert ([q] + inner)[1..] == inner;
    assert ([q] + tail)[1..] == tail;
    ReadEscaped(q, t, [q] + tail);
    ReadEnd(tail);
    OpensQuote(q, inner);
    assert ReadWord([q] + tail, false, q) == Skip(ReadWord(tail, false, NUL));
    assert t + [] == t;
  }

  lemma OpensQuote(q: char, inner: string)
    requires IsQuote(q)
    ensures ReadWord([q] + inner, false, NUL) == Skip(ReadWord(inner, false, q))
  {
    assert ([q] + inner)[1..] == inner;
  }

  /** Lexing the quoted words of a line gives the words back: all of them, or the first `max`. */
  lemma {:induction false} QuotedRoundTrip(ts: seq<string>, tail: string, max: nat)
    requires AllWritable(ts) && (tail == "" || tail == "\n")
    ensures Lex(QuoteLine(ts) + tail, max) == First(max, ts)
    decreases max
  {
    hide ReadWord, Quote, Lex, QuoteLine, SkipSpaces;
    if max == 0 || ts == [] {
      QuoteLineNext(ts, tail);
      LineEnd(tail);
      LexDone(QuoteLine(ts) + tail, max);
    } else {
      QuotedRoundTrip(ts[1..], tail, max - 1);
      LexQuoted(ts, tail, max);
      FirstNext(ts, max);
    }
  }

  /** The first quoted word of a line. */
  lemma LexQuoted(ts: seq<string>, tail: string, max: nat)
    requires max > 0 && ts != [] && Writable(ts[0]) && (tail == "" || tail == "\n")
    ensures Lex(QuoteLine(ts) + tail, max) == [ts[0]] + Lex(QuoteLine(ts[1..]) + tail, max - 1)
  {
    hide ReadWord, Quote, Lex, QuoteLine, SkipSpaces, Writable;
    var more := QuoteLine(ts[1..]) + tail;
    var rest := if |ts| == 1 then tail else [' '] + more;
    QuoteLineNext(ts, tail);
    QuoteLineNext(ts[1..], tail);
    StartsQuoted(ts[0], rest);
    ReadQuoted('"', ts[0], rest);
    LexStep(Quote('"', ts[0]) + rest, max);
    assert ([' '] + more)[1..] == more;
  }

  lemma FirstNext(ts: seq<string>, max: nat)
    requires max > 0 && ts != []
    ensures First(max, ts) == [ts[0]] + First(max - 1, ts[1..])
  {}

  lemma QuoteLineNext(ts: seq<string>, tail: string)
    ensures QuoteLine(ts) + tail ==
            if ts == [] then tail
            else Quote('"', ts[0]) + if |ts| == 1 then tail else [' '] + (QuoteLine(ts[1..]) + tail)
  {
    hide Quote;
  }

  lemma LineEnd(tail: string)
    requires tail == "" || tail == "\n"
    ensures SkipSpaces(tail) == []
  {}

  lemma StartsQuoted(t: string, rest: string)
    ensures SkipSpaces(Quote('"', t) + rest) == Quote('"', t) + rest
    ensures !EndsLine(Quote('"', t) + rest)
  {
    assert (Quote('"', t) + rest)[0] == '"';
  }

  // One line at a time.

  /** The lexer one would write for a line: a newline is nothing but a blank. */
  function LexLine(s: string, max: nat): seq<string>
    decreases max
  {
    var t := SkipSpaces(s);
    if max == 0 || EndsLine(t) then []
    else
      var w := ReadWord(t, false, NUL);
      [w.text] + LexLine(w.rest, max - 1)
  }

  /** A newline at the end only, as fgets delivers lines. */
  predicate OneLine(s: string) {
    forall i :: 0 <= i < |s| - 1 ==> s[i] != '\n'
  }

  lemma {:induction false} SkipOneLine(s: string)
    requires OneLine(s)
    ensures OneLine(SkipSpaces(s))
  {
    if s != [] && IsSpace(s[0]) {
      SkipOneLine(s[1..]);
    }
  }

  lemma {:induction false} WordOneLine(s: string, esc: bool, quote: char)
    requires OneLine(s)
    ensures var w := ReadWord(s, esc, quote);
            OneLine(w.rest) && (w.ahead || w.rest == "" || w.rest == "\n")
  {
    if s != [] && s[0] != '\n' {
      WordOneLine(s[1..], false, quote);
      WordOneLine(s[1..], true, quote);
      WordOneLine(s[1..], false, s[0]);
      WordOneLine(s[1..], false, NUL);
    } else if s != [] {
      assert |s| == 1;
    }
  }

  /**
   The first word that was copied in place up to a newline is the last one there is room for, or
   nothing but blanks or a comment follows it.
   */
  predicate EndsWithBareWord(s: string, max: nat)
    decreases max
  {
    var t := SkipSpaces(s);
    max == 0 || EndsLine(t) ||
    var w := ReadWord(t, false, NUL);
    if w.ahead then EndsWithBareWord(w.rest, max - 1) else max == 1 || EndsLine(SkipSpaces(w.rest))
  }

  /** On any text: the in-place lexer does what the plain one does under exactly this condition. */
  lemma {:induction false} LexIsLineIff(s: string, max: nat)
    ensures Lex(s, max) == LexLine(s, max) <==> EndsWithBareWord(s, max)
    decreases max
  {
    hide ReadWord, SkipSpaces, EndsLine;
    var t := SkipSpaces(s);
    if max > 0 && !EndsLine(t) {
      var w := ReadWord(t, false, NUL);
      LexIsLineIff(w.rest, max - 1);
      if w.ahead {
        ConsSame(w.text, Lex(w.rest, max - 1), LexLine(w.rest, max - 1));
      } else {
        ConsSame(w.text, [], LexLine(w.rest, max - 1));
        LineNone(w.rest, max - 1);
      }
    }
  }

  lemma ConsSame(t: string, a: seq<string>, b: seq<string>)
    ensures [t] + a == [t] + b <==> a == b
  {
    assert ([t] + a)[1..] == a && ([t] + b)[1..] == b;
  }

  lemma LineNone(s: string, max: nat)
    ensures LexLine(s, max) == [] <==> max == 0 || EndsLine(SkipSpaces(s))
  {}

  lemma {:induction false} OneLineEnds(s: string, max: nat)
    requires OneLine(s)
    ensures EndsWithBareWord(s, max)
    decreases max
  {
    hide ReadWord, SkipSpaces;
    var t := SkipSpaces(s);
    SkipOneLine(s);
    if max > 0 && !EndsLine(t) {
      WordOneLine(t, false, NUL);
      var w := ReadWord(t, false, NUL);
      LineEnd("");
      LineEnd("\n");
      OneLineEnds(w.rest, max - 1);
    }
  }

  /** On every line fgets delivers the in-place lexer is the plain one. */
  lemma {:induction false} OneLineIsPlain(s: string, max: nat)
    requires OneLine(s)
    ensures Lex(s, max) == LexLine(s, max)
  {
    hide *;
    OneLineEnds(s, max);
    LexIsLineIff(s, max);
  }

  /** Beyond a line the two differ: a bare word swallows its newline's rest, a quoted one does not. */
  lemma SecondLine()
    ensures Lex("a\nb", 2) == ["a"] && Lex("''a\nb", 2) == ["a", "b"]
    ensures LexLine("a\nb", 2) == ["a", "b"]
  {
    var s, q := "a\nb", "''a\nb";
    assert s[1..] == "\nb" && q[1..] == "'a\nb" && q[1..][1..] == s && s[1..][1..] == "b" && "b"[1..] == "";
    assert ReadWord("\nb", false, NUL) == Word("", "\nb", false);
    assert ReadWord(s, false, NUL) == Word("a", "\nb", false);
    assert ReadWord(q[1..], false, '\'') == Skip(ReadWord(s, false, NUL));
    assert ReadWord(q, false, NUL) == Word("a", "\nb", true);
    assert ReadWord("", false, NUL) == Word("", "", false);
    assert ReadWord("b", false, NUL) == Word("b", "", false);
    assert SkipSpaces("\nb") == "b" by { assert "\nb"[1..] == "b"; }
    assert Lex("\nb", 1) == ["b"];
    assert LexLine("\nb", 1) == ["b"];
  }
}
