/**
 Every way of writing a word for the lexer of module LineLexer: bare, in either quotes, or with
 backslashes. Lines written so are read back word for word.
 */
module LexerForms {
  import opened CText
  import opened LineLexer
  import opened LexerTheory
  import opened Tokens

  /** A blank between words: space, tab, vertical tab, form feed, carriage return. */
  predicate IsGap(c: char) {
    c == ' ' || c == '\t' || c as int == 11 || c as int == 12 || c == '\r'
  }

  predicate AllGaps(s: string) {
    forall i :: 0 <= i < |s| ==> IsGap(s[i])
  }

  datatype Form = Bare | Single | Double | Backslashed

  /** What means something to the lexer. */
  predicate IsSpecial(c: char) {
    IsGap(c) || c == '"' || c == '\'' || c == '\\' || c == '#' || c == '!'
  }

  function Backslashes(t: string): string {
    if t == [] then [] else (if IsSpecial(t[0]) then ['\\', t[0]] else [t[0]]) + Backslashes(t[1..])
  }

  /** A word in its form. */
  function Written(form: Form, t: string): string {
    match form
    case Bare => t
    case Single => Quote('\'', t)
    case Double => Quote('"', t)
    case Backslashed => Backslashes(t)
  }

  predicate IsPlain(c: char) {
    !IsGap(c) && c != '"' && c != '\'' && c != '\\' && c != '\n'
  }

  predicate IsPlainWord(t: string) {
    t != "" && t[0] != '#' && t[0] != '!' && forall i :: 0 <= i < |t| ==> IsPlain(t[i])
  }

  /** The words a form can hold. Quotes hold all but the newline, the empty word included. */
  predicate CanHold(form: Form, t: string) {
    match form
    case Bare => IsPlainWord(t)
    case Single => Writable(t)
    case Double => Writable(t)
    case Backslashed => t != "" && Writable(t)
  }

  /** A word, its form, and the blanks behind it. */
  datatype Item = Item(form: Form, text: string, gap: string)

  function Line(items: seq<Item>): string {
    if items == [] then "" else Written(items[0].form, items[0].text) + (items[0].gap + Line(items[1..]))
  }

  /** Only the last word may stand without a blank behind it. */
  predicate Proper(items: seq<Item>) {
    forall i :: 0 <= i < |items| ==>
      && CanHold(items[i].form, items[i].text) && AllGaps(items[i].gap)
      && (i < |items| - 1 ==> items[i].gap != "")
  }

  function Texts(items: seq<Item>): (r: seq<string>)
    ensures |r| == |items|
  {
    if items == [] then [] else [items[0].text] + Texts(items[1..])
  }

  /** What may end a line: nothing, its newline, or, behind a blank, a comment. */
  predicate Ends(items: seq<Item>, tail: string) {
    || tail == "" || tail == "\n"
    || ((tail[0] == '#' || tail[0] == '!') && (items == [] || items[|items| - 1].gap != ""))
  }

  // Blanks.

  lemma SpaceIsGap(c: char)
    ensures IsSpace(c) <==> IsGap(c) || c == '\n'
  {}

  lemma {:induction false} GapsSkipped(gap: string, s: string)
    requires AllGaps(gap)
    ensures SkipSpaces(gap + s) == SkipSpaces(s)
  {
    if gap == "" {
      assert gap + s == s;
    } else {
      assert (gap + s)[1..] == gap[1..] + s;
      SpaceIsGap(gap[0]);
      GapsSkipped(gap[1..], s);
    }
  }

  /** Blanks in front of a text do not count. */
  lemma {:induction false} LexSkipsGaps(gap: string, s: string, max: nat)
    requires AllGaps(gap)
    ensures Lex(gap + s, max) == Lex(s, max)
  {
    hide ReadWord, SkipSpaces;
    GapsSkipped(gap, s);
  }

  // One word.

  lemma {:induction false} ReadBare(t: string, rest: string)
    requires forall i :: 0 <= i < |t| ==> IsPlain(t[i])
    requires EndsWord(rest)
    ensures ReadWord(t + rest, false, NUL) == Word(t, BehindWord(rest).rest, BehindWord(rest).ahead)
  {
    hide ReadWord, IsSpace, IsPlain;
    if t == [] {
      assert t + rest == rest;
      ReadEnd(rest);
    } else {
      assert t + rest == [t[0]] + (t[1..] + rest);
      ReadPlainOutside(t[0], t[1..] + rest);
      ReadBare(t[1..], rest);
    }
  }

  lemma ReadPlainOutside(c: char, more: string)
    requires IsPlain(c)
    ensures ReadWord([c] + more, false, NUL) == Keep(c, ReadWord(more, false, NUL))
  {
    SpaceIsGap(c);
    assert ([c] + more)[1..] == more;
  }

  lemma BackslashesNext(t: string, rest: string)
    ensures t == [] ==> Backslashes(t) + rest == rest
    ensures t != [] ==>
              var more := Backslashes(t[1..]) + rest;
              Backslashes(t) + rest == if IsSpecial(t[0]) then ['\\'] + ([t[0]] + more) else [t[0]] + more
  {}

  lemma {:induction false} ReadBackslashes(t: string, rest: string)
    requires Writable(t) && EndsWord(rest)
    ensures var r := ReadWord(Backslashes(t) + rest, false, NUL);
            r.text == t && r.rest == BehindWord(rest).rest && (BehindWord(rest).ahead ==> r.ahead)
  {
    hide ReadWord, IsSpace, IsSpecial, Backslashes;
    BackslashesNext(t, rest);
    if t == [] {
      ReadEnd(rest);
    } else {
      var more := Backslashes(t[1..]) + rest;
      ReadBackslashes(t[1..], rest);
      if IsSpecial(t[0]) {
        ReadBackslash(t[0], more, NUL);
      } else {
        NotSpecial(t[0]);
        ReadPlainOutside(t[0], more);
      }
      assert [t[0]] + t[1..] == t;
    }
  }

  lemma NotSpecial(c: char)
    requires !IsSpecial(c) && c != '\n'
    ensures IsPlain(c)
  {}

  /** A written word is read as the word, up to what ends it. */
  lemma {:induction false} ReadWritten(form: Form, t: string, rest: string)
    requires CanHold(form, t) && EndsWord(rest)
    ensures var r := ReadWord(Written(form, t) + rest, false, NUL);
            r.text == t && r.rest == BehindWord(rest).rest && (BehindWord(rest).ahead ==> r.ahead)
  {
    hide ReadWord, IsSpace, Quote, Backslashes, IsPlain;
    match form
    case Bare => ReadBare(t, rest);
    case Single => ReadQuoted('\'', t, rest);
    case Double => ReadQuoted('"', t, rest);
    case Backslashed => ReadBackslashes(t, rest);
  }

  lemma WrittenStarts(form: Form, t: string, rest: string)
    requires CanHold(form, t)
    ensures var s := Written(form, t) + rest;
            && s != "" && !IsSpace(s[0]) && s[0] != '#' && s[0] != '!'
            && SkipSpaces(s) == s && !EndsLine(s)
  {
    hide Escape;
    SpaceIsGap((Written(form, t) + rest)[0]);
  }

  /** The first word of a text and what is lexed behind it. */
  lemma {:induction false} LexWritten(form: Form, t: string, rest: string, max: nat)
    requires CanHold(form, t) && EndsWord(rest) && max > 0
    requires BehindWord(rest).ahead || Lex(BehindWord(rest).rest, max - 1) == []
    ensures Lex(Written(form, t) + rest, max) == [t] + Lex(BehindWord(rest).rest, max - 1)
  {
    hide ReadWord, IsSpace, Written, CanHold, Lex, BehindWord;
    ReadWritten(form, t, rest);
    WrittenStarts(form, t, rest);
    LexStep(Written(form, t) + rest, max);
  }

  // Lines.

  lemma LexEnd(tail: string, max: nat)
    requires tail == "" || tail == "\n" || tail[0] == '#' || tail[0] == '!'
    ensures Lex(tail, max) == []
  {
    if tail == "" || tail == "\n" {
      LineEnd(tail);
    }
  }

  lemma GapEnds(gap: string, s: string, max: nat)
    requires AllGaps(gap) && gap != ""
    ensures EndsWord(gap + s) && BehindWord(gap + s) == Word([], gap[1..] + s, true) && AllGaps(gap[1..])
  {
    SpaceIsGap(gap[0]);
    assert (gap + s)[0] == gap[0] && (gap + s)[1..] == gap[1..] + s;
  }

  lemma EmptyEnds(tail: string, max: nat)
    requires tail == "" || tail == "\n"
    ensures EndsWord(tail) && BehindWord(tail).rest == tail && Lex(tail, max) == []
  {
    LexEnd(tail, max);
  }

  lemma ProperTail(items: seq<Item>, tail: string)
    requires items != [] && Proper(items) && Ends(items, tail)
    ensures Proper(items[1..]) && (|items| > 1 ==> Ends(items[1..], tail))
    ensures CanHold(items[0].form, items[0].text) && AllGaps(items[0].gap)
    ensures items[0].gap == "" ==> |items| == 1 && (tail == "" || tail == "\n")
    ensures Ends([], tail)
  {
    hide CanHold, AllGaps;
    assert forall i :: 0 <= i < |items[1..]| ==> items[1..][i] == items[i + 1];
  }

  lemma NoItems()
    ensures Line([]) == "" && Texts([]) == []
  {}

  /**
   Whatever the forms of its words, the blanks around them and the comment behind them, a line is
   read back as its words, or the first `max` of them.
   */
  lemma {:induction false} FormsRoundTrip(items: seq<Item>, tail: string, max: nat)
    requires Proper(items) && Ends(items, tail)
    ensures Lex(Line(items) + tail, max) == First(max, Texts(items))
    decreases |items|
  {
    hide Lex, Written, CanHold, AllGaps, BehindWord, EndsWord, Ends, Proper, Line;
    if max == 0 {
      LexDone(Line(items) + tail, max);
    } else if items == [] {
      NoItems();
      assert Line(items) + tail == tail;
      EndsMeans(tail);
      LexEnd(tail, max);
    } else {
      var item, more := items[0], items[1..];
      var s := Line(more) + tail;
      ProperTail(items, tail);
      LineNext(items, tail);
      if item.gap == "" {
        NoItems();
        assert Line(more) + tail == tail && "" + tail == tail;
        EmptyEnds(tail, max - 1);
        LexWritten(item.form, item.text, tail, max);
        assert First(max, Texts(items)) == [item.text];
      } else {
        GapEnds(item.gap, s, max);
        LexWritten(item.form, item.text, item.gap + s, max);
        LexSkipsGaps(item.gap[1..], s, max - 1);
        if more == [] {
          NoItems();
        }
        FormsRoundTrip(more, tail, max - 1);
        FirstNext(Texts(items), max);
      }
    }
  }

  lemma LineNext(items: seq<Item>, tail: string)
    requires items != []
    ensures Line(items) + tail == Written(items[0].form, items[0].text) + (items[0].gap + (Line(items[1..]) + tail))
    ensures Texts(items) == [items[0].text] + Texts(items[1..])
  {
    hide Written;
  }

  lemma EndsMeans(tail: string)
    requires Ends([], tail)
    ensures tail == "" || tail == "\n" || tail[0] == '#' || tail[0] == '!'
  {}

  /** The same with blanks in front of the first word. */
  lemma {:induction false} LineReads(front: string, items: seq<Item>, tail: string, max: nat)
    requires AllGaps(front) && Proper(items) && Ends(items, tail)
    ensures Lex(front + (Line(items) + tail), max) == First(max, Texts(items))
  {
    hide Lex, Proper, Ends, Line, AllGaps;
    LexSkipsGaps(front, Line(items) + tail, max);
    FormsRoundTrip(items, tail, max);
  }

  lemma {:induction false} NothingEscaped(q: char, t: string)
    requires q !in t && '\\' !in t
    ensures Escape(q, t) == t
  {
    if t != "" {
      NothingEscaped(q, t[1..]);
    }
  }

  lemma LineOne(item: Item)
    ensures Line([item]) == Written(item.form, item.text) + item.gap
  {
    hide Written;
    NoItems();
    assert [item][1..] == [];
    assert item.gap + "" == item.gap;
  }

  lemma LineCons(item: Item, more: seq<Item>)
    ensures Line([item] + more) == Written(item.form, item.text) + (item.gap + Line(more))
    ensures Texts([item] + more) == [item.text] + Texts(more)
  {
    hide Written;
    assert ([item] + more)[1..] == more;
  }

  /** A name in quotes of either kind between two bare words is one word, blanks and all. */
  lemma {:induction false} QuotedName(a: string, q: char, name: string, c: string, max: nat)
    requires IsPlainWord(a) && IsPlainWord(c) && IsQuote(q) && Writable(name) && max >= 3
    requires q !in name && '\\' !in name
    ensures Lex(a + " " + [q] + name + [q] + " " + c + "\n", max) == [a, name, c]
  {
    hide Lex, IsPlainWord, Line, Texts, Proper, Ends, Writable;
    var x := Item(Bare, a, " ");
    var y := Item(if q == '"' then Double else Single, name, " ");
    var z := Item(Bare, c, "");
    var items := [x] + ([y] + [z]);
    ThreeProper(x, y, z);
    FormsRoundTrip(items, "\n", max);
    LineCons(x, [y] + [z]);
    LineCons(y, [z]);
    LineOne(z);
    OneText(z);
    NothingEscaped(q, name);
    QuotedLine(a, q, name, c);
  }

  lemma OneText(item: Item)
    ensures Texts([item]) == [item.text]
  {
    NoItems();
    assert [item][1..] == [];
  }

  lemma ThreeProper(x: Item, y: Item, z: Item)
    requires CanHold(x.form, x.text) && CanHold(y.form, y.text) && CanHold(z.form, z.text)
    requires x.gap == y.gap == " " && z.gap == ""
    ensures Proper([x] + ([y] + [z])) && Ends([x] + ([y] + [z]), "\n")
  {
    hide CanHold;
  }

  lemma QuotedLine(a: string, q: char, name: string, c: string)
    ensures a + (" " + ([q] + name + [q] + (" " + (c + "")))) + "\n" == a + " " + [q] + name + [q] + " " + c + "\n"
  {}
}
