/** What becomes of the arguments behind one that grows. */
module MixerLineTheory {
  import opened CText
  import opened LineLexer
  import opened ControlIds
  import opened MixerSet
  import opened MixerTheory
  import opened MixerLists
  import opened MixerLine

  // How an argument grows.

  lemma {:induction false} AfterBlankIsBehind(s: string)
    ensures s[|s| - |AfterBlank(s)|..] == AfterBlank(s)
  {
    if s != [] && !IsBlank(s[0]) {
      AfterBlankIsBehind(s[1..]);
      var r := AfterBlank(s[1..]);
      assert s[|s| - |r|..] == s[1..][|s| - 1 - |r|..];
    }
  }

  lemma BehindBehind(s: string, t: string, r: string)
    requires |r| <= |t| <= |s| && s[|s| - |t|..] == t && t[|t| - |r|..] == r
    ensures s[|s| - |r|..] == r
    ensures s == s[..|s| - |r|] + r
  {
    assert s[|s| - |r|..] == s[|s| - |t|..][|t| - |r|..];
  }

  lemma WordsAreInFront(text: string, sel: Selection)
    ensures var p := ChannelsMask(text, sel.mask).1; text[|text| - |p|..] == p
    ensures var q := DirMask(text, sel).1; text[|text| - |q|..] == q
  {
    hide AfterBlank, FindMask, Begins;
    AfterBlankIsBehind(text);
  }

  lemma TurnGrows(dir: Direction, side: Side, chn: nat, arg: string, off: nat, noCheck: bool)
    requires side.Valid() && chn < CHANNELS && off <= |arg|
    ensures var text := TakeTurn(dir, side, chn, arg, off, noCheck).arg; text == arg || text == arg + "%"
  {
    hide SetVolume, GetBool, SkipWord, SwitchWord, SkipForeign, StartsNumber;
  }

  lemma RoundGrows(st: State, sel: Selection, chn: nat, multi: bool, noCheck: bool)
    requires st.Valid() && chn < CHANNELS
    ensures var text := Round(st, sel, chn, multi, noCheck).arg; text == st.arg || text == st.arg + "%"
  {
    hide TakeTurn, Side.Valid;
    TurnGrows(Playback, st.elem.playback, chn, st.arg, st.off, noCheck);
  }

  /** A text and what it has become: percent signs behind it, at most n. */
  predicate GrownBy(text: string, text': string, n: nat) {
    |text| <= |text'| <= |text| + n && text' == text + Percents(|text'| - |text|)
  }

  lemma GrownMore(a: string, b: string, c: string, n: nat)
    requires b == a || b == a + "%"
    requires GrownBy(b, c, n)
    ensures GrownBy(a, c, n + 1)
  {
    if b == a + "%" {
      var k := |c| - |b|;
      assert "%" + Percents(k) == Percents(k + 1);
      assert a + "%" + Percents(k) == a + ("%" + Percents(k));
    }
  }

  lemma GrownNot(a: string, n: nat)
    ensures GrownBy(a, a, n)
  {
    assert a + Percents(0) == a;
  }

  lemma {:induction false} RoundsGrow(st: State, sel: Selection, chn: nat, multi: bool, noCheck: bool)
    requires st.Valid() && chn <= CHANNELS
    ensures GrownBy(st.arg, Rounds(st, sel, chn, multi, noCheck).arg, CHANNELS - chn)
    decreases CHANNELS - chn
  {
    hide Round, GrownBy, Elem.Valid;
    if chn == CHANNELS {
      GrownNot(st.arg, 0);
    } else {
      RoundGrows(st, sel, chn, multi, noCheck);
      var next := Round(st, sel, chn, multi, noCheck);
      if next.Stuck() {
        GrownNot(next.arg, CHANNELS - chn - 1);
      } else {
        RoundsGrow(next, sel, chn + 1, multi, noCheck);
      }
      GrownMore(st.arg, next.arg, Rounds(st, sel, chn, multi, noCheck).arg, CHANNELS - chn - 1);
    }
  }

  lemma GrownBehind(front: string, q: string, q': string, n: nat)
    requires GrownBy(q, q', n)
    ensures GrownBy(front + q, front + q', n)
  {
    assert front + (q + Percents(|q'| - |q|)) == front + q + Percents(|q'| - |q|);
  }

  /** An argument keeps its text and gains percent signs, at most one for each of the 32 channels. */
  lemma {:induction false} ArgumentGrows(ses: Session, text: string, noCheck: bool)
    requires ses.elem.Valid()
    ensures GrownBy(text, Argument(ses, text, noCheck).1, CHANNELS)
  {
    hide Rounds, ChannelsMask, DirMask, Elem.Valid, GrownBy;
    var (mask, p) := ChannelsMask(text, ses.sel.mask);
    var sel1 := ses.sel.(mask := mask);
    WordsAreInFront(text, ses.sel);
    GrownNot(text, CHANNELS);
    if p != [] {
      var (sel, q) := DirMask(p, sel1);
      WordsAreInFront(p, sel1);
      if q != [] {
        BehindBehind(text, p, q);
        var st := State(ses.elem, q, 0, ses.knowsPlayback, ses.knowsCapture, ses.done);
        RoundsGrow(st, sel, 0, ',' in q, noCheck);
        GrownBehind(text[..|text| - |q|], q, Rounds(st, sel, 0, ',' in q, noCheck).arg, CHANNELS);
      }
    }
  }

  // What is written over.

  /** The buffer after the string at a position has grown by g percent signs. */
  function GrownAt(b: seq<char>, at: nat, g: nat): (c: seq<char>)
    requires at <= |b| && StringEnd(b, at) + g < |b|
    ensures |c| == |b|
  {
    WriteString(b, at, CString(b, at) + Percents(g))
  }

  lemma GrownChars(b: seq<char>, at: nat, g: nat)
    requires at <= |b| && StringEnd(b, at) + g < |b|
    ensures var c, e := GrownAt(b, at, g), StringEnd(b, at);
            && (forall j :: e <= j < e + g ==> c[j] == '%')
            && c[e + g] == NUL && c[..e] == b[..e] && c[e + g + 1..] == b[e + g + 1..]
  {
    hide StringEnd;
    var c, e := GrownAt(b, at, g), StringEnd(b, at);
    assert c == b[..at] + (b[at..e] + Percents(g)) + [NUL] + b[e + g + 1..];
    assert c == b[..e] + Percents(g) + [NUL] + b[e + g + 1..];
    assert forall j :: 0 <= j < g ==> Percents(g)[j] == '%';
  }

  /**
   The string that starts behind the one that grows: as it was if it starts behind the new
   terminator, else only the percent signs written over it.
   */
  lemma {:induction false} NextString(b: seq<char>, at: nat, g: nat, s: nat)
    requires at <= |b| && StringEnd(b, at) + g < |b| && StringEnd(b, at) < s <= |b|
    ensures var e := StringEnd(b, at);
            CString(GrownAt(b, at, g), s) == if s > e + g then CString(b, s) else Percents(e + g - s)
  {
    hide GrownAt;
    var c, e := GrownAt(b, at, g), StringEnd(b, at);
    GrownChars(b, at, g);
    if s > e + g {
      assert c[s..] == c[e + g + 1..][s - e - g - 1..] == b[e + g + 1..][s - e - g - 1..] == b[s..];
      CStringBehind(b, c, s);
    } else {
      StringEndIs(c, s, e + g);
      assert c[s..e + g] == Percents(e + g - s);
    }
  }

  /** In a line that split_line has cut: word j after word i has grown by g percent signs. */
  lemma {:induction false} NextWord(b: seq<char>, words: seq<string>, starts: seq<nat>, bound: nat, i: nat, j: nat,
                                    g: nat)
    requires Holds(b, words, starts, bound) && i < j < |words|
    requires forall k :: 0 <= k < |words| ==> CString(b, starts[k]) == words[k]
    requires starts[i] + |words[i]| + g < |b|
    ensures StringEnd(b, starts[i]) == starts[i] + |words[i]|
    ensures CString(GrownAt(b, starts[i], g), starts[j]) ==
            if starts[j] > starts[i] + |words[i]| + g then words[j]
            else Percents(starts[i] + |words[i]| + g - starts[j])
  {
    hide GrownAt, StringEnd;
    WordsBefore(b, words, starts, bound, i, j);
    NextString(b, starts[i], g, starts[j]);
  }

  lemma {:induction false} WordsBefore(b: seq<char>, words: seq<string>, starts: seq<nat>, bound: nat, i: nat, j: nat)
    requires Holds(b, words, starts, bound) && i < j < |words|
    ensures starts[i] + |words[i]| < starts[j] <= |b|
    decreases j
  {
    if i < j - 1 {
      WordsBefore(b, words, starts, bound, i, j - 1);
    }
  }

  /**
   In a line that split_line has cut: what argument j reads after argument i, a number behind
   words, has been used by all its playback channels.
   */
  lemma {:induction false} NextArgument(ses: Session, b: seq<char>, words: seq<string>, starts: seq<nat>, bound: nat,
                                        i: nat, j: nat, d: string, noCheck: bool)
    requires ses.elem.Valid() && !ses.Stuck() && IsNumber(d)
    requires Holds(b, words, starts, bound) && i < j < |words| && starts[i] <= |b|
    requires forall k :: 0 <= k < |words| ==> CString(b, starts[k]) == words[k]
    requires var (mask, p) := ChannelsMask(words[i], ses.sel.mask);
             p != [] && DirMask(p, ses.sel.(mask := mask)).1 == d
    requires starts[i] + |Longer(ses, b, starts[i], noCheck)| < |b|
    ensures var n := PlayedFrom(Further(ses, b, starts[i], noCheck).sel, ses.elem.playback, 0);
            var end := starts[i] + |words[i]| + n;
            CString(WriteString(b, starts[i], Longer(ses, b, starts[i], noCheck)), starts[j]) ==
            if starts[j] > end then words[j] else Percents(end - starts[j])
  {
    hide Argument, ChannelsMask, DirMask, PlayedFrom, WriteString, GrownAt, StringEnd, Elem.Valid;
    ArgumentNumber(ses, words[i], d, noCheck);
    LineGrows(ses, b, starts[i], noCheck);
    StringLength(b, starts[i]);
    NextWord(b, words, starts, bound, i, j, |Longer(ses, b, starts[i], noCheck)| - |words[i]|);
  }

  // A command whose arguments do not reach each other.

  function Strings(b: seq<char>, starts: seq<nat>): (r: seq<string>)
    requires InBuffer(b, starts)
    ensures |r| == |starts|
    ensures forall i :: 0 <= i < |r| ==> r[i] == CString(b, starts[i])
  {
    seq(|starts|, i requires 0 <= i < |starts| => CString(b, starts[i]))
  }

  /** Every later argument starts behind the terminator of each earlier one, as far as that has grown. */
  predicate Spaced(ses: Session, b: seq<char>, starts: seq<nat>, noCheck: bool)
    requires ses.elem.Valid() && InBuffer(b, starts) && LineFits(ses, b, starts, noCheck)
    decreases |starts|
  {
    starts == [] || ses.Stuck() ||
    var at, text := starts[0], Longer(ses, b, starts[0], noCheck);
    && (forall i :: 1 <= i < |starts| ==> starts[i] > at + |text|)
    && Spaced(Further(ses, b, at, noCheck), WriteString(b, at, text), starts[1..], noCheck)
  }

  lemma LineGrows(ses: Session, b: seq<char>, at: nat, noCheck: bool)
    requires ses.elem.Valid() && at <= |b| && at + |Longer(ses, b, at, noCheck)| < |b|
    ensures var text, e := Longer(ses, b, at, noCheck), StringEnd(b, at);
            && e <= at + |text| <= e + CHANNELS
            && WriteString(b, at, text) == GrownAt(b, at, at + |text| - e)
  {
    hide Argument, StringEnd;
    ArgumentGrows(ses, CString(b, at), noCheck);
  }

  /** Then the command does what it would do on separate strings. */
  lemma {:induction false} LineIsArguments(ses: Session, b: seq<char>, starts: seq<nat>, noCheck: bool)
    requires ses.elem.Valid() && InBuffer(b, starts) && LineFits(ses, b, starts, noCheck)
    requires Spaced(ses, b, starts, noCheck)
    ensures LineArguments(ses, b, starts, noCheck).0 == Arguments(ses, Strings(b, starts), noCheck).0
    decreases |starts|
  {
    hide Argument, CString, StringEnd, WriteString, GrownAt, Elem.Valid;
    if starts != [] && !ses.Stuck() {
      var at, text := starts[0], Longer(ses, b, starts[0], noCheck);
      var c, next, rest := WriteString(b, at, text), Further(ses, b, at, noCheck), starts[1..];
      LineGrows(ses, b, at, noCheck);
      LineIsArguments(next, c, rest, noCheck);
      forall i | 0 <= i < |rest|
        ensures CString(c, rest[i]) == CString(b, rest[i])
      {
        assert rest[i] == starts[i + 1];
        NextString(b, at, at + |text| - StringEnd(b, at), rest[i]);
      }
      assert Strings(c, rest) == Strings(b, starts)[1..];
    }
  }

  // A command whose second argument stands right behind a number.

  lemma {:induction false} SpentHasNoWords(s: string, sel: Selection)
    requires Spent(s)
    ensures ChannelsMask(s, sel.mask) == (sel.mask, s) && DirMask(s, sel) == (sel, s)
  {
    var words := CHANNEL_WORDS;
    forall i | 0 <= i < |words|
      ensures !Begins(s, words[i].0)
    {
      SpentBegins(s, words[i].0);
    }
    NoMask(s, words);
    SpentBegins(s, "playback");
    SpentBegins(s, "capture");
  }

  lemma SpentBegins(s: string, w: string)
    requires Spent(s) && w != [] && 'a' <= w[0] <= 'z'
    ensures !Begins(s, w)
  {
    if s != "" {
      Differ(s, w, 0);
    }
  }

  lemma {:induction false} ArgumentSpent(ses: Session, text: string, noCheck: bool)
    requires ses.elem.Valid() && Spent(text)
    ensures var (after, text') := Argument(ses, text, noCheck);
            after.elem == ses.elem && after.done == ses.done && text' == text
  {
    hide Rounds, ChannelsMask, DirMask, Elem.Valid;
    SpentHasNoWords(text, ses.sel);
    assert ses.sel.(mask := ses.sel.mask) == ses.sel;
    if text != "" {
      assert text[0..] == text;
      var st := State(ses.elem, text, 0, ses.knowsPlayback, ses.knowsCapture, ses.done);
      RoundsSpent(st, ses.sel, 0, ',' in text, noCheck);
    }
  }

  /**
   Behind a number that at least one playback channel uses, an argument one blank away is lost,
   whatever it said: all that is read of it is one percent sign less than there are such channels.
   */
  lemma {:induction false} SecondLost(ses: Session, b: seq<char>, starts: seq<nat>, d: string, noCheck: bool)
    requires ses.elem.Valid() && !ses.Stuck() && |starts| == 2 && InBuffer(b, starts)
    requires LineFits(ses, b, starts, noCheck) && IsNumber(d)
    requires starts[1] == StringEnd(b, starts[0]) + 1
    requires var (mask, p) := ChannelsMask(CString(b, starts[0]), ses.sel.mask);
             p != [] && DirMask(p, ses.sel.(mask := mask)).1 == d
    requires PlayedFrom(Further(ses, b, starts[0], noCheck).sel, ses.elem.playback, 0) > 0
    ensures var next, n := Further(ses, b, starts[0], noCheck), PlayedFrom(Further(ses, b, starts[0], noCheck).sel,
                                                                           ses.elem.playback, 0);
            && CString(WriteString(b, starts[0], Longer(ses, b, starts[0], noCheck)), starts[1]) == Percents(n - 1)
            && LineArguments(ses, b, starts, noCheck).0.elem == next.elem
  {
    hide Argument, ChannelsMask, DirMask, PlayedFrom, WriteString, GrownAt, CString, StringEnd, Elem.Valid,
         LineArguments;
    var at, s := starts[0], starts[1];
    var text, text' := CString(b, at), Longer(ses, b, at, noCheck);
    var next, c := Further(ses, b, at, noCheck), WriteString(b, at, text');
    ArgumentNumber(ses, text, d, noCheck);
    LineGrows(ses, b, at, noCheck);
    StringLength(b, at);
    NextString(b, at, |text'| - |text|, s);
    ArgumentSpent(next, CString(c, s), noCheck);
    OfTwo(ses, b, starts, noCheck);
  }

  lemma StringLength(b: seq<char>, at: nat)
    requires at <= |b|
    ensures |CString(b, at)| == StringEnd(b, at) - at
  {}

  lemma OfTwo(ses: Session, b: seq<char>, starts: seq<nat>, noCheck: bool)
    requires ses.elem.Valid() && !ses.Stuck() && |starts| == 2 && InBuffer(b, starts)
    requires LineFits(ses, b, starts, noCheck)
    ensures var next := Further(ses, b, starts[0], noCheck);
            var c := WriteString(b, starts[0], Longer(ses, b, starts[0], noCheck));
            LineArguments(ses, b, starts, noCheck).0 ==
            if next.Stuck() then next else Further(next, c, starts[1], noCheck)
  {
    hide Further, Longer, WriteString, Elem.Valid, LineArguments, LineFits;
    assert starts[0..] == starts;
    LineNext(ses, b, starts, 0, noCheck);
    var next, c := Further(ses, b, starts[0], noCheck), WriteString(b, starts[0], Longer(ses, b, starts[0], noCheck));
    if next.Stuck() {
      LineStop(next, c, starts[1..], noCheck);
    } else {
      LineNext(next, c, starts, 1, noCheck);
      LineStop(Further(next, c, starts[1], noCheck), WriteString(c, starts[1], Longer(next, c, starts[1], noCheck)),
               starts[2..], noCheck);
    }
  }

  // Range, over runs of command lines.

  lemma {:induction false} LineInRange(ses: Session, b: seq<char>, starts: seq<nat>, noCheck: bool)
    requires ses.elem.Valid() && InBuffer(b, starts) && LineFits(ses, b, starts, noCheck)
    ensures var after := LineArguments(ses, b, starts, noCheck).0.elem;
            SameElemShape(ses.elem, after) && (!noCheck && ses.elem.InRange() ==> after.InRange())
    decreases |starts|
  {
    hide Argument, CString, WriteString, Elem.Valid, Elem.InRange;
    if starts != [] && !ses.Stuck() {
      var text := Longer(ses, b, starts[0], noCheck);
      ArgumentInRange(ses, CString(b, starts[0]), noCheck);
      LineInRange(Further(ses, b, starts[0], noCheck), WriteString(b, starts[0], text), starts[1..], noCheck);
    }
  }

  /** A command line: which element, the buffer, and where its arguments start. */
  datatype Line = Line(which: nat, buf: seq<char>, args: seq<nat>)
  {
    predicate Valid() {
      InBuffer(buf, args)
    }
  }

  /** Lines for elements that do not exist are refused; those that outgrow their buffer are not part of this model. */
  function RunLines(mixer: seq<Elem>, lines: seq<Line>, noCheck: bool): (r: seq<Elem>)
    requires AllValid(mixer) && forall i :: 0 <= i < |lines| ==> lines[i].Valid()
    ensures |r| == |mixer| && AllValid(r)
    decreases |lines|
  {
    if lines == [] then mixer
    else
      var c := lines[0];
      assert lines[0].Valid();
      if c.which < |mixer| && LineFits(StartSession(mixer[c.which]), c.buf, c.args, noCheck) then
        var after := LineArguments(StartSession(mixer[c.which]), c.buf, c.args, noCheck).0.elem;
        RunLines(mixer[c.which := after], lines[1..], noCheck)
      else RunLines(mixer, lines[1..], noCheck)
  }

  /** Over any run of command lines with range checking on, every level stays in its element's own range. */
  lemma {:induction false} LinesInRange(mixer: seq<Elem>, lines: seq<Line>)
    requires AllValid(mixer) && forall i :: 0 <= i < |mixer| ==> mixer[i].InRange()
    requires forall i :: 0 <= i < |lines| ==> lines[i].Valid()
    ensures var after := RunLines(mixer, lines, false);
            forall i :: 0 <= i < |mixer| ==> after[i].InRange() && SameElemShape(mixer[i], after[i])
    decreases |lines|
  {
    hide LineArguments, LineFits, Elem.InRange, Elem.Valid, InBuffer;
    if lines != [] {
      var c := lines[0];
      assert lines[0].Valid();
      if c.which < |mixer| && LineFits(StartSession(mixer[c.which]), c.buf, c.args, false) {
        LineInRange(StartSession(mixer[c.which]), c.buf, c.args, false);
        var after := LineArguments(StartSession(mixer[c.which]), c.buf, c.args, false).0.elem;
        LinesInRange(mixer[c.which := after], lines[1..]);
      } else {
        LinesInRange(mixer, lines[1..]);
      }
    }
  }
}
