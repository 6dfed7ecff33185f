/** The command lexer of the mixer's stdin mode: words, quotes, escapes and comments, all in one buffer. */
module LineLexer {
  import opened CText

  /**
   One word: its characters, the text behind it, and whether the reader consumed something it
   did not copy (a quote, a backslash, the blank that ended the word).
   */
  datatype Word = Word(text: string, rest: string, ahead: bool)

  function Keep(c: char, w: Word): Word {
    Word([c] + w.text, w.rest, w.ahead)
  }

  function Skip(w: Word): Word {
    Word(w.text, w.rest, true)
  }

  /** The rest of a word; `quote` is NUL outside quotes. */
  function ReadWord(s: string, esc: bool, quote: char): (w: Word)
    ensures |w.rest| <= |s|
  {
    if s == [] || s[0] == '\n' then Word([], s, false)
    else if esc then Keep(s[0], ReadWord(s[1..], false, quote))
    else if IsSpace(s[0]) && quote == NUL then Word([], s[1..], true)
    else if s[0] == '\\' then Skip(ReadWord(s[1..], true, quote))
    else if s[0] == '\'' || s[0] == '"' then
      if quote == NUL then Skip(ReadWord(s[1..], false, s[0]))
      else if s[0] == quote then Skip(ReadWord(s[1..], false, NUL))
      else Keep(s[0], ReadWord(s[1..], false, quote))
    else Keep(s[0], ReadWord(s[1..], false, quote))
  }

  predicate EndsLine(t: string) {
    t == [] || t[0] == '#' || t[0] == '!'
  }

  /**
   The words of a text, at most `max`. Of a word that was copied in place up to a newline, the
   terminator falls on that newline and ends the line; otherwise the newline is one more blank.
   */
  function Lex(s: string, max: nat): seq<string>
    decreases max
  {
    var t := SkipSpaces(s);
    if max == 0 || EndsLine(t) then []
    else
      var w := ReadWord(t, false, NUL);
      [w.text] + if w.ahead then Lex(w.rest, max - 1) else []
  }

  // Strings in a buffer.

  /** Where the string that starts at i ends. */
  function StringEnd(b: seq<char>, i: nat): (e: nat)
    requires i <= |b|
    ensures i <= e <= |b|
    ensures forall k :: i <= k < e ==> b[k] != NUL
    ensures e < |b| ==> b[e] == NUL
    decreases |b| - i
  {
    if i == |b| || b[i] == NUL then i else StringEnd(b, i + 1)
  }

  /** The C string at position i. */
  function CString(b: seq<char>, i: nat): string
    requires i <= |b|
  {
    b[i..StringEnd(b, i)]
  }

  lemma CStringNext(b: seq<char>, i: nat)
    requires i < |b|
    ensures b[i] == NUL ==> CString(b, i) == []
    ensures b[i] != NUL ==> CString(b, i) != [] && CString(b, i)[0] == b[i] && CString(b, i)[1..] == CString(b, i + 1)
  {}

  /** The end of a string is where its first NUL is. */
  lemma {:induction false} StringEndIs(b: seq<char>, i: nat, e: nat)
    requires i <= e < |b| && b[e] == NUL && forall k :: i <= k < e ==> b[k] != NUL
    ensures StringEnd(b, i) == e
    decreases e - i
  {
    if i < e {
      StringEndIs(b, i + 1, e);
    }
  }

  /** Strings behind a store do not see it. */
  lemma {:induction false} CStringBehind(b: seq<char>, c: seq<char>, i: nat)
    requires |b| == |c| && i <= |b| && b[i..] == c[i..]
    ensures CString(b, i) == CString(c, i)
  {
    StringEndBehind(b, c, i);
    var e := StringEnd(b, i);
    assert forall k :: i <= k < |b| ==> b[k] == b[i..][k - i] == c[i..][k - i] == c[k];
  }

  lemma {:induction false} StringEndBehind(b: seq<char>, c: seq<char>, i: nat)
    requires |b| == |c| && i <= |b| && b[i..] == c[i..]
    ensures StringEnd(b, i) == StringEnd(c, i)
    decreases |b| - i
  {
    if i < |b| {
      assert b[i] == b[i..][0] && c[i] == c[i..][0];
      assert b[i + 1..] == b[i..][1..] && c[i + 1..] == c[i..][1..];
      StringEndBehind(b, c, i + 1);
    }
  }

  /** The words found so far: ordered, disjoint regions of the buffer, each with its NUL. */
  ghost predicate Holds(b: seq<char>, words: seq<string>, starts: seq<nat>, bound: nat) {
    && |words| == |starts|
    && (forall k :: 0 <= k < |words| ==>
          && starts[k] + |words[k]| < bound <= |b|
          && b[starts[k]..starts[k] + |words[k]|] == words[k]
          && b[starts[k] + |words[k]|] == NUL)
    && (forall k :: 0 <= k < |words| - 1 ==> starts[k] + |words[k]| < starts[k + 1])
  }

  lemma HoldsFront(b: seq<char>, c: seq<char>, words: seq<string>, starts: seq<nat>, bound: nat)
    requires Holds(b, words, starts, bound) && |b| == |c| && bound <= |b| && b[..bound] == c[..bound]
    ensures Holds(c, words, starts, bound)
  {
    assert forall m :: 0 <= m < bound ==> b[m] == b[..bound][m] == c[..bound][m] == c[m];
    forall k | 0 <= k < |words|
      ensures c[starts[k]..starts[k] + |words[k]|] == words[k]
    {
      assert c[starts[k]..starts[k] + |words[k]|] == b[starts[k]..starts[k] + |words[k]|];
    }
  }

  lemma HoldsAnd(b: seq<char>, words: seq<string>, starts: seq<nat>, bound: nat, word: string, start: nat, next: nat)
    requires Holds(b, words, starts, bound) && bound <= start && start + |word| < next <= |b|
    requires b[start..start + |word|] == word && b[start + |word|] == NUL
    ensures Holds(b, words + [word], starts + [start], next)
  {}

  // The pieces of split_line.

  /** while (isspace(*buf)) buf++; */
  method SkipBlank(buf: array<char>, at: nat) returns (cur: nat)
    requires at < buf.Length && StringEnd(buf[..], at) < buf.Length
    ensures at <= cur <= StringEnd(buf[..], at) && StringEnd(buf[..], cur) == StringEnd(buf[..], at)
    ensures CString(buf[..], cur) == SkipSpaces(CString(buf[..], at))
  {
    cur := at;
    ghost var b := buf[..];
    while IsSpace(buf[cur])
      invariant at <= cur <= StringEnd(b, at) && b == buf[..]
      invariant StringEnd(b, cur) == StringEnd(b, at)
      invariant SkipSpaces(CString(b, cur)) == SkipSpaces(CString(b, at))
      decreases buf.Length - cur
    {
      CStringNext(b, cur);
      cur := cur + 1;
    }
    CStringNext(b, cur);
  }

  /** The reader's part of a word that is partly copied. */
  function Copied(text: string, ahead: bool, w: Word): Word {
    Word(text + w.text, w.rest, ahead || w.ahead)
  }

  /** What one round of the copying loop does with the character under the reader. */
  datatype Move = Stop | Pass(esc: bool, quote: char) | Copy(quote: char)

  function MoveOf(c: char, esc: bool, quote: char): Move {
    if esc then Copy(quote)
    else if IsSpace(c) && quote == NUL then Stop
    else if c == '\\' then Pass(true, quote)
    else if c == '\'' || c == '"' then
      if quote == NUL then Pass(false, c)
      else if c == quote then Pass(false, NUL)
      else Copy(quote)
    else Copy(quote)
  }

  lemma Advance(all: Word, text: string, ahead: bool, s: string, esc: bool, quote: char)
    requires s != [] && s[0] != '\n'
    requires all == Copied(text, ahead, ReadWord(s, esc, quote))
    ensures match MoveOf(s[0], esc, quote)
            case Stop => all == Word(text, s[1..], true)
            case Pass(e, q) => all == Copied(text, true, ReadWord(s[1..], e, q))
            case Copy(q) => all == Copied(text + [s[0]], ahead, ReadWord(s[1..], false, q))
  {
    hide IsSpace;
    if MoveOf(s[0], esc, quote).Copy? {
      var w := ReadWord(s[1..], false, quote);
      assert text + ([s[0]] + w.text) == (text + [s[0]]) + w.text;
    } else {
      assert text + [] == text;
    }
  }

  lemma AtEnd(all: Word, text: string, ahead: bool, s: string, esc: bool, quote: char)
    requires s == [] || s[0] == '\n'
    requires all == Copied(text, ahead, ReadWord(s, esc, quote))
    ensures all == Word(text, s, ahead)
  {
    assert text + [] == text;
  }

  lemma AtStart(s: string)
    ensures var w := ReadWord(s, false, NUL);
            w == Copied([], false, w)
  {}

  /** Storing at or in front of the reader leaves the text behind the reader and in front of the word alone. */
  lemma StoreBack(b: seq<char>, c: seq<char>, start: nat, dst: nat, cur: nat)
    requires start <= dst <= cur < |b| && c == b[dst := b[cur]]
    ensures c[..start] == b[..start] && c[cur + 1..] == b[cur..][1..]
    ensures c[start..dst + 1] == b[start..dst] + [b[cur]]
  {}

  lemma EndNext(b: seq<char>, i: nat)
    requires i < |b| && b[i] != NUL
    ensures StringEnd(b, i + 1) == StringEnd(b, i)
  {}

  /** The loop that reads a word and writes it back over itself. */
  method CopyWord(buf: array<char>, start: nat) returns (cur: nat, dst: nat)
    requires start < buf.Length && StringEnd(buf[..], start) < buf.Length
    modifies buf
    ensures start <= dst <= cur <= old(StringEnd(buf[..], start))
    ensures var w := ReadWord(old(CString(buf[..], start)), false, NUL);
            && buf[start..dst] == w.text && old(CString(buf[..], cur)) == w.rest
            && (dst == cur <==> !w.ahead)
    ensures buf[..start] == old(buf[..start]) && buf[cur..] == old(buf[cur..])
    ensures old(StringEnd(buf[..], cur)) == old(StringEnd(buf[..], start))
  {
    hide ReadWord, CString, StringEnd, Copied, IsSpace;
    ghost var b := buf[..];
    ghost var all := ReadWord(CString(b, start), false, NUL);
    ghost var stop := StringEnd(b, start);
    cur, dst := start, start;
    var esc, quote := false, NUL;
    ghost var ahead := false;
    AtStart(CString(b, start));
    assert buf[start..start] == [];
    while buf[cur] != NUL && buf[cur] != '\n'
      invariant start <= dst <= cur <= stop < buf.Length == |b| && StringEnd(b, cur) == stop
      invariant buf[..start] == b[..start] && buf[cur..] == b[cur..]
      invariant all == Copied(buf[start..dst], ahead, ReadWord(CString(b, cur), esc, quote))
      invariant dst == cur <==> !ahead
      decreases buf.Length - cur
    {
      var c := buf[cur];
      assert c == buf[cur..][0] == b[cur];
      CStringNext(b, cur);
      EndNext(b, cur);
      Advance(all, buf[start..dst], ahead, CString(b, cur), esc, quote);
      assert buf[cur + 1..] == buf[cur..][1..] == b[cur..][1..] == b[cur + 1..];
      if esc {
        esc := false;
      } else if IsSpace(c) && quote == NUL {
        cur := cur + 1;
        return;
      } else if c == '\\' {
        esc, ahead := true, true;
        cur := cur + 1;
        continue;
      } else if c == '\'' || c == '"' {
        if quote == NUL {
          quote, ahead := c, true;
          cur := cur + 1;
          continue;
        } else if c == quote {
          quote, ahead := NUL, true;
          cur := cur + 1;
          continue;
        }
      }
      ghost var before := buf[..];
      StoreBack(before, before[dst := c], start, dst, cur);
      buf[dst] := c;
      assert buf[..] == before[dst := c];
      dst, cur := dst + 1, cur + 1;
    }
    assert buf[cur] == buf[cur..][0] == b[cur];
    CStringNext(b, cur);
    AtEnd(all, buf[start..dst], ahead, CString(b, cur), esc, quote);
  }

  lemma LexStep(s: string, max: nat)
    requires max > 0 && !EndsLine(SkipSpaces(s))
    ensures var w := ReadWord(SkipSpaces(s), false, NUL);
            Lex(s, max) == [w.text] + if w.ahead then Lex(w.rest, max - 1) else []
  {}

  lemma LexDone(s: string, max: nat)
    requires max == 0 || EndsLine(SkipSpaces(s))
    ensures Lex(s, max) == []
  {}

  lemma LexEmpty(max: nat)
    ensures Lex([], max) == []
  {}

  /** Terminating a word: in front of the reader nothing changes, under it the text ends. */
  lemma Terminated(b: seq<char>, c: seq<char>, dst: nat, cur: nat, stop: nat)
    requires dst <= cur <= stop < |b| && c == b[dst := NUL]
    requires StringEnd(b, cur) == stop
    ensures dst < cur ==> CString(c, cur) == CString(b, cur) && StringEnd(c, cur) == stop
    ensures dst == cur ==> CString(c, cur) == [] && StringEnd(c, cur) == cur
    ensures c[stop + 1..] == b[stop + 1..]
  {
    if dst < cur {
      assert b[cur..] == c[cur..];
      CStringBehind(b, c, cur);
      StringEndBehind(b, c, cur);
    }
  }

  lemma WordStored(b: seq<char>, c: seq<char>, words: seq<string>, starts: seq<nat>, bound: nat, start: nat, dst: nat)
    requires Holds(b, words, starts, bound) && bound <= start <= dst < |b| == |c|
    requires c[..start] == b[..start] && c[dst] == NUL
    ensures Holds(c, words + [c[start..dst]], starts + [start], dst + 1)
  {
    assert b[..bound] == b[..start][..bound] && c[..bound] == c[..start][..bound];
    HoldsFront(b, c, words, starts, bound);
    HoldsAnd(c, words, starts, bound, c[start..dst], start, dst + 1);
  }

  predicate NulFree(s: string) {
    forall i :: 0 <= i < |s| ==> s[i] != NUL
  }

  lemma {:induction false} WordNulFree(s: string, esc: bool, quote: char)
    requires NulFree(s)
    ensures NulFree(ReadWord(s, esc, quote).text) && NulFree(ReadWord(s, esc, quote).rest)
  {
    if s != [] && s[0] != '\n' {
      WordNulFree(s[1..], false, quote);
      WordNulFree(s[1..], true, quote);
      WordNulFree(s[1..], false, s[0]);
      WordNulFree(s[1..], false, NUL);
    }
  }

  lemma {:induction false} SkipNulFree(s: string)
    requires NulFree(s)
    ensures NulFree(SkipSpaces(s))
  {
    if s != [] && IsSpace(s[0]) {
      SkipNulFree(s[1..]);
    }
  }

  lemma {:induction false} LexNulFree(s: string, max: nat)
    requires NulFree(s)
    ensures forall k :: 0 <= k < |Lex(s, max)| ==> NulFree(Lex(s, max)[k])
    decreases max
  {
    hide ReadWord, SkipSpaces;
    SkipNulFree(s);
    var t := SkipSpaces(s);
    if max > 0 && !EndsLine(t) {
      WordNulFree(t, false, NUL);
      LexNulFree(ReadWord(t, false, NUL).rest, max - 1);
    }
  }

  /** A word in the buffer is what a reader of the C string at its start sees. */
  lemma {:induction false} HoldsStrings(b: seq<char>, words: seq<string>, starts: seq<nat>, bound: nat)
    requires Holds(b, words, starts, bound)
    requires forall k :: 0 <= k < |words| ==> NulFree(words[k])
    ensures forall k :: 0 <= k < |words| ==> CString(b, starts[k]) == words[k]
  {
    forall k | 0 <= k < |words|
      ensures CString(b, starts[k]) == words[k]
    {
      var i, e := starts[k], starts[k] + |words[k]|;
      assert forall j :: i <= j < e ==> b[j] == b[i..e][j - i];
      StringEndIs(b, i, e);
    }
  }

  /** Read one word and terminate it; what the line still holds is then the string at `cur`. */
  method PutWord(buf: array<char>, start: nat, ghost stop: nat) returns (cur: nat, ghost dst: nat)
    requires start < buf.Length && StringEnd(buf[..], start) <= stop < buf.Length
    modifies buf
    ensures start <= dst <= cur <= stop && (dst < cur || CString(buf[..], cur) == [])
    ensures var w := ReadWord(old(CString(buf[..], start)), false, NUL);
            buf[start..dst] == w.text && CString(buf[..], cur) == if w.ahead then w.rest else []
    ensures buf[dst] == NUL && StringEnd(buf[..], cur) <= stop
    ensures buf[..start] == old(buf[..start]) && buf[stop + 1..] == old(buf[stop + 1..])
  {
    hide *;
    ghost var b := buf[..];
    var at;
    cur, at := CopyWord(buf, start);
    dst := at;
    ghost var c := buf[..];
    CStringBehind(b, c, cur);
    StringEndBehind(b, c, cur);
    Terminated(c, c[at := NUL], at, cur, StringEnd(b, start));
    assert b[stop + 1..] == b[cur..][stop + 1 - cur..] == c[cur..][stop + 1 - cur..] == c[stop + 1..];
    buf[at] := NUL;
    assert buf[..] == c[at := NUL];
    assert buf[start..at] == c[start..at] && buf[..start] == c[..start];
  }

  /**
   split_line: cut the string in `buf` into words where it stands and put their positions into
   `token`. The words are those of the pure lexer on the text the buffer held before.
   */
  method SplitLine(buf: array<char>, token: array<nat>, maxToken: nat) returns (n: nat)
    requires buf.Length > 0 && StringEnd(buf[..], 0) < buf.Length
    requires maxToken <= token.Length
    modifies buf, token
    ensures var words := Lex(old(CString(buf[..], 0)), maxToken);
            && n == |words| <= maxToken
            && Holds(buf[..], words, token[..n], old(StringEnd(buf[..], 0)) + 1)
            && forall k :: 0 <= k < n ==> CString(buf[..], token[k]) == words[k]
    ensures var end := old(StringEnd(buf[..], 0)); buf[end + 1..] == old(buf[end + 1..])
  {
    hide *;
    ghost var text, stop := CString(buf[..], 0), StringEnd(buf[..], 0);
    ghost var goal := Lex(text, maxToken);
    ghost var words: seq<string>, bound := [], 0;
    var cur := 0;
    n := 0;
    TextNulFree(buf[..], 0);
    LexNulFree(text, maxToken);
    HoldsNothing(buf[..]);
    ghost var behind := buf[stop + 1..];
    while n < maxToken
      invariant n <= maxToken && cur <= stop < buf.Length && StringEnd(buf[..], cur) <= stop
      invariant n == |words| && Holds(buf[..], words, token[..n], bound) && bound <= stop + 1
      invariant bound <= cur || CString(buf[..], cur) == []
      invariant goal == words + Lex(CString(buf[..], cur), maxToken - n)
      invariant buf[stop + 1..] == behind
    {
      ghost var before := CString(buf[..], cur);
      cur := SkipBlank(buf, cur);
      CStringNext(buf[..], cur);
      SkipEmpty();
      if buf[cur] == NUL || buf[cur] == '\n' || buf[cur] == '#' || buf[cur] == '!' {
        Finish(buf[..], goal, words, token[..n], bound, stop + 1, before, maxToken - n);
        return;
      }
      NotEnd(CString(buf[..], cur));
      LexStep(before, maxToken - n);
      LexEmpty(maxToken - n - 1);
      ghost var b, starts := buf[..], token[..n];
      var start := cur;
      token[n] := start;
      assert token[..n + 1] == starts + [start];
      ghost var dst;
      cur, dst := PutWord(buf, start, stop);
      ghost var word := buf[start..dst];
      WordStored(b, buf[..], words, starts, bound, start, dst);
      OneMore(words, word, Lex(CString(buf[..], cur), maxToken - n - 1));
      words := words + [word];
      bound := dst + 1;
      n := n + 1;
    }
    Finish(buf[..], goal, words, token[..n], bound, stop + 1, CString(buf[..], cur), 0);
  }

  lemma OneMore(words: seq<string>, word: string, more: seq<string>)
    ensures words + ([word] + more) == (words + [word]) + more
  {}

  lemma TextNulFree(b: seq<char>, i: nat)
    requires i <= |b|
    ensures NulFree(CString(b, i))
  {}

  lemma HoldsNothing(b: seq<char>)
    ensures Holds(b, [], [], 0)
  {}

  lemma SkipEmpty()
    ensures SkipSpaces([]) == []
  {}

  lemma NotEnd(t: string)
    requires t != [] && t[0] != '#' && t[0] != '!'
    ensures !EndsLine(t)
  {}

  /** Nothing more to read: the words so far are all. */
  lemma Finish(b: seq<char>, goal: seq<string>, words: seq<string>, starts: seq<nat>, bound: nat, end: nat,
               before: string, left: nat)
    requires Holds(b, words, starts, bound) && bound <= end <= |b|
    requires left == 0 || SkipSpaces(before) == [] || SkipSpaces(before)[0] in {'#', '!', '\n'}
    requires goal == words + Lex(before, left)
    requires forall k :: 0 <= k < |goal| ==> NulFree(goal[k])
    ensures goal == words
    ensures Holds(b, words, starts, end)
    ensures forall k :: 0 <= k < |words| ==> CString(b, starts[k]) == words[k]
  {
    hide CString;
    LexDone(before, left);
    assert words + [] == words;
    HoldsStrings(b, words, starts, bound);
  }
}
