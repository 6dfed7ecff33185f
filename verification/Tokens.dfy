/** Splitting a text at delimiters, as the strtok loop of `split` does it. */
module Tokens {

  /** MAXTOKENS in xmlrpc/common.h and tnc/tcos-net-controller.c; the last slot stays NULL. */
  const MAXTOKENS := 256

  function First<T>(n: nat, s: seq<T>): (r: seq<T>)
    ensures |r| == if |s| < n then |s| else n
    ensures r <= s
  {
    if |s| < n then s else s[..n]
  }

  predicate Free(s: string, delim: set<char>) {
    forall i :: 0 <= i < |s| ==> s[i] !in delim
  }

  /** Length of the delimiter-free text that s starts with. */
  function RunLength(s: string, delim: set<char>): (n: nat)
    ensures n <= |s| && Free(s[..n], delim)
    ensures n < |s| ==> s[n] in delim
    ensures s != [] && s[0] !in delim ==> n > 0
  {
    if s == [] || s[0] in delim then 0
    else
      var n := RunLength(s[1..], delim);
      assert s[..n + 1] == [s[0]] + s[1..][..n];
      n + 1
  }

  /** strtok: skip delimiters, give the run behind them, resume behind the delimiter that ends it. */
  datatype Token = NoToken | Token(text: string, rest: string)

  function Strtok(s: string, delim: set<char>): (t: Token)
    ensures t.Token? ==> |t.rest| < |s|
    decreases |s|
  {
    if s == [] then NoToken
    else if s[0] in delim then Strtok(s[1..], delim)
    else
      var n := RunLength(s, delim);
      Token(s[..n], if n < |s| then s[n + 1..] else [])
  }

  /** All tokens of a text, without a bound on their number. */
  function Runs(s: string, delim: set<char>): seq<string>
    decreases |s|
  {
    match Strtok(s, delim)
    case NoToken => []
    case Token(text, rest) => [text] + Runs(rest, delim)
  }

  /** The loop of `split`: at most 255 tokens, so the array keeps its NULL entry. */
  method Split(s: string, delim: set<char>) returns (tokens: seq<string>)
    ensures tokens == First(MAXTOKENS - 1, Runs(s, delim))
  {
    tokens := [];
    var token := Strtok(s, delim);
    while |tokens| < MAXTOKENS - 1 && token != NoToken
      invariant |tokens| <= MAXTOKENS - 1
      invariant Runs(s, delim) == tokens + (if token.NoToken? then [] else [token.text] + Runs(token.rest, delim))
      decreases MAXTOKENS - |tokens|
    {
      tokens := tokens + [token.text];
      token := Strtok(token.rest, delim);
    }
  }

  // What the tokens are, said without strtok.

  /** [b, e) is a maximal non-empty delimiter-free stretch of s. */
  ghost predicate IsRun(s: string, delim: set<char>, b: int, e: int) {
    && 0 <= b < e <= |s|
    && (forall i :: b <= i < e ==> s[i] !in delim)
    && (b == 0 || s[b - 1] in delim)
    && (e == |s| || s[e] in delim)
  }

  ghost predicate AreSpans(r: seq<(nat, nat)>, s: string) {
    forall k :: 0 <= k < |r| ==> r[k].0 <= r[k].1 <= |s|
  }

  /** The texts at some spans of s. */
  ghost function Texts(s: string, spans: seq<(nat, nat)>): (r: seq<string>)
    requires AreSpans(spans, s)
    ensures |r| == |spans|
  {
    if spans == [] then [] else [s[spans[0].0..spans[0].1]] + Texts(s, spans[1..])
  }

  /** All from i on, one strictly behind the other. */
  ghost predicate InOrder(r: seq<(nat, nat)>, i: nat) {
    r == [] || (i <= r[0].0 && InOrder(r[1..], r[0].1 + 1))
  }

  /** The first position from i on that holds a delimiter, or the end. */
  ghost function RunEnd(s: string, delim: set<char>, i: nat): (e: nat)
    requires i <= |s|
    ensures i <= e <= |s|
    ensures forall q :: i <= q < e ==> s[q] !in delim
    ensures e < |s| ==> s[e] in delim
    decreases |s| - i
  {
    if i == |s| || s[i] in delim then i else RunEnd(s, delim, i + 1)
  }

  /** Where the tokens of s[i..] lie in s. */
  ghost function Spans(s: string, delim: set<char>, i: nat): (r: seq<(nat, nat)>)
    requires i <= |s|
    ensures AreSpans(r, s)
    decreases |s| - i
  {
    if i == |s| then []
    else if s[i] in delim then Spans(s, delim, i + 1)
    else
      var e := RunEnd(s, delim, i);
      [(i, e)] + Spans(s, delim, if e < |s| then e + 1 else e)
  }

  ghost predicate AreRuns(s: string, delim: set<char>, r: seq<(nat, nat)>) {
    forall k :: 0 <= k < |r| ==> IsRun(s, delim, r[k].0, r[k].1)
  }

  /** Behind the run that starts at i and the delimiter that ends it. */
  ghost function NextStart(s: string, delim: set<char>, i: nat): (j: nat)
    requires i <= |s|
    ensures i <= j <= |s|
  {
    var e := RunEnd(s, delim, i);
    if e < |s| then e + 1 else e
  }

  lemma SpansNext(s: string, delim: set<char>, i: nat)
    requires i <= |s|
    ensures Spans(s, delim, i) ==
            if i == |s| then []
            else if s[i] in delim then Spans(s, delim, i + 1)
            else [(i, RunEnd(s, delim, i))] + Spans(s, delim, NextStart(s, delim, i))
  {
    hide RunEnd;
  }

  lemma RunAt(s: string, delim: set<char>, i: nat)
    requires i < |s| && s[i] !in delim && (i == 0 || s[i - 1] in delim)
    ensures IsRun(s, delim, i, RunEnd(s, delim, i))
    ensures var j := NextStart(s, delim, i);
            i < j && (j == |s| || s[j - 1] in delim) && (j == RunEnd(s, delim, i) + 1 || j == |s|)
  {
    assert RunEnd(s, delim, i) != i;
  }

  lemma ConsRun(s: string, delim: set<char>, b: nat, e: nat, tail: seq<(nat, nat)>, j: nat)
    requires IsRun(s, delim, b, e) && AreRuns(s, delim, tail) && InOrder(tail, j)
    requires j == e + 1 || tail == []
    ensures AreRuns(s, delim, [(b, e)] + tail) && InOrder([(b, e)] + tail, b)
  {
    hide IsRun;
    assert ([(b, e)] + tail)[1..] == tail;
  }

  lemma OrderFrom(r: seq<(nat, nat)>, i: nat, j: nat)
    requires InOrder(r, j) && i <= j
    ensures InOrder(r, i)
  {}

  lemma NoSpans(s: string, delim: set<char>)
    ensures Spans(s, delim, |s|) == []
    ensures AreRuns(s, delim, []) && InOrder([], |s|)
  {}

  lemma {:induction false} SpansAreRuns(s: string, delim: set<char>, i: nat)
    requires i <= |s|
    requires i == 0 || i == |s| || s[i - 1] in delim
    ensures AreRuns(s, delim, Spans(s, delim, i)) && InOrder(Spans(s, delim, i), i)
    decreases |s| - i
  {
    hide *;
    NoSpans(s, delim);
    SpansNext(s, delim, i);
    if i < |s| {
      if s[i] in delim {
        SpansAreRuns(s, delim, i + 1);
        OrderFrom(Spans(s, delim, i + 1), i, i + 1);
      } else {
        var e, j := RunEnd(s, delim, i), NextStart(s, delim, i);
        RunAt(s, delim, i);
        SpansAreRuns(s, delim, j);
        ConsRun(s, delim, i, e, Spans(s, delim, j), j);
      }
    }
  }

  lemma {:induction false} RunsAreSpans(s: string, delim: set<char>, i: nat, b: nat, e: nat)
    requires i <= b && IsRun(s, delim, b, e)
    requires i == 0 || s[i - 1] in delim
    ensures (b, e) in Spans(s, delim, i)
    decreases |s| - i
  {
    if s[i] in delim {
      RunsAreSpans(s, delim, i + 1, b, e);
    } else {
      var f := RunEnd(s, delim, i);
      if b == i {
        assert f == e;
        assert Spans(s, delim, i)[0] == (b, e);
      } else {
        assert f < b;
        RunsAreSpans(s, delim, f + 1, b, e);
      }
    }
  }

  lemma {:induction false} RunLengthAt(s: string, delim: set<char>, i: nat)
    requires i <= |s|
    ensures RunLength(s[i..], delim) == RunEnd(s, delim, i) - i
    decreases |s| - i
  {
    if i < |s| && s[i] !in delim {
      RunLengthAt(s, delim, i + 1);
      assert s[i..][1..] == s[i + 1..];
    }
  }

  lemma RunsHead(s: string, delim: set<char>, i: nat)
    requires i < |s| && s[i] !in delim
    ensures Runs(s[i..], delim) == [s[i..RunEnd(s, delim, i)]] + Runs(s[NextStart(s, delim, i)..], delim)
  {
    hide RunLength, RunEnd;
    var t := s[i..];
    RunLengthAt(s, delim, i);
    var e := RunEnd(s, delim, i);
    assert t[..e - i] == s[i..e];
    assert s[|s|..] == [];
    assert e < |s| ==> t[e - i + 1..] == s[e + 1..];
    assert Strtok(t, delim) == Token(s[i..e], s[NextStart(s, delim, i)..]);
  }

  lemma RunsSkip(s: string, delim: set<char>, i: nat)
    requires i < |s| && s[i] in delim
    ensures Runs(s[i..], delim) == Runs(s[i + 1..], delim)
  {
    assert s[i..][1..] == s[i + 1..];
  }

  lemma TextsCons(s: string, b: nat, e: nat, tail: seq<(nat, nat)>)
    requires b <= e <= |s| && AreSpans(tail, s)
    ensures AreSpans([(b, e)] + tail, s)
    ensures Texts(s, [(b, e)] + tail) == [s[b..e]] + Texts(s, tail)
  {
    assert ([(b, e)] + tail)[1..] == tail;
  }

  lemma NoTexts(s: string, delim: set<char>)
    ensures AreSpans([], s) && Texts(s, []) == []
    ensures Runs([], delim) == []
  {}

  lemma {:induction false} RunsAtSpans(s: string, delim: set<char>, i: nat)
    requires i <= |s|
    ensures Texts(s, Spans(s, delim, i)) == Runs(s[i..], delim)
    decreases |s| - i
  {
    hide Runs, RunEnd, Spans, Texts, NextStart, AreSpans;
    SpansNext(s, delim, i);
    if i == |s| {
      NoTexts(s, delim);
      assert s[i..] == [];
    } else if s[i] in delim {
      RunsSkip(s, delim, i);
      RunsAtSpans(s, delim, i + 1);
    } else {
      RunsHead(s, delim, i);
      var j := NextStart(s, delim, i);
      RunsAtSpans(s, delim, j);
      TextsCons(s, i, RunEnd(s, delim, i), Spans(s, delim, j));
    }
  }

  /** The tokens are exactly the maximal non-empty delimiter-free runs, from left to right. */
  lemma {:induction false} RunsExact(s: string, delim: set<char>)
    ensures forall b: nat, e: nat :: (b, e) in Spans(s, delim, 0) <==> IsRun(s, delim, b, e)
    ensures InOrder(Spans(s, delim, 0), 0)
    ensures Runs(s, delim) == Texts(s, Spans(s, delim, 0))
  {
    SpansAreRuns(s, delim, 0);
    forall b: nat, e: nat | IsRun(s, delim, b, e)
      ensures (b, e) in Spans(s, delim, 0)
    {
      RunsAreSpans(s, delim, 0, b, e);
    }
    assert s[0..] == s;
    RunsAtSpans(s, delim, 0);
  }

  // Joining and splitting again.

  function Join(ts: seq<string>, d: char): string {
    if ts == [] then [] else if |ts| == 1 then ts[0] else ts[0] + [d] + Join(ts[1..], d)
  }

  /** Every token followed by the separator, as `tr` leaves a listing. */
  function Terminate(ts: seq<string>, d: char): string {
    if ts == [] then [] else ts[0] + [d] + Terminate(ts[1..], d)
  }

  predicate Plain(ts: seq<string>, delim: set<char>) {
    forall i :: 0 <= i < |ts| ==> ts[i] != [] && Free(ts[i], delim)
  }

  lemma {:induction false} RunLengthOfPrefix(t: string, rest: string, delim: set<char>)
    requires Free(t, delim)
    requires rest == [] || rest[0] in delim
    ensures RunLength(t + rest, delim) == |t|
  {
    if t != [] {
      assert (t + rest)[1..] == t[1..] + rest;
      RunLengthOfPrefix(t[1..], rest, delim);
    } else {
      assert t + rest == rest;
    }
  }

  lemma {:induction false} RunsStep(t: string, d: char, rest: string, delim: set<char>)
    requires t != [] && Free(t, delim) && d in delim
    ensures Runs(t + [d] + rest, delim) == [t] + Runs(rest, delim)
  {
    RunLengthOfPrefix(t, [d] + rest, delim);
    var s := t + [d] + rest;
    assert s == t + ([d] + rest);
    assert s[0] == t[0];
    assert s[..|t|] == t && s[|t| + 1..] == rest;
  }

  /** Splitting a joined list of non-empty delimiter-free tokens gives the list back. */
  lemma {:induction false} SplitJoined(ts: seq<string>, d: char, delim: set<char>)
    requires d in delim && Plain(ts, delim)
    ensures Runs(Join(ts, d), delim) == ts
  {
    if ts == [] {
    } else if |ts| == 1 {
      RunLengthOfPrefix(ts[0], [], delim);
      assert ts[0] + [] == ts[0];
    } else {
      SplitJoined(ts[1..], d, delim);
      RunsStep(ts[0], d, Join(ts[1..], d), delim);
    }
  }

  lemma {:induction false} SplitTerminated(ts: seq<string>, d: char, delim: set<char>)
    requires d in delim && Plain(ts, delim)
    ensures Runs(Terminate(ts, d), delim) == ts
  {
    if ts != [] {
      SplitTerminated(ts[1..], d, delim);
      RunsStep(ts[0], d, Terminate(ts[1..], d), delim);
    }
  }
}
