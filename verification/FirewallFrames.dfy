/**
 What the controller does to the rules of others: nothing as long as the last number it reads
 names none of them; with a cut number it can delete one.
 */
module FirewallFrames {
  import opened CText
  import opened Tokens
  import opened Firewall
  import opened FirewallFlush
  import opened FirewallControl
  import opened FirewallTheory
  import opened FirewallCut

  // The tokens of a listing: as many as there is room for, the last one possibly cut.

  predicate Cut(got: seq<string>, ts: seq<string>) {
    && |got| <= |ts|
    && (got != [] ==>
          var k := |got| - 1;
          got[..k] == ts[..k] && got[k] != [] && got[k] <= ts[k])
  }

  lemma CutNext(t: string, got: seq<string>, ts: seq<string>)
    requires Cut(got, ts) && t != []
    ensures Cut([t] + got, [t] + ts)
  {
    if got != [] {
      var k := |got| - 1;
      assert ([t] + got)[..k + 1] == [t] + got[..k];
      assert ([t] + ts)[..k + 1] == [t] + ts[..k];
    }
  }

  lemma {:induction false} CutRuns(ts: seq<string>, d: char, n: nat)
    requires Plain(ts, {d}) && n <= |Terminate(ts, d)|
    ensures Cut(Runs(Terminate(ts, d)[..n], {d}), ts)
    decreases |ts|
  {
    hide Runs, Cut;
    if ts == [] {
      RunsOfWord([], {d});
      assert Terminate(ts, d)[..n] == [];
      assert Cut([], []) by { CutNone([]); }
    } else {
      var t, rest := ts[0], Terminate(ts[1..], d);
      var text := Terminate(ts, d);
      assert text == t + [d] + rest;
      if n <= |t| {
        assert text[..n] == t[..n];
        RunsOfWord(t[..n], {d});
        CutNone(ts);
        CutOne(t[..n], ts);
      } else {
        var m := n - |t| - 1;
        assert text[..n] == t + [d] + rest[..m];
        RunsStep(t, d, rest[..m], {d});
        CutRuns(ts[1..], d, m);
        CutNext(t, Runs(rest[..m], {d}), ts[1..]);
        assert [t] + ts[1..] == ts;
      }
    }
  }

  lemma CutNone(ts: seq<string>)
    ensures Cut([], ts)
  {}

  lemma CutOne(word: string, ts: seq<string>)
    requires ts != [] && word <= ts[0]
    ensures word != [] ==> Cut([word], ts)
  {
    assert [word][..0] == ts[..0];
  }

  lemma CutFirst(n: nat, got: seq<string>, ts: seq<string>)
    requires Cut(got, ts) && forall i :: 0 <= i < |ts| ==> ts[i] != []
    ensures Cut(First(n, got), ts)
  {
    var few := First(n, got);
    if 0 < |few| < |got| {
      var k, last := |few| - 1, |got| - 1;
      assert got[k] == got[..last][k] == ts[..last][k];
      assert few[..k] == got[..last][..k] == ts[..last][..k];
    }
  }

  lemma {:induction false} TokensCut(host: Host, user: string, scope: Scope, rules: seq<Rule>)
    ensures Cut(CutTokens(host, user, scope, rules), Numerals(Descending(host, user, scope, rules)))
  {
    hide Victim, Descending, Runs, Terminate, Numerals, Cut;
    var numbers := Descending(host, user, scope, rules);
    var ts := Numerals(numbers);
    var text := Terminate(ts, ' ');
    NumeralsPlain(numbers);
    var n := if |text| < LINE - 1 then |text| else LINE - 1;
    assert First(LINE - 1, text) == text[..n];
    CutRuns(ts, ' ', n);
    CutFirst(MAXTOKENS - 1, Runs(text[..n], {' '}), ts);
  }

  // The rule the last token names.

  /** The number the last token of a listing reads as; 0 when there is no token. */
  function LastNumber(host: Host, user: string, scope: Scope, rules: seq<Rule>): nat {
    var got := CutTokens(host, user, scope, rules);
    if got != [] && IsNumeral(got[|got| - 1]) then NatValue(got[|got| - 1]) else 0
  }

  /** The last token is what was listed, not a piece of it. */
  predicate LastWhole(host: Host, user: string, scope: Scope, rules: seq<Rule>) {
    var got := CutTokens(host, user, scope, rules);
    got != [] ==> |got| <= |Descending(host, user, scope, rules)|
                  && got[|got| - 1] == PrintNat(Descending(host, user, scope, rules)[|got| - 1])
  }

  /** What a flush makes of the listing: the whole numbers but one, then that one or a piece of it. */
  lemma {:induction false} FlushSteps(host: Host, user: string, scope: Scope, rules: seq<Rule>)
    requires CutTokens(host, user, scope, rules) != []
    ensures var numbers, k := Descending(host, user, scope, rules), |CutTokens(host, user, scope, rules)| - 1;
            var v := LastNumber(host, user, scope, rules);
            && k < |numbers| && 1 <= v <= numbers[k] <= |rules|
            && (LastWhole(host, user, scope, rules) <==> v == numbers[k])
            && DeleteTexts(rules, CutTokens(host, user, scope, rules)) == DeleteAt(DeleteEach(rules, numbers[..k]), v)
  {
    hide Victim, Descending, CutTokens, DeleteTexts, DeleteEach, DeleteAt, PrintNat, NatValue, IsNumeral, Falling;
    var got, numbers := CutTokens(host, user, scope, rules), Descending(host, user, scope, rules);
    var k := |got| - 1;
    TokensCut(host, user, scope, rules);
    DescendingVictims(host, user, scope, rules, k);
    var m, last := numbers[k], got[k];
    PrintIsNumeral(m);
    if last != PrintNat(m) {
      CutNumber(m, last);
    }
    var front := Numerals(numbers)[..k];
    assert front == Numerals(numbers[..k]);
    assert got == front + [last];
    DeleteTextsIsEach(rules, numbers[..k]);
    DeleteTextsAppend(rules, front, last);
  }

  // Filters and deletions.

  lemma {:induction false} FilterDelete(p: Rule -> bool, rules: seq<Rule>, n: nat)
    requires 1 <= n <= |rules|
    ensures p(rules[n - 1]) ==> |Filter(p, DeleteAt(rules, n))| == |Filter(p, rules)| - 1
    ensures !p(rules[n - 1]) ==> Filter(p, DeleteAt(rules, n)) == Filter(p, rules)
  {
    hide Filter;
    var a, r, b := rules[..n - 1], rules[n - 1], rules[n..];
    assert rules == a + ([r] + b);
    FilterAppend(p, a, [r] + b);
    FilterAppend(p, [r], b);
    FilterAppend(p, a, b);
    FilterOne(p, r);
    assert [] + Filter(p, b) == Filter(p, b);
  }

  /** Deleting rules a filter hides, highest first, does not show through it. */
  lemma {:induction false} FilterDeleteEach(p: Rule -> bool, rules: seq<Rule>, numbers: seq<nat>)
    requires Falling(numbers, |rules|)
    requires forall i :: 0 <= i < |numbers| ==> 1 <= numbers[i] <= |rules| && !p(rules[numbers[i] - 1])
    ensures Filter(p, DeleteEach(rules, numbers)) == Filter(p, rules)
    decreases |numbers|
  {
    hide Filter;
    if numbers != [] {
      var n, rest := numbers[0], numbers[1..];
      var next := DeleteAt(rules, n);
      FilterDelete(p, rules, n);
      forall i | 0 <= i < |rest|
        ensures 1 <= rest[i] < n && next[rest[i] - 1] == rules[rest[i] - 1]
      {
        FallingMember(rest, n - 1, i);
      }
      FallingBelow(rest, n - 1, |next|);
      FilterDeleteEach(p, next, rest);
    }
  }

  lemma {:induction false} FallingFront(numbers: seq<nat>, top: nat, k: nat)
    requires Falling(numbers, top) && k <= |numbers|
    ensures Falling(numbers[..k], top)
    decreases |numbers|
  {
    if k > 0 {
      FallingFront(numbers[1..], numbers[0] - 1, k - 1);
      assert numbers[..k][1..] == numbers[1..][..k - 1];
    }
  }

  // One flush.

  ghost predicate Hides(host: Host, user: string, p: Rule -> bool) {
    forall r: Rule :: p(r) ==> !Selected(host, user, r)
  }

  /** The flush deletes no rule that p shows. */
  predicate Misses(host: Host, user: string, scope: Scope, p: Rule -> bool, rules: seq<Rule>) {
    var v := LastNumber(host, user, scope, rules);
    Reported(host, user, rules) && 1 <= v <= |rules| ==> !p(rules[v - 1])
  }

  /** Through a filter that hides the user's rules a flush deletes at most the rule its last number names. */
  lemma {:induction false} FlushShows(host: Host, user: string, scope: Scope, p: Rule -> bool, rules: seq<Rule>)
    requires Hides(host, user, p)
    ensures Misses(host, user, scope, p, rules) ==> Filter(p, Flushed(host, user, scope, rules)) == Filter(p, rules)
    ensures !Misses(host, user, scope, p, rules) ==>
              |Filter(p, Flushed(host, user, scope, rules))| == |Filter(p, rules)| - 1
  {
    hide CutTokens, Descending, Filter, DeleteEach, DeleteAt, Falling, LastNumber, LastWhole, Selected;
    var got, numbers := CutTokens(host, user, scope, rules), Descending(host, user, scope, rules);
    if Reported(host, user, rules) {
      if got == [] {
        NoLast(host, user, scope, rules);
      } else {
        var k, v := |got| - 1, LastNumber(host, user, scope, rules);
        FlushSteps(host, user, scope, rules);
        var front := numbers[..k];
        var mid := DeleteEach(rules, front);
        FrontIsHidden(host, user, scope, p, rules, k);
        DeleteAbove(rules, front, numbers[k]);
        assert mid[v - 1] == mid[..numbers[k]][v - 1] == rules[v - 1];
        FilterDelete(p, mid, v);
      }
    }
  }

  lemma NoLast(host: Host, user: string, scope: Scope, rules: seq<Rule>)
    requires CutTokens(host, user, scope, rules) == []
    ensures LastNumber(host, user, scope, rules) == 0
    ensures DeleteTexts(rules, CutTokens(host, user, scope, rules)) == rules
  {
    hide CutTokens;
  }

  lemma {:induction false} FrontIsHidden(host: Host, user: string, scope: Scope, p: Rule -> bool, rules: seq<Rule>,
                                         k: nat)
    requires Hides(host, user, p) && k < |Descending(host, user, scope, rules)|
    ensures var numbers := Descending(host, user, scope, rules);
            && (forall i :: 0 <= i < k ==> numbers[..k][i] > numbers[k])
            && Filter(p, DeleteEach(rules, numbers[..k])) == Filter(p, rules)
  {
    hide Descending, Filter, DeleteEach, Falling, Selected;
    var numbers := Descending(host, user, scope, rules);
    DescendingFalls(host, user, scope, rules);
    FallingFront(numbers, |rules|, k);
    forall i | 0 <= i < k
      ensures numbers[i] > numbers[k] && 1 <= numbers[i] <= |rules| && !p(rules[numbers[i] - 1])
    {
      FallingAbove(numbers, |rules|, i, k);
      DescendingVictims(host, user, scope, rules, i);
    }
    FilterDeleteEach(p, rules, numbers[..k]);
  }

  function Others(host: Host, user: string): Rule -> bool {
    r => !Selected(host, user, r)
  }

  /**
   A flush leaves the rules of all others what and where they are if and only if the last number
   it reads is a whole one, or names a rule of the user all the same.
   */
  lemma {:induction false} FlushFrameIff(host: Host, user: string, scope: Scope, rules: seq<Rule>)
    ensures var v := LastNumber(host, user, scope, rules);
            Filter(Others(host, user), Flushed(host, user, scope, rules)) == Filter(Others(host, user), rules) <==>
            || !Reported(host, user, rules) || LastWhole(host, user, scope, rules)
            || (1 <= v <= |rules| && Selected(host, user, rules[v - 1]))
  {
    hide CutTokens, Descending, Filter, Flushed, LastNumber, Selected, DeleteTexts, LastWhole;
    FlushShows(host, user, scope, Others(host, user), rules);
    if CutTokens(host, user, scope, rules) == [] {
      NoLast(host, user, scope, rules);
      NoLastIsWhole(host, user, scope, rules);
    } else {
      var k := |CutTokens(host, user, scope, rules)| - 1;
      FlushSteps(host, user, scope, rules);
      DescendingVictims(host, user, scope, rules, k);
    }
  }

  lemma NoLastIsWhole(host: Host, user: string, scope: Scope, rules: seq<Rule>)
    requires CutTokens(host, user, scope, rules) == []
    ensures LastWhole(host, user, scope, rules)
  {
    hide CutTokens;
  }

  // Commands and runs.

  /** The flushes of a command delete no rule that p shows. */
  predicate CommandMisses(host: Host, c: Command, p: Rule -> bool, rules: seq<Rule>) {
    match c
    case Disable(onlyPorts, _, _, user) =>
      && Misses(host, user, ScopeOf(onlyPorts), p, rules)
      && (FlushesOnce(c) || Misses(host, user, TcpOnly, p, Flushed(host, user, TcpOnly, rules)))
    case Enable(onlyPorts, user) => Misses(host, user, ScopeOf(onlyPorts), p, rules)
    case _ => true
  }

  lemma {:induction false} PerformShows(host: Host, c: Command, p: Rule -> bool, rules: seq<Rule>)
    requires Routed(host, c)
    requires forall r: Rule :: p(r) ==> !Touches(host, c, r)
    ensures CommandMisses(host, c, p, rules) ==> Filter(p, Perform(host, c, rules)) == Filter(p, rules)
    ensures !CommandMisses(host, c, p, rules) ==> |Filter(p, Perform(host, c, rules))| < |Filter(p, rules)|
  {
    hide Filter, ScopeOf, BlockedPorts, Selected, OwnerArg, Added, Flushed, Misses, HasPorts;
    if c.Disable? || c.Enable? {
      var scope := ScopeOf(c.onlyPorts);
      assert Hides(host, c.user, p);
      FlushShows(host, c.user, scope, p, rules);
      if c.Disable? {
        var kept := Flushed(host, c.user, scope, rules);
        if FlushesOnce(c) {
          var added := Added(OwnerArg(host, c.user), BlockedPorts(c.ports), scope, NetOf(host, c.iface));
          AddedSelected(host, c.user, BlockedPorts(c.ports), scope, NetOf(host, c.iface));
          FilterAppend(p, kept, added);
          FilterNone(p, added);
          assert Filter(p, kept) + [] == Filter(p, kept);
        } else {
          FlushShows(host, c.user, TcpOnly, p, kept);
        }
      }
    }
  }

  /**
   A command does not show through a filter that hides the rules it selects, unless a cut number
   hits a rule behind it.
   */
  lemma {:induction false} PerformFrameIff(host: Host, c: Command, p: Rule -> bool, rules: seq<Rule>)
    requires Routed(host, c)
    requires forall r: Rule :: p(r) ==> !Touches(host, c, r)
    ensures Filter(p, Perform(host, c, rules)) == Filter(p, rules) <==> CommandMisses(host, c, p, rules)
  {
    hide Filter, Perform, CommandMisses, Touches;
    PerformShows(host, c, p, rules);
  }

  /** No command of a run deletes a rule that p shows. */
  predicate AllMiss(host: Host, commands: seq<Command>, p: Rule -> bool, rules: seq<Rule>)
    requires forall i :: 0 <= i < |commands| ==> Routed(host, commands[i])
  {
    commands == [] ||
    (CommandMisses(host, commands[0], p, rules) && AllMiss(host, commands[1..], p, Perform(host, commands[0], rules)))
  }

  lemma {:induction false} RunFrameOf(host: Host, commands: seq<Command>, p: Rule -> bool, rules: seq<Rule>)
    requires forall i :: 0 <= i < |commands| ==> Routed(host, commands[i])
    requires forall i :: 0 <= i < |commands| ==> forall r: Rule :: p(r) ==> !Touches(host, commands[i], r)
    ensures Filter(p, PerformAll(host, commands, rules)) == Filter(p, rules) <==> AllMiss(host, commands, p, rules)
    ensures |Filter(p, PerformAll(host, commands, rules))| <= |Filter(p, rules)|
    ensures !AllMiss(host, commands, p, rules) ==>
              |Filter(p, PerformAll(host, commands, rules))| < |Filter(p, rules)|
    decreases |commands|
  {
    hide Filter, Touches, Perform, CommandMisses;
    if commands != [] {
      PerformShows(host, commands[0], p, rules);
      RunFrameOf(host, commands[1..], p, Perform(host, commands[0], rules));
    }
  }

  /**
   Over any run of the program, the rules no named user owns stay what and where they are if and
   only if no flush on the way reads a cut number that names one of them.
   */
  lemma {:induction false} RunFrame(host: Host, commands: seq<Command>, rules: seq<Rule>)
    requires forall i :: 0 <= i < |commands| ==> Routed(host, commands[i])
    ensures var p := Untouched(host, commands);
            Filter(p, PerformAll(host, commands, rules)) == Filter(p, rules) <==> AllMiss(host, commands, p, rules)
  {
    RunFrameOf(host, commands, Untouched(host, commands), rules);
  }

  /** A command that does what it is to do hits no one else. */
  lemma {:induction false} CompleteMisses(host: Host, c: Command, p: Rule -> bool, rules: seq<Rule>)
    requires Routed(host, c) && Completes(host, c, rules)
    requires forall r: Rule :: p(r) ==> !Touches(host, c, r)
    ensures CommandMisses(host, c, p, rules)
  {
    hide Filter, Touches, Perform, Apply, Completes, CommandMisses;
    PerformIffFits(host, c, rules);
    PerformFrameIff(host, c, p, rules);
    StepFrame(host, c, p, rules);
  }

  /** With complete listings no run touches the rules of others. */
  lemma {:induction false} FitsMisses(host: Host, commands: seq<Command>, p: Rule -> bool, rules: seq<Rule>)
    requires forall i :: 0 <= i < |commands| ==> Routed(host, commands[i])
    requires forall i :: 0 <= i < |commands| ==> forall r: Rule :: p(r) ==> !Touches(host, commands[i], r)
    requires AllFit(host, commands, rules)
    ensures AllMiss(host, commands, p, rules)
    decreases |commands|
  {
    hide Filter, Touches, Perform, Apply, Completes, CommandMisses;
    if commands != [] {
      PerformIffFits(host, commands[0], rules);
      CompleteMisses(host, commands[0], p, rules);
      FitsMisses(host, commands[1..], p, Perform(host, commands[0], rules));
    }
  }

  /** Then no verdict changes on a packet whose owner none of the commands selects. */
  lemma {:induction false} OthersUnaffected(host: Host, commands: seq<Command>, rules: seq<Rule>, p: Packet)
    requires forall i :: 0 <= i < |commands| ==> Routed(host, commands[i])
    requires forall i :: 0 <= i < |commands| && (commands[i].Disable? || commands[i].Enable?) ==>
               !OwnerColumn(host, commands[i].user, p.uid)
    requires AllMiss(host, commands, Untouched(host, commands), rules)
    ensures Verdict(PerformAll(host, commands, rules), p) == Verdict(rules, p)
  {
    hide OwnerColumn, Filter, Verdict, PerformAll, AllMiss;
    var q := Untouched(host, commands);
    var after := PerformAll(host, commands, rules);
    RunFrame(host, commands, rules);
    VerdictFilter(q, rules, p);
    VerdictFilter(q, after, p);
  }

  // A cut number that hits someone else.

  /** The numbers from `top` down, n of them. */
  function CountDown(top: nat, n: nat): (r: seq<nat>)
    requires n <= top
    ensures |r| == n
    ensures forall i :: 0 <= i < n ==> r[i] == top - i
  {
    seq(n, i requires 0 <= i < n => top - i)
  }

  lemma {:induction false} DescendingBack(host: Host, user: string, scope: Scope, a: seq<Rule>, b: seq<Rule>)
    requires forall i :: 0 <= i < |a| ==> !Victim(host, user, scope, a[i])
    requires forall i :: 0 <= i < |b| ==> Victim(host, user, scope, b[i])
    ensures Descending(host, user, scope, a + b) == CountDown(|a| + |b|, |b|)
    decreases |b|
  {
    hide Victim;
    if b == [] {
      NothingListed(host, user, scope, a);
      assert a + b == a;
    } else {
      var n := |a| + |b|;
      var init := b[..|b| - 1];
      assert (a + b)[..n - 1] == a + init;
      DescendingBack(host, user, scope, a, init);
      assert CountDown(n, |b|) == [n] + CountDown(n - 1, |b| - 1);
    }
  }

  lemma {:induction false} FourDigitText(numbers: seq<nat>, d: char)
    requires forall i :: 0 <= i < |numbers| ==> 1000 <= numbers[i] < 10000
    ensures |Terminate(Numerals(numbers), d)| == 5 * |numbers|
  {
    hide PrintNat;
    if numbers != [] {
      FourLong(numbers[0]);
      assert Numerals(numbers)[1..] == Numerals(numbers[1..]);
      FourDigitText(numbers[1..], d);
    }
  }

  lemma FourLong(n: nat)
    requires 1000 <= n < 10000
    ensures |PrintNat(n)| == 4
  {
    hide *;
    FourDigits(n, [DigitChar(n / 1000), DigitChar(n / 100 % 10), DigitChar(n / 10 % 10), DigitChar(n % 10)]);
    PositivePrint(n);
  }

  lemma PositivePrint(n: nat)
    ensures PrintInt(n) == PrintNat(n)
  {}

  lemma {:induction false} TerminateMore(ts: seq<string>, t: string, d: char)
    ensures Terminate(ts + [t], d) == Terminate(ts, d) + (t + [d])
  {
    if ts == [] {
      assert [] + [t] == [t] && [t][1..] == [];
      assert t + [d] + [] == t + [d];
    } else {
      assert (ts + [t])[1..] == ts[1..] + [t];
      TerminateMore(ts[1..], t, d);
    }
  }

  lemma {:induction false} RunsFront(ts: seq<string>, x: string, d: char)
    requires Plain(ts, {d})
    ensures Runs(Terminate(ts, d) + x, {d}) == ts + Runs(x, {d})
  {
    hide Runs;
    if ts == [] {
      assert Terminate(ts, d) + x == x;
    } else {
      var rest := Terminate(ts[1..], d);
      assert Terminate(ts, d) + x == ts[0] + [d] + (rest + x);
      RunsStep(ts[0], d, rest + x, {d});
      RunsFront(ts[1..], x, d);
    }
  }

  /** 204 numbers and three digits of the 205th are what the line holds of four-digit numbers. */
  lemma {:induction false} TokensAre(host: Host, user: string, scope: Scope, rules: seq<Rule>)
    requires Descending(host, user, scope, rules) == CountDown(1204, 205)
    ensures CutTokens(host, user, scope, rules) == Numerals(CountDown(1204, 204)) + ["100"]
  {
    hide Descending, Runs, Terminate, Numerals, PrintNat;
    var front, ts := CountDown(1204, 204), Numerals(CountDown(1204, 204));
    assert CountDown(1204, 205) == front + [1000];
    assert Numerals(front + [1000]) == ts + [PrintNat(1000)];
    FourDigits(1000, "1000");
    PositivePrint(1000);
    var text := Terminate(ts, ' ');
    TerminateMore(ts, "1000", ' ');
    FourDigitText(front, ' ');
    assert First(LINE - 1, text + ("1000" + [' '])) == text + "100";
    NumeralsPlain(front);
    RunsFront(ts, "100", ' ');
    RunsOfWord("100", {' '});
  }

  lemma {:induction false} DeleteBack(rules: seq<Rule>, n: nat)
    requires n <= |rules|
    ensures DeleteEach(rules, CountDown(|rules|, n)) == rules[..|rules| - n]
    decreases n
  {
    if n > 0 {
      var k := |rules|;
      var next := rules[..k - 1];
      assert CountDown(k, n)[0] == k && CountDown(k, n)[1..] == CountDown(k - 1, n - 1);
      assert DeleteAt(rules, k) == next;
      DeleteBack(next, n - 1);
      assert next[..k - n] == rules[..k - n];
    }
  }

  lemma OneHundred()
    ensures IsNumeral("100") && NatValue("100") == 100
  {
    assert PrintNat(1) == "1" && PrintNat(10) == "10" && PrintNat(100) == "100";
    PrintIsNumeral(100);
  }

  /**
   The flush of a user who owns the rules 1000 to 1204 of a chain: the line ends within the last
   number, the user's rule 1000 survives, and rule 100, whoever owns it, is deleted instead.
   */
  lemma {:induction false} CutHits(host: Host, user: string, scope: Scope, a: seq<Rule>, b: seq<Rule>)
    requires |a| == 999 && forall i :: 0 <= i < |a| ==> !Victim(host, user, scope, a[i])
    requires |b| == 205 && forall i :: 0 <= i < |b| ==> Victim(host, user, scope, b[i])
    ensures Flushed(host, user, scope, a + b) == a[..99] + a[100..] + b[..1]
    ensures LastNumber(host, user, scope, a + b) == 100
  {
    hide Descending, CutTokens, Victim, DeleteEach, DeleteTexts, PrintNat, NatValue, IsNumeral;
    var rules, front := a + b, CountDown(1204, 204);
    DescendingBack(host, user, scope, a, b);
    TokensAre(host, user, scope, rules);
    assert Reported(host, user, rules) by {
      assert rules[999] == b[0];
      VictimSelected(host, user, scope, b[0]);
    }
    DeleteTextsAppend(rules, Numerals(front), "100");
    DeleteTextsIsEach(rules, front);
    DeleteBack(rules, 204);
    OneHundred();
    assert rules[..1000] == a + b[..1];
    assert DeleteAt(a + b[..1], 100) == a[..99] + a[100..] + b[..1];
  }

  lemma VictimSelected(host: Host, user: string, scope: Scope, r: Rule)
    requires Victim(host, user, scope, r)
    ensures Selected(host, user, r)
  {}

  /** A chain on which the flush for one user takes a rule of another. */
  lemma {:induction false} CutHitsOther()
    ensures var host := Host(map["ana" := 1001, "ben" := 1002], map[]);
            var his, hers := PortRule(1002, Ports(80, 80)), PortRule(1001, Ports(80, 80));
            var rules := seq(999, _ => his) + seq(205, _ => hers);
            && Flushed(host, "ana", AllRules, rules) == seq(998, _ => his) + [hers]
            && Filter(Others(host, "ana"), Flushed(host, "ana", AllRules, rules))
               != Filter(Others(host, "ana"), rules)
  {
    hide Filter, Flushed, PrintNat, LastNumber, CutTokens;
    var host := Host(map["ana" := 1001, "ben" := 1002], map[]);
    var his, hers := PortRule(1002, Ports(80, 80)), PortRule(1001, Ports(80, 80));
    var a, b := seq(999, _ => his), seq(205, _ => hers);
    NameIsNoNumeral(1002, "ana");
    CutHits(host, "ana", AllRules, a, b);
    assert a[..99] + a[100..] + b[..1] == seq(998, _ => his) + [hers];
    var p := Others(host, "ana");
    FlushShows(host, "ana", AllRules, p, a + b);
    assert (a + b)[99] == his && p(his);
    assert (a + b)[999] == hers;
  }

  lemma NameIsNoNumeral(n: nat, name: string)
    requires name != [] && !IsDigit(name[0])
    ensures PrintNat(n) != name
  {
    hide PrintNat;
    assert IsDigit(PrintNat(n)[0]);
  }
}
