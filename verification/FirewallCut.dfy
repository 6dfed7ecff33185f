/** When a listing outgrows the line or the token array: a flush is then never the filter it should be. */
module FirewallCut {
  import opened CText
  import opened Options
  import opened Tokens
  import opened Firewall
  import opened FirewallFlush
  import opened FirewallTheory

  lemma {:induction false} VictimsCount(host: Host, user: string, scope: Scope, rules: seq<Rule>)
    ensures |Without(host, user, scope, rules)| + |Descending(host, user, scope, rules)| == |rules|
  {
    hide Victim;
    if rules != [] {
      var n := |rules|;
      VictimsCount(host, user, scope, rules[..n - 1]);
      assert rules == rules[..n - 1] + [rules[n - 1]];
      FilterAppend(Spared(host, user, scope), rules[..n - 1], [rules[n - 1]]);
      FilterOne(Spared(host, user, scope), rules[n - 1]);
    }
  }

  // Cutting the text of a listing.

  /** The tokens are all but the last, and of the last only a beginning. */
  predicate LastCut(got: seq<string>, ts: seq<string>) {
    && ts != [] && |got| == |ts| && got[..|ts| - 1] == ts[..|ts| - 1]
    && got[|ts| - 1] != [] && got[|ts| - 1] < ts[|ts| - 1]
  }

  lemma {:induction false} RunsOfWord(t: string, delim: set<char>)
    requires Free(t, delim)
    ensures Runs(t, delim) == if t == [] then [] else [t]
  {
    if t != [] {
      RunLengthOfPrefix(t, [], delim);
      assert t + [] == t;
      assert t[..|t|] == t;
    }
  }

  lemma {:induction false} CutText(ts: seq<string>, d: char, n: nat)
    requires Plain(ts, {d}) && n + 2 <= |Terminate(ts, d)|
    ensures var got := Runs(Terminate(ts, d)[..n], {d});
            |got| < |ts| || LastCut(got, ts)
    decreases |ts|
  {
    hide Runs;
    if ts != [] {
      var t, rest := ts[0], Terminate(ts[1..], d);
      var text := Terminate(ts, d);
      assert text == t + [d] + rest;
      if n <= |t| {
        assert text[..n] == t[..n];
        RunsOfWord(t[..n], {d});
        assert |ts| == 1 ==> rest == [] && t[..n] < t;
      } else {
        var m := n - |t| - 1;
        assert text[..n] == t + [d] + rest[..m];
        RunsStep(t, d, rest[..m], {d});
        CutText(ts[1..], d, m);
        CutStep(t, Runs(rest[..m], {d}), ts[1..], ts);
      }
    }
  }

  lemma CutStep(t: string, got: seq<string>, tail: seq<string>, ts: seq<string>)
    requires ts == [t] + tail
    requires |got| < |tail| || LastCut(got, tail)
    ensures |[t] + got| < |ts| || LastCut([t] + got, ts)
  {
    if |got| == |tail| {
      var k := |tail| - 1;
      assert ([t] + got)[..k + 1] == [t] + got[..k];
      assert ts[..k + 1] == [t] + tail[..k];
    }
  }

  // A number cut short names an earlier rule.

  lemma {:induction false} ShorterIsSmaller(s: string, k: nat)
    requires AllDigits(s) && 0 < k < |s| && s[0] != '0'
    ensures 0 < NatValue(s[..k]) < NatValue(s)
    decreases |s|
  {
    var init := s[..|s| - 1];
    NonZero(s[..k]);
    NonZero(init);
    if k < |init| {
      ShorterIsSmaller(init, k);
      assert init[..k] == s[..k];
    } else {
      assert init == s[..k];
    }
  }

  lemma {:induction false} DeleteAbove(rules: seq<Rule>, numbers: seq<nat>, m: nat)
    requires m <= |rules| && forall i :: 0 <= i < |numbers| ==> numbers[i] > m
    ensures |DeleteEach(rules, numbers)| >= m && DeleteEach(rules, numbers)[..m] == rules[..m]
    decreases |numbers|
  {
    if numbers != [] {
      DeleteAbove(DeleteAt(rules, numbers[0]), numbers[1..], m);
    }
  }

  lemma {:induction false} FallingAbove(numbers: seq<nat>, top: nat, i: nat, j: nat)
    requires Falling(numbers, top) && i < j < |numbers|
    ensures 1 <= numbers[j] < numbers[i] <= top
    decreases |numbers|
  {
    if i == 0 {
      FallingMember(numbers[1..], numbers[0] - 1, j - 1);
    } else {
      FallingAbove(numbers[1..], numbers[0] - 1, i - 1, j - 1);
    }
  }

  lemma {:induction false} FallingMember(numbers: seq<nat>, top: nat, j: nat)
    requires Falling(numbers, top) && j < |numbers|
    ensures 1 <= numbers[j] <= top
    decreases |numbers|
  {
    if j > 0 {
      FallingMember(numbers[1..], numbers[0] - 1, j - 1);
    }
  }

  lemma {:induction false} DescendingVictims(host: Host, user: string, scope: Scope, rules: seq<Rule>, j: nat)
    requires j < |Descending(host, user, scope, rules)|
    ensures var m := Descending(host, user, scope, rules)[j];
            1 <= m <= |rules| && Victim(host, user, scope, rules[m - 1])
  {
    hide Victim;
    var n := |rules|;
    if Victim(host, user, scope, rules[n - 1]) {
      if j > 0 {
        DescendingVictims(host, user, scope, rules[..n - 1], j - 1);
      }
    } else {
      DescendingVictims(host, user, scope, rules[..n - 1], j);
    }
  }

  lemma {:induction false} DeleteTextsAppend(rules: seq<Rule>, a: seq<string>, b: string)
    ensures DeleteTexts(rules, a + [b]) == DeleteText(DeleteTexts(rules, a), b)
    decreases |a|
  {
    hide DeleteText;
    if a == [] {
      assert [] + [b] == [b];
      assert [b][1..] == [];
    } else {
      assert (a + [b])[1..] == a[1..] + [b];
      DeleteTextsAppend(DeleteText(rules, a[0]), a[1..], b);
    }
  }

  lemma {:induction false} CutNumber(m: nat, cut: string)
    requires cut != [] && cut < PrintNat(m)
    ensures IsNumeral(cut) && 1 <= NatValue(cut) < m
  {
    hide PrintNat, NatValue;
    var s := PrintNat(m);
    PrintIsNumeral(m);
    assert cut == s[..|cut|] && cut[0] == s[0];
    assert forall i :: 0 <= i < |cut| ==> cut[i] == s[i];
    ShorterIsSmaller(s, |cut|);
  }

  lemma {:induction false} EarlierDeleted(rules: seq<Rule>, numbers: seq<nat>, m: nat, v: nat)
    requires 1 <= v < m <= |rules| && forall i :: 0 <= i < |numbers| ==> numbers[i] > m
    ensures rules[m - 1] in DeleteAt(DeleteEach(rules, numbers), v)
  {
    hide DeleteEach;
    var before := DeleteEach(rules, numbers);
    DeleteAbove(rules, numbers, m);
    assert before[..m][m - 1] == rules[m - 1];
    assert DeleteAt(before, v)[m - 2] == before[m - 1];
  }

  /** With its number cut short, the first of the user's rules survives. */
  lemma {:induction false} CutNumberMisses(host: Host, user: string, scope: Scope, rules: seq<Rule>, got: seq<string>)
    requires LastCut(got, Numerals(Descending(host, user, scope, rules)))
    ensures exists r :: r in DeleteTexts(rules, got) && Victim(host, user, scope, r)
  {
    hide Victim, Descending, Filter, DeleteTexts, DeleteEach, DeleteAt, PrintNat, NatValue, IsNumeral, Falling;
    var numbers := Descending(host, user, scope, rules);
    var k := |numbers| - 1;
    var m, cut := numbers[k], got[k];
    DescendingVictims(host, user, scope, rules, k);
    DescendingFalls(host, user, scope, rules);
    CutNumber(m, cut);
    forall i | 0 <= i < k
      ensures numbers[i] > m
    {
      FallingAbove(numbers, |rules|, i, k);
    }
    var front := Numerals(numbers)[..k];
    assert front == Numerals(numbers[..k]);
    assert got == front + [cut];
    DeleteTextsIsEach(rules, numbers[..k]);
    DeleteTextsAppend(rules, front, cut);
    EarlierDeleted(rules, numbers[..k], m, NatValue(cut));
  }

  // A flush whose listing is cut always leaves a rule it should delete.

  function Doomed(host: Host, user: string, scope: Scope): Rule -> bool {
    r => Victim(host, user, scope, r)
  }

  lemma {:induction false} DoomedCount(host: Host, user: string, scope: Scope, rules: seq<Rule>)
    ensures |Filter(Doomed(host, user, scope), rules)| == |Descending(host, user, scope, rules)|
  {
    hide Victim;
    if rules != [] {
      var n := |rules|;
      DoomedCount(host, user, scope, rules[..n - 1]);
      assert rules == rules[..n - 1] + [rules[n - 1]];
      FilterAppend(Doomed(host, user, scope), rules[..n - 1], [rules[n - 1]]);
      FilterOne(Doomed(host, user, scope), rules[n - 1]);
    }
  }

  lemma {:induction false} DeleteTextFilter(p: Rule -> bool, rules: seq<Rule>, number: string)
    ensures |Filter(p, DeleteText(rules, number))| >= |Filter(p, rules)| - 1
  {
    hide NatValue, Filter;
    var n := if IsNumeral(number) then NatValue(number) else 0;
    if 1 <= n <= |rules| {
      var a, r, b := rules[..n - 1], rules[n - 1], rules[n..];
      assert rules == a + ([r] + b);
      FilterAppend(p, a, [r] + b);
      FilterAppend(p, [r], b);
      FilterAppend(p, a, b);
      FilterOne(p, r);
    }
  }

  lemma {:induction false} DeleteTextsFilter(p: Rule -> bool, rules: seq<Rule>, numbers: seq<string>)
    ensures |Filter(p, DeleteTexts(rules, numbers))| >= |Filter(p, rules)| - |numbers|
    decreases |numbers|
  {
    hide Filter, DeleteText;
    if numbers != [] {
      DeleteTextFilter(p, rules, numbers[0]);
      DeleteTextsFilter(p, DeleteText(rules, numbers[0]), numbers[1..]);
    }
  }

  lemma {:induction false} CutLeaves(host: Host, user: string, scope: Scope, rules: seq<Rule>)
    requires !ListingFits(host, user, scope, rules)
    ensures exists r :: r in DeleteTexts(rules, CutTokens(host, user, scope, rules)) && Victim(host, user, scope, r)
  {
    hide Victim, Descending, DeleteTexts, Filter, Numerals, Runs, Terminate;
    var got := CutTokens(host, user, scope, rules);
    var numbers := Descending(host, user, scope, rules);
    CutListing(host, user, scope, rules);
    if |got| == |numbers| {
      CutNumberMisses(host, user, scope, rules, got);
    } else {
      var p := Doomed(host, user, scope);
      var left := Filter(p, DeleteTexts(rules, got));
      DeleteTextsFilter(p, rules, got);
      DoomedCount(host, user, scope, rules);
      FilterHolds(p, DeleteTexts(rules, got));
      assert p(left[0]) && left[0] in DeleteTexts(rules, got);
    }
  }

  lemma {:induction false} CutListing(host: Host, user: string, scope: Scope, rules: seq<Rule>)
    requires !ListingFits(host, user, scope, rules)
    ensures var got, ts := CutTokens(host, user, scope, rules), Numerals(Descending(host, user, scope, rules));
            |got| < |ts| || LastCut(got, ts)
  {
    hide Victim, Descending, Runs, Terminate, Numerals;
    var numbers := Descending(host, user, scope, rules);
    var ts := Numerals(numbers);
    if |numbers| < MAXTOKENS {
      NumeralsPlain(numbers);
      CutText(ts, ' ', LINE - 1);
      assert First(LINE - 1, Terminate(ts, ' ')) == Terminate(ts, ' ')[..LINE - 1];
    }
  }

  /** A user with more than 255 rules has a listing that does not fit. */
  lemma {:induction false} LongChainCut(host: Host, user: string, scope: Scope, rules: seq<Rule>)
    requires |rules| - |Without(host, user, scope, rules)| > 255
    ensures !ListingFits(host, user, scope, rules)
  {
    VictimsCount(host, user, scope, rules);
  }

  /** Flushing deletes exactly the user's rules if and only if the listing fits. */
  lemma {:induction false} FlushIffFits(host: Host, user: string, scope: Scope, rules: seq<Rule>)
    ensures DeleteTexts(rules, CutTokens(host, user, scope, rules)) == Without(host, user, scope, rules)
            <==> ListingFits(host, user, scope, rules)
  {
    hide Victim, ListingFits, CutTokens, DeleteTexts, Filter;
    if ListingFits(host, user, scope, rules) {
      FlushIsFilter(host, user, scope, rules);
    } else {
      CutLeaves(host, user, scope, rules);
      FilterHolds(Spared(host, user, scope), rules);
    }
  }

  // The early return.

  lemma {:induction false} NothingReported(host: Host, user: string, scope: Scope, rules: seq<Rule>)
    requires !Reported(host, user, rules)
    ensures Without(host, user, scope, rules) == rules
  {
    FilterAll(Spared(host, user, scope), rules);
  }

  lemma {:induction false} NothingListed(host: Host, user: string, scope: Scope, rules: seq<Rule>)
    requires forall i :: 0 <= i < |rules| ==> !Victim(host, user, scope, rules[i])
    ensures Descending(host, user, scope, rules) == []
    decreases |rules|
  {
    hide Victim;
    if rules != [] {
      NothingListed(host, user, scope, rules[..|rules| - 1]);
    }
  }

  lemma EmptyFits(host: Host, user: string, scope: Scope, rules: seq<Rule>)
    requires Descending(host, user, scope, rules) == []
    ensures ListingFits(host, user, scope, rules)
  {
    assert Numerals([]) == [];
    EmptyTerminate(' ');
  }

  lemma {:induction false} FlushedIffFits(host: Host, user: string, scope: Scope, rules: seq<Rule>)
    ensures Flushed(host, user, scope, rules) == Without(host, user, scope, rules)
            <==> ListingFits(host, user, scope, rules)
  {
    hide CutTokens, ListingFits, Without, DeleteTexts, Descending, Selected;
    if Reported(host, user, rules) {
      FlushIffFits(host, user, scope, rules);
    } else {
      NothingReported(host, user, scope, rules);
      assert forall i :: 0 <= i < |rules| ==> !Victim(host, user, scope, rules[i]);
      NothingListed(host, user, scope, rules);
      EmptyFits(host, user, scope, rules);
    }
  }

  /** A second flush of a chain without victims finds nothing to delete. */
  lemma {:induction false} FlushedTwice(host: Host, user: string, scope: Scope, rules: seq<Rule>)
    ensures var kept := Without(host, user, scope, rules);
            Flushed(host, user, scope, kept) == kept
  {
    hide Flushed, ListingFits, Victim, Descending, Filter;
    var kept := Without(host, user, scope, rules);
    FilterHolds(Spared(host, user, scope), rules);
    NothingListed(host, user, scope, kept);
    EmptyFits(host, user, scope, kept);
    FlushedIffFits(host, user, scope, kept);
    WithoutTwice(host, user, scope, rules);
  }

  // Commands and runs.

  /** The command flushes once. */
  predicate FlushesOnce(c: Command) {
    match c
    case Disable(onlyPorts, ports, _, _) => HasPorts(ports) || ScopeOf(onlyPorts).AllRules?
    case _ => true
  }

  /** The listings are complete; of two flushes the second may make up for the first. */
  predicate Completes(host: Host, c: Command, rules: seq<Rule>) {
    if FlushesOnce(c) then CommandFits(host, c, rules)
    else
      var first := Flushed(host, c.user, TcpOnly, rules);
      && ListingFits(host, c.user, TcpOnly, first)
      && Without(host, c.user, TcpOnly, first) == Without(host, c.user, TcpOnly, rules)
  }

  lemma {:induction false} SecondFlush(host: Host, user: string, scope: Scope, rules: seq<Rule>)
    ensures var first, wanted := Flushed(host, user, scope, rules), Without(host, user, scope, rules);
            Flushed(host, user, scope, first) == wanted <==>
            ListingFits(host, user, scope, first) && Without(host, user, scope, first) == wanted
  {
    hide Victim, Filter, ListingFits, CutTokens, DeleteTexts, Selected;
    var first, wanted := Flushed(host, user, scope, rules), Without(host, user, scope, rules);
    FlushedIffFits(host, user, scope, first);
    if Flushed(host, user, scope, first) == wanted && !ListingFits(host, user, scope, first) {
      CutLeaves(host, user, scope, first);
      NotReportedFits(host, user, scope, first);
      FilterHolds(Spared(host, user, scope), rules);
      assert false;
    }
  }

  lemma {:induction false} NotReportedFits(host: Host, user: string, scope: Scope, rules: seq<Rule>)
    requires !ListingFits(host, user, scope, rules)
    ensures Reported(host, user, rules)
  {
    hide ListingFits, Selected;
    if !Reported(host, user, rules) {
      assert forall i :: 0 <= i < |rules| ==> !Victim(host, user, scope, rules[i]);
      NothingListed(host, user, scope, rules);
      EmptyFits(host, user, scope, rules);
    }
  }

  /** A command does what it is to do if and only if its listings are complete. */
  lemma {:induction false} PerformIffFits(host: Host, c: Command, rules: seq<Rule>)
    requires Routed(host, c)
    ensures Perform(host, c, rules) == Apply(host, c, rules) <==> Completes(host, c, rules)
    ensures CommandFits(host, c, rules) ==> Completes(host, c, rules)
  {
    hide Flushed, Without, ListingFits, ScopeOf, HasPorts, OwnerArg, BlockedPorts, Added;
    if c.Disable? || c.Enable? {
      var scope := ScopeOf(c.onlyPorts);
      FlushedIffFits(host, c.user, scope, rules);
      if c.Disable? {
        var kept := Flushed(host, c.user, scope, rules);
        var added := Added(OwnerArg(host, c.user), BlockedPorts(c.ports), scope, NetOf(host, c.iface));
        if FlushesOnce(c) {
          SameFront(kept, Without(host, c.user, scope, rules), added);
        } else {
          SecondFlush(host, c.user, TcpOnly, rules);
          FlushedTwice(host, c.user, TcpOnly, rules);
          FlushedIffFits(host, c.user, TcpOnly, Without(host, c.user, TcpOnly, rules));
          WithoutTwice(host, c.user, TcpOnly, rules);
          NothingAppended(c.ports, OwnerArg(host, c.user), scope, NetOf(host, c.iface));
          assert Without(host, c.user, scope, rules) + [] == Without(host, c.user, scope, rules);
        }
      }
    }
  }

  lemma SameFront(a: seq<Rule>, b: seq<Rule>, c: seq<Rule>)
    ensures a + c == b + c <==> a == b
  {
    if a + c == b + c {
      assert |a| == |b|;
      assert (a + c)[..|a|] == a && (b + c)[..|b|] == b;
    }
  }

  lemma NothingAppended(ports: string, owner: Option<nat>, scope: Scope, net: Network)
    requires !HasPorts(ports) && scope.TcpOnly?
    ensures Added(owner, BlockedPorts(ports), scope, net) == []
  {}

  /** The listings of every command of a run are complete in the state it meets. */
  predicate AllFit(host: Host, commands: seq<Command>, rules: seq<Rule>)
    requires forall i :: 0 <= i < |commands| ==> Routed(host, commands[i])
  {
    commands == [] ||
    (Completes(host, commands[0], rules) && AllFit(host, commands[1..], Apply(host, commands[0], rules)))
  }

  /** After each of the first n commands the chain is what it is to be. */
  predicate OnTrack(host: Host, commands: seq<Command>, rules: seq<Rule>)
    requires forall i :: 0 <= i < |commands| ==> Routed(host, commands[i])
  {
    forall k :: 0 <= k <= |commands| ==> PerformAll(host, commands[..k], rules) == Run(host, commands[..k], rules)
  }

  /** A run does at every point what it is to do if and only if its listings are complete. */
  lemma {:induction false} RunFits(host: Host, commands: seq<Command>, rules: seq<Rule>)
    requires forall i :: 0 <= i < |commands| ==> Routed(host, commands[i])
    ensures OnTrack(host, commands, rules) <==> AllFit(host, commands, rules)
    ensures AllFit(host, commands, rules) ==> PerformAll(host, commands, rules) == Run(host, commands, rules)
    decreases |commands|
  {
    hide Completes, Perform, Apply, Routed, OnTrack;
    if commands == [] {
      OnTrackNone(host, rules);
    } else {
      PerformIffFits(host, commands[0], rules);
      OnTrackNext(host, commands, rules);
      RunFits(host, commands[1..], Apply(host, commands[0], rules));
    }
  }

  lemma OnTrackNone(host: Host, rules: seq<Rule>)
    ensures OnTrack(host, [], rules)
  {
    var none: seq<Command> := [];
    assert none[..0] == [];
  }

  lemma PrefixNext(host: Host, commands: seq<Command>, rules: seq<Rule>, k: nat)
    requires k < |commands| && forall i :: 0 <= i < |commands| ==> Routed(host, commands[i])
    ensures var c, rest := commands[0], commands[1..][..k];
            && PerformAll(host, commands[..k + 1], rules) == PerformAll(host, rest, Perform(host, c, rules))
            && Run(host, commands[..k + 1], rules) == Run(host, rest, Apply(host, c, rules))
  {
    hide Perform, Apply, Routed;
    assert commands[..k + 1][1..] == commands[1..][..k];
  }

  lemma {:induction false} OnTrackNext(host: Host, commands: seq<Command>, rules: seq<Rule>)
    requires commands != [] && forall i :: 0 <= i < |commands| ==> Routed(host, commands[i])
    ensures OnTrack(host, commands, rules) <==>
            && Perform(host, commands[0], rules) == Apply(host, commands[0], rules)
            && OnTrack(host, commands[1..], Apply(host, commands[0], rules))
  {
    hide Perform, Apply, Routed, PerformAll, Run;
    var c, rest := commands[0], commands[1..];
    PrefixNone(host, commands, rules);
    PrefixNext(host, commands, rules, 0);
    PrefixNone(host, rest, Perform(host, c, rules));
    PrefixNone(host, rest, Apply(host, c, rules));
    if OnTrack(host, commands, rules) {
      assert Perform(host, c, rules) == Apply(host, c, rules) by {
        assert PerformAll(host, commands[..1], rules) == Run(host, commands[..1], rules);
      }
      forall k | 0 <= k <= |rest|
        ensures PerformAll(host, rest[..k], Apply(host, c, rules)) == Run(host, rest[..k], Apply(host, c, rules))
      {
        PrefixNext(host, commands, rules, k);
        assert PerformAll(host, commands[..k + 1], rules) == Run(host, commands[..k + 1], rules);
      }
    }
    if Perform(host, c, rules) == Apply(host, c, rules) && OnTrack(host, rest, Apply(host, c, rules)) {
      forall k | 0 <= k <= |commands|
        ensures PerformAll(host, commands[..k], rules) == Run(host, commands[..k], rules)
      {
        if k > 0 {
          PrefixNext(host, commands, rules, k - 1);
        }
      }
    }
  }

  lemma PrefixNone(host: Host, commands: seq<Command>, rules: seq<Rule>)
    ensures commands[..0] == [] && PerformAll(host, [], rules) == rules && Run(host, [], rules) == rules
  {}
}
