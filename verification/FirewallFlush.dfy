/** Deleting listed numbers from a chain whose numbers shift is filtering it. */
module FirewallFlush {
  import opened CText
  import opened Tokens
  import opened Firewall

  // Filters.

  lemma {:induction false} FilterAppend(p: Rule -> bool, a: seq<Rule>, b: seq<Rule>)
    ensures Filter(p, a + b) == Filter(p, a) + Filter(p, b)
  {
    if a == [] {
      assert a + b == b;
    } else {
      var head, tail := if p(a[0]) then [a[0]] else [], a[1..];
      assert (a + b)[1..] == tail + b;
      FilterAppend(p, tail, b);
      assert head + (Filter(p, tail) + Filter(p, b)) == head + Filter(p, tail) + Filter(p, b);
    }
  }

  lemma {:induction false} FilterAll(p: Rule -> bool, rules: seq<Rule>)
    requires forall i :: 0 <= i < |rules| ==> p(rules[i])
    ensures Filter(p, rules) == rules
  {
    if rules != [] {
      FilterAll(p, rules[1..]);
    }
  }

  lemma {:induction false} FilterNone(p: Rule -> bool, rules: seq<Rule>)
    requires forall i :: 0 <= i < |rules| ==> !p(rules[i])
    ensures Filter(p, rules) == []
  {
    if rules != [] {
      FilterNone(p, rules[1..]);
    }
  }

  lemma {:induction false} FilterHolds(p: Rule -> bool, rules: seq<Rule>)
    ensures forall i :: 0 <= i < |Filter(p, rules)| ==> p(Filter(p, rules)[i])
    ensures forall i :: 0 <= i < |Filter(p, rules)| ==> Filter(p, rules)[i] in rules
  {
    if rules != [] {
      FilterHolds(p, rules[1..]);
    }
  }

  lemma {:induction false} FilterKeeps(p: Rule -> bool, rules: seq<Rule>, r: Rule)
    requires r in rules && p(r)
    ensures r in Filter(p, rules)
  {
    if rules[0] != r {
      FilterKeeps(p, rules[1..], r);
    }
  }

  /** A filter that lets everything through which another one keeps does not see that one. */
  lemma {:induction false} FilterThrough(p: Rule -> bool, q: Rule -> bool, rules: seq<Rule>)
    requires forall i :: 0 <= i < |rules| && p(rules[i]) ==> q(rules[i])
    ensures Filter(p, Filter(q, rules)) == Filter(p, rules)
  {
    if rules != [] {
      var head := if q(rules[0]) then [rules[0]] else [];
      FilterThrough(p, q, rules[1..]);
      FilterAppend(p, head, Filter(q, rules[1..]));
      FilterOne(p, rules[0]);
    }
  }

  lemma FilterOne(p: Rule -> bool, r: Rule)
    ensures Filter(p, [r]) == if p(r) then [r] else []
    ensures Filter(p, []) == []
  {}

  lemma {:induction false} FilterSwap(p: Rule -> bool, q: Rule -> bool, rules: seq<Rule>)
    ensures Filter(p, Filter(q, rules)) == Filter(q, Filter(p, rules))
  {
    if rules != [] {
      var r, tail := rules[0], rules[1..];
      FilterSwap(p, q, tail);
      FilterAppend(p, if q(r) then [r] else [], Filter(q, tail));
      FilterAppend(q, if p(r) then [r] else [], Filter(p, tail));
      FilterOne(p, r);
      FilterOne(q, r);
    }
  }

  // Deleting numbers, highest first.

  function DeleteEach(rules: seq<Rule>, numbers: seq<nat>): seq<Rule> {
    if numbers == [] then rules else DeleteEach(DeleteAt(rules, numbers[0]), numbers[1..])
  }

  /** Rule numbers that fall and lie in 1..top. */
  predicate Falling(numbers: seq<nat>, top: nat) {
    numbers == [] || (1 <= numbers[0] <= top && Falling(numbers[1..], numbers[0] - 1))
  }

  lemma {:induction false} FallingBelow(numbers: seq<nat>, top: nat, higher: nat)
    requires Falling(numbers, top) && top <= higher
    ensures Falling(numbers, higher)
  {}

  lemma {:induction false} DescendingFalls(host: Host, user: string, scope: Scope, rules: seq<Rule>)
    ensures Falling(Descending(host, user, scope, rules), |rules|)
  {
    hide Victim;
    if rules != [] {
      var n := |rules|;
      var tail := Descending(host, user, scope, rules[..n - 1]);
      DescendingFalls(host, user, scope, rules[..n - 1]);
      FallingBelow(tail, n - 1, n);
      assert ([n] + tail)[1..] == tail;
      assert [] + tail == tail;
    }
  }

  /** Deletions in the front part of a chain leave the back part alone. */
  lemma {:induction false} DeleteInFront(a: seq<Rule>, b: seq<Rule>, numbers: seq<nat>)
    requires Falling(numbers, |a|)
    ensures DeleteEach(a + b, numbers) == DeleteEach(a, numbers) + b
    decreases |numbers|
  {
    if numbers != [] {
      var k := numbers[0];
      assert (a + b)[..k - 1] == a[..k - 1];
      assert (a + b)[k..] == a[k..] + b;
      assert DeleteAt(a + b, k) == DeleteAt(a, k) + b;
      FallingBelow(numbers[1..], k - 1, |a| - 1);
      DeleteInFront(DeleteAt(a, k), b, numbers[1..]);
    }
  }

  /** The heart of the flush: every listed number still names the rule it was listed for. */
  lemma {:induction false} DeleteDescending(host: Host, user: string, scope: Scope, rules: seq<Rule>)
    ensures DeleteEach(rules, Descending(host, user, scope, rules)) == Without(host, user, scope, rules)
  {
    hide Victim;
    if rules != [] {
      var n := |rules|;
      var init, last := rules[..n - 1], [rules[n - 1]];
      var numbers := Descending(host, user, scope, init);
      assert rules == init + last;
      DeleteDescending(host, user, scope, init);
      FilterAppend(Spared(host, user, scope), init, last);
      FilterOne(Spared(host, user, scope), rules[n - 1]);
      if Victim(host, user, scope, rules[n - 1]) {
        DeleteLast(init, rules[n - 1], numbers);
      } else {
        DescendingFalls(host, user, scope, init);
        DeleteInFront(init, last, numbers);
        assert [] + numbers == numbers;
      }
    }
  }

  lemma DeleteLast(init: seq<Rule>, r: Rule, numbers: seq<nat>)
    ensures DeleteEach(init + [r], [|init| + 1] + numbers) == DeleteEach(init, numbers)
  {
    var n := |init| + 1;
    assert (init + [r])[..n - 1] + (init + [r])[n..] == init;
    assert ([n] + numbers)[1..] == numbers;
  }

  // The numbers as text.

  lemma {:induction false} PrintIsNumeral(n: nat)
    ensures IsNumeral(PrintNat(n)) && NatValue(PrintNat(n)) == n
  {
    PrintNatReads(n);
    LeadingZero(n);
  }

  lemma {:induction false} LeadingZero(n: nat)
    ensures |PrintNat(n)| > 1 ==> PrintNat(n)[0] != '0'
  {
    if n >= 10 {
      assert PrintNat(n)[0] == PrintNat(n / 10)[0];
    }
  }

  lemma {:induction false} DeleteTextsIsEach(rules: seq<Rule>, numbers: seq<nat>)
    ensures DeleteTexts(rules, Numerals(numbers)) == DeleteEach(rules, numbers)
    decreases |numbers|
  {
    hide DeleteAt;
    if numbers != [] {
      PrintIsNumeral(numbers[0]);
      assert Numerals(numbers)[1..] == Numerals(numbers[1..]);
      DeleteTextsIsEach(DeleteAt(rules, numbers[0]), numbers[1..]);
    }
  }

  lemma NumeralsPlain(numbers: seq<nat>)
    ensures Plain(Numerals(numbers), {' '})
  {
    hide PrintNat;
  }

  /** A text that ends in a separator splits the same without it. */
  lemma {:induction false} SplitUnterminated(ts: seq<string>, d: char, delim: set<char>)
    requires d in delim && Plain(ts, delim) && ts != []
    ensures Runs(Terminate(ts, d)[..|Terminate(ts, d)| - 1], delim) == ts
  {
    JoinTerminate(ts, d);
    SplitJoined(ts, d, delim);
  }

  lemma {:induction false} JoinTerminate(ts: seq<string>, d: char)
    requires ts != []
    ensures Terminate(ts, d) == Join(ts, d) + [d]
  {
    if |ts| > 1 {
      JoinTerminate(ts[1..], d);
    } else {
      assert Terminate(ts[1..], d) == [];
    }
  }

  /** fgets and split give back the listed numbers when nothing is cut. */
  lemma {:induction false} ListingReads(host: Host, user: string, scope: Scope, rules: seq<Rule>)
    requires ListingFits(host, user, scope, rules)
    ensures CutTokens(host, user, scope, rules) == Numerals(Descending(host, user, scope, rules))
  {
    hide Victim, Descending, Runs, Terminate, Numerals;
    var numbers := Descending(host, user, scope, rules);
    var ts := Numerals(numbers);
    NumeralsPlain(numbers);
    SplitTerminated(ts, ' ', {' '});
    var text := Terminate(ts, ' ');
    EmptyTerminate(' ');
    if |text| == LINE {
      SplitUnterminated(ts, ' ', {' '});
      assert First(LINE - 1, text) == text[..|text| - 1];
    } else {
      assert First(LINE - 1, text) == text;
    }
  }

  lemma EmptyTerminate(d: char)
    ensures Terminate([], d) == []
  {}

  /** Listing, cutting into tokens and deleting one by one is the filter. */
  lemma {:induction false} FlushIsFilter(host: Host, user: string, scope: Scope, rules: seq<Rule>)
    requires ListingFits(host, user, scope, rules)
    ensures DeleteTexts(rules, CutTokens(host, user, scope, rules)) == Without(host, user, scope, rules)
  {
    hide *;
    ListingReads(host, user, scope, rules);
    DeleteTextsIsEach(rules, Descending(host, user, scope, rules));
    DeleteDescending(host, user, scope, rules);
  }

  /** A chain of at most 255 rules always fits. */
  lemma {:induction false} ShortChainFits(host: Host, user: string, scope: Scope, rules: seq<Rule>)
    requires |rules| <= 255
    ensures ListingFits(host, user, scope, rules)
  {
    hide Victim, Terminate, Numerals;
    DescendingFalls(host, user, scope, rules);
    FallingTextLength(Descending(host, user, scope, rules), |rules|);
  }

  lemma {:induction false} FallingTextLength(numbers: seq<nat>, top: nat)
    requires Falling(numbers, top) && top <= 255
    ensures |numbers| <= top
    ensures |Terminate(Numerals(numbers), ' ')| <= 4 * top
  {
    if numbers != [] {
      assert Pow10(3) == 1000;
      PrintNatLength(numbers[0], 3);
      FallingTextLength(numbers[1..], numbers[0] - 1);
      assert Numerals(numbers)[1..] == Numerals(numbers[1..]);
    }
  }
}
