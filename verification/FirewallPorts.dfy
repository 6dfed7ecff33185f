/** Which ports the controller blocks, and when a forbidden one slips through its check. */
module FirewallPorts {
  import opened CText
  import opened Options
  import opened Tokens
  import opened Firewall
  import opened FirewallFlush
  import opened FirewallControl

  predicate IsBlockable(port: int) {
    1 <= port <= 65535 && port !in FORBIDDEN
  }

  /** Every port of the range may be blocked. */
  predicate IsSafe(ports: Ports) {
    forall port :: ports.first <= port <= ports.last ==> IsBlockable(port)
  }

  predicate PortSafe(r: Rule) {
    r.tagged && r.dport.Some? ==> IsSafe(r.dport.value)
  }

  predicate PortsSafe(rules: seq<Rule>) {
    forall i :: 0 <= i < |rules| ==> PortSafe(rules[i])
  }

  // What the check lets through.

  /** The check reads a text with atoi: of what iptables takes, that is the first port. */
  lemma {:induction false} DportIsAtoi(port: string)
    requires Dport(port).Some?
    ensures Atoi(port) == Dport(port).value.first
  {
    hide Strtol;
    var n := Before(port, ':');
    var d, rest := port[..n], port[n..];
    assert port == d + rest;
    if n == 0 {
      NoNumber(port);
    } else {
      assert n == |port| ==> d == port;
      StrtolDigits(d, rest);
    }
  }

  lemma NoNumber(s: string)
    requires s == "" || s[0] == ':'
    ensures Strtol(s) == Scan(0, s)
  {}

  /** What gets through the check: its first port may be blocked. */
  predicate IsAccepted(ports: Ports) {
    IsBlockable(ports.first) && ports.first <= ports.last <= 65535
  }

  lemma DportInOrder(port: string)
    requires Dport(port).Some?
    ensures Dport(port).value.first <= Dport(port).value.last <= 65535
    ensures ':' !in port ==> Dport(port).value.first == Dport(port).value.last
  {}

  lemma {:induction false} AcceptedRanges(tokens: seq<string>)
    ensures forall i :: 0 <= i < |AcceptedPorts(tokens)| ==> IsAccepted(AcceptedPorts(tokens)[i])
  {
    hide Atoi, Dport;
    if tokens != [] {
      AcceptedRanges(tokens[1..]);
      if Dport(tokens[0]).Some? {
        DportIsAtoi(tokens[0]);
        DportInOrder(tokens[0]);
      }
    }
  }

  /** Given no ranges, only ports that may be blocked are. */
  lemma {:induction false} AcceptedBlockable(tokens: seq<string>)
    requires forall i :: 0 <= i < |tokens| ==> ':' !in tokens[i]
    ensures forall i :: 0 <= i < |AcceptedPorts(tokens)| ==> IsSafe(AcceptedPorts(tokens)[i])
  {
    hide Atoi, Dport;
    if tokens != [] {
      AcceptedBlockable(tokens[1..]);
      if Dport(tokens[0]).Some? {
        DportIsAtoi(tokens[0]);
        DportInOrder(tokens[0]);
      }
    }
  }

  /** A range that gets through is safe if and only if it meets neither of the forbidden ports. */
  lemma AcceptedSafeIff(ports: Ports)
    requires IsAccepted(ports)
    ensures IsSafe(ports) <==> !Covers(ports, 8998) && !Covers(ports, 8999)
  {
    if Covers(ports, 8998) {
      assert !IsBlockable(8998);
    }
    if Covers(ports, 8999) {
      assert !IsBlockable(8999);
    }
  }

  /** No text whose first port may be blocked is left out. */
  lemma {:induction false} AcceptedComplete(tokens: seq<string>, i: nat)
    requires i < |tokens| && Dport(tokens[i]).Some? && IsBlockable(Dport(tokens[i]).value.first)
    ensures Dport(tokens[i]).value in AcceptedPorts(tokens)
  {
    hide Atoi, Dport;
    if i == 0 {
      DportIsAtoi(tokens[0]);
    } else {
      AcceptedComplete(tokens[1..], i - 1);
    }
  }

  /** The order of the ports is the order in which they are given. */
  lemma {:induction false} AcceptedInOrder(a: seq<string>, b: seq<string>)
    ensures AcceptedPorts(a + b) == AcceptedPorts(a) + AcceptedPorts(b)
  {
    hide PortAllowed, Dport;
    if a == [] {
      assert a + b == b;
    } else {
      assert (a + b)[1..] == a[1..] + b;
      AcceptedInOrder(a[1..], b);
    }
  }

  /** One input: the check reads 80 and lets 80:9000 through, which blocks both forbidden ports. */
  lemma {:induction false} RangeSlips()
    ensures PortAllowed("80:9000") && AcceptedPorts(["80:9000"]) == [Ports(80, 9000)]
    ensures !IsSafe(Ports(80, 9000)) && Covers(Ports(80, 9000), 8998) && Covers(Ports(80, 9000), 8999)
  {
    hide Atoi, Dport;
    RangeReads();
    DportIsAtoi("80:9000");
    AcceptedSafeIff(Ports(80, 9000));
    assert AcceptedPorts(["80:9000"][1..]) == [];
  }

  lemma {:induction false} BeforeDigits(d: string, rest: string)
    requires AllDigits(d) && rest != "" && rest[0] == ':'
    ensures Before(d + rest, ':') == |d|
  {
    if d == "" {
      assert d + rest == rest;
    } else {
      assert (d + rest)[1..] == d[1..] + rest;
      BeforeDigits(d[1..], rest);
    }
  }

  lemma PrintReads(n: nat)
    requires n <= 65535
    ensures PortNumber(PrintNat(n)) == Some(n)
  {
    PrintIsNumeral(n);
  }

  /** What iptables makes of two numbers with a colon between them, or of one with the colon in front or behind. */
  lemma {:induction false} RangeText(a: nat, b: nat)
    requires a <= 65535 && b <= 65535
    ensures Dport(PrintNat(a) + ":" + PrintNat(b)) == if a <= b then Some(Ports(a, b)) else None
    ensures Dport(PrintNat(a) + ":") == Some(Ports(a, 65535))
    ensures Dport(":" + PrintNat(b)) == Some(Ports(0, b))
  {
    hide PrintNat, NatValue, PortNumber;
    var c, d := PrintNat(a), PrintNat(b);
    var s := c + ":" + d;
    PrintReads(a);
    PrintReads(b);
    BeforeDigits(c, ":" + d);
    assert s == c + (":" + d);
    assert s[..|c|] == c && s[|c| + 1..] == d;
    BeforeDigits(c, ":");
    assert (c + ":")[..|c|] == c;
    assert Before(":" + d, ':') == 0 && (":" + d)[1..] == d;
  }

  lemma RangeReads()
    ensures Dport("80:9000") == Some(Ports(80, 9000))
  {
    hide Dport;
    RangeText(80, 9000);
    assert PrintNat(80) == "80" by { assert PrintNat(8) == "8"; }
    FourDigits(9000, "9000");
    assert PrintInt(9000) == PrintNat(9000);
    assert "80" + ":" + "9000" == "80:9000";
  }

  // Runs.

  lemma {:induction false} DeleteTextsSubset(rules: seq<Rule>, numbers: seq<string>)
    requires PortsSafe(rules)
    ensures PortsSafe(DeleteTexts(rules, numbers))
    decreases |numbers|
  {
    hide PortSafe;
    if numbers != [] {
      DeleteTextsSubset(DeleteText(rules, numbers[0]), numbers[1..]);
    }
  }

  lemma FlushedPortsSafe(host: Host, user: string, scope: Scope, rules: seq<Rule>)
    requires PortsSafe(rules)
    ensures PortsSafe(Flushed(host, user, scope, rules))
  {
    hide PortsSafe, CutTokens, DeleteTexts;
    DeleteTextsSubset(rules, CutTokens(host, user, scope, rules));
  }

  /** No range the command gets through the check meets a forbidden port. */
  predicate CommandSafe(host: Host, c: Command) {
    c.Disable? && OwnerArg(host, c.user).Some? ==>
      forall i :: 0 <= i < |BlockedPorts(c.ports)| ==>
        !Covers(BlockedPorts(c.ports)[i], 8998) && !Covers(BlockedPorts(c.ports)[i], 8999)
  }

  lemma {:induction false} AddedPortsSafe(host: Host, c: Command, scope: Scope, net: Network)
    requires c.Disable?
    ensures PortsSafe(Added(OwnerArg(host, c.user), BlockedPorts(c.ports), scope, net)) <==> CommandSafe(host, c)
  {
    hide HasPorts, PortTokens, AcceptedPorts, OwnerArg, IsSafe, IsAccepted;
    AcceptedRanges(PortTokens(c.ports));
    var owner, list := OwnerArg(host, c.user), BlockedPorts(c.ports);
    var added := Added(owner, list, scope, net);
    forall i | 0 <= i < |list|
      ensures IsSafe(list[i]) <==> !Covers(list[i], 8998) && !Covers(list[i], 8999)
      ensures owner.Some? ==> i < |added| && added[i] == PortRule(owner.value, list[i])
    {
      AcceptedSafeIff(list[i]);
    }
    if !CommandSafe(host, c) {
      var i :| 0 <= i < |list| && !(!Covers(list[i], 8998) && !Covers(list[i], 8999));
      assert !PortSafe(added[i]);
    }
  }

  lemma {:induction false} PerformPortsSafe(host: Host, c: Command, rules: seq<Rule>)
    requires Routed(host, c) && PortsSafe(rules)
    ensures PortsSafe(Perform(host, c, rules)) <==> CommandSafe(host, c)
  {
    hide Flushed, Added, PortSafe, AcceptedPorts, OwnerArg, HasPorts, ScopeOf;
    if c.Disable? || c.Enable? {
      var scope := ScopeOf(c.onlyPorts);
      FlushedPortsSafe(host, c.user, scope, rules);
      if c.Disable? {
        var kept := Flushed(host, c.user, scope, rules);
        FlushedPortsSafe(host, c.user, scope, kept);
        AddedPortsSafe(host, c, scope, NetOf(host, c.iface));
        JoinedSafe(kept, Added(OwnerArg(host, c.user), BlockedPorts(c.ports), scope, NetOf(host, c.iface)));
      }
    }
  }

  lemma JoinedSafe(a: seq<Rule>, b: seq<Rule>)
    ensures PortsSafe(a + b) <==> PortsSafe(a) && PortsSafe(b)
  {
    hide PortSafe;
    if PortsSafe(a + b) {
      assert forall i :: 0 <= i < |a| ==> (a + b)[i] == a[i];
      assert forall i :: 0 <= i < |b| ==> (a + b)[|a| + i] == b[i];
    }
  }

  /** After each of the commands no tagged rule blocks a port it must not. */
  predicate SafeThroughout(host: Host, commands: seq<Command>, rules: seq<Rule>)
    requires forall i :: 0 <= i < |commands| ==> Routed(host, commands[i])
  {
    forall k :: 0 <= k <= |commands| ==> PortsSafe(PerformAll(host, commands[..k], rules))
  }

  lemma {:induction false} PrefixSafe(host: Host, commands: seq<Command>, rules: seq<Rule>, k: nat)
    requires k <= |commands| && PortsSafe(rules)
    requires forall i :: 0 <= i < |commands| ==> Routed(host, commands[i])
    requires forall i :: 0 <= i < k ==> CommandSafe(host, commands[i])
    ensures PortsSafe(PerformAll(host, commands[..k], rules))
  {
    hide Perform, PortsSafe, Routed, CommandSafe, PerformAll;
    if k == 0 {
      PerformNone(host, rules);
    } else {
      PrefixSafe(host, commands, rules, k - 1);
      PerformLast(host, commands[..k], rules);
      assert commands[..k][..k - 1] == commands[..k - 1];
      PerformPortsSafe(host, commands[k - 1], PerformAll(host, commands[..k - 1], rules));
    }
  }

  /**
   From a chain where every tagged rule blocks ports in 1..65535 other than 8998 and 8999, every
   chain of a run is one, whatever the listings, if and only if no command gets a range with
   one of the two through the check.
   */
  lemma {:induction false} RunPortsSafe(host: Host, commands: seq<Command>, rules: seq<Rule>)
    requires forall i :: 0 <= i < |commands| ==> Routed(host, commands[i])
    requires PortsSafe(rules)
    ensures SafeThroughout(host, commands, rules) <==>
            forall i :: 0 <= i < |commands| ==> CommandSafe(host, commands[i])
  {
    hide Perform, PortsSafe, Routed, CommandSafe, PerformAll;
    if SafeThroughout(host, commands, rules) {
      forall i | 0 <= i < |commands|
        ensures CommandSafe(host, commands[i])
      {
        PerformLast(host, commands[..i + 1], rules);
        assert commands[..i + 1][..i] == commands[..i];
        PerformPortsSafe(host, commands[i], PerformAll(host, commands[..i], rules));
      }
    }
    if forall i :: 0 <= i < |commands| ==> CommandSafe(host, commands[i]) {
      forall k | 0 <= k <= |commands|
        ensures PortsSafe(PerformAll(host, commands[..k], rules))
      {
        PrefixSafe(host, commands, rules, k);
      }
    }
  }
}
