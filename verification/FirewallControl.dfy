/** The controller itself: it edits the chain in place, one iptables call at a time. */
module FirewallControl {
  import opened CText
  import opened Options
  import opened Tokens
  import opened Firewall
  import opened FirewallFlush

  const BLACKLIST_PORTS := "8998,8999"

  function CountSelected(host: Host, user: string, rules: seq<Rule>): nat {
    if rules == [] then 0
    else (if Selected(host, user, rules[0]) then 1 else 0) + CountSelected(host, user, rules[1..])
  }

  lemma {:induction false} CountReports(host: Host, user: string, rules: seq<Rule>)
    ensures CountSelected(host, user, rules) == 0 <==> !Reported(host, user, rules)
  {
    hide Selected;
    if rules != [] {
      CountReports(host, user, rules[1..]);
      assert forall i :: 1 <= i < |rules| ==> rules[i] == rules[1..][i - 1];
    }
  }

  lemma ZeroText(n: nat)
    ensures PrintNat(n) == "0" <==> n == 0
  {
    assert PrintNat(0) == "0";
    if PrintNat(n) == "0" {
      PrintNatInjective(n, 0);
    }
  }

  lemma BlacklistTokens()
    ensures Runs(BLACKLIST_PORTS, {','}) == ["8998", "8999"]
  {
    hide Runs;
    var ts := ["8998", "8999"];
    assert Join(ts[1..], ',') == "8999";
    assert Join(ts, ',') == BLACKLIST_PORTS;
    SplitJoined(ts, ',', {','});
  }

  lemma BlacklistNumbers()
    ensures Atoi("8998") == 8998 && Atoi("8999") == 8999
  {
    hide Atoi, PrintInt;
    FourDigits(8998, "8998");
    FourDigits(8999, "8999");
    AtoiPrinted(8998, "");
    AtoiPrinted(8999, "");
    assert "8998" + "" == "8998" && "8999" + "" == "8999";
  }

  lemma FourDigits(n: nat, s: string)
    requires 1000 <= n < 10000
    requires s == [DigitChar(n / 1000), DigitChar(n / 100 % 10), DigitChar(n / 10 % 10), DigitChar(n % 10)]
    ensures PrintInt(n) == s
  {
    assert PrintNat(n / 1000) == [DigitChar(n / 1000)];
    assert n / 100 / 10 == n / 1000 && n / 10 / 10 == n / 100;
    assert PrintNat(n / 100) == PrintNat(n / 1000) + [DigitChar(n / 100 % 10)];
    assert PrintNat(n / 10) == PrintNat(n / 100) + [DigitChar(n / 10 % 10)];
  }

  /** check_port: 0 for a port that may be blocked, 1 for one that may not. */
  method CheckPort(port: string) returns (i: int)
    ensures i == 0 <==> PortAllowed(port)
    ensures i == 0 || i == 1
  {
    hide Atoi, PortAllowed, Runs, First;
    PortMeans(port);
    if Atoi(port) > 65535 || Atoi(port) < 1 {
      return 1;
    }
    i := 0;
    var tokens := Split(BLACKLIST_PORTS, {','});
    BlacklistTokens();
    BlacklistNumbers();
    FirstShort(tokens, Runs(BLACKLIST_PORTS, {','}));
    for j := 0 to |tokens|
      invariant i == 0 || i == 1
      invariant i == 0 <==> forall k :: 0 <= k < j ==> Atoi(port) != Atoi(tokens[k])
    {
      if Atoi(port) == Atoi(tokens[j]) {
        i := 1;
      }
    }
    assert tokens[0] == "8998" && tokens[1] == "8999";
  }

  lemma PortMeans(port: string)
    ensures PortAllowed(port) <==> 1 <= Atoi(port) <= 65535 && Atoi(port) != 8998 && Atoi(port) != 8999
  {
    hide Atoi;
  }

  lemma FirstShort(got: seq<string>, all: seq<string>)
    requires got == First(MAXTOKENS - 1, all) && |all| < MAXTOKENS
    ensures got == all
  {}

  lemma AcceptedStep(owner: Option<nat>, tokens: seq<string>, j: nat)
    requires j < |tokens|
    ensures Added(owner, AcceptedPorts(tokens[j..]), TcpOnly, LOOPBACK) ==
            (if owner.Some? && PortAllowed(tokens[j]) && Dport(tokens[j]).Some?
             then [PortRule(owner.value, Dport(tokens[j]).value)] else [])
            + Added(owner, AcceptedPorts(tokens[j + 1..]), TcpOnly, LOOPBACK)
  {
    hide PortAllowed, Dport;
    assert tokens[j..][1..] == tokens[j + 1..];
  }

  lemma NothingAccepted(owner: Option<nat>)
    ensures Added(owner, [], TcpOnly, LOOPBACK) == []
    ensures AcceptedPorts([]) == []
  {}

  lemma AddedBoth(owner: Option<nat>, ports: seq<Ports>, net: Network)
    requires owner.Some?
    ensures Added(owner, ports, TcpOnly, LOOPBACK) + NetRules(owner.value, net) == Added(owner, ports, AllRules, net)
    ensures Added(owner, ports, TcpOnly, net) == Added(owner, ports, TcpOnly, LOOPBACK)
  {}

  lemma PortTokensAre(arg: string)
    requires HasPorts(arg)
    ensures |arg| >= 8 && BlockedPorts(arg) == AcceptedPorts(First(MAXTOKENS - 1, Runs(arg[8..], {','})))
  {
    hide Runs;
    ContainsLength(arg, "--ports=");
  }

  /** Exit code and printed answer of a command that is permitted. */
  function Outcome(host: Host, c: Command, reply: string, rules: seq<Rule>): (int, string) {
    (if c.Other? then 1 else 0, if c.Foreign? then reply else Answer(host, c, rules))
  }

  /** Exit code, answer and chain after a permitted call with these arguments. */
  function Effect(host: Host, argv: seq<string>, reply: string, rules: seq<Rule>): (int, string, seq<Rule>)
    requires |argv| >= 2 && Routed(host, ParseCommand(argv))
  {
    var c := ParseCommand(argv);
    (Outcome(host, c, reply, rules).0, Outcome(host, c, reply, rules).1, Perform(host, c, rules))
  }

  class OutputChain {
    const host: Host
    var rules: seq<Rule>

    constructor (host: Host, rules: seq<Rule>)
      ensures this.host == host && this.rules == rules
    {
      this.host, this.rules := host, rules;
    }

    /** iptables -A OUTPUT */
    method Append(r: Rule)
      modifies this
      ensures rules == old(rules) + [r]
    {
      rules := rules + [r];
    }

    /** iptables -D OUTPUT number */
    method Delete(number: string)
      modifies this
      ensures rules == DeleteText(old(rules), number)
    {
      if IsNumeral(number) {
        var n := NatValue(number);
        if 1 <= n <= |rules| {
          rules := rules[..n - 1] + rules[n..];
        }
      }
    }

    /** status_iptables_user: 1 when the user has a tagged rule. */
    method StatusUser(user: string) returns (i: int)
      ensures i == if Reported(host, user, rules) then 1 else 0
    {
      hide *;
      var line := PrintNat(CountSelected(host, user, rules));
      ZeroText(CountSelected(host, user, rules));
      CountReports(host, user, rules);
      if line != "0" {
        return 1;
      }
      return 0;
    }

    /** flush_iptables_user: delete the listed rules one at a time. */
    method FlushUser(user: string, onlyPorts: string) returns (i: int)
      modifies this
      ensures i == 1
      ensures rules == Flushed(host, user, ScopeOf(onlyPorts), old(rules))
    {
      hide ScopeOf, Reported, First, ListingText, DeleteTexts, DeleteText, Runs;
      var scope := ScopeOf(onlyPorts);
      i := StatusUser(user);
      if i == 0 {
        return 1;
      }
      var line := First(LINE - 1, ListingText(host, user, scope, rules));
      var tokens := Split(line, {' '});
      ghost var listed := rules;
      assert tokens[0..] == tokens;
      for k := 0 to |tokens|
        invariant DeleteTexts(rules, tokens[k..]) == DeleteTexts(listed, tokens)
      {
        DeleteNext(rules, tokens, k);
        Delete(tokens[k]);
      }
      DeleteNone(rules);
      assert tokens[|tokens|..] == [];
      i := 1;
    }

    /** One blocked port; iptables refuses an unknown user or an unreadable port. */
    method AppendPort(user: string, port: string)
      modifies this
      ensures rules == old(rules)
                       + if OwnerArg(host, user).Some? && Dport(port).Some?
                         then [PortRule(OwnerArg(host, user).value, Dport(port).value)] else []
    {
      if OwnerArg(host, user).Some? && Dport(port).Some? {
        Append(PortRule(OwnerArg(host, user).value, Dport(port).value));
      }
    }

    /** The two rules that confine a user to the local network. */
    method AppendNetwork(user: string, net: Network)
      modifies this
      ensures rules == old(rules)
                       + if OwnerArg(host, user).Some? then NetRules(OwnerArg(host, user).value, net) else []
    {
      if OwnerArg(host, user).Some? {
        var confine := NetRules(OwnerArg(host, user).value, net);
        Append(confine[0]);
        Append(confine[1]);
      }
    }

    /** The port loop of add_iptables_user. */
    method AppendPorts(user: string, tokens: seq<string>)
      modifies this
      ensures rules == old(rules) + Added(OwnerArg(host, user), AcceptedPorts(tokens), TcpOnly, LOOPBACK)
    {
      hide *;
      ghost var owner := OwnerArg(host, user);
      ghost var goal := rules + Added(owner, AcceptedPorts(tokens), TcpOnly, LOOPBACK);
      assert tokens[0..] == tokens;
      for j := 0 to |tokens|
        invariant rules + Added(owner, AcceptedPorts(tokens[j..]), TcpOnly, LOOPBACK) == goal
      {
        AcceptedStep(owner, tokens, j);
        var check := CheckPort(tokens[j]);
        if check == 0 {
          AppendPort(user, tokens[j]);
        }
      }
      assert tokens[|tokens|..] == [];
      NothingAccepted(owner);
    }

    /** add_iptables_user with args[2..6]: flush, then append. */
    method AddUser(onlyPorts: string, ports: string, iface: string, user: string) returns (i: int)
      requires Routed(host, Disable(onlyPorts, ports, iface, user))
      modifies this
      ensures i == if HasPorts(ports) || ScopeOf(onlyPorts).AllRules? then 1 else 0
      ensures rules == Flushed(host, user, ScopeOf(onlyPorts), old(rules))
                       + Added(OwnerArg(host, user), BlockedPorts(ports), ScopeOf(onlyPorts), NetOf(host, iface))
    {
      hide Flushed, OwnerArg, AcceptedPorts, Runs, ScopeOf, Contains, Added, NetRules, PortTokens;
      i := FlushUser(user, onlyPorts);
      i := 0;
      var scope := ScopeOf(onlyPorts);
      ghost var base, owner := rules, OwnerArg(host, user);
      NothingAccepted(owner);
      OwnerRefused(owner, BlockedPorts(ports), scope, NetOf(host, iface));
      OwnerRefused(owner, BlockedPorts(ports), TcpOnly, LOOPBACK);
      assert scope == AllRules || scope == TcpOnly;
      if HasPorts(ports) {
        PortTokensAre(ports);
        var tokens := Split(ports[8..], {','});
        AppendPorts(user, tokens);
        i := 1;
      }
      ghost var blocks := Added(owner, BlockedPorts(ports), TcpOnly, LOOPBACK);
      assert rules == base + blocks;
      if scope == AllRules {
        AppendNetwork(user, NetOf(host, iface));
        i := 1;
      }
      if owner.Some? {
        AddedBoth(owner, BlockedPorts(ports), NetOf(host, iface));
        assert base + blocks + NetRules(owner.value, NetOf(host, iface))
            == base + (blocks + NetRules(owner.value, NetOf(host, iface)));
      } else {
        assert base + [] == base;
      }
      assert rules == base + Added(owner, BlockedPorts(ports), scope, NetOf(host, iface));
    }

    /** main; `reply` is what the route and address commands print. */
    method Execute(argv: seq<string>, permitted: bool, reply: string) returns (code: int, output: string)
      requires |argv| >= 2 ==> Routed(host, ParseCommand(argv))
      modifies this
      ensures |argv| < 2 || !permitted ==> code == 1 && rules == old(rules)
      ensures |argv| >= 2 && !permitted ==> output == "denied"
      ensures |argv| >= 2 && permitted ==> (code, output, rules) == Effect(host, argv, reply, old(rules))
    {
      hide Flushed, Added, ScopeOf, HasPorts, Reported, BlockedPorts;
      code, output := 0, "";
      if |argv| < 2 {
        return 1, "";
      }
      if !permitted {
        return 1, "denied";
      }
      var i;
      if argv[1] == "disable-internet" && |argv| == 6 {
        i := AddUser(argv[2], argv[3], argv[4], argv[5]);
        if i == 0 {
          NothingBlocked(argv[3]);
          NothingAdded(OwnerArg(host, argv[5]), ScopeOf(argv[2]), NetOf(host, argv[4]));
          ghost var kept := Flushed(host, argv[5], ScopeOf(argv[2]), old(rules));
          assert kept + [] == kept;
          assert rules == kept;
          i := FlushUser(argv[5], argv[2]);
          output := "disable-error";
        } else {
          output := "disabled";
        }
      } else if argv[1] == "enable-internet" && |argv| == 4 {
        i := FlushUser(argv[3], argv[2]);
        output := if i == 0 then "enable-error" else "enabled";
      } else if argv[1] == "status" && |argv| == 3 {
        i := StatusUser(argv[2]);
        output := if i == 0 then "enabled" else "disabled";
      } else if ((argv[1] == "route-add" || argv[1] == "route-del") && |argv| == 5)
             || (argv[1] == "ip" && |argv| == 3) {
        output := reply;
      } else {
        return 1, "";
      }
    }
  }

  lemma NothingBlocked(arg: string)
    requires !HasPorts(arg)
    ensures BlockedPorts(arg) == []
  {}

  lemma NothingAdded(owner: Option<nat>, scope: Scope, net: Network)
    requires scope.TcpOnly?
    ensures Added(owner, [], scope, net) == []
  {}

  lemma DeleteNext(rules: seq<Rule>, numbers: seq<string>, k: nat)
    requires k < |numbers|
    ensures DeleteTexts(rules, numbers[k..]) == DeleteTexts(DeleteText(rules, numbers[k]), numbers[k + 1..])
  {
    hide DeleteText;
    assert numbers[k..][1..] == numbers[k + 1..];
  }

  lemma DeleteNone(rules: seq<Rule>)
    ensures DeleteTexts(rules, []) == rules
  {}

  lemma OwnerRefused(owner: Option<nat>, ports: seq<Ports>, scope: Scope, net: Network)
    ensures owner.None? ==> Added(owner, ports, scope, net) == []
  {}

  /** A run of the program, one process per argument vector: the chain, and what each call prints and returns. */
  method RunAll(chain: OutputChain, calls: seq<seq<string>>, replies: seq<string>, ghost commands: seq<Command>)
    returns (results: seq<(int, string)>)
    requires |commands| == |calls| == |replies|
    requires forall i :: 0 <= i < |calls| ==> |calls[i]| >= 2 && commands[i] == ParseCommand(calls[i])
    requires forall i :: 0 <= i < |calls| ==> Routed(chain.host, commands[i])
    modifies chain
    ensures chain.rules == PerformAll(chain.host, commands, old(chain.rules))
    ensures |results| == |calls|
    ensures forall k :: 0 <= k < |calls| ==>
              results[k] == Outcome(chain.host, commands[k], replies[k],
                                    PerformAll(chain.host, commands[..k], old(chain.rules)))
  {
    hide Perform, ParseCommand, Outcome, Routed, PerformAll;
    results := [];
    PerformNone(chain.host, chain.rules);
    for k := 0 to |calls|
      invariant chain.rules == PerformAll(chain.host, commands[..k], old(chain.rules))
      invariant |results| == k
      invariant forall i :: 0 <= i < k ==>
                  results[i] == Outcome(chain.host, commands[i], replies[i],
                                        PerformAll(chain.host, commands[..i], old(chain.rules)))
    {
      PerformLast(chain.host, commands[..k + 1], old(chain.rules));
      assert commands[..k + 1][..k] == commands[..k];
      var code, output := chain.Execute(calls[k], true, replies[k]);
      results := results + [(code, output)];
    }
    assert commands[..|calls|] == commands;
  }

  lemma PerformNone(host: Host, rules: seq<Rule>)
    ensures PerformAll(host, [], rules) == rules
  {}

  /** A run ends with its last command. */
  lemma {:induction false} PerformLast(host: Host, commands: seq<Command>, rules: seq<Rule>)
    requires commands != [] && forall i :: 0 <= i < |commands| ==> Routed(host, commands[i])
    ensures var n := |commands| - 1;
            PerformAll(host, commands, rules) == Perform(host, commands[n], PerformAll(host, commands[..n], rules))
    decreases |commands|
  {
    hide Perform, Routed;
    var n := |commands| - 1;
    if n > 0 {
      PerformLast(host, commands[1..], Perform(host, commands[0], rules));
      assert commands[1..][..n - 1] == commands[..n][1..];
    }
  }
}
