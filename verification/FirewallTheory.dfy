/** What whole runs of the controller keep, and what its rules mean to a packet. */
module FirewallTheory {
  import opened CText
  import opened Options
  import opened Firewall
  import opened FirewallFlush

  /** The command edits rules selected by this user, and no others. */
  predicate Touches(host: Host, c: Command, r: Rule) {
    (c.Disable? || c.Enable?) && Selected(host, c.user, r)
  }

  // What is appended belongs to the user named.

  lemma {:induction false} NumeralPrints(s: string)
    requires IsNumeral(s)
    ensures PrintNat(NatValue(s)) == s
  {
    if |s| == 1 {
      assert s[..0] == [];
      assert NatValue(s) == DigitValue(s[0]);
    } else {
      var init := s[..|s| - 1];
      assert IsNumeral(init) by { assert init[0] == s[0]; }
      NumeralPrints(init);
      assert NatValue(init) > 0 by { NonZero(init); }
      LastDigit(NatValue(init), DigitValue(s[|s| - 1]));
      assert s == init + [s[|s| - 1]];
    }
  }

  lemma {:induction false} NonZero(s: string)
    requires s != [] && AllDigits(s) && s[0] != '0'
    ensures NatValue(s) > 0
  {
    if |s| > 1 {
      NonZero(s[..|s| - 1]);
    } else {
      assert s[..0] == [];
    }
  }

  lemma LastDigit(n: nat, d: nat)
    requires n > 0 && d < 10
    ensures PrintNat(n * 10 + d) == PrintNat(n) + [DigitChar(d)]
  {
    var m := n * 10 + d;
    assert m / 10 == n && m % 10 == d;
  }

  lemma AddedSelected(host: Host, user: string, ports: seq<Ports>, scope: Scope, net: Network)
    ensures var added := Added(OwnerArg(host, user), ports, scope, net);
            forall i :: 0 <= i < |added| ==> Selected(host, user, added[i])
  {
    hide PrintNat;
    if user !in host.uids && IsNumeral(user) {
      NumeralPrints(user);
    }
  }

  // Frame: rules of others keep their content and their order.

  /** One command does not show through a filter that hides the rules it touches. */
  lemma {:induction false} StepFrame(host: Host, c: Command, p: Rule -> bool, rules: seq<Rule>)
    requires Routed(host, c)
    requires forall r: Rule :: p(r) ==> !Touches(host, c, r)
    ensures Filter(p, Apply(host, c, rules)) == Filter(p, rules)
  {
    hide Filter, ScopeOf, BlockedPorts, Selected, OwnerArg, Added;
    if c.Disable? || c.Enable? {
      var scope := ScopeOf(c.onlyPorts);
      FilterThrough(p, Spared(host, c.user, scope), rules);
      if c.Disable? {
        var added := Added(OwnerArg(host, c.user), BlockedPorts(c.ports), scope, NetOf(host, c.iface));
        AddedSelected(host, c.user, BlockedPorts(c.ports), scope, NetOf(host, c.iface));
        FilterAppend(p, Without(host, c.user, scope, rules), added);
        FilterNone(p, added);
        assert Filter(p, rules) + [] == Filter(p, rules);
      }
    }
  }

  function Untouched(host: Host, commands: seq<Command>): Rule -> bool {
    r => forall i :: 0 <= i < |commands| ==> !Touches(host, commands[i], r)
  }

  // Disable, enable, status.

  lemma {:induction false} WithoutTwice(host: Host, user: string, scope: Scope, rules: seq<Rule>)
    ensures Without(host, user, scope, Without(host, user, scope, rules)) == Without(host, user, scope, rules)
  {
    FilterHolds(Spared(host, user, scope), rules);
    FilterAll(Spared(host, user, scope), Without(host, user, scope, rules));
  }

  /** Everything a disable appends is what the next flush of the same scope deletes. */
  lemma {:induction false} WithoutAdded(host: Host, user: string, ports: seq<Ports>, scope: Scope, net: Network)
    ensures Without(host, user, scope, Added(OwnerArg(host, user), ports, scope, net)) == []
    ensures Without(host, user, AllRules, Added(OwnerArg(host, user), ports, scope, net)) == []
  {
    hide Filter, OwnerArg;
    AddedSelected(host, user, ports, scope, net);
    var added := Added(OwnerArg(host, user), ports, scope, net);
    FilterNone(Spared(host, user, scope), added);
    FilterNone(Spared(host, user, AllRules), added);
  }

  /** A second identical disable changes nothing. */
  lemma {:induction false} DisableIdempotent(host: Host, c: Command, rules: seq<Rule>)
    requires c.Disable? && Routed(host, c)
    ensures Apply(host, c, Apply(host, c, rules)) == Apply(host, c, rules)
  {
    hide Filter, OwnerArg, ScopeOf, BlockedPorts, Added;
    var scope := ScopeOf(c.onlyPorts);
    var added := Added(OwnerArg(host, c.user), BlockedPorts(c.ports), scope, NetOf(host, c.iface));
    WithoutTwice(host, c.user, scope, rules);
    WithoutAdded(host, c.user, BlockedPorts(c.ports), scope, NetOf(host, c.iface));
    FilterAppend(Spared(host, c.user, scope), Without(host, c.user, scope, rules), added);
    assert Without(host, c.user, scope, rules) + [] == Without(host, c.user, scope, rules);
  }

  lemma {:induction false} NotReportedWithout(host: Host, user: string, rules: seq<Rule>)
    ensures !Reported(host, user, Without(host, user, AllRules, rules))
  {
    hide Filter, Selected;
    FilterHolds(Spared(host, user, AllRules), rules);
  }

  /** After disable-internet with --only-ports=no, status says disabled for every user iptables knows. */
  lemma {:induction false} DisableReported(host: Host, c: Command, rules: seq<Rule>)
    requires c.Disable? && Routed(host, c) && ScopeOf(c.onlyPorts).AllRules?
    ensures Reported(host, c.user, Apply(host, c, rules)) <==> OwnerArg(host, c.user).Some?
  {
    hide Filter, OwnerArg, ScopeOf, BlockedPorts, Selected;
    var kept := Without(host, c.user, AllRules, rules);
    var added := Added(OwnerArg(host, c.user), BlockedPorts(c.ports), AllRules, NetOf(host, c.iface));
    NotReportedWithout(host, c.user, rules);
    AddedSelected(host, c.user, BlockedPorts(c.ports), AllRules, NetOf(host, c.iface));
    if OwnerArg(host, c.user).Some? {
      assert added != [];
      assert (kept + added)[|kept|] == added[0];
    } else {
      assert kept + added == kept;
    }
  }

  /** Enable with --only-ports=no takes back any disable of the same user and makes status say enabled. */
  lemma {:induction false} EnableUndoesDisable(host: Host, c: Command, only: string, rules: seq<Rule>)
    requires c.Disable? && Routed(host, c) && ScopeOf(only).AllRules?
    ensures Apply(host, Enable(only, c.user), Apply(host, c, rules)) == Without(host, c.user, AllRules, rules)
    ensures Answer(host, Status(c.user), Apply(host, Enable(only, c.user), Apply(host, c, rules))) == "enabled"
  {
    hide Filter, OwnerArg, ScopeOf, BlockedPorts, Reported, Added;
    var scope := ScopeOf(c.onlyPorts);
    var kept := Without(host, c.user, scope, rules);
    var added := Added(OwnerArg(host, c.user), BlockedPorts(c.ports), scope, NetOf(host, c.iface));
    FilterThrough(Spared(host, c.user, AllRules), Spared(host, c.user, scope), rules);
    WithoutAdded(host, c.user, BlockedPorts(c.ports), scope, NetOf(host, c.iface));
    FilterAppend(Spared(host, c.user, AllRules), kept, added);
    NotReportedWithout(host, c.user, rules);
    assert Without(host, c.user, AllRules, rules) + [] == Without(host, c.user, AllRules, rules);
  }

  /** Enable always answers "enabled"; status agrees exactly when the scope left no rule of the user. */
  lemma {:induction false} EnableReported(host: Host, only: string, user: string, rules: seq<Rule>)
    ensures Answer(host, Enable(only, user), rules) == "enabled"
    ensures Reported(host, user, Apply(host, Enable(only, user), rules)) <==>
            ScopeOf(only).TcpOnly? && exists r :: r in rules && Selected(host, user, r) && r.proto != Tcp
  {
    hide Filter, ScopeOf, Selected;
    var scope := ScopeOf(only);
    var kept := Without(host, user, scope, rules);
    FilterHolds(Spared(host, user, scope), rules);
    if scope.TcpOnly? && exists r :: r in rules && Selected(host, user, r) && r.proto != Tcp {
      var r :| r in rules && Selected(host, user, r) && r.proto != Tcp;
      FilterKeeps(Spared(host, user, scope), rules, r);
      var i :| 0 <= i < |kept| && kept[i] == r;
    }
  }

  // First match.

  datatype Packet = Packet(uid: nat, tcp: bool, dport: nat, dst: nat)

  predicate Matches(r: Rule, p: Packet) {
    && (r.owner.Some? ==> r.owner.value == p.uid)
    && (r.proto.Tcp? ==> p.tcp) && (r.proto.OtherProto? ==> !p.tcp)
    && (r.dport.Some? ==> Covers(r.dport.value, p.dport))
    && (match r.dest
        case Anywhere => true
        case To(net) => Within(p.dst, net)
        case NotTo(net) => !Within(p.dst, net))
  }

  /** The verdict of the first terminating rule that matches; None is the chain's policy. */
  function Verdict(rules: seq<Rule>, p: Packet): Option<Target> {
    if rules == [] then None
    else if Matches(rules[0], p) && rules[0].target != Log then Some(rules[0].target)
    else Verdict(rules[1..], p)
  }

  lemma {:induction false} VerdictAppend(a: seq<Rule>, b: seq<Rule>, p: Packet)
    ensures Verdict(a + b, p) == if Verdict(a, p).Some? then Verdict(a, p) else Verdict(b, p)
  {
    hide Matches;
    if a == [] {
      assert a + b == b;
    } else {
      assert (a + b)[1..] == a[1..] + b;
      VerdictAppend(a[1..], b, p);
    }
  }

  lemma {:induction false} VerdictPorts(uid: nat, ports: seq<Ports>, p: Packet)
    ensures Verdict(PortRules(uid, ports), p) ==
            if p.uid == uid && p.tcp && Covered(ports, p.dport) then Some(Drop) else None
  {
    if ports != [] {
      var rules := PortRules(uid, ports);
      assert rules[1..] == PortRules(uid, ports[1..]);
      VerdictPorts(uid, ports[1..], p);
    }
  }

  lemma VerdictOne(r: Rule, p: Packet)
    ensures Verdict([r], p) == if Matches(r, p) && r.target != Log then Some(r.target) else None
  {
    assert [r][1..] == [];
  }

  lemma VerdictNet(uid: nat, net: Network, p: Packet)
    ensures Verdict(NetRules(uid, net), p) ==
            if p.uid != uid then None
            else if Within(p.dst, LOOPBACK) then Some(Accept)
            else if !Within(p.dst, net) then Some(Drop)
            else None
  {
    var rules := NetRules(uid, net);
    VerdictAppend([rules[0]], [rules[1]], p);
    assert rules == [rules[0]] + [rules[1]];
    VerdictOne(rules[0], p);
    VerdictOne(rules[1], p);
  }

  /**
   What disable-internet with --only-ports=no means to the user's packets. A verdict of an
   earlier rule of someone else stands; otherwise a listed tcp port is dropped even on the
   loopback, other loopback traffic passes, traffic out of the network is dropped, and the
   rest is left to the policy.
   */
  lemma {:induction false} DisableVerdict(host: Host, c: Command, rules: seq<Rule>, p: Packet)
    requires c.Disable? && Routed(host, c) && ScopeOf(c.onlyPorts).AllRules?
    requires OwnerArg(host, c.user) == Some(p.uid)
    ensures var before := Verdict(Without(host, c.user, AllRules, rules), p);
            Verdict(Apply(host, c, rules), p) ==
            if before.Some? then before
            else if p.tcp && Covered(BlockedPorts(c.ports), p.dport) then Some(Drop)
            else if Within(p.dst, LOOPBACK) then Some(Accept)
            else if !Within(p.dst, NetOf(host, c.iface)) then Some(Drop)
            else None
  {
    hide Filter, OwnerArg, ScopeOf, BlockedPorts, Verdict, PortRules, NetRules, Within;
    var kept := Without(host, c.user, AllRules, rules);
    var blocks := PortRules(p.uid, BlockedPorts(c.ports));
    var confine := NetRules(p.uid, NetOf(host, c.iface));
    VerdictAppend(kept, blocks + confine, p);
    VerdictAppend(blocks, confine, p);
    VerdictPorts(p.uid, BlockedPorts(c.ports), p);
    VerdictNet(p.uid, NetOf(host, c.iface), p);
  }

  /** The rule would settle the fate of the packet. */
  predicate Decides(r: Rule, p: Packet) {
    Matches(r, p) && r.target != Log
  }

  /** Rules that do not decide about a packet do not count. */
  lemma {:induction false} VerdictFilter(q: Rule -> bool, rules: seq<Rule>, p: Packet)
    requires forall i :: 0 <= i < |rules| && !q(rules[i]) ==> !Decides(rules[i], p)
    ensures Verdict(Filter(q, rules), p) == Verdict(rules, p)
  {
    hide Matches;
    if rules != [] {
      var r, tail := rules[0], Filter(q, rules[1..]);
      VerdictFilter(q, rules[1..], p);
      if q(r) {
        assert ([r] + tail)[1..] == tail;
      } else {
        assert [] + tail == tail;
      }
    }
  }

  /**
   Blocking ports only, after a full disable, puts the port rules behind the loopback rule:
   a listed port that the full disable drops on the loopback is accepted there.
   */
  lemma {:induction false} PortsBehindLoopback(host: Host, full: Command, ports: Command, rules: seq<Rule>, p: Packet)
    requires full.Disable? && ports.Disable? && full.user == ports.user && Routed(host, full) && Routed(host, ports)
    requires ScopeOf(full.onlyPorts).AllRules? && ScopeOf(ports.onlyPorts).TcpOnly?
    requires OwnerArg(host, full.user) == Some(p.uid) && Within(p.dst, LOOPBACK)
    requires Verdict(Without(host, full.user, AllRules, rules), p).None?
    ensures Verdict(Apply(host, ports, Apply(host, full, rules)), p) == Some(Accept)
  {
    hide OwnerArg, ScopeOf, BlockedPorts, Verdict, Within, Filter;
    var user, uid, net := full.user, p.uid, NetOf(host, full.iface);
    var kept := Without(host, user, AllRules, rules);
    var blocks, confine := PortRules(uid, BlockedPorts(full.ports)), NetRules(uid, net);
    var added := Added(OwnerArg(host, user), BlockedPorts(ports.ports), TcpOnly, NetOf(host, ports.iface));
    TcpOnlyKeepsNet(host, user, rules, BlockedPorts(full.ports), net);
    VerdictAppend(kept + confine, added, p);
    VerdictAppend(kept, confine, p);
    VerdictNet(uid, net, p);
  }

  lemma {:induction false} TcpOnlyKeepsNet(host: Host, user: string, rules: seq<Rule>, ports: seq<Ports>, net: Network)
    requires OwnerArg(host, user).Some?
    ensures var kept := Without(host, user, AllRules, rules);
            Without(host, user, TcpOnly, kept + Added(OwnerArg(host, user), ports, AllRules, net))
            == kept + NetRules(OwnerArg(host, user).value, net)
  {
    var uid := OwnerArg(host, user).value;
    var p := Spared(host, user, TcpOnly);
    var kept := Without(host, user, AllRules, rules);
    AddedSelected(host, user, ports, AllRules, net);
    hide OwnerArg, Filter, Selected;
    var added := Added(OwnerArg(host, user), ports, AllRules, net);
    var blocks, confine := PortRules(uid, ports), NetRules(uid, net);
    assert added == blocks + confine;
    assert forall i :: 0 <= i < |blocks| ==> added[i] == blocks[i];
    FilterHolds(Spared(host, user, AllRules), rules);
    FilterAll(p, kept);
    FilterNone(p, blocks);
    FilterAll(p, confine);
    FilterAppend(p, kept, added);
    FilterAppend(p, blocks, confine);
    assert [] + confine == confine;
  }
}
