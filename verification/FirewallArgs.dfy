/** What the controller does for the argument vectors one types: option texts, users and ports as they stand. */
module FirewallArgs {
  import opened CText
  import opened Options
  import opened Tokens
  import opened Firewall
  import opened FirewallFlush
  import opened FirewallControl
  import opened FirewallCut

  // Whose rules they are.

  predicate IsName(u: string) {
    u != "" && !('0' <= u[0] <= '9')
  }

  /** The tagged rules of an owner number. */
  predicate Owns(uid: nat, r: Rule) {
    r.tagged && r.owner == Some(uid)
  }

  lemma NameIsNotPrinted(u: string, n: nat)
    requires IsName(u)
    ensures PrintNat(n) != u && !IsNumeral(u)
  {
    hide PrintNat;
    assert IsDigit(PrintNat(n)[0]);
  }

  /** The number the password database has for a name, and root's for a name it does not have. */
  function NumberOf(host: Host, u: string): nat {
    if u in host.uids then host.uids[u] else 0
  }

  lemma SelectedIsOwned(host: Host, u: string, r: Rule)
    requires IsName(u)
    ensures Selected(host, u, r) <==> Owns(NumberOf(host, u), r)
  {
    hide PrintNat;
    if r.owner.Some? {
      NameIsNotPrinted(u, r.owner.value);
    }
  }

  function NotOwned(uid: nat): Rule -> bool {
    r => !Owns(uid, r)
  }

  function NotOwnedTcp(uid: nat): Rule -> bool {
    r => !(Owns(uid, r) && r.proto == Tcp)
  }

  lemma {:induction false} FilterSame(p: Rule -> bool, q: Rule -> bool, rules: seq<Rule>)
    requires forall r: Rule :: p(r) == q(r)
    ensures Filter(p, rules) == Filter(q, rules)
  {
    if rules != [] {
      FilterSame(p, q, rules[1..]);
    }
  }

  lemma WithoutIsNotOwned(host: Host, u: string, rules: seq<Rule>)
    requires IsName(u)
    ensures Without(host, u, AllRules, rules) == Filter(NotOwned(NumberOf(host, u)), rules)
    ensures Without(host, u, TcpOnly, rules) == Filter(NotOwnedTcp(NumberOf(host, u)), rules)
  {
    hide Selected, Owns, Filter;
    forall r: Rule
      ensures Selected(host, u, r) <==> Owns(NumberOf(host, u), r)
    {
      SelectedIsOwned(host, u, r);
    }
    FilterSame(Spared(host, u, AllRules), NotOwned(NumberOf(host, u)), rules);
    FilterSame(Spared(host, u, TcpOnly), NotOwnedTcp(NumberOf(host, u)), rules);
  }

  // The options.

  lemma ScopeOfNo(text: string)
    requires text == "--only-ports=no"
    ensures ScopeOf(text) == AllRules
  {
    assert text[13..] == "no";
  }

  lemma ScopeOfYes(text: string)
    requires text == "--only-ports=yes"
    ensures ScopeOf(text) == TcpOnly
  {
    assert text[13..] == "yes" && "yes"[0] == 'y' && "no"[0] == 'n';
  }

  /** Whatever the option is, the program looks at what follows its 13th character. */
  lemma ScopeOfOther(text: string)
    requires |text| != 15 || text[13] != 'n' || text[14] != 'o'
    ensures ScopeOf(text) == TcpOnly
  {}

  // Ports.

  predicate MayBeBlocked(port: nat) {
    1 <= port <= 65535 && port != 8998 && port != 8999
  }

  lemma {:induction false} DigitsNoColon(s: string)
    requires AllDigits(s)
    ensures Before(s, ':') == |s|
  {
    if s != "" {
      DigitsNoColon(s[1..]);
    }
  }

  lemma {:induction false} PortReads(port: nat)
    requires MayBeBlocked(port)
    ensures PortAllowed(PrintNat(port)) && Dport(PrintNat(port)) == Some(Ports(port, port))
  {
    hide PrintNat, Atoi, NatValue;
    var s := PrintNat(port);
    PrintIsNumeral(port);
    DigitsNoColon(s);
    PositiveText(port);
    AtoiPrinted(port, "");
    assert s + "" == s;
  }

  lemma PositiveText(n: nat)
    ensures PrintInt(n) == PrintNat(n)
  {}

  /** One tcp DROP for each port, in order. */
  function Drops(uid: nat, ports: seq<nat>): (r: seq<Rule>)
    ensures |r| == |ports|
    ensures forall i :: 0 <= i < |r| ==>
              r[i] == Rule(true, Some(uid), Tcp, Some(Ports(ports[i], ports[i])), Anywhere, Drop)
  {
    seq(|ports|, i requires 0 <= i < |ports| =>
          Rule(true, Some(uid), Tcp, Some(Ports(ports[i], ports[i])), Anywhere, Drop))
  }

  /** ACCEPT 127.0.0.0/8, then DROP what is not for the network. */
  function Confines(uid: nat, net: Network): seq<Rule> {
    [Rule(true, Some(uid), AnyProto, None, To(Network(0x7F00_0000, 0x7FFF_FFFF)), Accept),
     Rule(true, Some(uid), AnyProto, None, NotTo(net), Drop)]
  }

  function PortList(ports: seq<nat>): (r: seq<Ports>)
    ensures |r| == |ports| && forall i :: 0 <= i < |r| ==> r[i] == Ports(ports[i], ports[i])
  {
    seq(|ports|, i requires 0 <= i < |ports| => Ports(ports[i], ports[i]))
  }

  lemma {:induction false} AllAccepted(ports: seq<nat>)
    requires forall i :: 0 <= i < |ports| ==> MayBeBlocked(ports[i])
    ensures AcceptedPorts(Numerals(ports)) == PortList(ports)
  {
    hide PortAllowed, Dport, PrintNat;
    if ports != [] {
      AllAccepted(ports[1..]);
      PortReads(ports[0]);
      assert Numerals(ports)[1..] == Numerals(ports[1..]);
    }
  }

  /** The argument as one types it. */
  function PortsArgument(ports: seq<nat>): string {
    "--ports=" + Join(Numerals(ports), ',')
  }

  lemma NumeralsNoComma(ports: seq<nat>)
    ensures Plain(Numerals(ports), {','})
  {
    hide PrintNat;
  }

  lemma {:induction false} PortsRead(ports: seq<nat>)
    requires |ports| <= 255 && forall i :: 0 <= i < |ports| ==> MayBeBlocked(ports[i])
    ensures HasPorts(PortsArgument(ports)) && BlockedPorts(PortsArgument(ports)) == PortList(ports)
  {
    hide Join, Runs, Numerals, AcceptedPorts;
    var arg := PortsArgument(ports);
    NumeralsNoComma(ports);
    SplitJoined(Numerals(ports), ',', {','});
    assert arg[..8] == "--ports=" && arg[8..] == Join(Numerals(ports), ',');
    StartsWithPorts(arg);
    FirstShort(First(MAXTOKENS - 1, Numerals(ports)), Numerals(ports));
    assert PortTokens(arg) == Numerals(ports);
    AllAccepted(ports);
  }

  lemma StartsWithPorts(arg: string)
    requires "--ports=" <= arg
    ensures HasPorts(arg)
  {}

  lemma RulesAre(uid: nat, ports: seq<nat>, net: Network)
    ensures PortRules(uid, PortList(ports)) == Drops(uid, ports)
    ensures NetRules(uid, net) == Confines(uid, net)
  {}

  // The commands.

  /** `enable-internet --only-ports=no u`: the user's rules go, all others stay. */
  lemma {:induction false} EnableAll(host: Host, p: string, u: string, reply: string, rules: seq<Rule>)
    requires IsName(u) && ListingFits(host, u, AllRules, rules)
    ensures Effect(host, [p, "enable-internet", "--only-ports=no", u], reply, rules)
            == (0, "enabled", Filter(NotOwned(NumberOf(host, u)), rules))
  {
    hide Without, Perform, ListingFits, Filter;
    var only := "--only-ports=no";
    ScopeOfNo(only);
    EnableRead(p, only, u);
    PerformIffFits(host, Enable(only, u), rules);
    WithoutIsNotOwned(host, u, rules);
  }

  lemma EnableRead(p: string, only: string, u: string)
    ensures ParseCommand([p, "enable-internet", only, u]) == Enable(only, u)
  {
    assert "enable-internet"[0] == 'e' && "disable-internet"[0] == 'd';
  }

  /** With any option that does not read `no` from its 14th character on: only the tcp rules go. */
  lemma {:induction false} EnableTcp(host: Host, p: string, only: string, u: string, reply: string, rules: seq<Rule>)
    requires IsName(u) && ListingFits(host, u, TcpOnly, rules)
    requires |only| != 15 || only[13] != 'n' || only[14] != 'o'
    ensures Effect(host, [p, "enable-internet", only, u], reply, rules)
            == (0, "enabled", Filter(NotOwnedTcp(NumberOf(host, u)), rules))
  {
    hide Without, Perform, ListingFits, Filter, ScopeOf;
    ScopeOfOther(only);
    EnableRead(p, only, u);
    PerformIffFits(host, Enable(only, u), rules);
    WithoutIsNotOwned(host, u, rules);
  }

  lemma DisableRead(p: string, only: string, ports: string, iface: string, u: string)
    ensures ParseCommand([p, "disable-internet", only, ports, iface, u]) == Disable(only, ports, iface, u)
  {}

  lemma {:induction false} DisableEffect(host: Host, p: string, only: string, ports: string, iface: string, u: string,
                                         reply: string, rules: seq<Rule>)
    requires IsName(u) && ListingFits(host, u, ScopeOf(only), rules)
    requires ScopeOf(only).AllRules? ==> iface in host.nets
    ensures Effect(host, [p, "disable-internet", only, ports, iface, u], reply, rules)
            == (0, if HasPorts(ports) || ScopeOf(only).AllRules? then "disabled" else "disable-error",
                Without(host, u, ScopeOf(only), rules)
                + Added(OwnerArg(host, u), BlockedPorts(ports), ScopeOf(only), NetOf(host, iface)))
  {
    hide Without, Perform, ListingFits, Filter, ScopeOf, HasPorts, BlockedPorts, Added, OwnerArg;
    DisableRead(p, only, ports, iface, u);
    PerformIffFits(host, Disable(only, ports, iface, u), rules);
  }

  /** `disable-internet --only-ports=no --ports=… iface u` for a user and an interface one has. */
  lemma {:induction false} DisableAll(host: Host, p: string, ports: seq<nat>, iface: string, u: string, reply: string,
                                      rules: seq<Rule>)
    requires IsName(u) && u in host.uids && iface in host.nets && ListingFits(host, u, AllRules, rules)
    requires |ports| <= 255 && forall i :: 0 <= i < |ports| ==> MayBeBlocked(ports[i])
    ensures var uid := host.uids[u];
            Effect(host, [p, "disable-internet", "--only-ports=no", PortsArgument(ports), iface, u], reply, rules)
            == (0, "disabled",
                Filter(NotOwned(uid), rules) + (Drops(uid, ports) + Confines(uid, host.nets[iface])))
  {
    hide Without, ListingFits, Filter, ScopeOf, HasPorts, BlockedPorts, PortsArgument, Effect, PortRules, NetRules;
    var only := "--only-ports=no";
    ScopeOfNo(only);
    PortsRead(ports);
    DisableEffect(host, p, only, PortsArgument(ports), iface, u, reply, rules);
    WithoutIsNotOwned(host, u, rules);
    RulesAre(host.uids[u], ports, host.nets[iface]);
  }

  /** With another option: the tcp rules are replaced by the blocks, and no confinement is made. */
  lemma {:induction false} DisablePorts(host: Host, p: string, only: string, ports: seq<nat>, iface: string, u: string,
                                        reply: string, rules: seq<Rule>)
    requires IsName(u) && u in host.uids && ListingFits(host, u, TcpOnly, rules)
    requires |only| != 15 || only[13] != 'n' || only[14] != 'o'
    requires |ports| <= 255 && forall i :: 0 <= i < |ports| ==> MayBeBlocked(ports[i])
    ensures var uid := host.uids[u];
            Effect(host, [p, "disable-internet", only, PortsArgument(ports), iface, u], reply, rules)
            == (0, "disabled", Filter(NotOwnedTcp(uid), rules) + Drops(uid, ports))
  {
    hide Without, ListingFits, Filter, ScopeOf, HasPorts, BlockedPorts, PortsArgument, Effect, PortRules, NetRules;
    ScopeOfOther(only);
    PortsRead(ports);
    DisableEffect(host, p, only, PortsArgument(ports), iface, u, reply, rules);
    WithoutIsNotOwned(host, u, rules);
    RulesAre(host.uids[u], ports, NetOf(host, iface));
    assert Drops(host.uids[u], ports) + [] == Drops(host.uids[u], ports);
  }

  /** Neither ports nor `no`: an error, and the tcp rules are gone all the same. */
  lemma {:induction false} DisableNothing(host: Host, p: string, only: string, ports: string, iface: string, u: string,
                                          reply: string, rules: seq<Rule>)
    requires IsName(u) && ListingFits(host, u, TcpOnly, rules) && |ports| < 8
    requires |only| != 15 || only[13] != 'n' || only[14] != 'o'
    ensures Effect(host, [p, "disable-internet", only, ports, iface, u], reply, rules)
            == (0, "disable-error", Filter(NotOwnedTcp(NumberOf(host, u)), rules))
  {
    hide Without, ListingFits, Filter, ScopeOf, Effect, OwnerArg;
    ScopeOfOther(only);
    if HasPorts(ports) {
      ContainsLength(ports, "--ports=");
    }
    DisableEffect(host, p, only, ports, iface, u, reply, rules);
    WithoutIsNotOwned(host, u, rules);
    assert Without(host, u, TcpOnly, rules) + [] == Without(host, u, TcpOnly, rules);
  }

  /** `status u`. */
  lemma {:induction false} StatusOf(host: Host, p: string, u: string, reply: string, rules: seq<Rule>)
    requires IsName(u)
    ensures Effect(host, [p, "status", u], reply, rules) ==
            (0, if exists i :: 0 <= i < |rules| && Owns(NumberOf(host, u), rules[i]) then "disabled" else "enabled",
             rules)
  {
    hide Selected, Owns;
    StatusRead(p, u);
    forall r: Rule
      ensures Selected(host, u, r) <==> Owns(NumberOf(host, u), r)
    {
      SelectedIsOwned(host, u, r);
    }
  }

  lemma StatusRead(p: string, u: string)
    ensures ParseCommand([p, "status", u]) == Status(u)
  {
    assert "status"[0] == 's' && "disable-internet"[0] == 'd' && "enable-internet"[0] == 'e';
  }

  /** The right word with the wrong number of arguments, or another word: an error, and nothing is done. */
  lemma {:induction false} WrongCall(host: Host, argv: seq<string>, reply: string, rules: seq<Rule>)
    requires |argv| >= 2
    requires argv[1] == "disable-internet" ==> |argv| != 6
    requires argv[1] == "enable-internet" ==> |argv| != 4
    requires argv[1] == "status" || argv[1] == "ip" ==> |argv| != 3
    requires argv[1] == "route-add" || argv[1] == "route-del" ==> |argv| != 5
    ensures Effect(host, argv, reply, rules) == (1, "", rules)
  {}

  /** The commands for routes and addresses leave the chain alone. */
  lemma {:induction false} RouteCall(host: Host, argv: seq<string>, reply: string, rules: seq<Rule>)
    requires |argv| >= 2
    requires || (argv[1] == "route-add" && |argv| == 5) || (argv[1] == "route-del" && |argv| == 5)
             || (argv[1] == "ip" && |argv| == 3)
    ensures Effect(host, argv, reply, rules) == (0, reply, rules)
  {
    assert "route-add"[0] == 'r' && "ip"[0] == 'i' && "route-del"[0] == 'r';
    assert "status"[0] == 's' && "disable-internet"[0] == 'd' && "enable-internet"[0] == 'e';
  }
}
