/** What the rules mean to a user's packets: after a ports-only disable, and after any run. */
module FirewallVerdicts {
  import opened Options
  import opened Firewall
  import opened FirewallFlush
  import opened FirewallPorts
  import opened FirewallTheory
  import opened FirewallCut
  import opened FirewallRuns

  /** First-match meaning of a ports-only disable: listed tcp ports are dropped unless an earlier rule decides. */
  lemma {:induction false} PortsVerdict(host: Host, c: Command, rules: seq<Rule>, p: Packet)
    requires c.Disable? && Routed(host, c) && ScopeOf(c.onlyPorts).TcpOnly?
    requires OwnerArg(host, c.user) == Some(p.uid)
    ensures var before := Verdict(Without(host, c.user, TcpOnly, rules), p);
            Verdict(Apply(host, c, rules), p) ==
            if before.Some? then before
            else if p.tcp && Covered(BlockedPorts(c.ports), p.dport) then Some(Drop)
            else None
  {
    hide Filter, OwnerArg, ScopeOf, BlockedPorts, Verdict, PortRules;
    var kept, blocks := Without(host, c.user, TcpOnly, rules), PortRules(p.uid, BlockedPorts(c.ports));
    assert blocks + [] == blocks;
    VerdictAppend(kept, blocks, p);
    VerdictPorts(p.uid, BlockedPorts(c.ports), p);
  }

  // What a user's own rules decide.

  function Blocks(view: seq<Rule>): seq<Rule> {
    Filter(OnlyTcp(), view)
  }

  function Confinement(view: seq<Rule>): seq<Rule> {
    Filter(NotTcp(), view)
  }

  predicate BlocksPort(blocks: seq<Rule>, port: nat) {
    exists i :: 0 <= i < |blocks| && blocks[i].dport.Some? && Covers(blocks[i].dport.value, port)
  }

  predicate IsBlocked(view: seq<Rule>, p: Packet) {
    p.tcp && BlocksPort(Blocks(view), p.dport)
  }

  /** The confinement stands in front of the port blocks. */
  predicate ConfinedFirst(view: seq<Rule>) {
    view != [] && !view[0].proto.Tcp?
  }

  /** The packet leaves the network the confinement names. */
  predicate Strays(view: seq<Rule>, p: Packet) {
    |Confinement(view)| == 2 && Confinement(view)[1].dest.NotTo? && !Within(p.dst, Confinement(view)[1].dest.net)
  }

  /**
   The verdict by content: a blocked port is dropped, on the loopback too unless the confinement
   stands first; other loopback traffic of a confined user passes, what strays is dropped.
   */
  function Meaning(view: seq<Rule>, p: Packet): Option<Target> {
    if Within(p.dst, LOOPBACK) && Confinement(view) != [] && (IsBlocked(view, p) ==> ConfinedFirst(view))
    then Some(Accept)
    else if IsBlocked(view, p) then Some(Drop)
    else if !Within(p.dst, LOOPBACK) && Strays(view, p) then Some(Drop)
    else None
  }

  lemma {:induction false} VerdictBlocks(uid: nat, blocks: seq<Rule>, p: Packet)
    requires p.uid == uid && forall i :: 0 <= i < |blocks| ==> IsBlock(uid, blocks[i])
    ensures Verdict(blocks, p) ==
            if p.tcp && BlocksPort(blocks, p.dport) then Some(Drop) else None
  {
    hide IsAccepted;
    if blocks != [] {
      VerdictBlocks(uid, blocks[1..], p);
      assert blocks == [blocks[0]] + blocks[1..];
    }
  }

  lemma VerdictConfinement(uid: nat, confine: seq<Rule>, p: Packet)
    requires p.uid == uid && IsConfinement(uid, confine)
    ensures Verdict(confine, p) ==
            if confine == [] then None
            else if Within(p.dst, LOOPBACK) then Some(Accept)
            else if !Within(p.dst, confine[1].dest.net) then Some(Drop)
            else None
  {
    if confine != [] {
      hide Verdict, Within;
      VerdictNet(uid, confine[1].dest.net, p);
    }
  }

  /** The meaning of a shaped view is its first-match verdict. */
  lemma {:induction false} ShapedVerdict(uid: nat, view: seq<Rule>, p: Packet)
    requires Shaped(uid, view) && p.uid == uid
    ensures Verdict(view, p) == Meaning(view, p)
  {
    hide Filter, Verdict, Within, IsAccepted;
    var blocks, confine := Blocks(view), Confinement(view);
    VerdictBlocks(uid, blocks, p);
    VerdictConfinement(uid, confine, p);
    VerdictAppend(blocks, confine, p);
    VerdictAppend(confine, blocks, p);
    if blocks != [] && confine != [] {
      assert view == blocks + confine ==> view[0] == blocks[0];
      assert view == confine + blocks ==> view[0] == confine[0];
    } else {
      assert blocks + [] == [] + blocks == blocks && confine + [] == [] + confine == confine;
    }
  }

  // In the chain.

  /** No rule of anyone else decides about the packet. */
  predicate OthersSilent(host: Host, user: string, rules: seq<Rule>, p: Packet) {
    forall i :: 0 <= i < |rules| && !Selected(host, user, rules[i]) ==> !Decides(rules[i], p)
  }

  lemma VerdictOfView(host: Host, user: string, rules: seq<Rule>, p: Packet)
    requires OthersSilent(host, user, rules, p)
    ensures Verdict(rules, p) == Verdict(View(host, user, rules), p)
  {
    hide Selected, Decides, Verdict;
    VerdictFilter(Mine(host, user), rules, p);
  }

  // Silence is kept: rules appended for users who are apart never carry this user's number.

  lemma {:induction false} AddedSilent(host: Host, user: string, c: Command, scope: Scope, p: Packet)
    requires c.Disable? && user in host.uids && p.uid == host.uids[user]
    requires c.user == user || Apart(host, c.user, user)
    ensures var added := Added(OwnerArg(host, c.user), BlockedPorts(c.ports), scope, NetOf(host, c.iface));
            OthersSilent(host, user, added, p)
  {
    hide OwnerArg, BlockedPorts, Added, NetOf;
    var added := Added(OwnerArg(host, c.user), BlockedPorts(c.ports), scope, NetOf(host, c.iface));
    AddedSelected(host, c.user, BlockedPorts(c.ports), scope, NetOf(host, c.iface));
    forall i | 0 <= i < |added| && !Selected(host, user, added[i])
      ensures !Decides(added[i], p)
    {
      assert Selected(host, c.user, added[i]);
      assert OwnerColumn(host, user, p.uid);
      assert OwnerColumn(host, c.user, added[i].owner.value);
    }
  }

  lemma {:induction false} StepSilent(host: Host, user: string, c: Command, rules: seq<Rule>, p: Packet)
    requires Routed(host, c) && user in host.uids && p.uid == host.uids[user]
    requires c.Disable? || c.Enable? ==> c.user == user || Apart(host, c.user, user)
    requires OthersSilent(host, user, rules, p)
    ensures OthersSilent(host, user, Apply(host, c, rules), p)
  {
    hide Filter, ScopeOf, BlockedPorts, OwnerArg, Added, Decides, Selected, Apart, NetOf;
    if c.Disable? || c.Enable? {
      var scope := ScopeOf(c.onlyPorts);
      FilterHolds(Spared(host, c.user, scope), rules);
      if c.Disable? {
        AddedSilent(host, user, c, scope, p);
      }
    }
  }

  lemma {:induction false} RunSilent(host: Host, user: string, commands: seq<Command>, rules: seq<Rule>, p: Packet)
    requires user in host.uids && p.uid == host.uids[user]
    requires forall i :: 0 <= i < |commands| ==> Routed(host, commands[i])
    requires forall i :: 0 <= i < |commands| && (commands[i].Disable? || commands[i].Enable?) ==>
               commands[i].user == user || Apart(host, commands[i].user, user)
    requires OthersSilent(host, user, rules, p)
    ensures OthersSilent(host, user, Run(host, commands, rules), p)
    decreases |commands|
  {
    hide Apply, Apart, Routed, OthersSilent;
    if commands != [] {
      StepSilent(host, user, commands[0], rules, p);
      RunSilent(host, user, commands[1..], Apply(host, commands[0], rules), p);
    }
  }

  /**
   After any run of the program with complete listings, for any users' commands: what the rules
   mean to a packet of one of them on whom no one else's rule decides at the start.
   */
  lemma {:induction false} RunVerdict(host: Host, user: string, commands: seq<Command>, rules: seq<Rule>, p: Packet)
    requires user in host.uids && p.uid == host.uids[user]
    requires forall i :: 0 <= i < |commands| ==> Routed(host, commands[i])
    requires forall i :: 0 <= i < |commands| && (commands[i].Disable? || commands[i].Enable?) ==>
               commands[i].user == user || Apart(host, commands[i].user, user)
    requires AllFit(host, commands, rules)
    requires Shaped(host.uids[user], View(host, user, rules)) && OthersSilent(host, user, rules, p)
    ensures Verdict(PerformAll(host, commands, rules), p) ==
            Meaning(Run(host, CommandsOf(user, commands), View(host, user, rules)), p)
  {
    hide Shaped, View, Run, PerformAll, AllFit, Apart, Routed, OthersSilent, Meaning, Verdict;
    RunFits(host, commands, rules);
    RunSilent(host, user, commands, rules, p);
    RunShaped(host, user, commands, rules);
    RunView(host, user, commands, rules);
    VerdictOfView(host, user, Run(host, commands, rules), p);
    ShapedVerdict(p.uid, View(host, user, Run(host, commands, rules)), p);
  }

  lemma {:induction false} KeptVerdict(host: Host, user: string, rules: seq<Rule>, p: Packet)
    requires user in host.uids && p.uid == host.uids[user]
    requires Shaped(p.uid, View(host, user, rules)) && OthersSilent(host, user, rules, p)
    ensures Verdict(Without(host, user, TcpOnly, rules), p) == Verdict(Confinement(View(host, user, rules)), p)
  {
    hide Filter, Shaped, Verdict, Decides, Victim, Selected;
    var kept := Without(host, user, TcpOnly, rules);
    FilterHolds(Spared(host, user, TcpOnly), rules);
    assert OthersSilent(host, user, kept, p);
    VerdictOfView(host, user, kept, p);
    FilterSwap(Mine(host, user), Spared(host, user, TcpOnly), rules);
    ShapedFlush(host, user, TcpOnly, p.uid, View(host, user, rules));
  }

  /** What a ports-only disable means to every packet of a user without deciding rules of others. */
  lemma {:induction false} PortsMeaning(host: Host, c: Command, rules: seq<Rule>, p: Packet)
    requires c.Disable? && Routed(host, c) && ScopeOf(c.onlyPorts).TcpOnly?
    requires c.user in host.uids && p.uid == host.uids[c.user]
    requires Shaped(p.uid, View(host, c.user, rules)) && OthersSilent(host, c.user, rules, p)
    ensures var view := View(host, c.user, rules);
            Verdict(Apply(host, c, rules), p) ==
            if Confinement(view) != [] && Within(p.dst, LOOPBACK) then Some(Accept)
            else if p.tcp && Covered(BlockedPorts(c.ports), p.dport) then Some(Drop)
            else if !Within(p.dst, LOOPBACK) && Strays(view, p) then Some(Drop)
            else None
  {
    hide Filter, ScopeOf, BlockedPorts, Verdict, Within, OthersSilent;
    PortsVerdict(host, c, rules, p);
    KeptVerdict(host, c.user, rules, p);
    VerdictConfinement(p.uid, Confinement(View(host, c.user, rules)), p);
  }

  /** Ports-only blocking reaches the loopback if and only if the user is not confined already. */
  lemma {:induction false} PortsOnLoopbackIff(host: Host, c: Command, rules: seq<Rule>, p: Packet)
    requires c.Disable? && Routed(host, c) && ScopeOf(c.onlyPorts).TcpOnly?
    requires c.user in host.uids && p.uid == host.uids[c.user]
    requires Shaped(p.uid, View(host, c.user, rules)) && OthersSilent(host, c.user, rules, p)
    requires p.tcp && Covered(BlockedPorts(c.ports), p.dport) && Within(p.dst, LOOPBACK)
    ensures Verdict(Apply(host, c, rules), p) == Some(Drop) <==> Confinement(View(host, c.user, rules)) == []
  {
    hide Shaped, View, OthersSilent, Apply, Verdict, Filter, BlockedPorts, ScopeOf, Routed;
    PortsMeaning(host, c, rules, p);
  }
}
