/** Many users share the chain: what each one sees of a run depends on the commands naming him alone. */
module FirewallRuns {
  import opened CText
  import opened Options
  import opened Firewall
  import opened FirewallFlush
  import opened FirewallPorts
  import opened FirewallTheory
  import opened FirewallCut

  function Mine(host: Host, user: string): Rule -> bool {
    r => Selected(host, user, r)
  }

  /** The user's own rules, in chain order. */
  function View(host: Host, user: string, rules: seq<Rule>): seq<Rule> {
    Filter(Mine(host, user), rules)
  }

  predicate Names(c: Command, user: string) {
    (c.Disable? || c.Enable?) && c.user == user
  }

  function CommandsOf(user: string, commands: seq<Command>): (r: seq<Command>)
    ensures forall i :: 0 <= i < |r| ==> r[i] in commands && Names(r[i], user)
  {
    if commands == [] then []
    else (if Names(commands[0], user) then [commands[0]] else []) + CommandsOf(user, commands[1..])
  }

  /** No owner number is selected for both users. */
  ghost predicate Apart(host: Host, u: string, v: string) {
    forall owner: nat :: !(OwnerColumn(host, u, owner) && OwnerColumn(host, v, owner))
  }

  /** Known users whose names are no numerals are apart exactly when their numbers differ. */
  lemma {:induction false} ApartIff(host: Host, u: string, v: string)
    requires u in host.uids && v in host.uids && !IsNumeral(u) && !IsNumeral(v)
    ensures Apart(host, u, v) <==> host.uids[u] != host.uids[v]
  {
    hide PrintNat, IsNumeral;
    forall owner: nat
      ensures PrintNat(owner) != u && PrintNat(owner) != v
    {
      PrintIsNumeral(owner);
    }
    if host.uids[u] == host.uids[v] {
      assert OwnerColumn(host, u, host.uids[u]) && OwnerColumn(host, v, host.uids[u]);
    }
  }

  lemma {:induction false} StepView(host: Host, user: string, c: Command, rules: seq<Rule>)
    requires Routed(host, c)
    requires (c.Disable? || c.Enable?) ==> c.user == user || Apart(host, c.user, user)
    ensures View(host, user, Apply(host, c, rules)) ==
            if Names(c, user) then Apply(host, c, View(host, user, rules)) else View(host, user, rules)
  {
    hide Filter, ScopeOf, BlockedPorts, OwnerArg, Added;
    var p := Mine(host, user);
    if Names(c, user) {
      hide Selected;
      var scope := ScopeOf(c.onlyPorts);
      FilterSwap(p, Spared(host, user, scope), rules);
      if c.Disable? {
        var added := Added(OwnerArg(host, user), BlockedPorts(c.ports), scope, NetOf(host, c.iface));
        AddedSelected(host, user, BlockedPorts(c.ports), scope, NetOf(host, c.iface));
        FilterAppend(p, Without(host, user, scope, rules), added);
        FilterAll(p, added);
      }
    } else {
      hide OwnerColumn, Apply;
      forall r: Rule | p(r)
        ensures !Touches(host, c, r)
      {
      }
      StepFrame(host, c, p, rules);
    }
  }

  /** What a user sees after a run is a run of his own commands on what he saw before. */
  lemma {:induction false} RunView(host: Host, user: string, commands: seq<Command>, rules: seq<Rule>)
    requires forall i :: 0 <= i < |commands| ==> Routed(host, commands[i])
    requires forall i :: 0 <= i < |commands| && (commands[i].Disable? || commands[i].Enable?) ==>
               commands[i].user == user || Apart(host, commands[i].user, user)
    ensures View(host, user, Run(host, commands, rules)) ==
            Run(host, CommandsOf(user, commands), View(host, user, rules))
    decreases |commands|
  {
    hide View, Apply, Apart, Names, Routed;
    if commands != [] {
      var c := commands[0];
      StepView(host, user, c, rules);
      RunView(host, user, commands[1..], Apply(host, c, rules));
      OwnCommands(user, commands);
    }
  }

  lemma OwnCommands(user: string, commands: seq<Command>)
    requires commands != []
    ensures Names(commands[0], user) ==>
              var own := CommandsOf(user, commands);
              own != [] && own[0] == commands[0] && own[1..] == CommandsOf(user, commands[1..])
    ensures !Names(commands[0], user) ==> CommandsOf(user, commands) == CommandsOf(user, commands[1..])
  {
    hide Names;
    assert ([commands[0]] + CommandsOf(user, commands[1..]))[1..] == CommandsOf(user, commands[1..]);
  }

  // The shape a user's rules have at any point of any run.

  function OnlyTcp(): Rule -> bool {
    (r: Rule) => r.proto.Tcp?
  }

  function NotTcp(): Rule -> bool {
    (r: Rule) => !r.proto.Tcp?
  }

  predicate IsBlock(uid: nat, r: Rule) {
    r.dport.Some? && r == PortRule(uid, r.dport.value) && IsAccepted(r.dport.value)
  }

  predicate IsConfinement(uid: nat, rules: seq<Rule>) {
    rules == [] || (|rules| == 2 && rules[1].dest.NotTo? && rules == NetRules(uid, rules[1].dest.net))
  }

  /** Port blocks and at most one confinement to a network, either group in front of the other. */
  predicate Shaped(uid: nat, view: seq<Rule>) {
    var blocks, confine := Filter(OnlyTcp(), view), Filter(NotTcp(), view);
    && (forall i :: 0 <= i < |blocks| ==> IsBlock(uid, blocks[i]))
    && IsConfinement(uid, confine)
    && (view == blocks + confine || view == confine + blocks)
  }

  lemma {:induction false} ShapedFrom(uid: nat, blocks: seq<Rule>, confine: seq<Rule>, view: seq<Rule>)
    requires forall i :: 0 <= i < |blocks| ==> IsBlock(uid, blocks[i])
    requires IsConfinement(uid, confine)
    requires view == blocks + confine || view == confine + blocks
    ensures Shaped(uid, view)
  {
    hide Filter, IsAccepted;
    FilterAll(OnlyTcp(), blocks);
    FilterNone(NotTcp(), blocks);
    FilterNone(OnlyTcp(), confine);
    FilterAll(NotTcp(), confine);
    FilterAppend(OnlyTcp(), blocks, confine);
    FilterAppend(NotTcp(), blocks, confine);
    FilterAppend(OnlyTcp(), confine, blocks);
    FilterAppend(NotTcp(), confine, blocks);
    assert blocks + [] == [] + blocks == blocks && confine + [] == [] + confine == confine;
  }

  lemma {:induction false} BlocksAreBlocks(uid: nat, arg: string)
    ensures var blocks := PortRules(uid, BlockedPorts(arg));
            forall i :: 0 <= i < |blocks| ==> IsBlock(uid, blocks[i])
  {
    hide HasPorts, PortTokens, AcceptedPorts;
    AcceptedRanges(PortTokens(arg));
  }

  /** A flush of a shaped view leaves the confinement, or nothing. */
  lemma {:induction false} ShapedFlush(host: Host, user: string, scope: Scope, uid: nat, view: seq<Rule>)
    requires Shaped(uid, view) && OwnerColumn(host, user, uid)
    ensures Without(host, user, scope, view) == if scope.AllRules? then [] else Filter(NotTcp(), view)
  {
    var p := Spared(host, user, scope);
    var blocks, confine := Filter(OnlyTcp(), view), Filter(NotTcp(), view);
    hide Filter, OwnerColumn, IsAccepted;
    assert forall i :: 0 <= i < |blocks| ==> Selected(host, user, blocks[i]) && blocks[i].proto == Tcp;
    assert forall i :: 0 <= i < |confine| ==> Selected(host, user, confine[i]) && confine[i].proto != Tcp;
    FilterNone(p, blocks);
    if scope.AllRules? {
      FilterNone(p, confine);
    } else {
      FilterAll(p, confine);
    }
    FilterAppend(p, blocks, confine);
    FilterAppend(p, confine, blocks);
    assert confine + [] == [] + confine == confine;
  }

  lemma {:induction false} StepShaped(host: Host, user: string, c: Command, view: seq<Rule>)
    requires Routed(host, c) && Names(c, user) && OwnerArg(host, user).Some?
    requires OwnerColumn(host, user, OwnerArg(host, user).value) && Shaped(OwnerArg(host, user).value, view)
    ensures Shaped(OwnerArg(host, user).value, Apply(host, c, view))
  {
    hide Filter, OwnerArg, OwnerColumn, ScopeOf, BlockedPorts, IsBlock, PortRules, NetRules;
    var uid, scope := OwnerArg(host, user).value, ScopeOf(c.onlyPorts);
    var confine := Filter(NotTcp(), view);
    ShapedFlush(host, user, scope, uid, view);
    if c.Enable? {
      ShapedFrom(uid, [], if scope.AllRules? then [] else confine, Apply(host, c, view));
    } else {
      var blocks, net := PortRules(uid, BlockedPorts(c.ports)), NetOf(host, c.iface);
      BlocksAreBlocks(uid, c.ports);
      if scope.AllRules? {
        ConfinementOf(uid, net);
        assert [] + (blocks + NetRules(uid, net)) == blocks + NetRules(uid, net);
        ShapedFrom(uid, blocks, NetRules(uid, net), Apply(host, c, view));
      } else {
        assert blocks + [] == blocks;
        ShapedFrom(uid, blocks, confine, Apply(host, c, view));
      }
    }
  }

  lemma ConfinementOf(uid: nat, net: Network)
    ensures IsConfinement(uid, NetRules(uid, net))
  {}

  lemma {:induction false} OwnRunShaped(host: Host, user: string, commands: seq<Command>, view: seq<Rule>)
    requires OwnerArg(host, user).Some? && OwnerColumn(host, user, OwnerArg(host, user).value)
    requires forall i :: 0 <= i < |commands| ==> Routed(host, commands[i]) && Names(commands[i], user)
    requires Shaped(OwnerArg(host, user).value, view)
    ensures Shaped(OwnerArg(host, user).value, Run(host, commands, view))
    decreases |commands|
  {
    hide Shaped, Apply, OwnerArg, OwnerColumn, Names, Routed;
    if commands != [] {
      StepShaped(host, user, commands[0], view);
      OwnRunShaped(host, user, commands[1..], Apply(host, commands[0], view));
    }
  }

  /**
   Over any run of any users' commands, a user who is apart from the others has port blocks
   for blockable ports and at most one confinement, in one of two orders, if it was so before.
   */
  lemma {:induction false} RunShaped(host: Host, user: string, commands: seq<Command>, rules: seq<Rule>)
    requires user in host.uids
    requires forall i :: 0 <= i < |commands| ==> Routed(host, commands[i])
    requires forall i :: 0 <= i < |commands| && (commands[i].Disable? || commands[i].Enable?) ==>
               commands[i].user == user || Apart(host, commands[i].user, user)
    requires Shaped(host.uids[user], View(host, user, rules))
    ensures Shaped(host.uids[user], View(host, user, Run(host, commands, rules)))
  {
    hide Shaped, View, Run, Apart, Routed;
    RunView(host, user, commands, rules);
    OwnRunShaped(host, user, CommandsOf(user, commands), View(host, user, rules));
  }

  // What the program does.

  /** With complete listings, what a user sees after a run of the program is a run of his own commands. */
  lemma {:induction false} ProgramView(host: Host, user: string, commands: seq<Command>, rules: seq<Rule>)
    requires forall i :: 0 <= i < |commands| ==> Routed(host, commands[i])
    requires forall i :: 0 <= i < |commands| && (commands[i].Disable? || commands[i].Enable?) ==>
               commands[i].user == user || Apart(host, commands[i].user, user)
    requires AllFit(host, commands, rules)
    ensures View(host, user, PerformAll(host, commands, rules)) ==
            Run(host, CommandsOf(user, commands), View(host, user, rules))
  {
    hide View, Run, PerformAll, Apart, Routed, AllFit;
    RunFits(host, commands, rules);
    RunView(host, user, commands, rules);
  }

  /** With complete listings the shape is kept over any run of the program. */
  lemma {:induction false} ProgramShaped(host: Host, user: string, commands: seq<Command>, rules: seq<Rule>)
    requires user in host.uids
    requires forall i :: 0 <= i < |commands| ==> Routed(host, commands[i])
    requires forall i :: 0 <= i < |commands| && (commands[i].Disable? || commands[i].Enable?) ==>
               commands[i].user == user || Apart(host, commands[i].user, user)
    requires AllFit(host, commands, rules)
    requires Shaped(host.uids[user], View(host, user, rules))
    ensures Shaped(host.uids[user], View(host, user, PerformAll(host, commands, rules)))
  {
    hide Shaped, View, Run, PerformAll, Apart, Routed, AllFit;
    RunFits(host, commands, rules);
    RunShaped(host, user, commands, rules);
  }

  /** A flush of everything leaves nothing of the user's to see if and only if its listing fits. */
  lemma {:induction false} FlushedView(host: Host, user: string, rules: seq<Rule>)
    ensures View(host, user, Flushed(host, user, AllRules, rules)) == [] <==> ListingFits(host, user, AllRules, rules)
  {
    hide Filter, ListingFits, Selected, CutTokens, DeleteTexts;
    var kept := Flushed(host, user, AllRules, rules);
    FlushedIffFits(host, user, AllRules, rules);
    if ListingFits(host, user, AllRules, rules) {
      FilterHolds(Spared(host, user, AllRules), rules);
      FilterNone(Mine(host, user), kept);
    } else {
      CutLeaves(host, user, AllRules, rules);
      NotReportedFits(host, user, AllRules, rules);
      var r :| r in kept && Victim(host, user, AllRules, r);
      FilterKeeps(Mine(host, user), kept, r);
    }
  }

  /**
   On any chain, whatever came before: a full disable of the program alone decides what the user
   sees if and only if its listing fits.
   */
  lemma {:induction false} LastFullDisableWins(host: Host, c: Command, rules: seq<Rule>)
    requires c.Disable? && Routed(host, c) && ScopeOf(c.onlyPorts).AllRules? && c.user in host.uids
    ensures var uid := host.uids[c.user];
            View(host, c.user, Perform(host, c, rules)) ==
            PortRules(uid, BlockedPorts(c.ports)) + NetRules(uid, NetOf(host, c.iface))
            <==> CommandFits(host, c, rules)
  {
    hide Filter, ScopeOf, BlockedPorts, Selected, Flushed, ListingFits, HasPorts;
    var p, kept := Mine(host, c.user), Flushed(host, c.user, AllRules, rules);
    var added := Added(OwnerArg(host, c.user), BlockedPorts(c.ports), AllRules, NetOf(host, c.iface));
    FlushedView(host, c.user, rules);
    AddedSelected(host, c.user, BlockedPorts(c.ports), AllRules, NetOf(host, c.iface));
    FilterAll(p, added);
    FilterAppend(p, kept, added);
    assert [] + added == added;
    assert View(host, c.user, kept) + added == added ==> |View(host, c.user, kept)| == 0;
  }
}
