/**
 The network controller of a terminal server: per-user rules in the one OUTPUT chain.
 iptables and the listing pipeline around it are foreign; they enter as `-A`, `-D` and
 the text of a listing.
 */
module Firewall {
  import opened CText
  import opened Options
  import opened Tokens

  /** A range of addresses, as a CIDR block denotes one. */
  datatype Network = Network(first: nat, last: nat)

  predicate Within(address: nat, net: Network) {
    net.first <= address <= net.last
  }

  const LOOPBACK := Network(0x7F00_0000, 0x7FFF_FFFF)

  datatype Proto = AnyProto | Tcp | OtherProto
  datatype Dest = Anywhere | To(net: Network) | NotTo(net: Network)
  datatype Target = Accept | Drop | Log

  /** The destination ports of a rule. */
  datatype Ports = Ports(first: nat, last: nat)

  predicate Covers(ports: Ports, port: nat) {
    ports.first <= port <= ports.last
  }

  predicate Covered(list: seq<Ports>, port: nat) {
    exists i :: 0 <= i < |list| && Covers(list[i], port)
  }

  /** A rule of the chain; `tagged` is the TCOS_TNC comment. */
  datatype Rule = Rule(tagged: bool, owner: Option<nat>, proto: Proto, dport: Option<Ports>, dest: Dest, target: Target)

  /** The password database and the networks the kernel routes through each interface. */
  datatype Host = Host(uids: map<string, nat>, nets: map<string, Network>)

  const FORBIDDEN: set<int> := {8998, 8999}
  const LINE := 1024

  // Reading arguments.

  predicate IsNumeral(s: string) {
    s != [] && AllDigits(s) && (|s| > 1 ==> s[0] != '0')
  }

  /** get_uid: an unknown name counts as root. */
  function GetUid(host: Host, user: string): nat {
    if user in host.uids then host.uids[user] else 0
  }

  /** What iptables makes of --uid-owner: a name, else a number, else an error. */
  function OwnerArg(host: Host, user: string): Option<nat> {
    if user in host.uids then Some(host.uids[user])
    else if IsNumeral(user) then Some(NatValue(user))
    else None
  }

  datatype Scope = AllRules | TcpOnly

  /** The text behind the 13 characters of `--only-ports=`. */
  function ScopeOf(onlyPorts: string): Scope {
    if |onlyPorts| >= 13 && onlyPorts[13..] == "no" then AllRules else TcpOnly
  }

  predicate Contains(s: string, w: string) {
    w <= s || (s != [] && Contains(s[1..], w))
  }

  predicate HasPorts(arg: string) {
    Contains(arg, "--ports=")
  }

  lemma {:induction false} ContainsLength(s: string, w: string)
    requires Contains(s, w)
    ensures |w| <= |s|
  {
    if !(w <= s) {
      ContainsLength(s[1..], w);
    }
  }

  /** The tokens behind the 8 characters of `--ports=`. */
  function PortTokens(arg: string): seq<string> {
    if |arg| < 8 then [] else First(MAXTOKENS - 1, Runs(arg[8..], {','}))
  }

  predicate PortAllowed(port: string) {
    1 <= Atoi(port) <= 65535 && Atoi(port) !in FORBIDDEN
  }

  /** A port number as iptables takes it; texts that are no plain numeral of a port are refused. */
  function PortNumber(s: string): Option<nat> {
    if IsNumeral(s) && NatValue(s) <= 65535 then Some(NatValue(s)) else None
  }

  /** The ports iptables reads: a number, or two with a colon between, of which either may be missing. */
  function Dport(port: string): Option<Ports> {
    var n := Before(port, ':');
    if n == |port| then
      var only := PortNumber(port);
      if only.Some? then Some(Ports(only.value, only.value)) else None
    else
      var first := if n == 0 then Some(0) else PortNumber(port[..n]);
      var last := if n + 1 == |port| then Some(65535) else PortNumber(port[n + 1..]);
      if first.Some? && last.Some? && first.value <= last.value then Some(Ports(first.value, last.value)) else None
  }

  // Which rules belong to whom.

  /** The awk test on the owner column: the number or the name itself. */
  predicate OwnerColumn(host: Host, user: string, owner: nat) {
    owner == GetUid(host, user) || PrintNat(owner) == user
  }

  predicate Selected(host: Host, user: string, r: Rule) {
    r.tagged && r.owner.Some? && OwnerColumn(host, user, r.owner.value)
  }

  predicate Victim(host: Host, user: string, scope: Scope, r: Rule) {
    Selected(host, user, r) && (scope.AllRules? || r.proto.Tcp?)
  }

  function Filter(p: Rule -> bool, rules: seq<Rule>): seq<Rule> {
    if rules == [] then [] else (if p(rules[0]) then [rules[0]] else []) + Filter(p, rules[1..])
  }

  function Spared(host: Host, user: string, scope: Scope): Rule -> bool {
    r => !Victim(host, user, scope, r)
  }

  /** The chain without the rules a flush is to delete. */
  function Without(host: Host, user: string, scope: Scope, rules: seq<Rule>): seq<Rule> {
    Filter(Spared(host, user, scope), rules)
  }

  predicate Reported(host: Host, user: string, rules: seq<Rule>) {
    exists i :: 0 <= i < |rules| && Selected(host, user, rules[i])
  }

  // The listing: rule numbers, last first, each followed by a space.

  function Descending(host: Host, user: string, scope: Scope, rules: seq<Rule>): seq<nat> {
    if rules == [] then []
    else
      var n := |rules|;
      (if Victim(host, user, scope, rules[n - 1]) then [n] else []) + Descending(host, user, scope, rules[..n - 1])
  }

  function Numerals(numbers: seq<nat>): (r: seq<string>)
    ensures |r| == |numbers|
    ensures forall i :: 0 <= i < |r| ==> r[i] == PrintNat(numbers[i])
  {
    seq(|numbers|, i requires 0 <= i < |numbers| => PrintNat(numbers[i]))
  }

  function ListingText(host: Host, user: string, scope: Scope, rules: seq<Rule>): string {
    Terminate(Numerals(Descending(host, user, scope, rules)), ' ')
  }

  /** The numbers survive the 1024-byte line and the 256-entry token array. */
  predicate ListingFits(host: Host, user: string, scope: Scope, rules: seq<Rule>) {
    var numbers := Descending(host, user, scope, rules);
    |numbers| < MAXTOKENS && |Terminate(Numerals(numbers), ' ')| <= LINE
  }

  // -D by rule number.

  function DeleteAt(rules: seq<Rule>, number: nat): seq<Rule> {
    if 1 <= number <= |rules| then rules[..number - 1] + rules[number..] else rules
  }

  function DeleteText(rules: seq<Rule>, number: string): seq<Rule> {
    if IsNumeral(number) then DeleteAt(rules, NatValue(number)) else rules
  }

  function DeleteTexts(rules: seq<Rule>, numbers: seq<string>): seq<Rule> {
    if numbers == [] then rules else DeleteTexts(DeleteText(rules, numbers[0]), numbers[1..])
  }

  /** The tokens a flush reads: what fgets and split leave of the listing. */
  function CutTokens(host: Host, user: string, scope: Scope, rules: seq<Rule>): seq<string> {
    First(MAXTOKENS - 1, Runs(First(LINE - 1, ListingText(host, user, scope, rules)), {' '}))
  }

  /** What a flush leaves of the chain, whether or not the listing fits. */
  function Flushed(host: Host, user: string, scope: Scope, rules: seq<Rule>): seq<Rule> {
    if Reported(host, user, rules) then DeleteTexts(rules, CutTokens(host, user, scope, rules)) else rules
  }

  // What disable-internet appends.

  function PortRule(uid: nat, ports: Ports): Rule {
    Rule(true, Some(uid), Tcp, Some(ports), Anywhere, Drop)
  }

  function PortRules(uid: nat, ports: seq<Ports>): (r: seq<Rule>)
    ensures |r| == |ports|
    ensures forall i :: 0 <= i < |r| ==> r[i] == PortRule(uid, ports[i])
  {
    seq(|ports|, i requires 0 <= i < |ports| => PortRule(uid, ports[i]))
  }

  function NetRules(uid: nat, net: Network): seq<Rule> {
    [Rule(true, Some(uid), AnyProto, None, To(LOOPBACK), Accept),
     Rule(true, Some(uid), AnyProto, None, NotTo(net), Drop)]
  }

  /** The ports that pass the check, in the order given. */
  function AcceptedPorts(tokens: seq<string>): seq<Ports> {
    if tokens == [] then []
    else
      (if PortAllowed(tokens[0]) && Dport(tokens[0]).Some? then [Dport(tokens[0]).value] else [])
      + AcceptedPorts(tokens[1..])
  }

  function BlockedPorts(arg: string): seq<Ports> {
    if HasPorts(arg) then AcceptedPorts(PortTokens(arg)) else []
  }

  function Added(owner: Option<nat>, ports: seq<Ports>, scope: Scope, net: Network): seq<Rule> {
    if owner.None? then []
    else PortRules(owner.value, ports) + if scope.AllRules? then NetRules(owner.value, net) else []
  }

  // One command.

  datatype Command =
    | Disable(onlyPorts: string, ports: string, iface: string, user: string)
    | Enable(onlyPorts: string, user: string)
    | Status(user: string)
    | Foreign
    | Other

  /** Foreign are the commands that set routes or print an address. */
  function ParseCommand(argv: seq<string>): Command
    requires |argv| >= 2
  {
    if argv[1] == "disable-internet" && |argv| == 6 then Disable(argv[2], argv[3], argv[4], argv[5])
    else if argv[1] == "enable-internet" && |argv| == 4 then Enable(argv[2], argv[3])
    else if argv[1] == "status" && |argv| == 3 then Status(argv[2])
    else if argv[1] == "route-add" && |argv| == 5 then Foreign
    else if argv[1] == "route-del" && |argv| == 5 then Foreign
    else if argv[1] == "ip" && |argv| == 3 then Foreign
    else Other
  }

  /**
   The interface named has a route when its network is used; without one a full disable passes
   on an unset buffer.
   */
  predicate Routed(host: Host, c: Command) {
    c.Disable? && ScopeOf(c.onlyPorts).AllRules? ==> c.iface in host.nets
  }

  /** The network behind an interface; what stands for a missing one is never looked at. */
  function NetOf(host: Host, iface: string): Network {
    if iface in host.nets then host.nets[iface] else LOOPBACK
  }

  /** What a command does to the chain, cut listings included. A disable that appends nothing flushes again. */
  function Perform(host: Host, c: Command, rules: seq<Rule>): seq<Rule>
    requires Routed(host, c)
  {
    match c
    case Disable(onlyPorts, ports, iface, user) =>
      var scope := ScopeOf(onlyPorts);
      var kept := Flushed(host, user, scope, rules);
      if HasPorts(ports) || scope.AllRules?
      then kept + Added(OwnerArg(host, user), BlockedPorts(ports), scope, NetOf(host, iface))
      else Flushed(host, user, scope, kept)
    case Enable(onlyPorts, user) => Flushed(host, user, ScopeOf(onlyPorts), rules)
    case _ => rules
  }

  function PerformAll(host: Host, commands: seq<Command>, rules: seq<Rule>): seq<Rule>
    requires forall i :: 0 <= i < |commands| ==> Routed(host, commands[i])
  {
    if commands == [] then rules else PerformAll(host, commands[1..], Perform(host, commands[0], rules))
  }

  /** What a command is to do to the chain. */
  function Apply(host: Host, c: Command, rules: seq<Rule>): seq<Rule>
    requires Routed(host, c)
  {
    match c
    case Disable(onlyPorts, ports, iface, user) =>
      var scope := ScopeOf(onlyPorts);
      Without(host, user, scope, rules)
      + Added(OwnerArg(host, user), BlockedPorts(ports), scope, NetOf(host, iface))
    case Enable(onlyPorts, user) => Without(host, user, ScopeOf(onlyPorts), rules)
    case _ => rules
  }

  /** What a command prints. */
  function Answer(host: Host, c: Command, rules: seq<Rule>): string {
    match c
    case Disable(onlyPorts, ports, _, _) =>
      if HasPorts(ports) || ScopeOf(onlyPorts).AllRules? then "disabled" else "disable-error"
    case Enable(_, _) => "enabled"
    case Status(user) => if Reported(host, user, rules) then "disabled" else "enabled"
    case _ => ""
  }

  /** The listing of the flush a command makes is not cut. */
  predicate CommandFits(host: Host, c: Command, rules: seq<Rule>) {
    match c
    case Disable(onlyPorts, _, _, user) => ListingFits(host, user, ScopeOf(onlyPorts), rules)
    case Enable(onlyPorts, user) => ListingFits(host, user, ScopeOf(onlyPorts), rules)
    case _ => true
  }

  function Run(host: Host, commands: seq<Command>, rules: seq<Rule>): seq<Rule>
    requires forall i :: 0 <= i < |commands| ==> Routed(host, commands[i])
  {
    if commands == [] then rules else Run(host, commands[1..], Apply(host, commands[0], rules))
  }
}
