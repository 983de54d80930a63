// The part of nftables the rulesets use: rules as data, first terminating verdict wins inside a
// base chain, and a packet passes a hook only if every base chain on it lets the packet pass.
module Nft {
  import opened Wrappers
  import opened Packets

  datatype Match =
    | NfprotoIpv6
    | IpDaddr(negated: bool, set4: Set4)
    | Ip6Daddr(negated: bool, set6: Set6)
    | IpProtocolTcp
    | L4Proto(protos: set<Proto>)
    | Dport(proto: Proto, port: nat)
    | Skuid(negated: bool, uid: nat)
    | Skgid(gid: nat)
    | BypassSlice
    | CtOriginal
    | CtOriginalDport(port: nat)
    | FibLocal
    | OifLo(negated: bool)
    | IifLo

  datatype Counter =
    DnsRedirected | TcpRedirected | DotRejected | DohRejected | CleartextRejected | DnsUnredirectedRejected

  datatype Verdict = Accept | Drop | Reject | RejectReset | DnatIp(to4: nat, port: nat) | DnatIp6(to6: nat, port: nat)

  /** The tests of one rule, in order; a rule without tests always matches. */
  datatype Guard = Always | If(t: Match) | If2(t1: Match, t2: Match) | If4(u1: Match, u2: Match, u3: Match, u4: Match)

  datatype Rule = Rule(guard: Guard, counter: Option<Counter>, verdict: Verdict)

  predicate Holds(m: Match, e: Env, p: Packet) {
    match m
    case NfprotoIpv6 => p.dst.V6?
    case IpDaddr(negated, s) => p.dst.V4? && s.Has(p.dst.bits) != negated
    case Ip6Daddr(negated, s) => p.dst.V6? && s.Has(p.dst.bits) != negated
    case IpProtocolTcp => p.dst.V4? && p.proto == Tcp
    case L4Proto(protos) => p.proto in protos
    case Dport(proto, port) => p.proto == proto && p.dport == port
    case Skuid(negated, uid) => p.sender.Some? && (p.sender.value.uid == uid) != negated
    case Skgid(gid) => p.sender.Some? && p.sender.value.gid == gid
    case BypassSlice => p.sender.Some? && p.sender.value.slice
    case CtOriginal => p.original
    case CtOriginalDport(port) => p.origDport == port
    case FibLocal => e.isLocal(p.dst)
    case OifLo(negated) => e.viaLo(p.dst) != negated
    case IifLo => p.inLo
  }

  /** `dnat ip` acts only on IPv4 packets and `dnat ip6` only on IPv6 packets. */
  predicate Applies(v: Verdict, p: Packet) {
    (v.DnatIp? ==> p.dst.V4?) && (v.DnatIp6? ==> p.dst.V6?)
  }

  predicate AllHold(g: Guard, e: Env, p: Packet) {
    match g
    case Always => true
    case If(a) => Holds(a, e, p)
    case If2(a, b) => Holds(a, e, p) && Holds(b, e, p)
    case If4(a, b, c, d) => Holds(a, e, p) && Holds(b, e, p) && Holds(c, e, p) && Holds(d, e, p)
  }

  predicate Fires(r: Rule, e: Env, p: Packet) {
    AllHold(r.guard, e, p) && Applies(r.verdict, p)
  }

  /** What a chain decided, and the named counter the deciding rule carries. */
  datatype Decision = Decision(verdict: Verdict, counter: Option<Counter>)

  function Decide(rules: seq<Rule>, e: Env, p: Packet): Option<Decision> {
    if rules == [] then None
    else if Fires(rules[0], e, p) then Some(Decision(rules[0].verdict, rules[0].counter))
    else Decide(rules[1..], e, p)
  }

  function OrElse(first: Option<Decision>, second: Option<Decision>): Option<Decision> {
    if first.Some? then first else second
  }

  lemma {:induction false} DecideConcat(a: seq<Rule>, b: seq<Rule>, e: Env, p: Packet)
    ensures Decide(a + b, e, p) == OrElse(Decide(a, e, p), Decide(b, e, p))
  {
    if a == [] {
      assert a + b == b;
    } else {
      assert (a + b)[1..] == a[1..] + b;
      DecideConcat(a[1..], b, e, p);
    }
  }

  lemma DecideOne(r: Rule, e: Env, p: Packet)
    ensures Decide([r], e, p) == if Fires(r, e, p) then Some(Decision(r.verdict, r.counter)) else None
  {
    assert [r][1..] == [];
  }

  // ---------------------------------------------------------------- chains and tables

  datatype Hook = Prerouting | Input | Forward | Output

  datatype ChainType = Filter | Nat | Route

  /**
   * A chain of a table. A chain without a hook is never traversed, and a chain scoped to a
   * device or carrying hardware flags cannot be relied on to see a packet.
   */
  datatype Chain = Chain(
    ctype: ChainType, hook: Option<Hook>, prio: int, policyDrop: bool, scoped: bool, rules: seq<Rule>)

  datatype Table = Table(dormant: bool, chains: map<string, Chain>)

  /** The packet after a NAT chain's decision; the first binding translates the connection. */
  function Rewrite(d: Option<Decision>, p: Packet): Packet {
    match d
    case Some(Decision(DnatIp(to, port), _)) => p.(dst := V4(to), dport := port)
    case Some(Decision(DnatIp6(to, port), _)) => p.(dst := V6(to), dport := port)
    case _ => p
  }

  predicate Lets(d: Option<Decision>, policyDrop: bool) {
    match d
    case None => !policyDrop
    case Some(decision) => !(decision.verdict.Drop? || decision.verdict.Reject? || decision.verdict.RejectReset?)
  }

  /** The packet the filter chains of the output hook see: the table's NAT output chain ran first. */
  function AfterNat(t: Table, e: Env, p: Packet): Packet {
    if "output" in t.chains && t.chains["output"].ctype == Nat && t.chains["output"].hook == Some(Output)
    then Rewrite(Decide(t.chains["output"].rules, e, p), p)
    else p
  }

  predicate ChainLets(c: Chain, e: Env, p: Packet) {
    c.scoped || Lets(Decide(c.rules, e, p), c.policyDrop)
  }

  /** Base chains of a hook that must let a packet pass; `p` is the packet before NAT, `q` after it. */
  predicate HookLets(t: Table, h: Hook, e: Env, p: Packet, q: Packet) {
    forall name | name in t.chains && t.chains[name].hook == Some(h) ::
      ChainLets(t.chains[name], e, if t.chains[name].ctype == Nat then p else q)
  }

  predicate PassesOutput(t: Table, e: Env, p: Packet) {
    t.dormant || HookLets(t, Output, e, p, AfterNat(t, e, p))
  }

  /** A hook on which the table translates no destination: input or forward. */
  predicate Passes(t: Table, h: Hook, e: Env, p: Packet) {
    t.dormant || HookLets(t, h, e, p, p)
  }
}
