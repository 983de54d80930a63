// ttp/firewall/builder.py: a session configuration compiled into ordered nftables chains.
module Builder {
  import opened Wrappers
  import opened Packets
  import opened Nft

  datatype Config = Config(
    torUid: nat, transportPort: nat, dnsPort: nat,
    ipv6: bool, allowRoot: bool, lanBypass: bool,
    bypassUids: seq<nat>, bypassGids: seq<nat>,
    resolvedUid: Option<nat>, cgroupBypass: bool)

  datatype Ruleset = Ruleset(
    prerouting: seq<Rule>, natOutput: seq<Rule>, filterOut: seq<Rule>, filterForward: seq<Rule>)

  function When(condition: bool, rules: seq<Rule>): seq<Rule> {
    if condition then rules else []
  }

  function Accepting(guard: Guard): Rule { Rule(guard, None, Accept) }

  // ---------------------------------------------------------------- rules shared by chains

  function LanRules(cfg: Config): seq<Rule> {
    When(cfg.lanBypass,
         [Accepting(If(IpDaddr(false, Set4.Lan4)))] + When(cfg.ipv6, [Accepting(If(Ip6Daddr(false, Set6.Lan6)))]))
  }

  function LoopbackRules(cfg: Config): seq<Rule> {
    [Accepting(If(IpDaddr(false, Loopback4)))] + When(cfg.ipv6, [Accepting(If(Ip6Daddr(false, Localhost6)))])
  }

  function DnsRedirect(cfg: Config): seq<Rule> {
    [Rule(If(Dport(Udp, 53)), Some(DnsRedirected), DnatIp(LOCALHOST4, cfg.dnsPort))] +
    [Rule(If(Dport(Tcp, 53)), Some(DnsRedirected), DnatIp(LOCALHOST4, cfg.dnsPort))] +
    When(cfg.ipv6,
         [Rule(If(Dport(Udp, 53)), Some(DnsRedirected), DnatIp6(LOCALHOST6, cfg.dnsPort))] +
         [Rule(If(Dport(Tcp, 53)), Some(DnsRedirected), DnatIp6(LOCALHOST6, cfg.dnsPort))])
  }

  function TcpRedirect(cfg: Config): seq<Rule> {
    [Rule(If(IpProtocolTcp), Some(TcpRedirected), DnatIp(LOCALHOST4, cfg.transportPort))] +
    When(cfg.ipv6, [Rule(If(L4Proto({Tcp})), Some(TcpRedirected), DnatIp6(LOCALHOST6, cfg.transportPort))])
  }

  // ---------------------------------------------------------------- bypass lists

  /** The rules one exempt uid or gid, tested by `who`, adds to nat output. */
  function BypassNatRule(who: Match, ipv6: bool): seq<Rule> {
    [Accepting(If2(who, IpDaddr(true, Localhost4)))] +
    When(ipv6, [Accepting(If2(who, Ip6Daddr(true, Localhost6)))])
  }

  function BypassNat(who: seq<Match>, ipv6: bool): seq<Rule> {
    if who == [] then [] else BypassNat(who[..|who| - 1], ipv6) + BypassNatRule(who[|who| - 1], ipv6)
  }

  function BypassFilter(who: seq<Match>): seq<Rule> {
    if who == [] then [] else BypassFilter(who[..|who| - 1]) + [Accepting(If(who[|who| - 1]))]
  }

  function UidTests(uids: seq<nat>): seq<Match> { seq(|uids|, i requires 0 <= i < |uids| => Skuid(false, uids[i])) }

  function GidTests(gids: seq<nat>): seq<Match> { seq(|gids|, i requires 0 <= i < |gids| => Skgid(gids[i])) }

  function Principals(cfg: Config): seq<Match> { UidTests(cfg.bypassUids) + GidTests(cfg.bypassGids) }

  function SliceRule(cfg: Config): seq<Rule> { When(cfg.cgroupBypass, [Accepting(If(BypassSlice))]) }

  // ---------------------------------------------------------------- the chains

  function ResolvedRules(cfg: Config): seq<Rule> {
    match cfg.resolvedUid
    case None => []
    case Some(uid) =>
      [Rule(If2(Skuid(false, uid), IpDaddr(true, Localhost4)), None, Drop)] +
      When(cfg.ipv6, [Rule(If2(Skuid(false, uid), Ip6Daddr(true, Localhost6)), None, Drop)])
  }

  function UnredirectedDns(cfg: Config): seq<Rule> {
    [Rule(If4(L4Proto({Tcp, Udp}), CtOriginal, CtOriginalDport(53), IpDaddr(true, Loopback4)),
          Some(DnsUnredirectedRejected), Reject)] +
    When(cfg.ipv6,
         [Rule(If4(L4Proto({Tcp, Udp}), CtOriginal, CtOriginalDport(53), Ip6Daddr(true, Localhost6)),
               Some(DnsUnredirectedRejected), Reject)])
  }

  function DohRules(cfg: Config): seq<Rule> {
    [Rule(If2(IpDaddr(false, Set4.Doh4), Dport(Tcp, 443)), Some(DohRejected), Reject)] +
    When(cfg.ipv6, [Rule(If2(Ip6Daddr(false, Set6.Doh6), Dport(Tcp, 443)), Some(DohRejected), Reject)]) +
    [Rule(If2(IpDaddr(false, Set4.Doh4), Dport(Udp, 443)), Some(DohRejected), Reject)] +
    When(cfg.ipv6, [Rule(If2(Ip6Daddr(false, Set6.Doh6), Dport(Udp, 443)), Some(DohRejected), Reject)])
  }

  function PreroutingRules(cfg: Config): seq<Rule> {
    DnsRedirect(cfg) + (LanRules(cfg) + TcpRedirect(cfg))
  }

  function NatOutputRules(cfg: Config): seq<Rule> {
    [Accepting(If(Skuid(false, cfg.torUid)))] +
    (SliceRule(cfg) +
     (BypassNat(Principals(cfg), cfg.ipv6) +
      (DnsRedirect(cfg) +
       (LanRules(cfg) +
        (LoopbackRules(cfg) +
         TcpRedirect(cfg))))))
  }

  function FilterOutRules(cfg: Config): seq<Rule> {
    [Accepting(If(Skuid(false, cfg.torUid)))] +
    (When(!cfg.ipv6, [Rule(If(NfprotoIpv6), None, Drop)]) +
     (SliceRule(cfg) +
      (BypassFilter(Principals(cfg)) +
       (ResolvedRules(cfg) +
        (When(cfg.allowRoot, [Accepting(If(Skuid(false, 0)))]) +
         (UnredirectedDns(cfg) +
          (LanRules(cfg) +
           (LoopbackRules(cfg) +
            FilterTail(cfg)))))))))
  }

  /** The end of filter_out: the host's own addresses, then the rejects. */
  function FilterTail(cfg: Config): seq<Rule> {
    [Accepting(If(FibLocal))] +
    ([Rule(If(Dport(Tcp, 853)), Some(DotRejected), Reject)] +
     (DohRules(cfg) +
      ([Rule(If(L4Proto({Tcp})), Some(CleartextRejected), RejectReset)] +
       [Rule(Always, Some(CleartextRejected), Reject)])))
  }

  function Rules(cfg: Config): Ruleset {
    Ruleset(PreroutingRules(cfg), NatOutputRules(cfg), FilterOutRules(cfg), [])
  }

  /** The table one accepted `nft -f -` run leaves in the kernel. */
  function SessionTable(r: Ruleset): Table {
    Table(false, map[
      "prerouting" := Chain(Nat, Some(Prerouting), -100, false, false, r.prerouting),
      "output" := Chain(Nat, Some(Output), -150, false, false, r.natOutput),
      "filter_out" := Chain(Filter, Some(Output), 0, false, false, r.filterOut),
      "filter_forward" := Chain(Filter, Some(Forward), 0, true, false, r.filterForward)])
  }

  lemma {:induction false} BypassNatExtends(who: seq<Match>, next: Match, ipv6: bool)
    ensures BypassNat(who + [next], ipv6) == BypassNat(who, ipv6) + BypassNatRule(next, ipv6)
    ensures BypassFilter(who + [next]) == BypassFilter(who) + [Accepting(If(next))]
  {
    assert (who + [next])[..|who|] == who;
  }

  /** One step of an append loop: the rules of one more uid or gid. */
  method AppendBypass(cfg: Config, who: Match, nat0: seq<Rule>, filter0: seq<Rule>, ghost done: seq<Match>)
    returns (bypassNat: seq<Rule>, bypassFilter: seq<Rule>)
    requires nat0 == SliceRule(cfg) + BypassNat(done, cfg.ipv6)
    requires filter0 == SliceRule(cfg) + BypassFilter(done)
    ensures bypassNat == SliceRule(cfg) + BypassNat(done + [who], cfg.ipv6)
    ensures bypassFilter == SliceRule(cfg) + BypassFilter(done + [who])
  {
    BypassNatExtends(done, who, cfg.ipv6);
    bypassNat := nat0 + [Accepting(If2(who, IpDaddr(true, Localhost4)))];
    if cfg.ipv6 {
      bypassNat := bypassNat + [Accepting(If2(who, Ip6Daddr(true, Localhost6)))];
    }
    bypassFilter := filter0 + [Accepting(If(who))];
  }

  method BuildBypass(cfg: Config) returns (bypassNat: seq<Rule>, bypassFilter: seq<Rule>)
    ensures bypassNat == SliceRule(cfg) + BypassNat(Principals(cfg), cfg.ipv6)
    ensures bypassFilter == SliceRule(cfg) + BypassFilter(Principals(cfg))
  {
    bypassNat, bypassFilter := [], [];
    if cfg.cgroupBypass {
      bypassNat := bypassNat + [Accepting(If(BypassSlice))];
      bypassFilter := bypassFilter + [Accepting(If(BypassSlice))];
    }
    ghost var done: seq<Match> := [];
    for i := 0 to |cfg.bypassUids|
      invariant done == UidTests(cfg.bypassUids)[..i]
      invariant bypassNat == SliceRule(cfg) + BypassNat(done, cfg.ipv6)
      invariant bypassFilter == SliceRule(cfg) + BypassFilter(done)
    {
      var who := Skuid(false, cfg.bypassUids[i]);
      bypassNat, bypassFilter := AppendBypass(cfg, who, bypassNat, bypassFilter, done);
      done := done + [who];
    }
    for i := 0 to |cfg.bypassGids|
      invariant done == UidTests(cfg.bypassUids) + GidTests(cfg.bypassGids)[..i]
      invariant bypassNat == SliceRule(cfg) + BypassNat(done, cfg.ipv6)
      invariant bypassFilter == SliceRule(cfg) + BypassFilter(done)
    {
      var who := Skgid(cfg.bypassGids[i]);
      bypassNat, bypassFilter := AppendBypass(cfg, who, bypassNat, bypassFilter, done);
      done := done + [who];
    }
    assert done == Principals(cfg);
  }

  method BuildRuleset(cfg: Config) returns (r: Ruleset)
    ensures r == Rules(cfg)
  {
    var bypassNat, bypassFilter := BuildBypass(cfg);
    var dns, lan, loopback, tcp := DnsRedirect(cfg), LanRules(cfg), LoopbackRules(cfg), TcpRedirect(cfg);
    var tor := [Accepting(If(Skuid(false, cfg.torUid)))];
    var ipv6Kill := if cfg.ipv6 then [] else [Rule(If(NfprotoIpv6), None, Drop)];
    var root := if cfg.allowRoot then [Accepting(If(Skuid(false, 0)))] else [];
    r := Ruleset(
      dns + (lan + tcp),
      tor + (bypassNat + (dns + (lan + (loopback + tcp)))),
      tor + (ipv6Kill + (bypassFilter + (ResolvedRules(cfg) + (root + (UnredirectedDns(cfg) +
        (lan + (loopback + FilterTail(cfg)))))))),
      []);
    ConcatAssociates(SliceRule(cfg), BypassNat(Principals(cfg), cfg.ipv6), dns + (lan + (loopback + tcp)));
    ConcatAssociates(SliceRule(cfg), BypassFilter(Principals(cfg)),
                     ResolvedRules(cfg) + (root + (UnredirectedDns(cfg) + (lan + (loopback + FilterTail(cfg))))));
  }

  lemma ConcatAssociates(a: seq<Rule>, b: seq<Rule>, c: seq<Rule>)
    ensures (a + b) + c == a + (b + c)
  {
  }
}
