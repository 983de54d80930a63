// What the compiled chains do to packets: a closed-form decision for every chain, and from it the
// containment, DNS, non-interference and redirect properties of a session.
module Containment {
  import opened Wrappers
  import opened Packets
  import opened Nft
  import opened Builder

  // ---------------------------------------------------------------- who is exempt

  predicate IsUid(p: Packet, uid: nat) { p.sender.Some? && p.sender.value.uid == uid }

  predicate Listed(cfg: Config, p: Packet) {
    p.sender.Some? && (p.sender.value.uid in cfg.bypassUids || p.sender.value.gid in cfg.bypassGids)
  }

  predicate InSlice(cfg: Config, p: Packet) { cfg.cgroupBypass && p.sender.Some? && p.sender.value.slice }

  predicate Bypassed(cfg: Config, p: Packet) { InSlice(cfg, p) || Listed(cfg, p) }

  /** The Tor daemon, a bypassed process, or root when root is allowed. */
  predicate Exempt(cfg: Config, p: Packet) {
    IsUid(p, cfg.torUid) || Bypassed(cfg, p) || (cfg.allowRoot && IsUid(p, 0))
  }

  predicate Family(cfg: Config, a: Addr) { a.V4? || cfg.ipv6 }

  predicate IsLocalhost(a: Addr) { a == V4(LOCALHOST4) || a == V6(LOCALHOST6) }

  predicate IsDoh(a: Addr) {
    match a
    case V4(n) => Set4.Doh4.Has(n)
    case V6(n) => Set6.Doh6.Has(n)
  }

  predicate Tracked(p: Packet) { p.proto == Tcp || p.proto == Udp }

  predicate LanAllowed(cfg: Config, a: Addr) { cfg.lanBypass && Family(cfg, a) && IsLan(a) }

  // ---------------------------------------------------------------- closed forms

  function ToLocalhost(a: Addr, port: nat): Verdict {
    match a
    case V4(_) => DnatIp(LOCALHOST4, port)
    case V6(_) => DnatIp6(LOCALHOST6, port)
  }

  /** The decision of nat output on any packet, without rules or lists. */
  function NatDecision(cfg: Config, p: Packet): Option<Decision> {
    if IsUid(p, cfg.torUid) || InSlice(cfg, p) then Some(Decision(Accept, None))
    else if Listed(cfg, p) && Family(cfg, p.dst) && !IsLocalhost(p.dst) then Some(Decision(Accept, None))
    else if !Family(cfg, p.dst) then None
    else if Tracked(p) && p.dport == 53 then Some(Decision(ToLocalhost(p.dst, cfg.dnsPort), Some(DnsRedirected)))
    else if LanAllowed(cfg, p.dst) || IsLoopback(p.dst) then Some(Decision(Accept, None))
    else if p.proto == Tcp then Some(Decision(ToLocalhost(p.dst, cfg.transportPort), Some(TcpRedirected)))
    else None
  }

  /** The decision of nat prerouting: the same redirects for forwarded traffic, with no exemptions but the LAN. */
  function PreroutingDecision(cfg: Config, p: Packet): Option<Decision> {
    if !Family(cfg, p.dst) then None
    else if Tracked(p) && p.dport == 53 then Some(Decision(ToLocalhost(p.dst, cfg.dnsPort), Some(DnsRedirected)))
    else if LanAllowed(cfg, p.dst) then Some(Decision(Accept, None))
    else if p.proto == Tcp then Some(Decision(ToLocalhost(p.dst, cfg.transportPort), Some(TcpRedirected)))
    else None
  }

  /** The decision of filter_out on any packet. It always decides: the policy is never reached. */
  function FilterDecision(cfg: Config, e: Env, p: Packet): Decision {
    if IsUid(p, cfg.torUid) then Decision(Accept, None)
    else if !Family(cfg, p.dst) then Decision(Drop, None)
    else if Bypassed(cfg, p) then Decision(Accept, None)
    else if cfg.resolvedUid.Some? && IsUid(p, cfg.resolvedUid.value) && !IsLocalhost(p.dst) then Decision(Drop, None)
    else if cfg.allowRoot && IsUid(p, 0) then Decision(Accept, None)
    else if Tracked(p) && p.original && p.origDport == 53 && !IsLoopback(p.dst) then
      Decision(Reject, Some(DnsUnredirectedRejected))
    else if LanAllowed(cfg, p.dst) || IsLoopback(p.dst) || e.isLocal(p.dst) then Decision(Accept, None)
    else if p.proto == Tcp && p.dport == 853 then Decision(Reject, Some(DotRejected))
    else if Tracked(p) && IsDoh(p.dst) && p.dport == 443 then Decision(Reject, Some(DohRejected))
    else if p.proto == Tcp then Decision(RejectReset, Some(CleartextRejected))
    else Decision(Reject, Some(CleartextRejected))
  }

  // ---------------------------------------------------------------- segments of the chains

  lemma DecideTwo(a: Rule, b: Rule, e: Env, p: Packet)
    ensures Decide([a] + [b], e, p) == OrElse(Decide([a], e, p), Decide([b], e, p))
  {
    DecideConcat([a], [b], e, p);
  }

  lemma DecideLan(cfg: Config, e: Env, p: Packet)
    ensures Decide(LanRules(cfg), e, p) == if LanAllowed(cfg, p.dst) then Some(Decision(Accept, None)) else None
  {
    var four, six := Accepting(If(IpDaddr(false, Set4.Lan4))), Accepting(If(Ip6Daddr(false, Set6.Lan6)));
    DecideConcat([four], When(cfg.ipv6, [six]), e, p);
    DecideOne(four, e, p);
    DecideOne(six, e, p);
  }

  lemma DecideLoopback(cfg: Config, e: Env, p: Packet)
    ensures Decide(LoopbackRules(cfg), e, p) ==
      if Family(cfg, p.dst) && IsLoopback(p.dst) then Some(Decision(Accept, None)) else None
  {
    var four, six := Accepting(If(IpDaddr(false, Loopback4))), Accepting(If(Ip6Daddr(false, Localhost6)));
    DecideConcat([four], When(cfg.ipv6, [six]), e, p);
    DecideOne(four, e, p);
    DecideOne(six, e, p);
  }

  lemma DecideDnsRedirect(cfg: Config, e: Env, p: Packet)
    ensures Decide(DnsRedirect(cfg), e, p) ==
      if Family(cfg, p.dst) && Tracked(p) && p.dport == 53
      then Some(Decision(ToLocalhost(p.dst, cfg.dnsPort), Some(DnsRedirected))) else None
  {
    var u4 := Rule(If(Dport(Udp, 53)), Some(DnsRedirected), DnatIp(LOCALHOST4, cfg.dnsPort));
    var t4 := Rule(If(Dport(Tcp, 53)), Some(DnsRedirected), DnatIp(LOCALHOST4, cfg.dnsPort));
    var u6 := Rule(If(Dport(Udp, 53)), Some(DnsRedirected), DnatIp6(LOCALHOST6, cfg.dnsPort));
    var t6 := Rule(If(Dport(Tcp, 53)), Some(DnsRedirected), DnatIp6(LOCALHOST6, cfg.dnsPort));
    DecideConcat([u4] + [t4], When(cfg.ipv6, [u6] + [t6]), e, p);
    DecideTwo(u4, t4, e, p);
    DecideTwo(u6, t6, e, p);
    DecideOne(u4, e, p);
    DecideOne(t4, e, p);
    DecideOne(u6, e, p);
    DecideOne(t6, e, p);
  }

  lemma DecideTcpRedirect(cfg: Config, e: Env, p: Packet)
    ensures Decide(TcpRedirect(cfg), e, p) ==
      if Family(cfg, p.dst) && p.proto == Tcp
      then Some(Decision(ToLocalhost(p.dst, cfg.transportPort), Some(TcpRedirected))) else None
  {
    var four := Rule(If(IpProtocolTcp), Some(TcpRedirected), DnatIp(LOCALHOST4, cfg.transportPort));
    var six := Rule(If(L4Proto({Tcp})), Some(TcpRedirected), DnatIp6(LOCALHOST6, cfg.transportPort));
    DecideConcat([four], When(cfg.ipv6, [six]), e, p);
    DecideOne(four, e, p);
    DecideOne(six, e, p);
  }

  /** The bypass lists decide by membership alone, whatever their order and repetitions. */
  ghost predicate AnyHolds(who: seq<Match>, e: Env, p: Packet) { exists m | m in who :: Holds(m, e, p) }

  lemma {:induction false} DecideBypassNat(who: seq<Match>, ipv6: bool, e: Env, p: Packet)
    ensures Decide(BypassNat(who, ipv6), e, p) ==
      if AnyHolds(who, e, p) && (p.dst.V4? || ipv6) && !IsLocalhost(p.dst) then Some(Decision(Accept, None)) else None
  {
    if who != [] {
      var init, last := who[..|who| - 1], who[|who| - 1];
      DecideBypassNat(init, ipv6, e, p);
      var four := Accepting(If2(last, IpDaddr(true, Localhost4)));
      var six := Accepting(If2(last, Ip6Daddr(true, Localhost6)));
      DecideConcat(BypassNat(init, ipv6), BypassNatRule(last, ipv6), e, p);
      DecideConcat([four], When(ipv6, [six]), e, p);
      DecideOne(four, e, p);
      DecideOne(six, e, p);
      assert forall m :: m in who <==> m in init || m == last;
    }
  }

  lemma {:induction false} DecideBypassFilter(who: seq<Match>, e: Env, p: Packet)
    ensures Decide(BypassFilter(who), e, p) == if AnyHolds(who, e, p) then Some(Decision(Accept, None)) else None
  {
    if who != [] {
      var init, last := who[..|who| - 1], who[|who| - 1];
      DecideBypassFilter(init, e, p);
      DecideConcat(BypassFilter(init), [Accepting(If(last))], e, p);
      DecideOne(Accepting(If(last)), e, p);
      assert forall m :: m in who <==> m in init || m == last;
    }
  }

  lemma PrincipalsHold(cfg: Config, e: Env, p: Packet)
    ensures AnyHolds(Principals(cfg), e, p) <==> Listed(cfg, p)
  {
    var uids, gids := UidTests(cfg.bypassUids), GidTests(cfg.bypassGids);
    if Listed(cfg, p) {
      if p.sender.value.uid in cfg.bypassUids {
        var i :| 0 <= i < |cfg.bypassUids| && cfg.bypassUids[i] == p.sender.value.uid;
        assert Principals(cfg)[i] == Skuid(false, p.sender.value.uid);
        assert Holds(Principals(cfg)[i], e, p);
      } else {
        var i :| 0 <= i < |cfg.bypassGids| && cfg.bypassGids[i] == p.sender.value.gid;
        assert Principals(cfg)[|uids| + i] == Skgid(p.sender.value.gid);
        assert Holds(Principals(cfg)[|uids| + i], e, p);
      }
    }
  }

  lemma DecideSlice(cfg: Config, e: Env, p: Packet)
    ensures Decide(SliceRule(cfg), e, p) == if InSlice(cfg, p) then Some(Decision(Accept, None)) else None
  {
    DecideOne(Accepting(If(BypassSlice)), e, p);
  }

  lemma DecideResolved(cfg: Config, e: Env, p: Packet)
    ensures Decide(ResolvedRules(cfg), e, p) ==
      if cfg.resolvedUid.Some? && IsUid(p, cfg.resolvedUid.value) && Family(cfg, p.dst) && !IsLocalhost(p.dst)
      then Some(Decision(Drop, None)) else None
  {
    if cfg.resolvedUid.Some? {
      var four := Rule(If2(Skuid(false, cfg.resolvedUid.value), IpDaddr(true, Localhost4)), None, Drop);
      var six := Rule(If2(Skuid(false, cfg.resolvedUid.value), Ip6Daddr(true, Localhost6)), None, Drop);
      DecideConcat([four], When(cfg.ipv6, [six]), e, p);
      DecideOne(four, e, p);
      DecideOne(six, e, p);
    }
  }

  lemma DecideUnredirected(cfg: Config, e: Env, p: Packet)
    ensures Decide(UnredirectedDns(cfg), e, p) ==
      if Family(cfg, p.dst) && Tracked(p) && p.original && p.origDport == 53 && !IsLoopback(p.dst)
      then Some(Decision(Reject, Some(DnsUnredirectedRejected))) else None
  {
    var four := Rule(If4(L4Proto({Tcp, Udp}), CtOriginal, CtOriginalDport(53), IpDaddr(true, Loopback4)),
                     Some(DnsUnredirectedRejected), Reject);
    var six := Rule(If4(L4Proto({Tcp, Udp}), CtOriginal, CtOriginalDport(53), Ip6Daddr(true, Localhost6)),
                    Some(DnsUnredirectedRejected), Reject);
    DecideConcat([four], When(cfg.ipv6, [six]), e, p);
    DecideOne(four, e, p);
    DecideOne(six, e, p);
  }

  lemma DecideDoh(cfg: Config, e: Env, p: Packet)
    ensures Decide(DohRules(cfg), e, p) ==
      if Family(cfg, p.dst) && Tracked(p) && IsDoh(p.dst) && p.dport == 443
      then Some(Decision(Reject, Some(DohRejected))) else None
  {
    var t4 := Rule(If2(IpDaddr(false, Set4.Doh4), Dport(Tcp, 443)), Some(DohRejected), Reject);
    var t6 := Rule(If2(Ip6Daddr(false, Set6.Doh6), Dport(Tcp, 443)), Some(DohRejected), Reject);
    var u4 := Rule(If2(IpDaddr(false, Set4.Doh4), Dport(Udp, 443)), Some(DohRejected), Reject);
    var u6 := Rule(If2(Ip6Daddr(false, Set6.Doh6), Dport(Udp, 443)), Some(DohRejected), Reject);
    DecideConcat([t4] + When(cfg.ipv6, [t6]) + [u4], When(cfg.ipv6, [u6]), e, p);
    DecideConcat([t4] + When(cfg.ipv6, [t6]), [u4], e, p);
    DecideConcat([t4], When(cfg.ipv6, [t6]), e, p);
    DecideOne(t4, e, p);
    DecideOne(t6, e, p);
    DecideOne(u4, e, p);
    DecideOne(u6, e, p);
  }

  function TailDecision(cfg: Config, e: Env, p: Packet): Decision {
    if e.isLocal(p.dst) then Decision(Accept, None)
    else if p.proto == Tcp && p.dport == 853 then Decision(Reject, Some(DotRejected))
    else if Family(cfg, p.dst) && Tracked(p) && IsDoh(p.dst) && p.dport == 443 then Decision(Reject, Some(DohRejected))
    else if p.proto == Tcp then Decision(RejectReset, Some(CleartextRejected))
    else Decision(Reject, Some(CleartextRejected))
  }

  lemma DecideTail(cfg: Config, e: Env, p: Packet)
    ensures Decide(FilterTail(cfg), e, p) == Some(TailDecision(cfg, e, p))
  {
    var local, dot := Accepting(If(FibLocal)), Rule(If(Dport(Tcp, 853)), Some(DotRejected), Reject);
    var tcp := Rule(If(L4Proto({Tcp})), Some(CleartextRejected), RejectReset);
    var all := Rule(Always, Some(CleartextRejected), Reject);
    DecideConcat([local], [dot] + (DohRules(cfg) + ([tcp] + [all])), e, p);
    DecideConcat([dot], DohRules(cfg) + ([tcp] + [all]), e, p);
    DecideConcat(DohRules(cfg), [tcp] + [all], e, p);
    DecideTwo(tcp, all, e, p);
    DecideOne(local, e, p);
    DecideOne(dot, e, p);
    DecideOne(tcp, e, p);
    DecideOne(all, e, p);
    DecideDoh(cfg, e, p);
  }

  // ---------------------------------------------------------------- the chains equal their closed forms

  lemma NatOutputClosedForm(cfg: Config, e: Env, p: Packet)
    ensures Decide(NatOutputRules(cfg), e, p) == NatDecision(cfg, p)
  {
    var tor, who := Accepting(If(Skuid(false, cfg.torUid))), Principals(cfg);
    var r4 := LoopbackRules(cfg) + TcpRedirect(cfg);
    var r3 := LanRules(cfg) + r4;
    var r2 := DnsRedirect(cfg) + r3;
    var r1 := BypassNat(who, cfg.ipv6) + r2;
    DecideConcat([tor], SliceRule(cfg) + r1, e, p);
    DecideConcat(SliceRule(cfg), r1, e, p);
    DecideConcat(BypassNat(who, cfg.ipv6), r2, e, p);
    DecideConcat(DnsRedirect(cfg), r3, e, p);
    DecideConcat(LanRules(cfg), r4, e, p);
    DecideConcat(LoopbackRules(cfg), TcpRedirect(cfg), e, p);
    DecideOne(tor, e, p);
    DecideSlice(cfg, e, p);
    DecideBypassNat(who, cfg.ipv6, e, p);
    PrincipalsHold(cfg, e, p);
    DecideDnsRedirect(cfg, e, p);
    DecideLan(cfg, e, p);
    DecideLoopback(cfg, e, p);
    DecideTcpRedirect(cfg, e, p);
  }

  lemma PreroutingClosedForm(cfg: Config, e: Env, p: Packet)
    ensures Decide(PreroutingRules(cfg), e, p) == PreroutingDecision(cfg, p)
  {
    DecideConcat(DnsRedirect(cfg), LanRules(cfg) + TcpRedirect(cfg), e, p);
    DecideConcat(LanRules(cfg), TcpRedirect(cfg), e, p);
    DecideDnsRedirect(cfg, e, p);
    DecideLan(cfg, e, p);
    DecideTcpRedirect(cfg, e, p);
  }

  function FilterRest(cfg: Config): seq<Rule> {
    UnredirectedDns(cfg) + (LanRules(cfg) + (LoopbackRules(cfg) + FilterTail(cfg)))
  }

  /** The decision of filter_out from the un-redirected DNS rules on. */
  function RestDecision(cfg: Config, e: Env, p: Packet): Decision {
    if Family(cfg, p.dst) && Tracked(p) && p.original && p.origDport == 53 && !IsLoopback(p.dst) then
      Decision(Reject, Some(DnsUnredirectedRejected))
    else if LanAllowed(cfg, p.dst) || (Family(cfg, p.dst) && IsLoopback(p.dst)) then Decision(Accept, None)
    else TailDecision(cfg, e, p)
  }

  lemma DecideRest(cfg: Config, e: Env, p: Packet)
    ensures Decide(FilterRest(cfg), e, p) == Some(RestDecision(cfg, e, p))
  {
    DecideConcat(UnredirectedDns(cfg), LanRules(cfg) + (LoopbackRules(cfg) + FilterTail(cfg)), e, p);
    DecideConcat(LanRules(cfg), LoopbackRules(cfg) + FilterTail(cfg), e, p);
    DecideConcat(LoopbackRules(cfg), FilterTail(cfg), e, p);
    DecideUnredirected(cfg, e, p);
    DecideLan(cfg, e, p);
    DecideLoopback(cfg, e, p);
    DecideTail(cfg, e, p);
  }

  /** Bypass lists, then systemd-resolved, then root. */
  lemma DecideExemptions(cfg: Config, rest: seq<Rule>, e: Env, p: Packet)
    ensures Decide(BypassFilter(Principals(cfg)) +
                   (ResolvedRules(cfg) + (When(cfg.allowRoot, [Accepting(If(Skuid(false, 0)))]) + rest)), e, p) ==
      if Listed(cfg, p) then Some(Decision(Accept, None))
      else if cfg.resolvedUid.Some? && IsUid(p, cfg.resolvedUid.value) && Family(cfg, p.dst) && !IsLocalhost(p.dst)
      then Some(Decision(Drop, None))
      else if cfg.allowRoot && IsUid(p, 0) then Some(Decision(Accept, None))
      else Decide(rest, e, p)
  {
    var root, who := Accepting(If(Skuid(false, 0))), Principals(cfg);
    DecideConcat(BypassFilter(who), ResolvedRules(cfg) + (When(cfg.allowRoot, [root]) + rest), e, p);
    DecideConcat(ResolvedRules(cfg), When(cfg.allowRoot, [root]) + rest, e, p);
    DecideConcat(When(cfg.allowRoot, [root]), rest, e, p);
    DecideOne(root, e, p);
    DecideBypassFilter(who, e, p);
    PrincipalsHold(cfg, e, p);
    DecideResolved(cfg, e, p);
  }

  lemma FilterOutClosedForm(cfg: Config, e: Env, p: Packet)
    ensures Decide(FilterOutRules(cfg), e, p) == Some(FilterDecision(cfg, e, p))
  {
    var tor, kill := Accepting(If(Skuid(false, cfg.torUid))), Rule(If(NfprotoIpv6), None, Drop);
    var r3 := BypassFilter(Principals(cfg)) +
      (ResolvedRules(cfg) + (When(cfg.allowRoot, [Accepting(If(Skuid(false, 0)))]) + FilterRest(cfg)));
    assert FilterOutRules(cfg) == [tor] + (When(!cfg.ipv6, [kill]) + (SliceRule(cfg) + r3));
    DecideConcat([tor], When(!cfg.ipv6, [kill]) + (SliceRule(cfg) + r3), e, p);
    DecideConcat(When(!cfg.ipv6, [kill]), SliceRule(cfg) + r3, e, p);
    DecideConcat(SliceRule(cfg), r3, e, p);
    DecideOne(tor, e, p);
    DecideOne(kill, e, p);
    DecideSlice(cfg, e, p);
    DecideExemptions(cfg, FilterRest(cfg), e, p);
    DecideRest(cfg, e, p);
  }

  // ---------------------------------------------------------------- whole sessions

  /** The packet filter_out sees when the session's own nat output evaluated the connection. */
  function Translated(cfg: Config, p: Packet): Packet { Rewrite(NatDecision(cfg, p), p) }

  predicate StaysHome(e: Env, a: Addr) { IsLoopback(a) || e.isLocal(a) }

  /** A packet that may be sent: it stays on the host, or its sender or its destination is exempt. */
  predicate Harmless(cfg: Config, e: Env, q: Packet) {
    || StaysHome(e, q.dst)
    || IsUid(q, cfg.torUid)
    || (Family(cfg, q.dst) && (Exempt(cfg, q) || LanAllowed(cfg, q.dst)))
  }

  /** The containment predicate of a session: whatever the table sends out is harmless. */
  ghost predicate Contained(cfg: Config, e: Env, t: Table) {
    forall p :: PassesOutput(t, e, p) ==> Harmless(cfg, e, AfterNat(t, e, p))
  }

  lemma SessionOutput(cfg: Config, e: Env, p: Packet)
    ensures var t := SessionTable(Rules(cfg));
            && AfterNat(t, e, p) == Translated(cfg, p)
            && (PassesOutput(t, e, p) <==> FilterDecision(cfg, e, Translated(cfg, p)).verdict == Accept)
  {
    var t := SessionTable(Rules(cfg));
    NatOutputClosedForm(cfg, e, p);
    FilterOutClosedForm(cfg, e, Translated(cfg, p));
    assert t.chains["output"].rules == NatOutputRules(cfg);
    assert t.chains["filter_out"].rules == FilterOutRules(cfg);
    if PassesOutput(t, e, p) {
      assert ChainLets(t.chains["filter_out"], e, Translated(cfg, p));
    }
  }

  /**
   * filter_out alone contains the session: it accepts no packet that is not harmless, however NAT
   * translated it, and without IPv6 it accepts no IPv6 packet but Tor's.
   */
  lemma FilterContains(cfg: Config, e: Env, q: Packet)
    requires Lets(Decide(FilterOutRules(cfg), e, q), false)
    ensures Decide(FilterOutRules(cfg), e, q).Some?
    ensures StaysHome(e, q.dst) || Exempt(cfg, q) || (cfg.lanBypass && IsLan(q.dst))
    ensures q.dst.V6? && !cfg.ipv6 ==> IsUid(q, cfg.torUid)
  {
    FilterOutClosedForm(cfg, e, q);
  }

  lemma SessionContained(cfg: Config, e: Env)
    ensures Contained(cfg, e, SessionTable(Rules(cfg)))
  {
    forall p | PassesOutput(SessionTable(Rules(cfg)), e, p)
      ensures Harmless(cfg, e, AfterNat(SessionTable(Rules(cfg)), e, p))
    {
      SessionOutput(cfg, e, p);
    }
  }

  /** No packet is forwarded during a session. */
  lemma SessionForwardsNothing(cfg: Config, e: Env, p: Packet)
    ensures !Passes(SessionTable(Rules(cfg)), Forward, e, p)
  {
    var t := SessionTable(Rules(cfg));
    assert t.chains["filter_forward"].hook == Some(Forward);
    assert !ChainLets(t.chains["filter_forward"], e, p);
  }

  /**
   * Where the first packet of a connection from a non-exempt process ends up: DNS at Tor's DNSPort,
   * other TCP at Tor's TransPort, and anything else is refused, unless it stays on the host or on a
   * bypassed LAN. Without IPv6 every IPv6 packet is refused.
   */
  lemma NonExemptDisposition(cfg: Config, e: Env, p: Packet)
    requires !Exempt(cfg, p) && p.original && p.origDport == p.dport
    ensures var t := SessionTable(Rules(cfg));
            var q := AfterNat(t, e, p);
            var dns := Tracked(p) && p.dport == 53;
            && (!Family(cfg, p.dst) ==> !PassesOutput(t, e, p))
            && (Family(cfg, p.dst) && dns ==>
                  PassesOutput(t, e, p) && IsLocalhost(q.dst) && (q.dst.V4? <==> p.dst.V4?) && q.dport == cfg.dnsPort)
            && (Family(cfg, p.dst) && !dns && p.proto == Tcp && !IsLoopback(p.dst) && !LanAllowed(cfg, p.dst) ==>
                  && PassesOutput(t, e, p)
                  && IsLocalhost(q.dst) && (q.dst.V4? <==> p.dst.V4?) && q.dport == cfg.transportPort)
            && (!dns && p.proto != Tcp && !StaysHome(e, p.dst) && !LanAllowed(cfg, p.dst) ==> !PassesOutput(t, e, p))
  {
    SessionOutput(cfg, e, p);
  }

  /** The exemptions, by what the configuration lists. */
  lemma ExemptExactly(cfg: Config, p: Packet)
    ensures Exempt(cfg, p) <==>
      && p.sender.Some?
      && var who := p.sender.value;
         || who.uid == cfg.torUid
         || who.uid in cfg.bypassUids
         || who.gid in cfg.bypassGids
         || (cfg.cgroupBypass && who.slice)
         || (cfg.allowRoot && who.uid == 0)
  {
  }

  /** An address by its bits: not loopback, and not on the LAN when the LAN is bypassed. */
  predicate Public(cfg: Config, a: Addr) {
    match a
    case V4(n) =>
      && n < 0x1_0000_0000 && n / 0x100_0000 != 127
      && (cfg.lanBypass ==>
            && n / 0x100_0000 != 10 && n / 0x10_0000 != 172 * 16 + 1
            && n / 0x1_0000 != 192 * 256 + 168 && n / 0x1_0000 != 169 * 256 + 254)
    case V6(n) =>
      && n < 0x1_0000_0000_0000_0000_0000_0000_0000_0000 && n != 1
      && (cfg.lanBypass ==>
            && n / 0x0200_0000_0000_0000_0000_0000_0000_0000 != 0x7E
            && n / 0x0040_0000_0000_0000_0000_0000_0000_0000 != 0x3FA)
  }

  /**
   * The first packet of a non-exempt connection to a public address passes exactly when it is TCP, or
   * DNS over UDP, of an available family, and then it goes to Tor on localhost and nowhere else.
   */
  lemma CleartextNeverLeaves(cfg: Config, e: Env, p: Packet)
    requires !Exempt(cfg, p) && Public(cfg, p.dst) && !e.isLocal(p.dst)
    requires p.original && p.origDport == p.dport
    ensures var t := SessionTable(Rules(cfg));
      PassesOutput(t, e, p) <==> (p.dst.V4? || cfg.ipv6) && (p.proto == Tcp || (p.proto == Udp && p.dport == 53))
    ensures var t := SessionTable(Rules(cfg));
      var q := AfterNat(t, e, p);
      PassesOutput(t, e, p) ==>
        && q.dst == LocalhostOf(p.dst)
        && q.dport == (if p.dport == 53 then cfg.dnsPort else cfg.transportPort)
  {
    PublicIsRemote(cfg, p.dst);
    RemoteDisposition(cfg, e, p);
  }

  /** Localhost in the address's own family. */
  function LocalhostOf(a: Addr): (l: Addr)
    ensures l == if a.V4? then V4(Dotted(127, 0, 0, 1)) else V6(Hextets(0, 0, 0, 0, 0, 0, 0, 1))
  {
    if a.V4? then V4(LOCALHOST4) else V6(LOCALHOST6)
  }

  lemma RemoteDisposition(cfg: Config, e: Env, p: Packet)
    requires !Exempt(cfg, p) && !IsLoopback(p.dst) && !LanAllowed(cfg, p.dst) && !e.isLocal(p.dst)
    requires p.original && p.origDport == p.dport
    ensures var t := SessionTable(Rules(cfg));
      PassesOutput(t, e, p) <==> (p.dst.V4? || cfg.ipv6) && (p.proto == Tcp || (p.proto == Udp && p.dport == 53))
    ensures var t := SessionTable(Rules(cfg));
      var q := AfterNat(t, e, p);
      PassesOutput(t, e, p) ==>
        q.dst == LocalhostOf(p.dst) && q.dport == (if p.dport == 53 then cfg.dnsPort else cfg.transportPort)
  {
    SessionOutput(cfg, e, p);
  }

  lemma PublicIsRemote(cfg: Config, a: Addr)
    requires Public(cfg, a)
    ensures !IsLoopback(a) && !LanAllowed(cfg, a)
  {
    LoopbackIsItsPrefix(a.bits);
    if a.V4? { LanIsItsPrefixes(a.bits); } else { Lan6IsItsPrefixes(a.bits); }
  }

  /** Whatever NAT did, a packet filter_out accepts towards a public address was sent by an exempt process. */
  lemma NothingPublicWithoutExemption(cfg: Config, e: Env, q: Packet)
    requires Lets(Decide(FilterOutRules(cfg), e, q), false)
    requires Public(cfg, q.dst) && !e.isLocal(q.dst)
    ensures q.sender.Some?
    ensures var who := q.sender.value;
      || who.uid == cfg.torUid
      || ((q.dst.V6? ==> cfg.ipv6) &&
          (who.uid in cfg.bypassUids || who.gid in cfg.bypassGids || (cfg.cgroupBypass && who.slice) ||
           (cfg.allowRoot && who.uid == 0)))
  {
    PublicIsRemote(cfg, q.dst);
    FilterOutClosedForm(cfg, e, q);
  }

  /** The hooks of a session: NAT on output and prerouting, the filter after it, and nothing forwarded. */
  lemma SessionHooks(cfg: Config)
    ensures var chains := SessionTable(Rules(cfg)).chains;
      && chains.Keys == {"prerouting", "output", "filter_out", "filter_forward"}
      && !SessionTable(Rules(cfg)).dormant
      && (forall name | name in chains :: !chains[name].scoped)
      && chains["prerouting"].hook == Some(Prerouting) && chains["prerouting"].ctype == Nat
      && chains["output"].hook == Some(Output) && chains["output"].ctype == Nat
      && chains["filter_out"].hook == Some(Output) && chains["filter_out"].ctype == Filter
      && chains["filter_forward"].hook == Some(Forward) && chains["filter_forward"].ctype == Filter
      && chains["output"].prio < chains["filter_out"].prio == chains["filter_forward"].prio == 0
      && chains["filter_forward"].policyDrop && chains["filter_forward"].rules == []
  {
  }

  lemma PreroutingChain(cfg: Config)
    ensures var chains := SessionTable(Rules(cfg)).chains;
      "prerouting" in chains && chains["prerouting"].rules == PreroutingRules(cfg)
  {
  }

  /** What the prerouting hook makes of a packet from outside: DNS and TCP end at Tor, the rest stays as it is. */
  lemma SessionPrerouting(cfg: Config, e: Env, p: Packet)
    requires Public(cfg, p.dst) && (p.dst.V4? || cfg.ipv6)
    ensures var rules := SessionTable(Rules(cfg)).chains["prerouting"].rules;
      Rewrite(Decide(rules, e, p), p) ==
        if (p.proto == Tcp || p.proto == Udp) && p.dport == 53 then p.(dst := LocalhostOf(p.dst), dport := cfg.dnsPort)
        else if p.proto == Tcp then p.(dst := LocalhostOf(p.dst), dport := cfg.transportPort)
        else p
  {
    PublicIsRemote(cfg, p.dst);
    PreroutingChain(cfg);
    RemotePrerouting(cfg, e, p);
  }

  lemma RemotePrerouting(cfg: Config, e: Env, p: Packet)
    requires !LanAllowed(cfg, p.dst) && Family(cfg, p.dst)
    ensures Rewrite(Decide(PreroutingRules(cfg), e, p), p) ==
      if Tracked(p) && p.dport == 53 then p.(dst := LocalhostOf(p.dst), dport := cfg.dnsPort)
      else if p.proto == Tcp then p.(dst := LocalhostOf(p.dst), dport := cfg.transportPort)
      else p
  {
    PreroutingClosedForm(cfg, e, p);
  }

  /**
   * A foreign NAT chain may translate the connection first, to any address and port. Whatever it
   * did, an accepted packet of a non-exempt sender whose original port was 53 goes to loopback.
   */
  lemma ForeignNatCannotLeakDns(cfg: Config, e: Env, p: Packet, foreignDst: Addr, foreignPort: nat)
    requires Tracked(p) && p.original && p.origDport == 53 && !Exempt(cfg, p)
    requires Lets(Decide(FilterOutRules(cfg), e, p.(dst := foreignDst, dport := foreignPort)), false)
    ensures IsLoopback(foreignDst)
  {
    FilterOutClosedForm(cfg, e, p.(dst := foreignDst, dport := foreignPort));
  }

  /** Exemptions concern only those exempted: the lists may change in any way that keeps one sender's membership. */
  lemma ExemptionsDoNotInterfere(cfg: Config, uids: seq<nat>, gids: seq<nat>, e: Env, p: Packet)
    requires p.sender.Some? ==>
      && (p.sender.value.uid in uids <==> p.sender.value.uid in cfg.bypassUids)
      && (p.sender.value.gid in gids <==> p.sender.value.gid in cfg.bypassGids)
    ensures var other := cfg.(bypassUids := uids, bypassGids := gids);
            && Decide(NatOutputRules(other), e, p) == Decide(NatOutputRules(cfg), e, p)
            && Decide(FilterOutRules(other), e, p) == Decide(FilterOutRules(cfg), e, p)
            && AfterNat(SessionTable(Rules(other)), e, p) == AfterNat(SessionTable(Rules(cfg)), e, p)
            && (PassesOutput(SessionTable(Rules(other)), e, p) <==> PassesOutput(SessionTable(Rules(cfg)), e, p))
  {
    var other := cfg.(bypassUids := uids, bypassGids := gids);
    ClosedFormsAgree(cfg, uids, gids, e, p, Translated(cfg, p));
    assert Decide(NatOutputRules(other), e, p) == Decide(NatOutputRules(cfg), e, p) by {
      NatOutputClosedForm(cfg, e, p);
      NatOutputClosedForm(other, e, p);
    }
    assert Decide(FilterOutRules(other), e, p) == Decide(FilterOutRules(cfg), e, p) by {
      FilterOutClosedForm(cfg, e, p);
      FilterOutClosedForm(other, e, p);
    }
    SessionOutput(cfg, e, p);
    SessionOutput(other, e, p);
  }

  lemma ClosedFormsAgree(cfg: Config, uids: seq<nat>, gids: seq<nat>, e: Env, p: Packet, q: Packet)
    requires p.sender == q.sender
    requires p.sender.Some? ==>
      && (p.sender.value.uid in uids <==> p.sender.value.uid in cfg.bypassUids)
      && (p.sender.value.gid in gids <==> p.sender.value.gid in cfg.bypassGids)
    ensures var other := cfg.(bypassUids := uids, bypassGids := gids);
            && NatDecision(other, p) == NatDecision(cfg, p)
            && FilterDecision(other, e, p) == FilterDecision(cfg, e, p)
            && FilterDecision(other, e, q) == FilterDecision(cfg, e, q)
  {
  }

  /** The counters the integrity check alarms on, restricted to the rules it calls unreachable. */
  predicate Alarms(d: Decision, q: Packet) {
    || d.counter == Some(DotRejected)
    || d.counter == Some(DnsUnredirectedRejected)
    || (d.counter == Some(DohRejected) && q.proto == Tcp)
  }

  /**
   * While the session's own nat output evaluates connections, no packet is decided by the DoT rule,
   * the TCP DoH rules or the un-redirected DNS rules.
   */
  lemma AlarmsUnreachable(cfg: Config, e: Env, p: Packet)
    requires p.original && p.origDport == p.dport
    ensures var q := Translated(cfg, p);
            var d := Decide(FilterOutRules(cfg), e, q);
            && d.Some? && !Alarms(d.value, q)
            && d.value.counter != Some(DotRejected) && d.value.counter != Some(DnsUnredirectedRejected)
            && (d.value.counter == Some(DohRejected) ==> q.proto == Udp)
  {
    FilterOutClosedForm(cfg, e, Translated(cfg, p));
  }

  /** Hence an alarm proves the translation was not the session's own. */
  lemma AlarmMeansForeignTranslation(cfg: Config, e: Env, p: Packet, q: Packet)
    requires p.original && p.origDport == p.dport
    requires q == p.(dst := q.dst, dport := q.dport)
    requires Decide(FilterOutRules(cfg), e, q).Some? && Alarms(Decide(FilterOutRules(cfg), e, q).value, q)
    ensures q != AfterNat(SessionTable(Rules(cfg)), e, p)
  {
    AlarmsUnreachable(cfg, e, p);
    SessionOutput(cfg, e, p);
  }
}
