// ttp/firewall/runner.py, ttp/firewall/emergency.py and the firewall half of ttp/commands/lifecycle.py:
// everything that changes the `inet ttp` table, and what every reachable table still contains.
module Kernel {
  import opened Wrappers
  import opened Packets
  import opened Nft
  import opened Builder
  import opened Containment

  /** One nft process: it commits all of its script or nothing, and a timeout hides which. */
  datatype Outcome = Done | Refused | TimedOut(committed: bool)

  predicate Commits(o: Outcome) { o.Done? || (o.TimedOut? && o.committed) }

  // ---------------------------------------------------------------- the emergency table

  function Killswitch(): Table {
    Table(false, map[
      "filter_out" := Chain(Filter, Some(Output), 0, true, false, [Accepting(If(OifLo(false)))]),
      "filter_forward" := Chain(Filter, Some(Forward), 0, true, false, []),
      "filter_input" := Chain(Filter, Some(Input), 0, true, false, [Accepting(If(IifLo))])])
  }

  /** The emergency contract in terms of packets: only the loopback device carries anything. */
  ghost predicate Isolates(t: Table, e: Env) {
    && (forall p :: PassesOutput(t, e, p) ==> e.viaLo(p.dst))
    && (forall p :: Passes(t, Input, e, p) ==> p.inLo)
    && (forall p :: !Passes(t, Forward, e, p))
  }

  lemma KillswitchExact(e: Env, p: Packet)
    ensures PassesOutput(Killswitch(), e, p) <==> e.viaLo(p.dst)
    ensures Passes(Killswitch(), Input, e, p) <==> p.inLo
    ensures !Passes(Killswitch(), Forward, e, p)
  {
    var t := Killswitch();
    DecideOne(Accepting(If(OifLo(false))), e, p);
    DecideOne(Accepting(If(IifLo)), e, p);
    assert t.chains["filter_out"].rules == [Accepting(If(OifLo(false)))];
    assert t.chains["filter_input"].rules == [Accepting(If(IifLo))];
    assert ChainLets(t.chains["filter_out"], e, p) <==> e.viaLo(p.dst);
    assert ChainLets(t.chains["filter_input"], e, p) <==> p.inLo;
    assert !ChainLets(t.chains["filter_forward"], e, p);
  }

  lemma KillswitchContained(cfg: Config, e: Env)
    requires LoopbackRouting(e)
    ensures Isolates(Killswitch(), e)
    ensures Contained(cfg, e, Killswitch())
  {
    forall p ensures PassesOutput(Killswitch(), e, p) <==> e.viaLo(p.dst)
      ensures Passes(Killswitch(), Input, e, p) <==> p.inLo
      ensures !Passes(Killswitch(), Forward, e, p)
    {
      KillswitchExact(e, p);
    }
  }

  // ---------------------------------------------------------------- teardown inserts

  /** The table has an unscoped filter chain filter_out on the output hook. */
  predicate OutputGuarded(t: Table) {
    && !t.dormant
    && "filter_out" in t.chains
    && t.chains["filter_out"].ctype == Filter
    && t.chains["filter_out"].hook == Some(Output)
    && !t.chains["filter_out"].scoped
  }

  predicate Blocks(v: Verdict) { v.Drop? || v.Reject? || v.RejectReset? }

  function LockdownRule(torUid: Option<nat>): Rule {
    match torUid
    case Some(uid) => Rule(If2(Skuid(true, uid), OifLo(true)), None, Drop)
    case None => Rule(If(OifLo(true)), None, Drop)
  }

  function UdpRejectRule(): Rule { Rule(If(L4Proto({Udp})), None, Reject) }

  function TcpResetRule(): Rule { Rule(If(L4Proto({Tcp})), None, RejectReset) }

  /** `insert rule inet ttp filter_out ...`: refused by the kernel when the chain does not exist. */
  predicate CanInsert(table: Option<Table>) { table.Some? && "filter_out" in table.value.chains }

  function InsertHead(t: Table, r: Rule): Table
    requires "filter_out" in t.chains
  {
    var chain := t.chains["filter_out"];
    t.(chains := t.chains["filter_out" := chain.(rules := [r] + chain.rules)])
  }

  lemma DecideInserted(r: Rule, rules: seq<Rule>, e: Env, p: Packet)
    ensures Decide([r] + rules, e, p) ==
      if Fires(r, e, p) then Some(Decision(r.verdict, r.counter)) else Decide(rules, e, p)
  {
    DecideConcat([r], rules, e, p);
    DecideOne(r, e, p);
  }

  /** An insert never opens anything, on any table, and never changes the translation. */
  lemma InsertShrinks(t: Table, r: Rule, e: Env, p: Packet)
    requires "filter_out" in t.chains && Blocks(r.verdict)
    requires t.chains["filter_out"].ctype == Filter
    ensures AfterNat(InsertHead(t, r), e, p) == AfterNat(t, e, p)
    ensures PassesOutput(InsertHead(t, r), e, p) ==> PassesOutput(t, e, p)
    ensures !t.dormant && t.chains["filter_out"].hook == Some(Output) && !t.chains["filter_out"].scoped ==>
      (PassesOutput(InsertHead(t, r), e, p) <==> PassesOutput(t, e, p) && !Fires(r, e, AfterNat(t, e, p)))
  {
    var q, t' := AfterNat(t, e, p), InsertHead(t, r);
    DecideInserted(r, t.chains["filter_out"].rules, e, q);
    DecideInserted(r, t.chains["filter_out"].rules, e, p);
    assert forall name | name in t.chains && name != "filter_out" :: t'.chains[name] == t.chains[name];
    if PassesOutput(t', e, p) && !t.dormant {
      forall name | name in t.chains && t.chains[name].hook == Some(Output)
        ensures ChainLets(t.chains[name], e, if t.chains[name].ctype == Nat then p else q)
      {
        assert ChainLets(t'.chains[name], e, if t'.chains[name].ctype == Nat then p else q);
      }
      assert t.chains["filter_out"].hook == Some(Output) ==> ChainLets(t'.chains["filter_out"], e, q);
    }
    if PassesOutput(t, e, p) && !t.dormant && !Fires(r, e, q) {
      forall name | name in t'.chains && t'.chains[name].hook == Some(Output)
        ensures ChainLets(t'.chains[name], e, if t'.chains[name].ctype == Nat then p else q)
      {
        assert ChainLets(t.chains[name], e, if t.chains[name].ctype == Nat then p else q);
      }
    }
  }

  /** After the lockdown only the loopback device, Tor, and packets no process sent still pass. */
  lemma LockdownLocks(t: Table, torUid: Option<nat>, e: Env, p: Packet)
    requires "filter_out" in t.chains && t.chains["filter_out"].ctype == Filter
    requires !t.dormant && t.chains["filter_out"].hook == Some(Output) && !t.chains["filter_out"].scoped
    ensures var q := AfterNat(t, e, p);
            PassesOutput(InsertHead(t, LockdownRule(torUid)), e, p) <==>
            && PassesOutput(t, e, p)
            && (e.viaLo(q.dst) || (torUid.Some? && (q.sender.None? || IsUid(q, torUid.value))))
  {
    InsertShrinks(t, LockdownRule(torUid), e, p);
  }

  // ---------------------------------------------------------------- runs between commit and flush

  datatype Step =
    | Lockdown(torUid: Option<nat>, outcome: Outcome)
    | RejectUdp(outcome: Outcome)
    | ResetTcp(outcome: Outcome)
    | ReplaceByKillswitch(outcome: Outcome)

  function Inserted(table: Option<Table>, r: Rule, o: Outcome): Option<Table> {
    if Commits(o) && CanInsert(table) then Some(InsertHead(table.value, r)) else table
  }

  function After(table: Option<Table>, s: Step): Option<Table> {
    match s
    case Lockdown(torUid, o) => Inserted(table, LockdownRule(torUid), o)
    case RejectUdp(o) => Inserted(table, UdpRejectRule(), o)
    case ResetTcp(o) => Inserted(table, TcpResetRule(), o)
    case ReplaceByKillswitch(o) => if Commits(o) then Some(Killswitch()) else table
  }

  function Run(table: Option<Table>, steps: seq<Step>): Option<Table> {
    if steps == [] then table else After(Run(table, steps[..|steps| - 1]), steps[|steps| - 1])
  }

  /** Every table of a run keeps filter_out where its inserts act, and contains the session. */
  ghost predicate Guarded(cfg: Config, e: Env, table: Option<Table>) {
    && table.Some?
    && OutputGuarded(table.value)
    && Contained(cfg, e, table.value)
    && (forall p :: !Passes(table.value, Forward, e, p))
  }

  lemma InsertKeepsGuard(cfg: Config, e: Env, t: Table, r: Rule)
    requires Guarded(cfg, e, Some(t)) && Blocks(r.verdict)
    ensures Guarded(cfg, e, Some(InsertHead(t, r)))
  {
    var t' := InsertHead(t, r);
    forall p | PassesOutput(t', e, p)
      ensures Harmless(cfg, e, AfterNat(t', e, p))
    {
      InsertShrinks(t, r, e, p);
    }
    forall p
      ensures !Passes(t', Forward, e, p)
    {
      assert !Passes(t, Forward, e, p);
      var name :| name in t.chains && t.chains[name].hook == Some(Forward)
        && !ChainLets(t.chains[name], e, p);
      assert t'.chains[name] == t.chains[name];
    }
  }

  lemma StepKeepsGuard(cfg: Config, e: Env, table: Option<Table>, s: Step)
    requires Guarded(cfg, e, table) && LoopbackRouting(e)
    ensures Guarded(cfg, e, After(table, s))
  {
    match s {
      case Lockdown(torUid, o) => InsertKeepsGuard(cfg, e, table.value, LockdownRule(torUid));
      case RejectUdp(o) => InsertKeepsGuard(cfg, e, table.value, UdpRejectRule());
      case ResetTcp(o) => InsertKeepsGuard(cfg, e, table.value, TcpResetRule());
      case ReplaceByKillswitch(o) => KillswitchContained(cfg, e);
    }
  }

  /**
   * From the commit of the session's rules to the flush of its teardown, whichever nft runs fail or
   * time out, every table the kernel holds contains the session.
   */
  lemma {:induction false} RunStaysContained(cfg: Config, e: Env, steps: seq<Step>)
    requires LoopbackRouting(e)
    ensures Guarded(cfg, e, Run(Some(SessionTable(Rules(cfg))), steps))
  {
    if steps == [] {
      SessionContained(cfg, e);
      forall p ensures !Passes(SessionTable(Rules(cfg)), Forward, e, p) { SessionForwardsNothing(cfg, e, p); }
    } else {
      RunStaysContained(cfg, e, steps[..|steps| - 1]);
      StepKeepsGuard(cfg, e, Run(Some(SessionTable(Rules(cfg))), steps[..|steps| - 1]), steps[|steps| - 1]);
    }
  }

  /**
   * The same in terms of senders: whatever table a run has reached, a packet it lets out to a public
   * address was sent by an exempt process, and nothing is forwarded.
   */
  lemma RunLeaksNothing(cfg: Config, e: Env, steps: seq<Step>, p: Packet)
    requires LoopbackRouting(e)
    ensures Run(Some(SessionTable(Rules(cfg))), steps).Some?
    ensures var t := Run(Some(SessionTable(Rules(cfg))), steps).value;
      var q := AfterNat(t, e, p);
      && !Passes(t, Forward, e, p)
      && (PassesOutput(t, e, p) && Public(cfg, q.dst) && !e.isLocal(q.dst) ==>
            && q.sender.Some?
            && var who := q.sender.value;
               || who.uid == cfg.torUid
               || who.uid in cfg.bypassUids
               || who.gid in cfg.bypassGids
               || (cfg.cgroupBypass && who.slice)
               || (cfg.allowRoot && who.uid == 0))
  {
    RunStaysContained(cfg, e, steps);
    var t := Run(Some(SessionTable(Rules(cfg))), steps).value;
    var q := AfterNat(t, e, p);
    if PassesOutput(t, e, p) && Public(cfg, q.dst) && !e.isLocal(q.dst) {
      assert Harmless(cfg, e, q);
      PublicIsRemote(cfg, q.dst);
      ExemptExactly(cfg, q);
    }
  }

  /** Isolated by a table whose inserts act where they should. */
  ghost predicate IsolatedNow(e: Env, table: Option<Table>) {
    table.Some? && OutputGuarded(table.value) && Isolates(table.value, e)
  }

  lemma InsertKeepsIsolation(e: Env, t: Table, r: Rule)
    requires IsolatedNow(e, Some(t)) && Blocks(r.verdict)
    ensures IsolatedNow(e, Some(InsertHead(t, r)))
  {
    var t' := InsertHead(t, r);
    forall p ensures PassesOutput(t', e, p) ==> e.viaLo(p.dst) {
      InsertShrinks(t, r, e, p);
    }
    forall p, h | h == Input || h == Forward ensures Passes(t', h, e, p) ==> Passes(t, h, e, p) {
      if Passes(t', h, e, p) {
        forall name | name in t.chains && t.chains[name].hook == Some(h) ensures ChainLets(t.chains[name], e, p) {
          assert t'.chains[name] == t.chains[name];
        }
      }
    }
  }

  /** Once isolated, every table of every run isolates: nothing a teardown does before the flush undoes it. */
  lemma {:induction false} IsolationLasts(e: Env, table: Option<Table>, steps: seq<Step>)
    requires IsolatedNow(e, table)
    ensures IsolatedNow(e, Run(table, steps))
  {
    if steps != [] {
      var before, last := Run(table, steps[..|steps| - 1]), steps[|steps| - 1];
      IsolationLasts(e, table, steps[..|steps| - 1]);
      match last {
        case Lockdown(torUid, o) => InsertKeepsIsolation(e, before.value, LockdownRule(torUid));
        case RejectUdp(o) => InsertKeepsIsolation(e, before.value, UdpRejectRule());
        case ResetTcp(o) => InsertKeepsIsolation(e, before.value, TcpResetRule());
        case ReplaceByKillswitch(o) => KillswitchIsolates(e);
      }
    }
  }

  lemma KillswitchIsolates(e: Env)
    ensures IsolatedNow(e, Some(Killswitch()))
  {
    forall p
      ensures PassesOutput(Killswitch(), e, p) <==> e.viaLo(p.dst)
      ensures Passes(Killswitch(), Input, e, p) <==> p.inLo
      ensures !Passes(Killswitch(), Forward, e, p)
    {
      KillswitchExact(e, p);
    }
  }

  /** A committed replacement isolates whatever the kernel held, and so does every table of the run after it. */
  lemma ReplacementIsolates(e: Env, table: Option<Table>, before: seq<Step>, o: Outcome, after: seq<Step>)
    requires o == Done || o == TimedOut(true)
    ensures Run(table, before + [ReplaceByKillswitch(o)]) == Some(Killswitch())
    ensures var last := Run(Run(table, before + [ReplaceByKillswitch(o)]), after); last.Some? && Isolates(last.value, e)
  {
    RunSnoc(table, before, ReplaceByKillswitch(o));
    KillswitchIsolates(e);
    IsolationLasts(e, Some(Killswitch()), after);
  }

  // ---------------------------------------------------------------- the teardown before the flush

  /** The steps of a teardown: the TCP insert is made only when the UDP insert did not raise. */
  function TeardownSteps(
    table: Option<Table>, uid: Option<nat>, lockdown: Outcome, udp: Outcome, tcp: Outcome): seq<Step>
  {
    [Lockdown(uid, lockdown), RejectUdp(udp)] +
    if udp.Done? && CanInsert(After(table, Lockdown(uid, lockdown))) then [ResetTcp(tcp)] else []
  }

  lemma RunTeardown(table: Option<Table>, uid: Option<nat>, lockdown: Outcome, udp: Outcome, tcp: Outcome)
    ensures var t1 := After(table, Lockdown(uid, lockdown));
      var t2 := After(t1, RejectUdp(udp));
      Run(table, TeardownSteps(table, uid, lockdown, udp, tcp)) ==
        if udp.Done? && CanInsert(t1) then After(t2, ResetTcp(tcp)) else t2
  {
    var steps := [Lockdown(uid, lockdown), RejectUdp(udp)];
    RunTwo(table, steps[0], steps[1]);
    RunSnoc(table, steps, ResetTcp(tcp));
    assert steps + [] == steps;
  }

  lemma InsertTwice(t: Table, first: Rule, second: Rule, e: Env, p: Packet)
    requires OutputGuarded(t) && Blocks(first.verdict) && Blocks(second.verdict)
    ensures var t' := InsertHead(InsertHead(t, first), second);
      && OutputGuarded(t')
      && AfterNat(t', e, p) == AfterNat(t, e, p)
      && (PassesOutput(t', e, p) <==>
            PassesOutput(t, e, p) && !Fires(first, e, AfterNat(t, e, p)) && !Fires(second, e, AfterNat(t, e, p)))
  {
    InsertShrinks(t, first, e, p);
    InsertShrinks(InsertHead(t, first), second, e, p);
  }

  /** What three successful inserts make of a table. */
  function Silenced(t: Table, uid: Option<nat>): Table
    requires CanInsert(Some(t))
  {
    InsertHead(InsertHead(InsertHead(t, LockdownRule(uid)), UdpRejectRule()), TcpResetRule())
  }

  lemma SuccessfulTeardown(t: Table, uid: Option<nat>)
    requires CanInsert(Some(t))
    ensures Run(Some(t), TeardownSteps(Some(t), uid, Done, Done, Done)) == Some(Silenced(t, uid))
  {
    RunTeardown(Some(t), uid, Done, Done, Done);
  }

  /**
   * When its inserts succeed, a teardown has silenced the session before it flushes the table: no TCP
   * and no UDP leaves at all, and other protocols only through the loopback device, from Tor, or
   * without a process behind them. This holds of any table that guards the output hook.
   */
  lemma TeardownSilences(t: Table, uid: Option<nat>, e: Env, p: Packet)
    requires OutputGuarded(t)
    ensures PassesOutput(Silenced(t, uid), e, p) <==>
      && PassesOutput(t, e, p)
      && p.proto.OtherProto?
      && (e.viaLo(AfterNat(t, e, p).dst) ||
          (uid.Some? && (p.sender.None? || IsUid(p, uid.value))))
  {
    LockdownLocks(t, uid, e, p);
    InsertShrinks(t, LockdownRule(uid), e, p);
    InsertTwice(InsertHead(t, LockdownRule(uid)), UdpRejectRule(), TcpResetRule(), e, p);
    NatKeepsRest(t, e, p);
  }

  lemma NatKeepsRest(t: Table, e: Env, p: Packet)
    ensures AfterNat(t, e, p).proto == p.proto && AfterNat(t, e, p).sender == p.sender
  {
  }

  // ---------------------------------------------------------------- the flush that ends containment

  function Flushed(t: Table): Table {
    t.(chains := map name | name in t.chains :: t.chains[name].(rules := []))
  }

  /** A flush removes every rule and nothing else. */
  lemma FlushKeepsChains(t: Table)
    ensures Flushed(t).dormant == t.dormant && Flushed(t).chains.Keys == t.chains.Keys
    ensures forall name | name in t.chains :: Flushed(t).chains[name] == t.chains[name].(rules := [])
  {
  }

  /** Flushing a session table opens its output hook; flushing the killswitch closes even loopback. */
  lemma FlushEffect(cfg: Config, e: Env, p: Packet)
    ensures PassesOutput(Flushed(SessionTable(Rules(cfg))), e, p)
    ensures !PassesOutput(Flushed(Killswitch()), e, p)
  {
    var k := Flushed(Killswitch());
    assert !ChainLets(k.chains["filter_out"], e, AfterNat(k, e, p));
  }

  /** How destroy_rules ends. `Gone` is its `return True`; the others are exceptions. */
  datatype Destroyed = Gone | StillPresent | Interrupted

  function AfterFlush(table: Option<Table>, flush: Outcome): Option<Table> {
    if table.Some? && Commits(flush) then Some(Flushed(table.value)) else table
  }

  function AfterDestroy(table: Option<Table>, flush: Outcome, delete: Outcome): Option<Table> {
    if flush.TimedOut? then AfterFlush(table, flush)
    else if Commits(delete) then None
    else AfterFlush(table, flush)
  }

  class Firewall {
    var table: Option<Table>

    constructor ()
      ensures table == None
    {
      table := None;
    }

    /** Add, delete and define the table in one transaction. */
    method ApplyTableAtomically(t: Table, o: Outcome) returns (raised: bool)
      modifies this
      ensures o == Done || o == TimedOut(true) ==> table == Some(t)
      ensures o == Refused || o == TimedOut(false) ==> table == old(table)
      ensures raised <==> o != Done
    {
      if Commits(o) {
        table := Some(t);
      }
      raised := !o.Done?;
    }

    method ApplyEmergencyKillswitch(o: Outcome) returns (raised: bool)
      modifies this
      ensures table == After(old(table), ReplaceByKillswitch(o))
      ensures o == Done || o == TimedOut(true) ==> table == Some(Killswitch())
      ensures o == Refused || o == TimedOut(false) ==> table == old(table)
      ensures raised <==> o != Done
    {
      raised := ApplyTableAtomically(Killswitch(), o);
    }

    method Insert(r: Rule, o: Outcome) returns (raised: bool)
      modifies this
      ensures table == Inserted(old(table), r, o)
      ensures CanInsert(old(table)) && (o == Done || o == TimedOut(true)) ==>
        table == Some(InsertHead(old(table).value, r))
      ensures !CanInsert(old(table)) || o == Refused || o == TimedOut(false) ==> table == old(table)
      ensures raised <==> !(o == Done && CanInsert(old(table)))
    {
      raised := !(o.Done? && CanInsert(table));
      if Commits(o) && CanInsert(table) {
        table := Some(InsertHead(table.value, r));
      }
    }

    /** Refuses a negative uid; any nft failure is logged and teardown continues. */
    method ApplyTeardownLockdown(torUid: Option<int>, o: Outcome) returns (badUid: bool)
      modifies this
      ensures badUid <==> torUid.Some? && torUid.value < 0
      ensures badUid ==> table == old(table)
      ensures !badUid ==> table == After(old(table), Lockdown(torUid, o))
    {
      badUid := torUid.Some? && torUid.value < 0;
      if !badUid {
        var _ := Insert(LockdownRule(torUid), o);
      }
    }

    /** The TCP rule is inserted only when the UDP insert did not raise. */
    method ApplyActiveSocketSlaughter(udp: Outcome, tcp: Outcome)
      modifies this
      ensures var afterUdp := After(old(table), RejectUdp(udp));
              table == if udp.Done? && CanInsert(old(table)) then After(afterUdp, ResetTcp(tcp)) else afterUdp
    {
      var raised := Insert(UdpRejectRule(), udp);
      if !raised {
        var _ := Insert(TcpResetRule(), tcp);
      }
    }

    /**
     * Flush, delete, and list when the delete failed. `Gone` with the table still in the kernel
     * happens exactly when the table existed, its delete was refused and its listing failed too.
     */
    method DestroyRules(flush: Outcome, delete: Outcome, listing: Outcome) returns (r: Destroyed)
      modifies this
      ensures table == AfterDestroy(old(table), flush, delete)
      ensures table == None <==>
        old(table) == None || (!flush.TimedOut? && (delete == Done || delete == TimedOut(true)))
      ensures table.Some? ==>
        table == if flush == Done || flush == TimedOut(true) then Some(Flushed(old(table).value)) else old(table)
      ensures r == Gone && table.Some? <==>
        old(table).Some? && !flush.TimedOut? && delete.Refused? && listing.Refused?
      ensures r == StillPresent <==>
        old(table).Some? && !flush.TimedOut? && delete.Refused? && listing.Done?
      ensures r == Interrupted <==>
        || flush.TimedOut?
        || delete.TimedOut?
        || ((delete.Refused? || old(table).None?) && listing.TimedOut?)
    {
      table := AfterFlush(table, flush);
      if flush.TimedOut? {
        return Interrupted;
      }
      var deleted := delete.Done? && table.Some?;
      if Commits(delete) {
        table := None;
      }
      if delete.TimedOut? {
        return Interrupted;
      }
      if deleted {
        return Gone;
      }
      if listing.TimedOut? {
        return Interrupted;
      }
      r := if listing.Done? && table.Some? then StillPresent else Gone;
    }

    /**
     * Apply the session's rules; on any failure destroy the table and re-raise. A hanging destroy
     * escapes as another exception.
     */
    method ApplyRules(cfg: Config, apply: Outcome, flush: Outcome, delete: Outcome, listing: Outcome)
      returns (raised: bool, escaped: bool)
      modifies this
      ensures raised <==> !apply.Done?
      ensures escaped <==>
        && raised
        && (|| flush.TimedOut?
            || delete.TimedOut?
            || ((delete.Refused? || (!Commits(apply) && old(table).None?)) && listing.TimedOut?))
      ensures !raised ==> table == Some(SessionTable(Rules(cfg)))
      ensures raised ==>
        table == AfterDestroy(if Commits(apply) then Some(SessionTable(Rules(cfg))) else old(table), flush, delete)
    {
      var ruleset := BuildRuleset(cfg);
      escaped := false;
      raised := ApplyTableAtomically(SessionTable(ruleset), apply);
      if raised {
        var r := DestroyRules(flush, delete, listing);
        escaped := r == Interrupted;
      }
    }

    /** The firewall steps of do_stop, in order. `before` is the table the flush finds. */
    method TearDown(torUid: Option<int>, lockdown: Outcome, udp: Outcome, tcp: Outcome,
                    flush: Outcome, delete: Outcome, listing: Outcome)
      returns (r: Destroyed, ghost before: Option<Table>)
      modifies this
      ensures before == Run(old(table), TeardownSteps(old(table), TeardownUid(torUid), lockdown, udp, tcp))
      ensures table == AfterDestroy(before, flush, delete)
      ensures r == Gone && table.Some? <==>
        before.Some? && !flush.TimedOut? && delete.Refused? && listing.Refused?
      ensures r == StillPresent <==> before.Some? && !flush.TimedOut? && delete.Refused? && listing.Done?
      ensures r == Interrupted <==>
        || flush.TimedOut?
        || delete.TimedOut?
        || ((delete.Refused? || before.None?) && listing.TimedOut?)
    {
      var uid := TeardownUid(torUid);
      RunTeardown(table, uid, lockdown, udp, tcp);
      var _ := ApplyTeardownLockdown(uid, lockdown);
      ApplyActiveSocketSlaughter(udp, tcp);
      before := table;
      r := DestroyRules(flush, delete, listing);
    }
  }

  /** do_stop drops a negative uid before it reaches the lockdown. */
  function TeardownUid(torUid: Option<int>): (uid: Option<nat>)
    ensures forall n: nat :: uid == Some(n) <==> torUid == Some(n as int)
  {
    if torUid.Some? && torUid.value >= 0 then Some(torUid.value) else None
  }

  lemma RunSnoc(table: Option<Table>, steps: seq<Step>, s: Step)
    ensures Run(table, steps + [s]) == After(Run(table, steps), s)
  {
    assert (steps + [s])[..|steps|] == steps;
  }

  lemma RunTwo(table: Option<Table>, a: Step, b: Step)
    ensures Run(table, [a, b]) == After(After(table, a), b)
  {
    RunSnoc(table, [], a);
    RunSnoc(table, [a], b);
    assert [] + [a] == [a] && [a] + [b] == [a, b];
  }
}
