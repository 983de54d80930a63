// One request as a run of the interleaved protocol: ttp/session_safety.py seen both ways.
module Correspondence {
  import opened Wrappers
  import opened Intent
  import P = Protocol
  import S = SessionSafety

  function OutcomeOf(kept: bool, a: S.Application): P.KillOutcome {
    if kept then P.Skipped
    else if a.Applied? then P.Done
    else if a.committed then P.FailedButCommitted
    else P.FailedWithoutEffect
  }

  function ApplicationOf(o: P.KillOutcome): S.Application {
    match o
    case FailedButCommitted => S.Failed(true)
    case FailedWithoutEffect => S.Failed(false)
    case _ => S.Applied
  }

  /** What a step of the protocol does to records and kernel table. */
  function EffectOf(p: P.Proc, a: P.Action): seq<S.Effect> {
    match a
    case WriteRecord(written) =>
      if p.Worker? && p.wpc == P.WLatch then [S.LatchTried(written)] else [S.EvidenceTried(written)]
    case Kill(o) => if o == P.Skipped then [] else [S.KillswitchTried(ApplicationOf(o))]
    case _ => []
  }

  function EffectsOf(split: bool, s: P.State, moves: seq<P.Move>): seq<S.Effect>
    requires P.IsRun(split, s, moves)
    decreases |moves|
  {
    if moves == [] then []
    else
      EffectOf(s.procs[moves[0].who], moves[0].action) +
      EffectsOf(split, P.Apply(split, s, moves[0].who, moves[0].action), moves[1..])
  }

  /** The effects of a request the protocol models: all but the kernel inspections. */
  function WithoutReads(es: seq<S.Effect>): seq<S.Effect> {
    if es == [] then [] else (if es[0].KernelRead? then [] else [es[0]]) + WithoutReads(es[1..])
  }

  /** A run that begins with one move. */
  lemma EffectsCons(split: bool, s: P.State, m: P.Move, rest: seq<P.Move>)
    requires P.Enabled(split, s, m.who, m.action) && P.IsRun(split, P.Apply(split, s, m.who, m.action), rest)
    ensures var next := P.Apply(split, s, m.who, m.action);
      && P.IsRun(split, s, [m] + rest)
      && P.Final(split, s, [m] + rest) == P.Final(split, next, rest)
      && EffectsOf(split, s, [m] + rest) == EffectOf(s.procs[m.who], m.action) + EffectsOf(split, next, rest)
  {
    assert ([m] + rest)[0] == m && ([m] + rest)[1..] == rest;
  }

  lemma {:induction false} EffectsConcat(split: bool, s: P.State, a: seq<P.Move>, b: seq<P.Move>)
    requires P.IsRun(split, s, a) && P.IsRun(split, P.Final(split, s, a), b)
    ensures P.IsRun(split, s, a + b)
    ensures EffectsOf(split, s, a + b) == EffectsOf(split, s, a) + EffectsOf(split, P.Final(split, s, a), b)
    decreases |a|
  {
    if a == [] {
      assert a + b == b;
    } else {
      EffectsConcat(split, P.Apply(split, s, a[0].who, a[0].action), a[1..], b);
      EffectsCons(split, s, a[0], a[1..] + b);
      Regroup(a, b);
    }
  }

  lemma Regroup(a: seq<P.Move>, b: seq<P.Move>)
    requires a != []
    ensures a + b == [a[0]] + (a[1..] + b)
  {
  }

  lemma {:induction false} WithoutReadsConcat(a: seq<S.Effect>, b: seq<S.Effect>)
    ensures WithoutReads(a + b) == WithoutReads(a) + WithoutReads(b)
  {
    if a == [] {
      assert a + b == b;
    } else {
      assert (a + b)[1..] == a[1..] + b;
      WithoutReadsConcat(a[1..], b);
    }
  }

  /** Up to its decision a worker has no effect. */
  lemma AttemptHasNoEffect(split: bool, s: P.State, i: nat, t: nat, require: bool, repair: bool, ok: bool)
    requires P.IsRun(split, s, P.Attempt(i, t, require, repair, ok))
    ensures EffectsOf(split, s, P.Attempt(i, t, require, repair, ok)) == []
  {
    NoEffects(split, s, P.Attempt(i, t, require, repair, ok));
  }

  lemma {:induction false} NoEffects(split: bool, s: P.State, moves: seq<P.Move>)
    requires P.IsRun(split, s, moves)
    requires forall m | m in moves :: !m.action.WriteRecord? && !m.action.Kill?
    ensures EffectsOf(split, s, moves) == []
    decreases |moves|
  {
    if moves != [] {
      assert moves[0] in moves;
      NoEffects(split, P.Apply(split, s, moves[0].who, moves[0].action), moves[1..]);
    }
  }

  /** The latch, the killswitch and the evidence of a worker that decided to act. */
  function Acts(i: nat, latched: bool, o: P.KillOutcome, published: bool): seq<P.Move> {
    [P.Move(i, P.WriteRecord(latched))] + ([P.Move(i, P.Kill(o))] + ([P.Move(i, P.WriteRecord(published))] + []))
  }

  lemma ActingRun(split: bool, s: P.State, i: nat, latched: bool, o: P.KillOutcome, published: bool)
    requires i < |s.procs| && s.procs[i].Worker? && s.procs[i].wpc == P.WLatch && s.holder == Some(i)
    requires o == P.Skipped ==> s.procs[i].repair && s.table == EmergencyRules
    ensures P.IsRun(split, s, Acts(i, latched, o, published))
    ensures P.Final(split, s, Acts(i, latched, o, published)) ==
      s.(holder := None, procs := s.procs[i := P.Idle],
         table := if o in {P.Done, P.FailedButCommitted} then EmergencyRules else s.table)
    ensures EffectsOf(split, s, Acts(i, latched, o, published)) ==
      [S.LatchTried(latched)] + (if o == P.Skipped then [] else [S.KillswitchTried(ApplicationOf(o))]) +
      [S.EvidenceTried(published)]
  {
    var s1 := LatchStep(split, s, i, latched);
    var s2 := KillStep(split, s1, i, o);
    var last := [P.Move(i, P.WriteRecord(published))] + [];
    EffectsCons(split, s2, P.Move(i, P.WriteRecord(published)), []);
    EffectsCons(split, s1, P.Move(i, P.Kill(o)), last);
    EffectsCons(split, s, P.Move(i, P.WriteRecord(latched)), [P.Move(i, P.Kill(o))] + last);
  }

  lemma LatchStep(split: bool, s: P.State, i: nat, latched: bool) returns (next: P.State)
    requires i < |s.procs| && s.procs[i].Worker? && s.procs[i].wpc == P.WLatch
    ensures P.Enabled(split, s, i, P.WriteRecord(latched)) && next == P.Apply(split, s, i, P.WriteRecord(latched))
    ensures next == s.(procs := s.procs[i := s.procs[i].(wpc := P.WKill)])
  {
    next := P.Apply(split, s, i, P.WriteRecord(latched));
  }

  lemma KillStep(split: bool, s: P.State, i: nat, o: P.KillOutcome) returns (next: P.State)
    requires i < |s.procs| && s.procs[i].Worker? && s.procs[i].wpc == P.WKill
    requires o == P.Skipped ==> s.procs[i].repair && s.table == EmergencyRules
    ensures P.Enabled(split, s, i, P.Kill(o)) && next == P.Apply(split, s, i, P.Kill(o))
    ensures next == s.(procs := s.procs[i := s.procs[i].(wpc := P.WEvidence)],
                       table := if o in {P.Done, P.FailedButCommitted} then EmergencyRules else s.table)
  {
    next := P.Apply(split, s, i, P.Kill(o));
  }

  lemma EffectsWithoutReads(repair: bool, f: S.Faults)
    ensures WithoutReads(S.Effects(repair, f)) ==
      [S.LatchTried(f.latchWritten)] + (if S.Kept(repair, f) then [] else [S.KillswitchTried(f.apply)]) +
      [S.EvidenceTried(f.evidenceWritten)]
  {
    var first := if repair then [S.KernelRead(f.firstReply)] else [];
    var kill := if S.Kept(repair, f) then [] else [S.KillswitchTried(f.apply), S.KernelRead(f.lastReply)];
    assert S.Effects(repair, f) ==
      [S.LatchTried(f.latchWritten)] + (first + kill + [S.EvidenceTried(f.evidenceWritten)]);
    WithoutReadsConcat([S.LatchTried(f.latchWritten)], first + kill + [S.EvidenceTried(f.evidenceWritten)]);
    WithoutReadsConcat(first + kill, [S.EvidenceTried(f.evidenceWritten)]);
    WithoutReadsConcat(first, kill);
    assert WithoutReads(first) == [];
    if !S.Kept(repair, f) {
      assert kill[1..] == [S.KernelRead(f.lastReply)] && kill[1..][1..] == [];
    }
  }

  /** A worker that intent lets through comes to hold the lock and to act, without an effect so far. */
  lemma LetThrough(split: bool, s: P.State, i: nat, t: nat, require: bool, repair: bool, ok: bool)
    returns (acting: P.State)
    requires i < |s.procs| && s.procs[i] == P.Idle && s.holder == None && t < s.next
    requires Choose(Readable(s.marker), P.View(s, ok), t, require) == Proceed
    ensures var attempt := P.Attempt(i, t, require, repair, ok);
      P.IsRun(split, s, attempt) && P.Final(split, s, attempt) == acting && EffectsOf(split, s, attempt) == []
    ensures |acting.procs| == |s.procs| && acting == s.(holder := Some(i), procs := s.procs[i := acting.procs[i]])
    ensures var p := acting.procs[i]; p.Worker? && p.wpc == P.WLatch && p.repair == repair
  {
    P.RunAttempt(split, s, i, t, require, repair, ok);
    AttemptHasNoEffect(split, s, i, t, require, repair, ok);
    acting := P.Final(split, s, P.Attempt(i, t, require, repair, ok));
  }

  lemma RequestRun(split: bool, s: P.State, i: nat, t: nat, require: bool, repair: bool, ok: bool,
                   latched: bool, o: P.KillOutcome, published: bool) returns (moves: seq<P.Move>)
    requires i < |s.procs| && s.procs[i] == P.Idle && s.holder == None && t < s.next
    requires Choose(Readable(s.marker), P.View(s, ok), t, require) == Proceed
    requires o == P.Skipped ==> repair && s.table == EmergencyRules
    ensures P.IsRun(split, s, moves)
    ensures EffectsOf(split, s, moves) ==
      [S.LatchTried(latched)] + (if o == P.Skipped then [] else [S.KillswitchTried(ApplicationOf(o))]) +
      [S.EvidenceTried(published)]
    ensures P.Final(split, s, moves) ==
      s.(table := if o in {P.Done, P.FailedButCommitted} then EmergencyRules else s.table)
  {
    var attempt, acts := P.Attempt(i, t, require, repair, ok), Acts(i, latched, o, published);
    var acting := LetThrough(split, s, i, t, require, repair, ok);
    ActingRun(split, acting, i, latched, o, published);
    P.FinalConcat(split, s, attempt, acts);
    EffectsConcat(split, s, attempt, acts);
    moves := attempt + acts;
    assert P.Final(split, s, moves).procs == s.procs;
  }

  /**
   * A request that is let through is a run of the protocol by one worker: the same effects in the same
   * order for the same faults, the same table, and nothing else changed.
   */
  lemma RequestIsARun(split: bool, s: P.State, i: nat, t: nat, require: bool, repair: bool, ok: bool, f: S.Faults)
    returns (moves: seq<P.Move>)
    requires i < |s.procs| && s.procs[i] == P.Idle && s.holder == None && t < s.next
    requires Choose(Readable(s.marker), P.View(s, ok), t, require) == Proceed
    requires S.Kept(repair, f) ==> s.table == EmergencyRules
    ensures P.IsRun(split, s, moves)
    ensures EffectsOf(split, s, moves) == WithoutReads(S.Effects(repair, f))
    ensures P.Final(split, s, moves) ==
      s.(table := if S.Kept(repair, f) then s.table else S.AfterApplication(s.table, f.apply))
  {
    EffectsWithoutReads(repair, f);
    moves := RequestRun(split, s, i, t, require, repair, ok,
                        f.latchWritten, OutcomeOf(S.Kept(repair, f), f.apply), f.evidenceWritten);
  }

  /** A request that intent refuses, or that cannot read it, is a run that changes nothing. */
  lemma RefusedRequestIsARun(
    split: bool, s: P.State, i: nat, t: nat, require: bool, repair: bool, readable: bool, ok: bool)
    returns (moves: seq<P.Move>)
    requires i < |s.procs| && s.procs[i] == P.Idle && s.holder == None && t < s.next
    requires Choose(if readable then Readable(s.marker) else BadMarker, P.View(s, ok), t, require) != Proceed
    ensures P.IsRun(split, s, moves)
    ensures EffectsOf(split, s, moves) == []
    ensures P.Final(split, s, moves) == s
  {
    var p := P.Worker(t, require, repair, P.WWait, P.Unseen);
    var held := Waiting(split, s, i, p);
    var start := [P.Move(i, P.Spawn(p)), P.Move(i, P.Acquire)];
    var rest := Refusal(split, s, held, i, p, readable, ok);
    P.FinalConcat(split, s, start, rest);
    moves := start + rest;
    NoEffects(split, s, moves);
  }

  /** The worker has started and holds the transition lock. */
  lemma Waiting(split: bool, s: P.State, i: nat, p: P.Proc) returns (held: P.State)
    requires i < |s.procs| && s.procs[i] == P.Idle && s.holder == None
    requires p.Worker? && p.session < s.next && p.wpc == P.WWait && p.sight == P.Unseen
    ensures held == s.(holder := Some(i), procs := s.procs[i := p.(wpc := P.WMarker)])
    ensures var start := [P.Move(i, P.Spawn(p)), P.Move(i, P.Acquire)];
      P.IsRun(split, s, start) && P.Final(split, s, start) == held
  {
    P.TwoMoves(split, s, i, P.Spawn(p), P.Acquire);
    held := s.(holder := Some(i), procs := s.procs[i := p.(wpc := P.WMarker)]);
  }

  /** Reading intent, it gives up. */
  lemma Refusal(split: bool, s: P.State, held: P.State, i: nat, p: P.Proc, readable: bool, ok: bool)
    returns (rest: seq<P.Move>)
    requires i < |s.procs| && s.procs[i] == P.Idle && s.holder == None && p.Worker? && p.wpc == P.WWait
    requires held == s.(holder := Some(i), procs := s.procs[i := p.(wpc := P.WMarker)])
    requires Choose(if readable then Readable(s.marker) else BadMarker, P.View(s, ok), p.session, p.require) != Proceed
    ensures P.IsRun(split, held, rest) && P.Final(split, held, rest) == s
    ensures forall m | m in rest :: !m.action.WriteRecord? && !m.action.Kill?
  {
    if readable && !Covers(s.marker, p.session) {
      P.TwoMoves(split, held, i, P.ReadMarker(readable), P.ReadLock(ok));
      rest := [P.Move(i, P.ReadMarker(readable)), P.Move(i, P.ReadLock(ok))];
    } else {
      P.OneMove(split, held, i, P.ReadMarker(readable));
      rest := [P.Move(i, P.ReadMarker(readable))];
    }
    assert P.Final(split, held, rest).procs == s.procs;
  }
}
