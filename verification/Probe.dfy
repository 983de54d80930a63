// ttp/probe.py: session verification, one deadline for all retries and one endpoint that may give the verdict.
module Probe {
  import opened Wrappers
  import E = Evidence

  type Duration = d: real | 0.0 <= d witness 0.0

  const ATTEMPTS: nat := 5
  const ENDPOINTS: nat := 3
  const AUTHORITY: nat := 0

  datatype State = Confirmed | Negative | Inconclusive

  datatype Reason =
    | TorConfirmed
    | TorNegative
    | Deadline
    | NoAuthoritativeAnswer
    | AuthorityResponseInvalid
    | ReflectorResponseInvalid
    | ExecutionFailed
    | WorkerFailed
    | InvalidWorkerReply
    | WorkerReported(error: string)
    | Identity(issue: string)

  /** What one worker produced, after the parent checked its type and shape. */
  datatype Reply =
    | Failed(reason: Reason)
    | Data(isTor: Option<bool>, ip: Option<string>, reflected: Option<string>)

  /** The outside: what the n-th fetch answers and how long it takes. */
  datatype World = World(reply: nat -> Reply, took: nat -> Duration)

  datatype Fetch = Fetch(endpoint: nat, at: real, timeout: real, reply: Reply)

  datatype Issue = Issue(reason: Reason, active: bool)

  datatype Verification = Verification(state: State, reason: Reason, ip: Option<string>, diagnostics: seq<Issue>)

  function Min(a: real, b: real): real { if a <= b then a else b }

  /** A worker that cannot run, or that answers nonsense, ends the verification. */
  predicate Fatal(reason: Reason) { reason.ExecutionFailed? || reason.WorkerFailed? || reason.InvalidWorkerReply? }

  predicate Aborts(f: Fetch) { f.reply.Failed? && Fatal(f.reply.reason) }

  /** A well-formed answer of the authority: a genuine boolean and a parsable address. */
  predicate Answers(f: Fetch) { f.endpoint == AUTHORITY && f.reply.Data? && f.reply.isTor.Some? && f.reply.ip.Some? }

  predicate Reflects(f: Fetch) { f.endpoint != AUTHORITY && f.reply.Data? && f.reply.reflected.Some? }

  /** The round ends with a reflector's address or the last endpoint. */
  predicate RoundOver(f: Fetch) { Reflects(f) || f.endpoint == ENDPOINTS - 1 }

  function FirstAnswer(log: seq<Fetch>): (answer: Option<Fetch>)
    ensures answer.Some? ==> Answers(answer.value)
  {
    if log == [] then None else if Answers(log[0]) then Some(log[0]) else FirstAnswer(log[1..])
  }

  function Rounds(log: seq<Fetch>): nat {
    if log == [] then 0
    else Rounds(log[..|log| - 1]) + if log[|log| - 1].endpoint == AUTHORITY then 1 else 0
  }

  /** The last address a reflector gave. */
  function Fallback(log: seq<Fetch>): Option<string> {
    if log == [] then None
    else
      var last := log[|log| - 1];
      if Reflects(last) then last.reply.reflected else Fallback(log[..|log| - 1])
  }

  /** One issue for every fetch that gave nothing usable. */
  function Issues(log: seq<Fetch>): seq<Issue> {
    if log == [] then [] else Issues(log[..|log| - 1]) + IssueOf(log[|log| - 1])
  }

  function IssueOf(f: Fetch): seq<Issue> {
    if f.reply.Failed? then [Issue(f.reply.reason, true)]
    else if Answers(f) || Reflects(f) then []
    else [Issue(if f.endpoint == AUTHORITY then AuthorityResponseInvalid else ReflectorResponseInvalid, true)]
  }

  function Retired(issues: seq<Issue>): (r: seq<Issue>)
    ensures |r| == |issues| && forall i | 0 <= i < |r| :: r[i] == Issue(issues[i].reason, false)
  {
    seq(|issues|, i requires 0 <= i < |issues| => Issue(issues[i].reason, false))
  }

  /** When the fetch after `f` may start: after a finished round the loop pauses, never past the deadline. */
  function NextStart(f: Fetch, took: Duration, deadline: real): real {
    var done := f.at + took;
    if RoundOver(f) && done < deadline then done + Min(3.0, deadline - done) else done
  }

  /** Where the clock stands after the log; the fifth round is not followed by a pause. */
  function Clock(log: seq<Fetch>, w: World, start: real, deadline: real): real {
    if log == [] then start
    else
      var last := log[|log| - 1];
      var took := w.took(|log| - 1);
      if Answers(last) || Aborts(last) || Exhausted(log) then last.at + took else NextStart(last, took, deadline)
  }

  predicate Exhausted(log: seq<Fetch>) { log != [] && Rounds(log) == ATTEMPTS && RoundOver(log[|log| - 1]) }

  /** May another fetch follow, and which endpoint does it ask? */
  predicate Open(log: seq<Fetch>) {
    (log != [] ==> !Answers(log[|log| - 1]) && !Aborts(log[|log| - 1])) && !Exhausted(log)
  }

  function NextEndpoint(log: seq<Fetch>): nat {
    if log == [] || RoundOver(log[|log| - 1]) then AUTHORITY else log[|log| - 1].endpoint + 1
  }

  /**
   * The schedule a verification keeps, whatever the replies: each fetch starts before the deadline,
   * when the one before it and the pause after a round are over, with its own cut of the budget;
   * rounds ask the authority first and then the reflectors in order.
   */
  ghost predicate Scheduled(log: seq<Fetch>, w: World, start: real, deadline: real) {
    log == [] ||
    var init, f := log[..|log| - 1], log[|log| - 1];
    && Scheduled(init, w, start, deadline)
    && Open(init)
    && f.endpoint == NextEndpoint(init)
    && f.at == Clock(init, w, start, deadline) < deadline
    && f.timeout == Min(15.0, deadline - f.at)
    && f.reply == w.reply(|init|)
  }

  /** The verdict the schedule leads to. */
  ghost predicate Concludes(v: Verification, log: seq<Fetch>, end: real, deadline: real) {
    match FirstAnswer(log) {
      case Some(f) =>
        v == Verification(if f.reply.isTor.value then Confirmed else Negative,
                          if f.reply.isTor.value then TorConfirmed else TorNegative, f.reply.ip, Retired(Issues(log)))
      case None =>
        && v.state == Inconclusive && v.ip == Fallback(log)
        && if log != [] && Aborts(log[|log| - 1]) then
             v.reason == log[|log| - 1].reply.reason && v.diagnostics == Issues(log)
           else if Exhausted(log) then v.reason == NoAuthoritativeAnswer && v.diagnostics == Issues(log)
           else end >= deadline && v.reason == Deadline && v.diagnostics == Issues(log) + [Issue(Deadline, true)]
    }
  }

  /**
   * verify_session. `identity` is the exemption or resolution problem of the probe's own credentials;
   * a refused timeout is None. The log lists the fetches made, `end` the time of return.
   */
  method VerifySession(timeout: real, start: real, identity: Option<Reason>, w: World)
    returns (r: Option<Verification>, log: seq<Fetch>, end: real)
    ensures r.None? <==> !(0.0 < timeout <= 3600.0)
    ensures r.None? || identity.Some? ==> log == [] && end == start
    ensures r.Some? && identity.Some? ==>
      r.value == Verification(Inconclusive, identity.value, None, [Issue(identity.value, true)])
    ensures r.Some? && identity.None? ==>
      && Scheduled(log, w, start, start + timeout)
      && end == Clock(log, w, start, start + timeout)
      && Concludes(r.value, log, end, start + timeout)
    ensures r.Some? ==> E.ExitCodeOf(ResultOf(r.value)) == CodeOf(r.value.state)
  {
    r, log, end := Verify(timeout, start, identity, w);
    if r.Some? {
      assert r.value.state == Confirmed ==> forall d | d in r.value.diagnostics :: !d.active;
      ExitCodeIsTheState(r.value);
    }
  }

  /** The body of verify_session, without the projection of its result to an exit code. */
  method Verify(timeout: real, start: real, identity: Option<Reason>, w: World)
    returns (r: Option<Verification>, log: seq<Fetch>, end: real)
    ensures r.None? <==> !(0.0 < timeout <= 3600.0)
    ensures r.None? || identity.Some? ==> log == [] && end == start
    ensures r.Some? && identity.Some? ==>
      r.value == Verification(Inconclusive, identity.value, None, [Issue(identity.value, true)])
    ensures r.Some? && identity.None? ==>
      && Scheduled(log, w, start, start + timeout)
      && end == Clock(log, w, start, start + timeout)
      && Concludes(r.value, log, end, start + timeout)
  {
    log, end := [], start;
    if !(0.0 < timeout <= 3600.0) {
      return None, log, end;
    }
    var deadline := start + timeout;
    if identity.Some? {
      return Some(Verification(Inconclusive, identity.value, None, [Issue(identity.value, true)])), log, end;
    }
    var failures: seq<Issue> := [];
    var fallback: Option<string> := None;
    var attempt := 0;
    while attempt < ATTEMPTS
      invariant 0 <= attempt <= ATTEMPTS
      invariant Scheduled(log, w, start, deadline) && Between(log, attempt)
      invariant end == Clock(log, w, start, deadline)
      invariant Tally(log, failures, fallback)
    {
      r, log, end, failures, fallback := AskRound(w, start, deadline, attempt, log, end, failures, fallback);
      if r.Some? {
        return;
      }
      var remaining := deadline - end;
      if attempt < ATTEMPTS - 1 && remaining > 0.0 {
        end := end + Min(3.0, remaining);
      }
      attempt := attempt + 1;
    }
    return Some(Verification(Inconclusive, NoAuthoritativeAnswer, fallback, failures)), log, end;
  }

  /** The inner loop: one round over the endpoints, which may already conclude. */
  method AskRound(w: World, start: real, deadline: real, attempt: nat,
                  log0: seq<Fetch>, end0: real, failures0: seq<Issue>, fallback0: Option<string>)
    returns (r: Option<Verification>, log: seq<Fetch>, end: real, failures: seq<Issue>, fallback: Option<string>)
    requires attempt < ATTEMPTS
    requires Scheduled(log0, w, start, deadline) && Between(log0, attempt)
    requires end0 == Clock(log0, w, start, deadline)
    requires Tally(log0, failures0, fallback0)
    ensures Scheduled(log, w, start, deadline)
    ensures r.Some? ==> Concludes(r.value, log, end, deadline) && end == Clock(log, w, start, deadline)
    ensures r.None? ==> Between(log, attempt + 1) && Tally(log, failures, fallback)
    ensures r.None? ==> log != [] && end == log[|log| - 1].at + w.took(|log| - 1)
  {
    r, log, end, failures, fallback := None, log0, end0, failures0, fallback0;
    var endpoint, over := 0, false;
    while endpoint < ENDPOINTS && !over
      invariant r == None && 0 <= endpoint <= ENDPOINTS && (endpoint == ENDPOINTS ==> over)
      invariant Scheduled(log, w, start, deadline) && Tally(log, failures, fallback)
      invariant !over ==> if endpoint == 0 then Between(log, attempt) else Within(log, attempt, endpoint)
      invariant !over ==> end == Clock(log, w, start, deadline)
      invariant over ==> Between(log, attempt + 1) && log != [] && end == log[|log| - 1].at + w.took(|log| - 1)
    {
      r, over, log, end, failures, fallback := Ask(w, start, deadline, attempt, endpoint, log, end, failures, fallback);
      if r.Some? {
        return;
      }
      endpoint := endpoint + 1;
    }
  }

  /** One endpoint of a round: refused at the deadline, or a fetch that may conclude or end the round. */
  method Ask(w: World, start: real, deadline: real, attempt: nat, endpoint: nat,
             log0: seq<Fetch>, end0: real, failures0: seq<Issue>, fallback0: Option<string>)
    returns (r: Option<Verification>, over: bool,
             log: seq<Fetch>, end: real, failures: seq<Issue>, fallback: Option<string>)
    requires attempt < ATTEMPTS && endpoint < ENDPOINTS && Scheduled(log0, w, start, deadline)
    requires if endpoint == 0 then Between(log0, attempt) else Within(log0, attempt, endpoint)
    requires end0 == Clock(log0, w, start, deadline) && Tally(log0, failures0, fallback0)
    ensures Scheduled(log, w, start, deadline)
    ensures r.Some? ==> Concludes(r.value, log, end, deadline) && end == Clock(log, w, start, deadline)
    ensures r.None? ==> Tally(log, failures, fallback)
    ensures r.None? && over ==> Between(log, attempt + 1) && log != [] && end == log[|log| - 1].at + w.took(|log| - 1)
    ensures r.None? && !over ==> Within(log, attempt, endpoint + 1) && end == Clock(log, w, start, deadline)
    ensures r.None? && endpoint == ENDPOINTS - 1 ==> over
  {
    r, over, log, end, failures, fallback := None, false, log0, end0, failures0, fallback0;
    var remaining := deadline - end;
    if remaining <= 0.0 {
      r := Some(Verification(Inconclusive, Deadline, fallback, failures + [Issue(Deadline, true)]));
      return;
    }
    var f := Fetch(endpoint, end, Min(15.0, remaining), w.reply(|log|));
    AskOne(log, f, w, start, deadline, attempt);
    TallyOne(log, f, failures, fallback, end + w.took(|log|), deadline);
    log, end := log + [f], end + w.took(|log|);
    failures := failures + IssueOf(f);
    if Aborts(f) {
      r := Some(Verification(Inconclusive, f.reply.reason, fallback, failures));
      return;
    }
    over := endpoint == ENDPOINTS - 1;
    if f.reply.Data? {
      if endpoint == AUTHORITY {
        if f.reply.isTor.Some? && f.reply.ip.Some? {
          r := Some(Verification(if f.reply.isTor.value then Confirmed else Negative,
                                 if f.reply.isTor.value then TorConfirmed else TorNegative,
                                 f.reply.ip, Retired(failures)));
        }
      } else if f.reply.reflected.Some? {
        fallback := f.reply.reflected;
        over := true;
      }
    }
  }

  /** `attempt` whole rounds are over. */
  predicate Between(log: seq<Fetch>, attempt: nat) {
    && Rounds(log) == attempt
    && if log == [] then attempt == 0
       else attempt > 0 && RoundOver(log[|log| - 1]) && !Answers(log[|log| - 1]) && !Aborts(log[|log| - 1])
  }

  /** A further round has asked the endpoints below `endpoint`. */
  predicate Within(log: seq<Fetch>, attempt: nat, endpoint: nat) {
    && Rounds(log) == attempt + 1
    && log != [] && log[|log| - 1].endpoint + 1 == endpoint
    && !Reflects(log[|log| - 1]) && !Answers(log[|log| - 1]) && !Aborts(log[|log| - 1])
  }

  lemma {:induction false} FirstAnswerSnoc(log: seq<Fetch>, f: Fetch)
    ensures FirstAnswer(log + [f]) ==
      (if FirstAnswer(log).Some? then FirstAnswer(log) else if Answers(f) then Some(f) else None)
  {
    if log != [] {
      assert (log + [f])[1..] == log[1..] + [f];
      FirstAnswerSnoc(log[1..], f);
    } else {
      assert log + [f] == [f] && [f][1..] == [];
    }
  }

  /** Facts about a log with one more fetch. */
  lemma Extend(log: seq<Fetch>, f: Fetch)
    ensures (log + [f])[..|log|] == log
    ensures Rounds(log + [f]) == Rounds(log) + if f.endpoint == AUTHORITY then 1 else 0
    ensures Issues(log + [f]) == Issues(log) + IssueOf(f)
    ensures Fallback(log + [f]) == (if Reflects(f) then f.reply.reflected else Fallback(log))
    ensures FirstAnswer(log + [f]) ==
      (if FirstAnswer(log).Some? then FirstAnswer(log) else if Answers(f) then Some(f) else None)
  {
    assert (log + [f])[..|log|] == log;
    FirstAnswerSnoc(log, f);
  }

  /** The loops' bookkeeping while no answer has come. */
  ghost predicate Tally(log: seq<Fetch>, failures: seq<Issue>, fallback: Option<string>) {
    failures == Issues(log) && fallback == Fallback(log) && FirstAnswer(log) == None
  }

  /** What one more fetch makes of the bookkeeping, or of the verification when it ends it. */
  lemma TallyOne(
    log: seq<Fetch>, f: Fetch, failures: seq<Issue>, fallback: Option<string>, end: real, deadline: real)
    requires Tally(log, failures, fallback)
    ensures !Answers(f) ==>
      Tally(log + [f], failures + IssueOf(f), if Reflects(f) then f.reply.reflected else fallback)
    ensures Aborts(f) ==>
      Concludes(Verification(Inconclusive, f.reply.reason, fallback, failures + IssueOf(f)), log + [f], end, deadline)
    ensures Answers(f) ==>
      var yes := f.reply.isTor.value;
      Concludes(
        Verification(if yes then Confirmed else Negative, if yes then TorConfirmed else TorNegative,
                     f.reply.ip, Retired(failures + IssueOf(f))),
        log + [f], end, deadline)
  {
    Extend(log, f);
  }

  /** What one more scheduled fetch of a round leads to. */
  lemma AskOne(log: seq<Fetch>, f: Fetch, w: World, start: real, deadline: real, attempt: nat)
    requires attempt < ATTEMPTS && f.endpoint < ENDPOINTS && Scheduled(log, w, start, deadline)
    requires if f.endpoint == 0 then Between(log, attempt) else Within(log, attempt, f.endpoint)
    requires f.at == Clock(log, w, start, deadline) < deadline
    requires f.timeout == Min(15.0, deadline - f.at) && f.reply == w.reply(|log|)
    ensures Scheduled(log + [f], w, start, deadline)
    ensures Answers(f) || Aborts(f) ==> Clock(log + [f], w, start, deadline) == f.at + w.took(|log|)
    ensures !Answers(f) && !Aborts(f) && RoundOver(f) ==> Between(log + [f], attempt + 1)
    ensures !Answers(f) && !Aborts(f) && !RoundOver(f) ==>
      Within(log + [f], attempt, f.endpoint + 1) && Clock(log + [f], w, start, deadline) == f.at + w.took(|log|)
  {
    Extend(log, f);
  }

  /**
   * A schedule asks at most five times three endpoints, none of them after the deadline, and stops
   * at the first answer or fatal failure.
   */
  lemma {:induction false} ScheduleBounds(log: seq<Fetch>, w: World, start: real, deadline: real)
    requires Scheduled(log, w, start, deadline)
    ensures Rounds(log) <= 5 && |log| <= 15
    ensures log != [] ==> |log| <= ENDPOINTS * (Rounds(log) - 1) + log[|log| - 1].endpoint + 1
    ensures log != [] ==> Rounds(log) > 0 && log[|log| - 1].endpoint < ENDPOINTS
    ensures forall i | 0 <= i < |log| :: log[i].at < deadline && log[i].timeout == Min(15.0, deadline - log[i].at)
    ensures forall i | 0 <= i < |log| - 1 :: !Answers(log[i]) && !Aborts(log[i])
  {
    if log != [] {
      var init := log[..|log| - 1];
      ScheduleBounds(init, w, start, deadline);
    }
  }

  /** The schedule fetch by fetch: who is asked when, and with how much time. */
  lemma {:induction false} ScheduleSteps(log: seq<Fetch>, w: World, start: real, deadline: real, i: nat)
    requires Scheduled(log, w, start, deadline) && i < |log|
    ensures log[i].reply == w.reply(i) && log[i].at < deadline
    ensures log[i].timeout == if deadline - log[i].at >= 15.0 then 15.0 else deadline - log[i].at
    ensures log[0].endpoint == 0 && log[0].at == start
    ensures i > 0 ==>
      var f := log[i - 1];
      var done := f.at + w.took(i - 1);
      && !(f.endpoint == 0 && f.reply.Data? && f.reply.isTor.Some? && f.reply.ip.Some?)
      && !(f.reply.Failed? && f.reply.reason in {ExecutionFailed, WorkerFailed, InvalidWorkerReply})
      && (if f.endpoint == 2 || (f.endpoint == 1 && f.reply.Data? && f.reply.reflected.Some?)
          then log[i].endpoint == 0 && log[i].at == done + 3.0
          else log[i].endpoint == f.endpoint + 1 && log[i].at == done)
  {
    var init := log[..|log| - 1];
    if i < |log| - 1 {
      ScheduleSteps(init, w, start, deadline, i);
    } else if i > 0 {
      ScheduleSteps(init, w, start, deadline, 0);
      ScheduleBounds(init, w, start, deadline);
    }
  }

  /** What the diagnostics of a log say of one fetch. */
  lemma IssueExactly(f: Fetch)
    ensures IssueOf(f) == [] <==>
      f.reply.Data? && if f.endpoint == 0 then f.reply.isTor.Some? && f.reply.ip.Some? else f.reply.reflected.Some?
    ensures IssueOf(f) != [] ==>
      IssueOf(f) == [Issue(if f.reply.Failed? then f.reply.reason
                           else if f.endpoint == 0 then AuthorityResponseInvalid else ReflectorResponseInvalid, true)]
  {
  }

  /** Every diagnostic is one fetch's, in order, and every fetch has its own. */
  lemma {:induction false} IssuesConcat(a: seq<Fetch>, b: seq<Fetch>)
    ensures Issues(a + b) == Issues(a) + Issues(b)
  {
    if b == [] {
      assert a + b == a;
    } else {
      assert (a + b)[..|a + b| - 1] == a + b[..|b| - 1];
      IssuesConcat(a, b[..|b| - 1]);
    }
  }

  /** The address of an inconclusive verification is the last a reflector gave. */
  lemma {:induction false} FallbackIsLastReflected(log: seq<Fetch>)
    ensures Fallback(log) == None <==>
      forall i | 0 <= i < |log| :: log[i].endpoint != 0 ==> !log[i].reply.Data? || log[i].reply.reflected == None
    ensures Fallback(log).Some? ==> exists i | 0 <= i < |log| ::
      && log[i].endpoint != 0 && log[i].reply.Data? && log[i].reply.reflected == Fallback(log)
      && forall j | i < j < |log| :: log[j].endpoint != 0 ==> !log[j].reply.Data? || log[j].reply.reflected == None
  {
    if log != [] {
      var init, last := log[..|log| - 1], log[|log| - 1];
      if Reflects(last) {
        assert log[|log| - 1].reply.reflected == Fallback(log);
      } else {
        FallbackIsLastReflected(init);
        assert forall i | 0 <= i < |init| :: init[i] == log[i];
        if Fallback(log).Some? {
          var i :| 0 <= i < |init| && init[i].endpoint != 0 && init[i].reply.Data? &&
            init[i].reply.reflected == Fallback(log) &&
            forall j | i < j < |init| ::
              init[j].endpoint != 0 ==> !init[j].reply.Data? || init[j].reply.reflected == None;
          assert log[i] == init[i];
        }
      }
    }
  }

  /** The last worker could not run or answered nonsense. */
  predicate EndsFatally(log: seq<Fetch>) {
    && log != []
    && var r := log[|log| - 1].reply;
       r.Failed? && r.reason in {ExecutionFailed, WorkerFailed, InvalidWorkerReply}
  }

  /** Five rounds are asked to their end: by a reflector's address or the third endpoint. */
  predicate EndsFifthRound(log: seq<Fetch>) {
    && log != [] && Rounds(log) == 5
    && var f := log[|log| - 1];
       f.endpoint == 2 || (f.endpoint != 0 && f.reply.Data? && f.reply.reflected.Some?)
  }

  /** Why a verification without an authoritative answer ends: a fatal worker, five rounds, or the deadline. */
  lemma InconclusiveExactly(v: Verification, log: seq<Fetch>, end: real, deadline: real)
    requires Concludes(v, log, end, deadline) && FirstAnswer(log) == None
    ensures v.state == Inconclusive && v.ip == Fallback(log)
    ensures EndsFatally(log) ==> v.reason == log[|log| - 1].reply.reason && v.diagnostics == Issues(log)
    ensures !EndsFatally(log) && EndsFifthRound(log) ==>
      v.reason == NoAuthoritativeAnswer && v.diagnostics == Issues(log)
    ensures !EndsFatally(log) && !EndsFifthRound(log) ==>
      v.reason == Deadline && end >= deadline && v.diagnostics == Issues(log) + [Issue(Deadline, true)]
  {
  }

  // ---------------------------------------------------------------- what a verdict means

  /** The well-formed authority answer that comes before any other. */
  predicate IsFirstAnswer(log: seq<Fetch>, i: nat)
    requires i < |log|
  {
    && log[i].endpoint == 0 && log[i].reply.Data? && log[i].reply.isTor.Some? && log[i].reply.ip.Some?
    && forall j | 0 <= j < i ::
         !(log[j].endpoint == 0 && log[j].reply.Data? && log[j].reply.isTor.Some? && log[j].reply.ip.Some?)
  }

  /** Confirmed and negative are the authority's answers and nothing else; reflectors only supply an address. */
  lemma OnlyTheAuthorityDecides(v: Verification, log: seq<Fetch>, end: real, deadline: real)
    requires Concludes(v, log, end, deadline)
    ensures v.state == Confirmed <==>
      exists i | 0 <= i < |log| :: IsFirstAnswer(log, i) && log[i].reply.isTor.value
    ensures v.state == Negative <==>
      exists i | 0 <= i < |log| :: IsFirstAnswer(log, i) && !log[i].reply.isTor.value
  {
    FirstAnswerIsFirst(log);
  }

  lemma {:induction false} FirstAnswerIsFirst(log: seq<Fetch>)
    ensures FirstAnswer(log).None? <==> forall i | 0 <= i < |log| :: !Answers(log[i])
    ensures FirstAnswer(log).Some? ==>
      exists i | 0 <= i < |log| :: IsFirstAnswer(log, i) && FirstAnswer(log).value == log[i]
  {
    if log != [] && !Answers(log[0]) {
      var rest := log[1..];
      FirstAnswerIsFirst(rest);
      if FirstAnswer(rest).Some? {
        var i :| 0 <= i < |rest| && IsFirstAnswer(rest, i) && FirstAnswer(rest).value == rest[i];
        assert log[i + 1] == rest[i];
        forall j | 0 <= j < i + 1 ensures !Answers(log[j]) {
          if j > 0 { assert log[j] == rest[j - 1]; }
        }
      } else {
        forall i | 0 <= i < |log| ensures !Answers(log[i]) {
          if i > 0 { assert log[i] == rest[i - 1]; }
        }
      }
    }
  }

  /** When every fetch respects its own timeout the verification returns by the deadline. */
  lemma WithinBudget(log: seq<Fetch>, w: World, start: real, deadline: real)
    requires start <= deadline
    requires Scheduled(log, w, start, deadline)
    requires forall i | 0 <= i < |log| :: w.took(i) <= log[i].timeout
    ensures Clock(log, w, start, deadline) <= deadline
  {
    if log != [] {
      assert w.took(|log| - 1) <= log[|log| - 1].timeout;
    }
  }

  // ---------------------------------------------------------------- exit code

  function Text(reason: Reason): string {
    match reason
    case TorConfirmed => "probe.tor_confirmed"
    case TorNegative => "probe.tor_negative"
    case Deadline => "probe.deadline"
    case NoAuthoritativeAnswer => "probe.no_authoritative_answer"
    case AuthorityResponseInvalid => "probe.authority_response_invalid"
    case ReflectorResponseInvalid => "probe.reflector_response_invalid"
    case ExecutionFailed => "probe.execution_failed"
    case WorkerFailed => "probe.worker_failed"
    case InvalidWorkerReply => "probe.invalid_worker_reply"
    case WorkerReported(error) => "probe." + error
    case Identity(issue) => "probe." + issue
  }

  function AsDiagnostics(issues: seq<Issue>): (r: seq<E.Diagnostic>)
    ensures |r| == |issues|
    ensures forall i | 0 <= i < |r| :: r[i].code == E.UNVERIFIED && r[i].active == issues[i].active
  {
    if issues == [] then []
    else
      var last := issues[|issues| - 1];
      AsDiagnostics(issues[..|issues| - 1]) + [E.Diagnostic(E.UNVERIFIED, E.Named(Text(last.reason)), last.active)]
  }

  /** Verification.result */
  function ResultOf(v: Verification): E.Result {
    AsDiagnostics(v.diagnostics) +
    match v.state
    case Confirmed => []
    case Negative => [E.Diagnostic(E.TOR_NEGATIVE, E.Named(Text(v.reason)), true)]
    case Inconclusive => [E.Diagnostic(E.UNVERIFIED, E.Named(Text(v.reason)), true)]
  }

  function CodeOf(state: State): E.ExitCode {
    match state
    case Confirmed => E.OK
    case Negative => E.TOR_NEGATIVE
    case Inconclusive => E.UNVERIFIED
  }

  /**
   * The exit code is the state's, for every verification whose diagnostics are history once it is
   * confirmed; failed attempts before an authoritative answer never show in it.
   */
  lemma ExitCodeIsTheState(v: Verification)
    requires v.state == Confirmed ==> forall d | d in v.diagnostics :: !d.active
    ensures E.ExitCodeOf(ResultOf(v)) == CodeOf(v.state)
  {
    var history := AsDiagnostics(v.diagnostics);
    if v.state == Confirmed {
      assert ResultOf(v) == history + [] == history;
      E.ExitCodeIsMaximum(history);
    } else {
      var code := if v.state == Negative then E.TOR_NEGATIVE else E.UNVERIFIED;
      VerdictDecides(history, E.Diagnostic(code, E.Named(Text(v.reason)), true));
    }
  }

  lemma VerdictDecides(history: E.Result, verdict: E.Diagnostic)
    requires verdict.active && verdict.code in {E.TOR_NEGATIVE, E.UNVERIFIED}
    requires forall d | d in history :: d.code == E.UNVERIFIED
    ensures E.ExitCodeOf(history + [verdict]) == verdict.code
  {
    assert (history + [verdict])[..|history|] == history;
    E.ExitCodeIsMaximum(history);
  }
}
