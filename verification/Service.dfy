// ttp/watchdog/service.py: what a reader may conclude from the watchdog's record, against what the supervisor did.
module Service {
  import opened Wrappers
  import opened Evidence
  import opened Settings
  import opened Supervisor

  /** The session lock as the reader sees it; an unreadable lock or unusable settings raise. */
  datatype Intent = Unreadable | NoSession | Session(id: string, requested: bool, maxAge: Num)

  /** systemctl show: the unit's state, main process and current invocation. */
  datatype Unit = Unanswered | Unit(active: bool, pid: int, invocation: string)

  /** `observed` is None for anything that is not a number. */
  datatype Record = Record(
    session: string, boot: string, instance: string, health: Health, observed: Option<Num>, written: Num)

  datatype Stored = StoreError | NoRecord | Stored(record: Record)

  datatype Answer =
    | NotRequested
    | UnitNotActive
    | Unavailable
    | ProgressStale
    | Pending(pid: nat)
    | IntegrityStale(pid: nat)
    | Report(health: Health, pid: nat, instance: string)

  function Progressed(r: Record): Observation { Observation(r.session, r.boot, r.instance, r.written) }

  function Evaluated(r: Record, at: Num): Observation { Observation(r.session, r.boot, r.instance, at) }

  /** watchdog_observation */
  function WatchdogObservation(intent: Intent, unit: Unit, stored: Stored, boot: string, now: Num): Answer {
    match intent
    case Unreadable => Unavailable
    case NoSession => NotRequested
    case Session(id, requested, maxAge) =>
      if !requested then NotRequested
      else if unit.Unanswered? then Unavailable
      else if !unit.active then UnitNotActive
      else if stored.StoreError? || stored.NoRecord? || unit.pid <= 0 then Unavailable
      else
        var r := stored.record;
        if !IsCurrent(Progressed(r), id, boot, unit.invocation, now, maxAge) then ProgressStale
        else if r.observed.None? then Pending(unit.pid)
        else if !IsCurrent(Evaluated(r, r.observed.value), id, boot, unit.invocation, now, maxAge) then
          IntegrityStale(unit.pid)
        else Report(r.health, unit.pid, r.instance)
  }

  /** watchdog_liveness: the process id of a supervisor that does useful work, in an emergency too. */
  function WatchdogLiveness(a: Answer): Option<nat> {
    if a.Report? && a.health in {Healthy, Emergency} then Some(a.pid) else None
  }

  // ---------------------------------------------------------------- the record a run leaves

  /**
   * The record after a trace: publishing replaces it, and the write at the end of an iteration renews
   * its age. A progress notification by itself writes nothing.
   */
  function Recorded(trace: seq<Event>, session: string, boot: string, instance: string): Option<Record> {
    if trace == [] then None
    else
      var init := Recorded(trace[..|trace| - 1], session, boot, instance);
      match trace[|trace| - 1]
      case Published(at, health) =>
        Some(Record(session, boot, instance, health, if health == Unknown then None else Some(Finite(at)), Finite(at)))
      case Renewed(at) => if init.Some? then Some(init.value.(written := Finite(at))) else None
      case _ => init
  }

  predicate LastPublication(trace: seq<Event>, i: nat) {
    i < |trace| && trace[i].Published? && forall k | i < k < |trace| :: !trace[k].Published?
  }

  /** The record's value, evaluation time and age come from the last publication and the last renewal since. */
  lemma {:induction false} RecordOfLastPublication(trace: seq<Event>, session: string, boot: string, instance: string)
    returns (i: nat)
    requires Recorded(trace, session, boot, instance).Some?
    ensures LastPublication(trace, i)
    ensures var r := Recorded(trace, session, boot, instance).value;
      && (r.session, r.boot, r.instance) == (session, boot, instance)
      && r.health == trace[i].health
      && r.observed == (if trace[i].health == Unknown then None else Some(Finite(trace[i].at)))
      && exists k ::
           && i <= k < |trace| && (k == i || trace[k].Renewed?) && r.written == Finite(trace[k].at)
           && forall m | k < m < |trace| :: !trace[m].Renewed?
  {
    var last := |trace| - 1;
    var init := trace[..last];
    if trace[last].Published? {
      i := last;
    } else {
      i := RecordOfLastPublication(init, session, boot, instance);
      if trace[last].Renewed? {
        assert trace[last].Renewed? && i <= last;
      } else {
        var k :| i <= k < |init| && (k == i || init[k].Renewed?) &&
          Recorded(init, session, boot, instance).value.written == Finite(init[k].at) &&
          forall m | k < m < |init| :: !init[m].Renewed?;
        assert trace[k] == init[k] && trace[i] == init[i];
        assert forall m | k < m < |init| :: trace[m] == init[m];
      }
    }
  }

  // ---------------------------------------------------------------- what an answer means

  /** Younger than the maximum age, by finite times, and not from the future. */
  predicate Young(at: Num, now: Num, maxAge: Num) {
    at.Finite? && now.Finite? && maxAge.Finite? && 0.0 < maxAge.value && 0.0 <= now.value - at.value < maxAge.value
  }

  /** The record is this session's, of this boot, by the unit's current invocation. */
  predicate Own(r: Record, id: string, boot: string, invocation: string) {
    id != "" && boot != "" && invocation != "" && r.session == id && r.boot == boot && r.instance == invocation
  }

  /** Which answer a reader gets, by what is on record. */
  lemma AnswersExactly(intent: Intent, unit: Unit, stored: Stored, boot: string, now: Num)
    ensures var a := WatchdogObservation(intent, unit, stored, boot, now);
      var supervised := intent.Session? && intent.requested;
      var running := supervised && unit.Unit? && unit.active;
      var recorded := running && unit.pid > 0 && stored.Stored?;
      && (a == NotRequested <==> intent != Unreadable && !supervised)
      && (a == UnitNotActive <==> supervised && unit.Unit? && !unit.active)
      && (a == Unavailable <==>
            intent == Unreadable || (supervised && unit == Unanswered) || (running && !recorded))
      && (recorded ==>
            var r, id, invocation := stored.record, intent.id, unit.invocation;
            var current := Own(r, id, boot, invocation) && Young(r.written, now, intent.maxAge);
            && (a == ProgressStale <==> !current)
            && (a == Pending(unit.pid) <==> current && r.observed == None)
            && (a == IntegrityStale(unit.pid) <==>
                  current && r.observed.Some? && !Young(r.observed.value, now, intent.maxAge))
            && (a == Report(r.health, unit.pid, invocation) <==>
                  current && r.observed.Some? && Young(r.observed.value, now, intent.maxAge)))
  {
  }

  /** A supervisor counts as alive exactly when a reader gets "healthy" or "emergency" from it. */
  lemma AliveExactly(a: Answer, pid: nat)
    ensures WatchdogLiveness(a) == Some(pid) <==>
      exists health, instance :: a == Report(health, pid, instance) && (health == Healthy || health == Emergency)
  {
    if WatchdogLiveness(a) == Some(pid) {
      assert a == Report(a.health, pid, a.instance);
    }
  }

  /**
   * Whoever reads "healthy" from the record of a supervisor run, at whatever point of the run and
   * however long after, has a check without failure behind it: it passed in the running invocation,
   * its result was published less than the maximum age ago, and nothing was published since.
   */
  lemma HealthyAnswerIsEarned(
    t: Timing, trace: seq<Event>, k: nat, session: string, at: string, instance: string,
    intent: Intent, unit: Unit, boot: string, now: real) returns (i: nat)
    requires Obeys(t, trace) && k <= |trace|
    requires Recorded(trace[..k], session, at, instance).Some?
    requires intent.Session? && intent.maxAge == Finite(t.maxAge) && unit.Unit? && unit.pid > 0
    requires var stored := Stored(Recorded(trace[..k], session, at, instance).value);
      WatchdogObservation(intent, unit, stored, boot, Finite(now)) == Report(Healthy, unit.pid, instance)
    ensures (session, at, instance) == (intent.id, boot, unit.invocation)
    ensures 0 < i < k && trace[i].Published? && trace[i].health == Healthy
    ensures trace[i - 1].CheckDone? && trace[i - 1].result == Passed
    ensures 0.0 <= now - trace[i].at < t.maxAge
    ensures forall m | i < m < k :: !trace[m].Published?
  {
    i := RecordOfLastPublication(trace[..k], session, at, instance);
    assert trace[..k][i] == trace[i];
    forall m | i < m < k ensures !trace[m].Published? {
      assert trace[..k][m] == trace[m];
    }
    var _ := HealthyOnlyAfterCheck(t, trace, i);
  }

  /**
   * A supervisor that a reader takes for alive has, in the running invocation, published "healthy" or
   * "emergency" last, less than the maximum age ago, and has written its record within that age as well.
   */
  lemma LivenessIsEarned(
    t: Timing, trace: seq<Event>, k: nat, session: string, at: string, instance: string,
    intent: Intent, unit: Unit, boot: string, now: real) returns (i: nat, m: nat)
    requires k <= |trace| && Recorded(trace[..k], session, at, instance).Some?
    requires intent.Session? && intent.maxAge == Finite(t.maxAge)
    requires var stored := Stored(Recorded(trace[..k], session, at, instance).value);
      WatchdogLiveness(WatchdogObservation(intent, unit, stored, boot, Finite(now))).Some?
    ensures unit.Unit? && unit.active && (session, at, instance) == (intent.id, boot, unit.invocation)
    ensures i <= m < k && LastPublication(trace[..k], i) && trace[i].health in {Healthy, Emergency}
    ensures 0.0 <= now - trace[i].at < t.maxAge
    ensures (m == i || trace[m].Renewed?) && 0.0 <= now - trace[m].at < t.maxAge
  {
    i := RecordOfLastPublication(trace[..k], session, at, instance);
    var r := Recorded(trace[..k], session, at, instance).value;
    m :| i <= m < k && (m == i || trace[..k][m].Renewed?) && r.written == Finite(trace[..k][m].at);
    assert trace[..k][i] == trace[i] && trace[..k][m] == trace[m];
  }

  /** After a containment with a stored latch has been published, no reader ever gets "healthy" from this run. */
  lemma NoHealthyAnswerAfterContainment(
    t: Timing, trace: seq<Event>, k: nat, session: string, at: string, instance: string,
    intent: Intent, unit: Unit, boot: string, now: Num, c: nat, p: nat)
    requires Obeys(t, trace) && c < p < k <= |trace|
    requires trace[c].Contained? && trace[c].stored && trace[p].Published?
    requires Recorded(trace[..k], session, at, instance).Some?
    ensures var stored := Stored(Recorded(trace[..k], session, at, instance).value);
      var a := WatchdogObservation(intent, unit, stored, boot, now);
      !(a.Report? && a.health == Healthy)
  {
    var i := RecordOfLastPublication(trace[..k], session, at, instance);
    assert trace[..k][i] == trace[i];
    assert trace[..k][p] == trace[p];
    NeverHealthyAgain(t, trace, c, i);
  }

  /**
   * When publishing a containment fails, its record still holds what was published before. A reader of
   * the running unit then gets "healthy" exactly when that was the last publication, it and the last
   * renewal are younger than the maximum age, and the containment is not older than that either.
   */
  lemma AnswerAfterUnpublishedContainment(
    t: Timing, trace: seq<Event>, c: nat, k: nat, session: string, boot: string, instance: string, pid: nat, now: real,
    i: nat)
    requires Obeys(t, trace) && t.maxAge > 0.0 && i < c < k <= |trace| && trace[c].Contained? && trace[c].stored
    requires LastPublication(trace[..c], i) && forall m | c < m < k :: !trace[m].Published?
    requires session != "" && boot != "" && instance != "" && pid > 0
    ensures var record := Recorded(trace[..k], session, boot, instance);
      && record.Some? && record.value.written.Finite?
      && (WatchdogObservation(Session(session, true, Finite(t.maxAge)), Unit(true, pid, instance), Stored(record.value),
                              boot, Finite(now)) == Report(Healthy, pid, instance)
          <==>
          && trace[i].health == Healthy && 0.0 <= now - trace[i].at < t.maxAge
          && 0.0 <= now - record.value.written.value < t.maxAge)
      && (0.0 <= now - trace[i].at < t.maxAge ==> now - trace[c].at < t.maxAge)
  {
    assert forall m | 0 <= m < c :: trace[..c][m] == trace[m];
    RecordedAfterPublication(trace, i, k, session, boot, instance);
    var n := RecordOfLastPublication(trace[..k], session, boot, instance);
    assert trace[..k][n] == trace[n] && trace[..k][i] == trace[i];
    assert n == i;
    TimeMoves(t, trace, i, c);
  }

  /**
   * Until the next evaluation or containment starts, a reader at any event of the run gets the
   * "healthy" that was published.
   */
  lemma HealthyAnswerUntilNextEvaluation(
    t: Timing, trace: seq<Event>, i: nat, j: nat, session: string, boot: string, instance: string, pid: nat)
    requires Sound(t) && Obeys(t, trace) && i < j < |trace|
    requires trace[i].Published? && trace[i].health == Healthy
    requires forall m | i < m < j :: !trace[m].Published? && !trace[m].ContainStarted?
    requires session != "" && boot != "" && instance != "" && pid > 0
    ensures var record := Recorded(trace[..j], session, boot, instance);
      && record.Some?
      && var intent, unit := Session(session, true, Finite(t.maxAge)), Unit(true, pid, instance);
         WatchdogObservation(intent, unit, Stored(record.value), boot, Finite(trace[j].at)) ==
           Report(Healthy, pid, instance)
  {
    RecordedAfterPublication(trace, i, j, session, boot, instance);
    var r := Recorded(trace[..j], session, boot, instance).value;
    var n := RecordOfLastPublication(trace[..j], session, boot, instance);
    assert trace[..j][n] == trace[n] && trace[..j][i] == trace[i];
    assert n == i;
    var k :| i <= k < j && (k == i || trace[..j][k].Renewed?) && r.written == Finite(trace[..j][k].at);
    assert trace[..j][k] == trace[k];
    TimeMoves(t, trace, i, k);
    TimeMoves(t, trace, k, j);
    HealthyStaysCurrent(t, trace, i, j, Evaluated(r, Finite(trace[i].at)));
  }

  lemma {:induction false} RecordedAfterPublication(
    trace: seq<Event>, i: nat, j: nat, session: string, boot: string, instance: string)
    requires i < j <= |trace| && trace[i].Published?
    ensures Recorded(trace[..j], session, boot, instance).Some?
    decreases j
  {
    assert trace[..j][..j - 1] == trace[..j - 1];
    if i < j - 1 {
      RecordedAfterPublication(trace, i, j - 1, session, boot, instance);
    }
  }
}
