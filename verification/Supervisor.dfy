// ttp/watchdog/supervisor.py: the supervision loop as timed events, and what every run of it keeps.
// Bookkeeping between the timed operations is taken as instantaneous.
module Supervisor {
  import opened Wrappers
  import opened Evidence
  import opened Settings

  // ---------------------------------------------------------------- what the environment decides

  /** check_system_integrity under its deadline. */
  datatype Check = Passed | TorFailed | OtherFailed | Deadline

  datatype Heal = Healed | NotHealed | HealDeadline

  datatype IntentRead = Mine | NotMine

  /** Reading the latch: its true value, or a StateError. */
  datatype LatchRead = LatchReadable | LatchUnreadable

  /** How the wait ends: after the delay, early by a signal, or early by a subscribed event. */
  datatype Wake = Timer | Signal | KernelEvent

  /**
   * An exception: after how many events of the iteration, and how long after the last of them, before
   * the next is due. A record that cannot be written, a notification that cannot be sent, an
   * unreadable lock, a check that raises and a lost subscription all end in the except branch, whose
   * request takes `request` seconds and may store the latch.
   */
  datatype Break = Break(after: nat, spent: real, request: real, stores: bool)

  /**
   * One iteration's environment. `othersLatch` says whether another process stores the latch before
   * it; `containStores` whether this iteration's request_emergency stores it (a refused or failed
   * request does not). Durations are clipped to what SIGALRM and select allow. `breaks` says whether
   * an exception ends the iteration.
   */
  datatype Round = Round(
    intent: IntentRead, othersLatch: bool, latch: LatchRead,
    check: Check, checkTime: real, heal: Heal, healTime: real, recheck: Check, recheckTime: real,
    containTime: real, containStores: bool, wake: Wake, waited: real, breaks: Option<Break>)

  // ---------------------------------------------------------------- events and their monitor

  datatype Health = Unknown | Healthy | Emergency

  datatype Event =
    | Subscribed(at: real)
    | LatchSeen(at: real, latched: bool)
    | LatchLost(at: real)
    | Published(at: real, health: Health)
    | CheckDone(at: real, result: Check)
    | HealDone(at: real, heal: Heal)
    | ContainStarted(at: real, final: bool)
    | Contained(at: real, stored: bool)
    | Renewed(at: real)
    | Progress(at: real, ready: bool)
    | Woke(at: real, byEvent: bool)

  /**
   * What a trace says. `healthyAt`: when "healthy" was published, if it still is the published value
   * and no containment has begun since. `progressAt`: the last notification, if no containment began
   * since. `freshAt`: the last completed evaluation or containment no event has invalidated.
   * `owed`: how many containments are due. `latchRead`: this iteration read the latch. `healing`: the
   * tor-only healing branch is under way.
   */
  datatype Summary = Summary(
    healthyAt: Option<real>, progressAt: Option<real>, freshAt: Option<real>, latchSeen: Option<bool>,
    justPassed: bool, justNotified: bool, mustInvalidate: bool, owed: nat, latchRead: bool, healing: bool, ended: bool,
    subscribed: bool, evaluated: bool, notified: bool, secured: bool, last: Option<real>)

  function Observe(s: Summary, e: Event): Summary {
    Summary(
      match e { case Published(at, health) => (if health == Healthy then Some(at) else None)
                case ContainStarted(_, _) => None
                case _ => s.healthyAt },
      match e { case Progress(at, _) => Some(at)
                case ContainStarted(_, _) => None
                case _ => s.progressAt },
      match e { case CheckDone(at, Passed) => Some(at)
                case Contained(at, _) => Some(at)
                case Woke(_, true) => None
                case _ => s.freshAt },
      match e { case LatchSeen(_, latched) => Some(latched)
                case LatchLost(_) => None
                case Woke(_, _) => None
                case _ => s.latchSeen },
      e.CheckDone? && e.result == Passed,
      e.Progress? && !s.healing,
      e.Woke? && e.byEvent,
      OwedAfter(s, e),
      if e.LatchSeen? || e.LatchLost? then true else if e.Woke? then false else s.latchRead,
      HealingAfter(s, e),
      s.ended || (e.ContainStarted? && e.final),
      s.subscribed || e.Subscribed?,
      s.evaluated || (s.subscribed && (e.CheckDone? || e.Contained?)),
      s.notified || e.Progress?,
      s.secured || (e.Contained? && e.stored),
      Some(e.at))
  }

  function OwedAfter(s: Summary, e: Event): nat {
    match e
    case LatchSeen(_, latched) => if latched then 1 else 0
    case LatchLost(_) => 2
    case CheckDone(_, Passed) => s.owed
    case CheckDone(_, TorFailed) => if s.healing then 1 else s.owed
    case CheckDone(_, _) => 1
    case HealDone(_, heal) => if heal == Healed then s.owed else 1
    case Contained(_, _) => if s.owed > 0 then s.owed - 1 else 0
    case _ => s.owed
  }

  function HealingAfter(s: Summary, e: Event): bool {
    match e
    case CheckDone(_, result) => result == TorFailed && !s.healing
    case HealDone(_, heal) => s.healing && heal == Healed
    case Contained(_, _) => false
    case _ => s.healing
  }

  /** The rules one event must obey after what happened before it. */
  predicate Allowed(t: Timing, s: Summary, e: Event) {
    // Time moves forward, and "healthy" is replaced before it grows older than one check interval.
    && (s.last.Some? ==> s.last.value <= e.at)
    && (s.healthyAt.Some? ==> e.at - s.healthyAt.value <= t.checkInterval)
    // An event from the kernel invalidates the observation before anything else, or ends the run.
    && (s.mustInvalidate ==> e == Published(e.at, Unknown) || (e.ContainStarted? && e.final))
    // Containment happens exactly when it is owed, or at the end; nothing follows the end.
    && (e.ContainStarted? ==> e.final || s.owed > 0)
    && (s.ended ==> e.Contained?)
    // No check runs under an old "healthy", and healing follows only a failed Tor check.
    && (e.CheckDone? ==> s.healthyAt.None? && s.latchRead && s.latchSeen == Some(false) && s.owed == 0)
    && (e.HealDone? ==> s.healing)
    // "healthy" follows directly on a passing check of an unlatched iteration, at once unless that fails.
    && (e.Published? && e.health == Healthy ==> s.justPassed && s.latchSeen == Some(false) && !s.secured)
    && (s.justPassed ==> e == Published(e.at, Healthy) || (e.ContainStarted? && e.final))
    // The record of an iteration is renewed only when nothing is owed any more.
    && (e.Renewed? ==> s.evaluated && s.latchRead && s.owed == 0 && !s.healing)
    // Progress: never while containment is owed, never with an evaluation due, READY first and only first.
    && (e.Progress? ==>
          && s.evaluated && s.latchRead && s.owed == 0
          && (e.ready <==> !s.notified)
          && (s.healing || (s.freshAt.Some? && e.at - s.freshAt.value < t.checkInterval))
          && (s.progressAt.Some? ==> e.at - s.progressAt.value <= t.checkTimeout + t.heartbeat))
    // The loop waits only after notifying.
    && (e.Woke? ==> s.justNotified && s.progressAt.Some? && e.at - s.progressAt.value <= t.heartbeat)
    // Every iteration reads the latch once, after a wait or at the start.
    && (e.LatchSeen? || e.LatchLost? ==> !s.latchRead)
  }

  const START: Summary :=
    Summary(None, None, None, None, false, false, false, 0, false, false, false, false, false, false, false, None)

  /** Runs the rules over a trace: its summary if every event was allowed when it happened. */
  function Monitor(t: Timing, trace: seq<Event>): Option<Summary> {
    if trace == [] then Some(START)
    else
      match Monitor(t, trace[..|trace| - 1])
      case None => None
      case Some(s) =>
        if Allowed(t, s, trace[|trace| - 1]) then Some(Observe(s, trace[|trace| - 1])) else None
  }

  predicate Obeys(t: Timing, trace: seq<Event>) { Monitor(t, trace).Some? }

  // ---------------------------------------------------------------- the loop

  /** The loop's variables: its clock, last_check, ready, the stored latch, and the events so far. */
  datatype Loop = Loop(now: real, lastCheck: real, ready: bool, stored: bool, trace: seq<Event>)

  function Emit(l: Loop, e: Event): Loop { l.(trace := l.trace + [e]) }

  function Later(l: Loop, seconds: real): Loop { l.(now := l.now + seconds) }

  function Request(l: Loop, r: Round): Loop {
    var l := Later(Emit(l, ContainStarted(l.now, false)), r.containTime).(stored := l.stored || r.containStores);
    Emit(l, Contained(l.now, l.stored))
  }

  function Contain(l: Loop, r: Round): Loop {
    var l := Request(l, r);
    Emit(l, Published(l.now, Emergency))
  }

  function RunCheck(l: Loop, check: Check, time: real): Loop {
    var l := Later(l, time);
    Emit(l, CheckDone(l.now, check))
  }

  function Notify(l: Loop): Loop { Emit(l, Progress(l.now, !l.ready)).(ready := true) }

  function NotifyIfReady(l: Loop): Loop { if l.ready then Notify(l) else l }

  /** The tor-only healing branch: two more bounded stages, with progress between them. */
  function HealTor(l: Loop, r: Round): Loop {
    var l := NotifyIfReady(Emit(l, Published(l.now, Unknown)));
    var l := Later(l, r.healTime);
    var l := Emit(l, HealDone(l.now, r.heal));
    if r.heal == Healed then RunCheck(NotifyIfReady(l), r.recheck, r.recheckTime) else l
  }

  predicate Integral(r: Round) {
    r.check == Passed || (r.check == TorFailed && r.heal == Healed && r.recheck == Passed)
  }

  /** A due evaluation: pending, check, perhaps heal, then publish "healthy" or contain. */
  function Evaluate(l: Loop, r: Round): Loop {
    var l := RunCheck(Emit(l, Published(l.now, Unknown)), r.check, r.checkTime);
    var l := if r.check == TorFailed then HealTor(l, r) else l;
    var l := if Integral(r) then Emit(l, Published(l.now, Healthy)) else Contain(l, r);
    l.(lastCheck := l.now)
  }

  predicate Latched(l: Loop, r: Round) { r.latch == LatchUnreadable || l.stored || r.othersLatch }

  /** Reading the latch; an unreadable one is contained at once and then treated as latched. */
  function ReadLatch(l: Loop, r: Round): Loop {
    var l := l.(stored := l.stored || r.othersLatch);
    if r.latch == LatchUnreadable then Contain(Emit(l, LatchLost(l.now)), r) else Emit(l, LatchSeen(l.now, l.stored))
  }

  /** The record is written once more, for its age, and then progress is reported. */
  function ReportProgress(l: Loop): Loop { Notify(Emit(l, Renewed(l.now))) }

  /** One iteration up to its progress notification. */
  function Iterate(t: Timing, l: Loop, r: Round): Loop {
    var latched := Latched(l, r);
    var l := ReadLatch(l, r);
    ReportProgress(
      if latched then Contain(l, r)
      else if l.now - l.lastCheck >= t.checkInterval then Evaluate(l, r)
      else l)
  }

  function Min(a: real, b: real): real { if a < b then a else b }

  function Max(a: real, b: real): real { if a < b then b else a }

  function Delay(t: Timing, l: Loop, latched: bool): real {
    if latched then t.heartbeat else Min(t.heartbeat, Max(0.0, t.checkInterval - (l.now - l.lastCheck)))
  }

  /** How long select waits: the delay, unless something ends it earlier. */
  function Waited(t: Timing, l: Loop, r: Round, latched: bool): real {
    if r.wake == Timer then Delay(t, l, latched) else Min(r.waited, Delay(t, l, latched))
  }

  /** After the wait; an event invalidates the observation and makes a check due. */
  function Woken(t: Timing, l: Loop, waited: real, byEvent: bool): Loop {
    var l := Later(l, waited);
    var l := Emit(l, Woke(l.now, byEvent));
    if byEvent then Emit(l, Published(l.now, Unknown)).(lastCheck := -t.checkInterval) else l
  }

  function Wait(t: Timing, l: Loop, r: Round, latched: bool): Loop {
    Woken(t, l, Waited(t, l, r, latched), r.wake == KernelEvent)
  }

  function Begin(t: Timing, start: real, stored: bool): Loop {
    Emit(Emit(Loop(start, -t.checkInterval, false, stored, []), Published(start, Unknown)), Subscribed(start))
  }

  function Turn(t: Timing, l: Loop, r: Round): Loop { Wait(t, Iterate(t, l, r), r, Latched(l, r)) }

  /** Whether the latch is stored after event `k`, if it was `stored` after event `from`. */
  function StoredAfter(trace: seq<Event>, from: nat, k: nat, stored: bool): bool
    requires k <= |trace|
  {
    if k <= from then stored
    else if trace[k - 1].Contained? then trace[k - 1].stored
    else StoredAfter(trace, from, k - 1, stored)
  }

  /** How much of the run is kept when it breaks off: never more than happened. */
  function Kept(from: nat, whole: Loop, b: Break): nat {
    if from + b.after <= |whole.trace| then from + b.after else |whole.trace|
  }

  /** When the exception comes: after the last kept event, and not after the next would have. */
  function BreakTime(start: real, whole: Loop, k: nat, b: Break): real
    requires k <= |whole.trace|
  {
    var last := if k == 0 then start else whole.trace[k - 1].at;
    Min(last + b.spent, if k < |whole.trace| then whole.trace[k].at else whole.now)
  }

  /** A last request, which publishes nothing. */
  function Ending(trace: seq<Event>, at: real, end: real, stored: bool): seq<Event> {
    trace + [ContainStarted(at, true)] + [Contained(end, stored)]
  }

  /**
   * The except branch: what would have been the run up to `whole`, its events from `from` on being
   * this iteration's, cut at the exception and ended by a last request that publishes nothing.
   */
  function BreakOff(start: real, from: nat, whole: Loop, stored: bool, b: Break): seq<Event>
    requires from <= |whole.trace|
  {
    var k := Kept(from, whole, b);
    var at := BreakTime(start, whole, k, b);
    Ending(whole.trace[..k], at, at + b.request, StoredAfter(whole.trace, from, k, stored) || b.stores)
  }

  /** The events of the loop over the given rounds. */
  function Supervise(t: Timing, l: Loop, rounds: seq<Round>): seq<Event>
    decreases |rounds|
  {
    if rounds == [] || rounds[0].intent == NotMine then l.trace
    else
      var r := rounds[0];
      var whole := Turn(t, l, r);
      match r.breaks
      case None => Supervise(t, whole, rounds[1..])
      case Some(b) =>
        TurnExtends(t, l, r);
        BreakOff(l.now, |l.trace|, whole, l.stored || r.othersLatch, b)
  }

  /** The whole run, which may break off before its subscriptions exist. */
  function Run(t: Timing, start: real, stored: bool, setup: Option<Break>, rounds: seq<Round>): seq<Event> {
    match setup
    case Some(b) => BreakOff(start, 0, Begin(t, start, stored), stored, b)
    case None => Supervise(t, Begin(t, start, stored), rounds)
  }

  lemma TurnExtends(t: Timing, l: Loop, r: Round)
    ensures |l.trace| <= |Turn(t, l, r).trace|
  {
    IterateExtends(t, l, r);
  }

  lemma IterateExtends(t: Timing, l: Loop, r: Round)
    ensures |l.trace| <= |Iterate(t, l, r).trace|
  {
  }

  predicate BreakInRange(b: Break) { b.spent >= 0.0 && b.request >= 0.0 }

  predicate InRange(t: Timing, r: Round) {
    && 0.0 <= r.checkTime <= t.checkTimeout && 0.0 <= r.healTime <= t.checkTimeout
    && 0.0 <= r.recheckTime <= t.checkTimeout && r.containTime >= 0.0 && r.waited >= 0.0
    && (r.breaks.Some? ==> BreakInRange(r.breaks.value))
  }

  // ---------------------------------------------------------------- one iteration, event by event

  /** No latch and no check due: the latch is read and progress reported. */
  lemma QuietIteration(t: Timing, l: Loop, r: Round)
    requires r.latch == LatchReadable && !l.stored && !r.othersLatch && l.now - l.lastCheck < t.checkInterval
    ensures Iterate(t, l, r) ==
      Loop(l.now, l.lastCheck, true, false,
           l.trace + [LatchSeen(l.now, false), Renewed(l.now), Progress(l.now, !l.ready)])
  {
  }

  /** A due check that passes. */
  lemma HealthyIteration(t: Timing, l: Loop, r: Round)
    requires r.latch == LatchReadable && !l.stored && !r.othersLatch && l.now - l.lastCheck >= t.checkInterval
    requires r.check == Passed
    ensures var m := l.now + r.checkTime;
      Iterate(t, l, r) == Loop(m, m, true, false,
        l.trace + [LatchSeen(l.now, false), Published(l.now, Unknown), CheckDone(m, Passed), Published(m, Healthy),
                   Renewed(m), Progress(m, !l.ready)])
  {
  }

  /** A due check that fails on anything but Tor, or runs out of time. */
  lemma FailedIteration(t: Timing, l: Loop, r: Round)
    requires r.latch == LatchReadable && !l.stored && !r.othersLatch && l.now - l.lastCheck >= t.checkInterval
    requires r.check in {OtherFailed, Deadline}
    ensures var m := l.now + r.checkTime;
      var c := m + r.containTime;
      Iterate(t, l, r) == Loop(c, c, true, r.containStores,
        l.trace + [LatchSeen(l.now, false), Published(l.now, Unknown), CheckDone(m, r.check),
                   ContainStarted(m, false), Contained(c, r.containStores), Published(c, Emergency),
                   Renewed(c), Progress(c, !l.ready)])
  {
  }

  /** A stored latch: containment in every iteration, and no check. */
  lemma LatchedIteration(t: Timing, l: Loop, r: Round)
    requires r.latch == LatchReadable && (l.stored || r.othersLatch)
    ensures var c := l.now + r.containTime;
      Iterate(t, l, r) == Loop(c, l.lastCheck, true, true,
        l.trace + [LatchSeen(l.now, true), ContainStarted(l.now, false), Contained(c, true), Published(c, Emergency),
                   Renewed(c), Progress(c, !l.ready)])
  {
  }

  /** A latch that cannot be read: contained for that, and again as a latched session. */
  lemma UnreadableIteration(t: Timing, l: Loop, r: Round)
    requires r.latch == LatchUnreadable
    ensures var stored := l.stored || r.othersLatch || r.containStores;
      var c := l.now + r.containTime;
      var d := c + r.containTime;
      Iterate(t, l, r) == Loop(d, l.lastCheck, true, stored,
        l.trace + [LatchLost(l.now), ContainStarted(l.now, false), Contained(c, stored), Published(c, Emergency),
                   ContainStarted(c, false), Contained(d, stored), Published(d, Emergency),
                   Renewed(d), Progress(d, !l.ready)])
  {
  }

  /** Progress between the stages of healing, once READY has been sent. */
  function Pause(l: Loop, at: real): seq<Event> { if l.ready then [Progress(at, false)] else [] }

  /** A due check that fails on Tor alone, up to the outcome of the restart. */
  function Restart(l: Loop, r: Round, m: real, h: real): seq<Event> {
    [LatchSeen(l.now, false), Published(l.now, Unknown), CheckDone(m, TorFailed)] + [Published(m, Unknown)] +
    Pause(l, m) + [HealDone(h, r.heal)]
  }

  /** Tor was restarted and the check repeated with success. */
  lemma HealedIteration(t: Timing, l: Loop, r: Round)
    requires r.latch == LatchReadable && !l.stored && !r.othersLatch && l.now - l.lastCheck >= t.checkInterval
    requires r.check == TorFailed && r.heal == Healed && r.recheck == Passed
    ensures var m := l.now + r.checkTime;
      var h := m + r.healTime;
      var k := h + r.recheckTime;
      Iterate(t, l, r) == Loop(k, k, true, false,
        l.trace + Restart(l, r, m, h) + Pause(l, h) +
        [CheckDone(k, Passed), Published(k, Healthy), Renewed(k), Progress(k, !l.ready)])
  {
  }

  /** Tor was restarted, but the check fails again. */
  lemma RefailedIteration(t: Timing, l: Loop, r: Round)
    requires r.latch == LatchReadable && !l.stored && !r.othersLatch && l.now - l.lastCheck >= t.checkInterval
    requires r.check == TorFailed && r.heal == Healed && r.recheck != Passed
    ensures var m := l.now + r.checkTime;
      var h := m + r.healTime;
      var k := h + r.recheckTime;
      var c := k + r.containTime;
      Iterate(t, l, r) == Loop(c, c, true, r.containStores,
        l.trace + Restart(l, r, m, h) + Pause(l, h) +
        ([CheckDone(k, r.recheck)] +
         [ContainStarted(k, false), Contained(c, r.containStores), Published(c, Emergency),
          Renewed(c), Progress(c, !l.ready)]))
  {
    var m := l.now + r.checkTime;
    var h := m + r.healTime;
    var k := h + r.recheckTime;
    var c := k + r.containTime;
    var first := [LatchSeen(l.now, false), Published(l.now, Unknown), CheckDone(m, TorFailed)];
    var l1 := Loop(m, l.lastCheck, l.ready, false, l.trace + first);
    RefailedStages(t, l, r, l1);
    RefailedEnd(l1, r);
    RefailedEvents(l, l1, r, m, h, k, c);
  }

  /** The same events, grouped as they come and as they are told. */
  lemma RefailedEvents(l: Loop, l1: Loop, r: Round, m: real, h: real, k: real, c: real)
    requires l1.ready == l.ready &&
      l1.trace == l.trace + [LatchSeen(l.now, false), Published(l.now, Unknown), CheckDone(m, TorFailed)]
    ensures var ending := [ContainStarted(k, false), Contained(c, r.containStores), Published(c, Emergency),
                           Renewed(c), Progress(c, !l.ready)];
      l1.trace + [Published(m, Unknown)] + Pause(l1, m) + [HealDone(h, r.heal)] + Pause(l1, h) +
        [CheckDone(k, r.recheck)] + ending ==
      l.trace + Restart(l, r, m, h) + Pause(l, h) + ([CheckDone(k, r.recheck)] + ending)
  {
    Joined(l.trace, [LatchSeen(l.now, false), Published(l.now, Unknown), CheckDone(m, TorFailed)],
           [Published(m, Unknown)], Pause(l, m), [HealDone(h, r.heal)], Pause(l, h), CheckDone(k, r.recheck),
           [ContainStarted(k, false), Contained(c, r.containStores), Published(c, Emergency),
            Renewed(c), Progress(c, !l.ready)]);
  }

  /** The stages of such an iteration. */
  lemma RefailedStages(t: Timing, l: Loop, r: Round, l1: Loop)
    requires r.latch == LatchReadable && !l.stored && !r.othersLatch && l.now - l.lastCheck >= t.checkInterval
    requires r.check == TorFailed && r.heal == Healed && r.recheck != Passed
    requires l1 == Loop(l.now + r.checkTime, l.lastCheck, l.ready, false,
      l.trace + [LatchSeen(l.now, false), Published(l.now, Unknown), CheckDone(l.now + r.checkTime, TorFailed)])
    ensures Iterate(t, l, r) ==
      ReportProgress(Contain(HealTor(l1, r), r).(lastCheck := l1.now + r.healTime + r.recheckTime + r.containTime))
  {
    assert RunCheck(Emit(ReadLatch(l, r), Published(l.now, Unknown)), r.check, r.checkTime) == l1;
  }

  lemma Joined(trace: seq<Event>, a: seq<Event>, b: seq<Event>, c: seq<Event>, d: seq<Event>, e: seq<Event>,
               x: Event, f: seq<Event>)
    ensures trace + a + b + c + d + e + [x] + f == trace + (a + b + c + d) + e + ([x] + f)
  {
  }

  /** From the failed first check to the end. */
  lemma RefailedEnd(l: Loop, r: Round)
    requires r.heal == Healed
    ensures var h := l.now + r.healTime;
      var k := h + r.recheckTime;
      var c := k + r.containTime;
      var stored := l.stored || r.containStores;
      ReportProgress(Contain(HealTor(l, r), r).(lastCheck := c)) == Loop(c, c, true, stored,
        l.trace + [Published(l.now, Unknown)] + Pause(l, l.now) + [HealDone(h, r.heal)] + Pause(l, h) +
        [CheckDone(k, r.recheck)] +
        [ContainStarted(k, false), Contained(c, stored), Published(c, Emergency), Renewed(c), Progress(c, !l.ready)])
  {
    RefailedHealing(l, r);
    ContainedReport(HealTor(l, r), r);
  }

  lemma RefailedHealing(l: Loop, r: Round)
    requires r.heal == Healed
    ensures var h := l.now + r.healTime;
      var k := h + r.recheckTime;
      HealTor(l, r) == Loop(k, l.lastCheck, l.ready, l.stored,
        l.trace + [Published(l.now, Unknown)] + Pause(l, l.now) + [HealDone(h, r.heal)] + Pause(l, h) +
        [CheckDone(k, r.recheck)])
  {
  }

  lemma ContainedReport(l: Loop, r: Round)
    ensures var c := l.now + r.containTime;
      var stored := l.stored || r.containStores;
      ReportProgress(Contain(l, r).(lastCheck := c)) == Loop(c, c, true, stored,
        l.trace + [ContainStarted(l.now, false), Contained(c, stored), Published(c, Emergency),
                   Renewed(c), Progress(c, !l.ready)])
  {
  }

  /** Tor could not be restarted in time or at all. */
  lemma UnhealedIteration(t: Timing, l: Loop, r: Round)
    requires r.latch == LatchReadable && !l.stored && !r.othersLatch && l.now - l.lastCheck >= t.checkInterval
    requires r.check == TorFailed && r.heal != Healed
    ensures var m := l.now + r.checkTime;
      var h := m + r.healTime;
      var c := h + r.containTime;
      Iterate(t, l, r) == Loop(c, c, true, r.containStores,
        l.trace + Restart(l, r, m, h) +
        [ContainStarted(h, false), Contained(c, r.containStores), Published(c, Emergency),
         Renewed(c), Progress(c, !l.ready)])
  {
  }

  /** The wait ends after the delay or earlier, and an event is followed by its invalidation. */
  lemma WaitReports(t: Timing, l: Loop, r: Round, latched: bool)
    requires t.heartbeat > 0.0 && r.waited >= 0.0
    ensures var due := t.checkInterval - (l.now - l.lastCheck);
      var delay := if latched || due >= t.heartbeat then t.heartbeat else if due > 0.0 then due else 0.0;
      var end := l.now + if r.wake == Timer || r.waited >= delay then delay else r.waited;
      Wait(t, l, r, latched) ==
        if r.wake == KernelEvent then
          Loop(end, -t.checkInterval, l.ready, l.stored, l.trace + [Woke(end, true), Published(end, Unknown)])
        else Loop(end, l.lastCheck, l.ready, l.stored, l.trace + [Woke(end, false)])
  {
  }

  // ---------------------------------------------------------------- containments of an iteration

  /** No last request among these events, and every containment left the latch `stored` or not. */
  predicate Plain(events: seq<Event>, stored: bool) {
    forall e | e in events :: (e.ContainStarted? ==> !e.final) && (e.Contained? ==> e.stored == stored)
  }

  lemma PlainConcat(a: seq<Event>, b: seq<Event>, stored: bool)
    ensures Plain(a + b, stored) <==> Plain(a, stored) && Plain(b, stored)
  {
    assert forall e :: e in a + b <==> e in a || e in b;
  }

  /** What an iteration adds, and what it makes of the latch. */
  ghost predicate Adds(l: Loop, next: Loop, events: seq<Event>, base: bool, stored: bool) {
    && next.trace == l.trace + events
    && Plain(events, stored)
    && (next.stored <==> base || (stored && exists e | e in events :: e.Contained?))
  }

  lemma IterationAdds(t: Timing, l: Loop, r: Round) returns (events: seq<Event>)
    ensures var base := l.stored || r.othersLatch;
      Adds(l, Iterate(t, l, r), events, base, base || r.containStores)
  {
    if r.latch == LatchUnreadable {
      events := UnreadableAdds(t, l, r);
    } else if l.stored || r.othersLatch {
      events := LatchedAdds(t, l, r);
    } else if l.now - l.lastCheck < t.checkInterval || r.check == Passed {
      events := CalmAdds(t, l, r);
    } else if r.check != TorFailed {
      events := FailedAdds(t, l, r);
    } else {
      events := TorIterationAdds(t, l, r);
    }
  }

  lemma UnreadableAdds(t: Timing, l: Loop, r: Round) returns (events: seq<Event>)
    requires r.latch == LatchUnreadable
    ensures var base := l.stored || r.othersLatch;
      Adds(l, Iterate(t, l, r), events, base, base || r.containStores)
  {
    UnreadableIteration(t, l, r);
    var stored := l.stored || r.othersLatch || r.containStores;
    var c := l.now + r.containTime;
    var d := c + r.containTime;
    events := [LatchLost(l.now), ContainStarted(l.now, false), Contained(c, stored), Published(c, Emergency),
               ContainStarted(c, false), Contained(d, stored), Published(d, Emergency),
               Renewed(d), Progress(d, !l.ready)];
    assert events[2].Contained?;
  }

  lemma LatchedAdds(t: Timing, l: Loop, r: Round) returns (events: seq<Event>)
    requires r.latch == LatchReadable && (l.stored || r.othersLatch)
    ensures Adds(l, Iterate(t, l, r), events, true, true)
  {
    LatchedIteration(t, l, r);
    var c := l.now + r.containTime;
    events := [LatchSeen(l.now, true), ContainStarted(l.now, false), Contained(c, true), Published(c, Emergency),
               Renewed(c), Progress(c, !l.ready)];
  }

  /** Nothing due, or a check that passes: no containment. */
  lemma CalmAdds(t: Timing, l: Loop, r: Round) returns (events: seq<Event>)
    requires r.latch == LatchReadable && !l.stored && !r.othersLatch
    requires l.now - l.lastCheck < t.checkInterval || r.check == Passed
    ensures Adds(l, Iterate(t, l, r), events, false, r.containStores)
  {
    if l.now - l.lastCheck < t.checkInterval {
      QuietIteration(t, l, r);
      events := [LatchSeen(l.now, false), Renewed(l.now), Progress(l.now, !l.ready)];
    } else {
      HealthyIteration(t, l, r);
      var m := l.now + r.checkTime;
      events := [LatchSeen(l.now, false), Published(l.now, Unknown), CheckDone(m, Passed), Published(m, Healthy),
                 Renewed(m), Progress(m, !l.ready)];
    }
  }

  lemma FailedAdds(t: Timing, l: Loop, r: Round) returns (events: seq<Event>)
    requires r.latch == LatchReadable && !l.stored && !r.othersLatch && l.now - l.lastCheck >= t.checkInterval
    requires r.check in {OtherFailed, Deadline}
    ensures Adds(l, Iterate(t, l, r), events, false, r.containStores)
  {
    FailedIteration(t, l, r);
    var m := l.now + r.checkTime;
    var c := m + r.containTime;
    events := [LatchSeen(l.now, false), Published(l.now, Unknown), CheckDone(m, r.check),
               ContainStarted(m, false), Contained(c, r.containStores), Published(c, Emergency),
               Renewed(c), Progress(c, !l.ready)];
    assert events[4].Contained?;
  }

  /** No containment at all among these events. */
  predicate Bare(events: seq<Event>) { forall e | e in events :: !e.ContainStarted? && !e.Contained? }

  lemma BareConcat(a: seq<Event>, b: seq<Event>)
    ensures Bare(a + b) <==> Bare(a) && Bare(b)
  {
    assert forall e :: e in a + b <==> e in a || e in b;
  }

  /** Events without containment before or after change nothing about what is added. */
  lemma AddsBareBefore(l: Loop, next: Loop, bare: seq<Event>, events: seq<Event>, base: bool, stored: bool)
    requires Bare(bare) && Plain(events, stored) && next.trace == l.trace + (bare + events)
    requires next.stored <==> base || (stored && exists e | e in events :: e.Contained?)
    ensures Adds(l, next, bare + events, base, stored)
  {
    PlainConcat(bare, events, stored);
    assert forall e :: e in bare + events <==> e in bare || e in events;
  }

  lemma AddsBareAfter(l: Loop, next: Loop, events: seq<Event>, bare: seq<Event>, base: bool, stored: bool)
    requires Bare(bare) && Plain(events, stored) && next.trace == l.trace + (events + bare)
    requires next.stored <==> base || (stored && exists e | e in events :: e.Contained?)
    ensures Adds(l, next, events + bare, base, stored)
  {
    PlainConcat(events, bare, stored);
    assert forall e :: e in events + bare <==> e in events || e in bare;
  }

  /** A containment and the end of its iteration. */
  function ContainedAt(l: Loop, at: real, c: real, stored: bool): (events: seq<Event>)
    ensures Plain(events, stored) && exists e | e in events :: e.Contained?
  {
    var events := [ContainStarted(at, false), Contained(c, stored), Published(c, Emergency),
                   Renewed(c), Progress(c, !l.ready)];
    assert events[1] in events;
    events
  }

  lemma RestartIsBare(l: Loop, r: Round, m: real, h: real)
    ensures Bare(Restart(l, r, m, h)) && Bare(Pause(l, h))
  {
    var a := [LatchSeen(l.now, false), Published(l.now, Unknown), CheckDone(m, TorFailed), Published(m, Unknown)];
    BareConcat(a, Pause(l, m));
    BareConcat(a + Pause(l, m), [HealDone(h, r.heal)]);
  }

  lemma TorIterationAdds(t: Timing, l: Loop, r: Round) returns (events: seq<Event>)
    requires r.latch == LatchReadable && !l.stored && !r.othersLatch && l.now - l.lastCheck >= t.checkInterval
    requires r.check == TorFailed
    ensures Adds(l, Iterate(t, l, r), events, false, r.containStores)
  {
    if r.heal != Healed {
      events := UnhealedAdds(t, l, r);
    } else if r.recheck != Passed {
      events := RefailedAdds(t, l, r);
    } else {
      events := HealedAdds(t, l, r);
    }
  }

  lemma UnhealedAdds(t: Timing, l: Loop, r: Round) returns (events: seq<Event>)
    requires r.latch == LatchReadable && !l.stored && !r.othersLatch && l.now - l.lastCheck >= t.checkInterval
    requires r.check == TorFailed && r.heal != Healed
    ensures Adds(l, Iterate(t, l, r), events, false, r.containStores)
  {
    var m := l.now + r.checkTime;
    var h := m + r.healTime;
    var restart, contained := Restart(l, r, m, h), ContainedAt(l, h, h + r.containTime, r.containStores);
    UnhealedIteration(t, l, r);
    RestartIsBare(l, r, m, h);
    assert Iterate(t, l, r).trace == l.trace + (restart + contained);
    AddsBareBefore(l, Iterate(t, l, r), restart, contained, false, r.containStores);
    events := restart + contained;
  }

  lemma RefailedAdds(t: Timing, l: Loop, r: Round) returns (events: seq<Event>)
    requires r.latch == LatchReadable && !l.stored && !r.othersLatch && l.now - l.lastCheck >= t.checkInterval
    requires r.check == TorFailed && r.heal == Healed && r.recheck != Passed
    ensures Adds(l, Iterate(t, l, r), events, false, r.containStores)
  {
    var m := l.now + r.checkTime;
    var h := m + r.healTime;
    var k := h + r.recheckTime;
    var bare := Restart(l, r, m, h) + Pause(l, h) + [CheckDone(k, r.recheck)];
    var contained := ContainedAt(l, k, k + r.containTime, r.containStores);
    RefailedBare(l, r, m, h, k);
    RefailedTrace(t, l, r);
    AddsBareBefore(l, Iterate(t, l, r), bare, contained, false, r.containStores);
    events := bare + contained;
  }

  lemma RefailedBare(l: Loop, r: Round, m: real, h: real, k: real)
    ensures Bare(Restart(l, r, m, h) + Pause(l, h) + [CheckDone(k, r.recheck)])
  {
    RestartIsBare(l, r, m, h);
    BareConcat(Restart(l, r, m, h), Pause(l, h));
    BareConcat(Restart(l, r, m, h) + Pause(l, h), [CheckDone(k, r.recheck)]);
  }

  lemma RefailedTrace(t: Timing, l: Loop, r: Round)
    requires r.latch == LatchReadable && !l.stored && !r.othersLatch && l.now - l.lastCheck >= t.checkInterval
    requires r.check == TorFailed && r.heal == Healed && r.recheck != Passed
    ensures var m := l.now + r.checkTime;
      var h := m + r.healTime;
      var k := h + r.recheckTime;
      && Iterate(t, l, r).trace == l.trace +
           (Restart(l, r, m, h) + Pause(l, h) + [CheckDone(k, r.recheck)] +
            ContainedAt(l, k, k + r.containTime, r.containStores))
      && Iterate(t, l, r).stored == r.containStores
  {
    RefailedIteration(t, l, r);
  }

  lemma HealedAdds(t: Timing, l: Loop, r: Round) returns (events: seq<Event>)
    requires r.latch == LatchReadable && !l.stored && !r.othersLatch && l.now - l.lastCheck >= t.checkInterval
    requires r.check == TorFailed && r.heal == Healed && r.recheck == Passed
    ensures Adds(l, Iterate(t, l, r), events, false, r.containStores)
  {
    var m := l.now + r.checkTime;
    var h := m + r.healTime;
    var k := h + r.recheckTime;
    var end := [CheckDone(k, Passed), Published(k, Healthy), Renewed(k), Progress(k, !l.ready)];
    var bare := Restart(l, r, m, h) + Pause(l, h);
    HealedIteration(t, l, r);
    RestartIsBare(l, r, m, h);
    BareConcat(Restart(l, r, m, h), Pause(l, h));
    assert Iterate(t, l, r).trace == l.trace + (bare + end);
    AddsBareBefore(l, Iterate(t, l, r), bare, end, false, r.containStores);
    events := bare + end;
  }

  lemma WaitAdds(t: Timing, l: Loop, r: Round, latched: bool) returns (events: seq<Event>)
    ensures Bare(events) && Wait(t, l, r, latched).trace == l.trace + events
    ensures Wait(t, l, r, latched).stored == l.stored
  {
    events := Wait(t, l, r, latched).trace[|l.trace|..];
  }

  /** A whole turn adds the same and its wait. */
  lemma TurnAdds(t: Timing, l: Loop, r: Round) returns (events: seq<Event>)
    ensures var base := l.stored || r.othersLatch;
      Adds(l, Turn(t, l, r), events, base, base || r.containStores)
  {
    var base := l.stored || r.othersLatch;
    var during := IterationAdds(t, l, r);
    var waited := WaitAdds(t, Iterate(t, l, r), r, Latched(l, r));
    AddsBareAfter(l, Turn(t, l, r), during, waited, base, base || r.containStores);
    events := during + waited;
  }

  lemma {:induction false} StoredAfterMeans(trace: seq<Event>, from: nat, k: nat, base: bool, stored: bool)
    requires k <= |trace| && (base ==> stored)
    requires forall i | from <= i < k && trace[i].Contained? :: trace[i].stored == stored
    ensures StoredAfter(trace, from, k, base) <==>
      base || exists i | from <= i < k :: trace[i].Contained? && trace[i].stored
    decreases k
  {
    if k > from && !trace[k - 1].Contained? {
      StoredAfterMeans(trace, from, k - 1, base, stored);
    }
  }

  // ---------------------------------------------------------------- how a run ends

  /** The first round that does not go through, because the session is no longer this one or something raises. */
  function Stop(rounds: seq<Round>): (i: nat)
    ensures i <= |rounds|
    ensures forall j | 0 <= j < i :: rounds[j].intent == Mine && rounds[j].breaks == None
    ensures i < |rounds| ==> rounds[i].intent == NotMine || rounds[i].breaks.Some?
  {
    StopFrom(rounds, 0)
  }

  function StopFrom(rounds: seq<Round>, from: nat): (i: nat)
    requires from <= |rounds|
    requires forall j | 0 <= j < from :: rounds[j].intent == Mine && rounds[j].breaks == None
    ensures i <= |rounds|
    ensures forall j | 0 <= j < i :: rounds[j].intent == Mine && rounds[j].breaks == None
    ensures i < |rounds| ==> rounds[i].intent == NotMine || rounds[i].breaks.Some?
    decreases |rounds| - from
  {
    if from == |rounds| || rounds[from].intent == NotMine || rounds[from].breaks.Some? then from
    else StopFrom(rounds, from + 1)
  }

  /** The latch is stored: from the start, by another process before one of these rounds, or by a containment. */
  ghost predicate LatchedBy(stored: bool, rounds: seq<Round>, i: nat, events: seq<Event>)
    requires i <= |rounds|
  {
    || stored
    || (exists j | 0 <= j < i :: rounds[j].othersLatch)
    || exists e | e in events :: e.Contained? && e.stored
  }

  /** The last two events are the request of the except branch and its end. */
  predicate EndsInRequest(trace: seq<Event>, b: Break, latched: bool) {
    && |trace| >= 2
    && var request, end := trace[|trace| - 2], trace[|trace| - 1];
       && request.ContainStarted? && request.final
       && end.Contained? && end.at == request.at + b.request
       && (end.stored <==> b.stores || latched)
  }

  predicate NoLastRequest(events: seq<Event>) { forall e | e in events && e.ContainStarted? :: !e.final }

  lemma SetupEnds(t: Timing, start: real, stored: bool, b: Break)
    ensures EndsInRequest(BreakOff(start, 0, Begin(t, start, stored), stored, b), b, stored)
  {
    var whole := Begin(t, start, stored);
    var k := Kept(0, whole, b);
    assert forall j | 0 <= j < |whole.trace| :: !whole.trace[j].Contained?;
    StoredAfterMeans(whole.trace, 0, k, stored, stored);
    EndingEnds(whole.trace[..k], BreakTime(start, whole, k, b), b, stored, stored || b.stores);
  }

  /**
   * How every run ends: in the request of the except branch when something raised, in the setup or in
   * the first round that does not go through, and with no such request otherwise.
   */
  ghost predicate Ends(trace: seq<Event>, stored: bool, setup: Option<Break>, rounds: seq<Round>) {
    var i := Stop(rounds);
    if setup.Some? then EndsInRequest(trace, setup.value, stored)
    else if i < |rounds| && rounds[i].intent == Mine then
      && |trace| >= 2
      && EndsInRequest(trace, rounds[i].breaks.value, LatchedBy(stored, rounds, i + 1, trace[..|trace| - 2]))
    else NoLastRequest(trace)
  }

  lemma {:induction false} SuperviseEnds(t: Timing, l: Loop, stored: bool, rounds: seq<Round>, i: nat)
    requires i <= Stop(rounds) && NoLastRequest(l.trace) && (l.stored <==> LatchedBy(stored, rounds, i, l.trace))
    ensures Ends(Supervise(t, l, rounds[i..]), stored, None, rounds)
    decreases |rounds| - i
  {
    if i < |rounds| {
      assert rounds[i..][0] == rounds[i] && rounds[i..][1..] == rounds[i + 1..];
      if rounds[i].intent == Mine {
        TurnExtends(t, l, rounds[i]);
        if rounds[i].breaks.Some? {
          BreakEnds(t, l, stored, rounds, i);
        } else {
          TurnKeepsHistory(t, l, stored, rounds, i);
          SuperviseEnds(t, Turn(t, l, rounds[i]), stored, rounds, i + 1);
        }
      }
    }
  }

  lemma RunEnds(t: Timing, start: real, stored: bool, setup: Option<Break>, rounds: seq<Round>)
    ensures Ends(Run(t, start, stored, setup, rounds), stored, setup, rounds)
  {
    if setup.Some? {
      SetupEnds(t, start, stored, setup.value);
    } else {
      var l := Begin(t, start, stored);
      assert forall e | e in l.trace :: e.Published? || e.Subscribed?;
      assert rounds[0..] == rounds;
      SuperviseEnds(t, l, stored, rounds, 0);
    }
  }

  lemma TurnKeepsHistory(t: Timing, l: Loop, stored: bool, rounds: seq<Round>, i: nat)
    requires i < |rounds| && NoLastRequest(l.trace) && (l.stored <==> LatchedBy(stored, rounds, i, l.trace))
    ensures var whole := Turn(t, l, rounds[i]);
      NoLastRequest(whole.trace) && (whole.stored <==> LatchedBy(stored, rounds, i + 1, whole.trace))
  {
    var r := rounds[i];
    var events := TurnAdds(t, l, r);
    assert forall e :: e in l.trace + events <==> e in l.trace || e in events;
    assert (exists j | 0 <= j < i + 1 :: rounds[j].othersLatch) <==>
      (exists j | 0 <= j < i :: rounds[j].othersLatch) || r.othersLatch;
  }

  lemma EndingEnds(trace: seq<Event>, at: real, b: Break, latched: bool, stored: bool)
    requires stored <==> latched || b.stores
    ensures var all := Ending(trace, at, at + b.request, stored);
      EndsInRequest(all, b, latched) && all[..|all| - 2] == trace
  {
  }

  /** An exception in round `i` ends the run in a request, whose latch is stored if it ever was. */
  lemma BreakEnds(t: Timing, l: Loop, stored: bool, rounds: seq<Round>, i: nat)
    requires i < |rounds| && rounds[i].breaks.Some? && (l.stored <==> LatchedBy(stored, rounds, i, l.trace))
    requires |l.trace| <= |Turn(t, l, rounds[i]).trace|
    ensures var b := rounds[i].breaks.value;
      var trace := BreakOff(l.now, |l.trace|, Turn(t, l, rounds[i]), l.stored || rounds[i].othersLatch, b);
      |trace| >= 2 && EndsInRequest(trace, b, LatchedBy(stored, rounds, i + 1, trace[..|trace| - 2]))
  {
    var r := rounds[i];
    var whole, b := Turn(t, l, r), r.breaks.value;
    BreakOffEnds(l.now, |l.trace|, whole, l.stored || r.othersLatch, b);
    KeptLatch(t, l, stored, rounds, i, Kept(|l.trace|, whole, b));
  }

  lemma BreakOffEnds(start: real, from: nat, whole: Loop, base: bool, b: Break)
    requires from <= |whole.trace|
    ensures var k := Kept(from, whole, b);
      var trace := BreakOff(start, from, whole, base, b);
      && |trace| == k + 2 && trace[..|trace| - 2] == whole.trace[..k]
      && EndsInRequest(trace, b, StoredAfter(whole.trace, from, k, base))
  {
    var k := Kept(from, whole, b);
    var latched, at := StoredAfter(whole.trace, from, k, base), BreakTime(start, whole, k, b);
    EndingEnds(whole.trace[..k], at, b, latched, latched || b.stores);
    assert BreakOff(start, from, whole, base, b) ==
      Ending(whole.trace[..k], at, at + b.request, latched || b.stores);
  }

  lemma KeptLatch(t: Timing, l: Loop, stored: bool, rounds: seq<Round>, i: nat, k: nat)
    requires i < |rounds| && (l.stored <==> LatchedBy(stored, rounds, i, l.trace))
    requires |l.trace| <= k <= |Turn(t, l, rounds[i]).trace|
    ensures StoredAfter(Turn(t, l, rounds[i]).trace, |l.trace|, k, l.stored || rounds[i].othersLatch) <==>
      LatchedBy(stored, rounds, i + 1, Turn(t, l, rounds[i]).trace[..k])
  {
    var trace := Turn(t, l, rounds[i]).trace;
    KeptIsLatched(t, l, rounds[i], k);
    assert trace[..k][..|l.trace|] == trace[..|l.trace|];
    KeptHistory(l.trace, trace[..k]);
    assert (exists j | 0 <= j < i + 1 :: rounds[j].othersLatch) <==>
      (exists j | 0 <= j < i :: rounds[j].othersLatch) || rounds[i].othersLatch;
    assert forall j | |l.trace| <= j < k :: trace[..k][j] == trace[j];
  }

  lemma KeptIsLatched(t: Timing, l: Loop, r: Round, k: nat)
    requires |l.trace| <= k <= |Turn(t, l, r).trace|
    ensures var whole, base := Turn(t, l, r), l.stored || r.othersLatch;
      && whole.trace[..|l.trace|] == l.trace
      && (StoredAfter(whole.trace, |l.trace|, k, base) <==>
            base || exists j | |l.trace| <= j < k :: whole.trace[j].Contained? && whole.trace[j].stored)
  {
    var base := l.stored || r.othersLatch;
    var events := TurnAdds(t, l, r);
    AddedIsLatched(l, Turn(t, l, r), events, base, base || r.containStores, k);
  }

  lemma AddedIsLatched(l: Loop, whole: Loop, events: seq<Event>, base: bool, stored: bool, k: nat)
    requires Adds(l, whole, events, base, stored) && (base ==> stored)
    requires |l.trace| <= k <= |whole.trace|
    ensures whole.trace[..|l.trace|] == l.trace
    ensures StoredAfter(whole.trace, |l.trace|, k, base) <==>
      base || exists j | |l.trace| <= j < k :: whole.trace[j].Contained? && whole.trace[j].stored
  {
    var from := |l.trace|;
    forall j | from <= j < k && whole.trace[j].Contained? ensures whole.trace[j].stored == stored {
      assert whole.trace[j] == events[j - from];
    }
    StoredAfterMeans(whole.trace, from, k, base, stored);
  }

  lemma KeptHistory(before: seq<Event>, kept: seq<Event>)
    requires |before| <= |kept| && kept[..|before|] == before
    ensures (exists e | e in kept :: e.Contained? && e.stored) <==>
      || (exists e | e in before :: e.Contained? && e.stored)
      || exists j | |before| <= j < |kept| :: kept[j].Contained? && kept[j].stored
  {
    assert kept == before + kept[|before|..];
    assert forall e :: e in kept <==> e in before || e in kept[|before|..];
    if exists j | |before| <= j < |kept| :: kept[j].Contained? && kept[j].stored {
      var j :| |before| <= j < |kept| && kept[j].Contained? && kept[j].stored;
      assert kept[j] in kept;
    }
    if exists e | e in kept[|before|..] :: e.Contained? && e.stored {
      var j :| 0 <= j < |kept[|before|..]| && kept[|before|..][j].Contained? && kept[|before|..][j].stored;
      assert kept[|before| + j] == kept[|before|..][j];
    }
  }

  lemma TurnIgnoresBreaks(t: Timing, l: Loop, r: Round)
    ensures Turn(t, l, r.(breaks := None)) == Turn(t, l, r)
  {
    assert ReadLatch(l, r.(breaks := None)) == ReadLatch(l, r);
    assert forall l: Loop :: HealTor(l, r.(breaks := None)) == HealTor(l, r);
    assert forall l: Loop :: Contain(l, r.(breaks := None)) == Contain(l, r);
    assert forall l: Loop :: Evaluate(l, r.(breaks := None)) == Evaluate(l, r);
    assert Iterate(t, l, r.(breaks := None)) == Iterate(t, l, r);
  }

  lemma TurnEndsNow(t: Timing, l: Loop, r: Round)
    ensures var whole := Turn(t, l, r); whole.trace != [] && whole.trace[|whole.trace| - 1].at == whole.now
  {
  }

  /** `trace` is `unbroken` cut `b.after` events after its first `from`, and ended there by a request. */
  predicate Cuts(trace: seq<Event>, unbroken: seq<Event>, from: nat, b: Break) {
    var k := if from + b.after <= |unbroken| then from + b.after else |unbroken|;
    && |trace| == k + 2 && trace[..k] == unbroken[..k]
    && (k > 0 ==>
          var next := if k < |unbroken| then unbroken[k].at else unbroken[k - 1].at;
          trace[k].at == if unbroken[k - 1].at + b.spent < next then unbroken[k - 1].at + b.spent else next)
  }

  /**
   * A run that something raises in is the run in which nothing would have, up to the exception: as many
   * events of the iteration as it got to, and the last request as long after them as the exception came.
   */
  lemma {:induction false} BrokenRun(t: Timing, l: Loop, rounds: seq<Round>, i: nat)
    requires i < |rounds| && rounds[i].intent == Mine && rounds[i].breaks.Some?
    requires forall j | 0 <= j < i :: rounds[j].intent == Mine && rounds[j].breaks == None
    ensures Cuts(Supervise(t, l, rounds), Supervise(t, l, rounds[..i] + [rounds[i].(breaks := None)]),
                 |Supervise(t, l, rounds[..i])|, rounds[i].breaks.value)
    decreases i
  {
    var r := rounds[0];
    var unbroken := rounds[..i] + [rounds[i].(breaks := None)];
    if i == 0 {
      assert unbroken == [r.(breaks := None)] && unbroken[1..] == [] && rounds[..0] == [];
      TurnIgnoresBreaks(t, l, r);
      TurnExtends(t, l, r);
      TurnEndsNow(t, l, r);
      assert Supervise(t, l, unbroken) == Turn(t, l, r).trace;
      BreakCuts(l.now, |l.trace|, Turn(t, l, r), l.stored || r.othersLatch, r.breaks.value);
    } else {
      assert unbroken[0] == r && unbroken[1..] == rounds[1..][..i - 1] + [rounds[i].(breaks := None)];
      assert rounds[..i][0] == r && rounds[..i][1..] == rounds[1..][..i - 1];
      BrokenRun(t, Turn(t, l, r), rounds[1..], i - 1);
    }
  }

  lemma BreakCuts(start: real, from: nat, whole: Loop, stored: bool, b: Break)
    requires from <= |whole.trace| && whole.trace != [] && whole.trace[|whole.trace| - 1].at == whole.now
    ensures Cuts(BreakOff(start, from, whole, stored, b), whole.trace, from, b)
  {
  }

  // ---------------------------------------------------------------- every stage obeys the rules

  /** What holds between the stages of an iteration. */
  ghost predicate Consistent(t: Timing, l: Loop, s: Summary) {
    && Sound(t) && l.now >= 0.0
    && Monitor(t, l.trace) == Some(s)
    && (s.last.Some? ==> s.last.value <= l.now)
    && s.subscribed && !s.mustInvalidate && !s.ended
    && s.notified == l.ready && (s.progressAt.Some? ==> s.notified) && (s.notified ==> s.evaluated)
    && (s.secured ==> l.stored)
    && (s.healthyAt.Some? ==> s.healthyAt.value == l.lastCheck && l.now - l.lastCheck <= t.checkInterval)
    && (if s.freshAt.Some? then l.lastCheck <= s.freshAt.value <= l.now && s.evaluated
        else l.lastCheck == -t.checkInterval)
  }

  ghost predicate ProgressWithin(l: Loop, s: Summary, bound: real) {
    s.progressAt.Some? ==> l.now - s.progressAt.value <= bound
  }

  lemma EmitObeys(t: Timing, l: Loop, s: Summary, e: Event)
    requires Monitor(t, l.trace) == Some(s) && Allowed(t, s, e)
    ensures Monitor(t, Emit(l, e).trace) == Some(Observe(s, e))
  {
    assert (l.trace + [e])[..|l.trace|] == l.trace;
  }

  lemma RequestObeys(t: Timing, l: Loop, s: Summary, r: Round) returns (s': Summary)
    requires Consistent(t, l, s) && !s.justPassed && r.containTime >= 0.0 && s.owed > 0
    ensures var l' := Request(l, r);
      && s' == Observe(Observe(s, ContainStarted(l.now, false)), Contained(l'.now, l'.stored))
      && Monitor(t, l'.trace) == Some(s')
  {
    var l1 := Emit(l, ContainStarted(l.now, false));
    var s1 := Observe(s, ContainStarted(l.now, false));
    EmitObeys(t, l, s, ContainStarted(l.now, false));
    var l2 := Later(l1, r.containTime).(stored := l1.stored || r.containStores);
    EmitObeys(t, l2, s1, Contained(l2.now, l2.stored));
    s' := Observe(s1, Contained(l2.now, l2.stored));
  }

  lemma ContainObeys(t: Timing, l: Loop, s: Summary, r: Round) returns (s': Summary)
    requires Consistent(t, l, s) && !s.justPassed && r.containTime >= 0.0 && s.owed > 0
    ensures var l' := Contain(l, r);
      && Consistent(t, l', s')
      && s'.owed == s.owed - 1 && !s'.justPassed && !s'.healing && s'.latchRead == s.latchRead
      && s'.progressAt == None && s'.healthyAt == None && s'.freshAt == Some(l'.now) && s'.evaluated
      && l'.lastCheck == l.lastCheck && l'.ready == l.ready
  {
    var l1 := Request(l, r);
    var s1 := RequestObeys(t, l, s, r);
    EmitObeys(t, l1, s1, Published(l1.now, Emergency));
    s' := Observe(s1, Published(l1.now, Emergency));
  }

  lemma CheckObeys(t: Timing, l: Loop, s: Summary, check: Check, time: real)
    requires Consistent(t, l, s) && !s.justPassed && 0.0 <= time <= t.checkTimeout
    requires s.healthyAt == None && s.latchRead && s.latchSeen == Some(false) && s.owed == 0
    ensures var l' := RunCheck(l, check, time);
      Monitor(t, l'.trace) == Some(Observe(s, CheckDone(l'.now, check)))
  {
    EmitObeys(t, Later(l, time), s, CheckDone(l.now + time, check));
  }

  lemma NotifyObeys(t: Timing, l: Loop, s: Summary) returns (s': Summary)
    requires Consistent(t, l, s) && !s.justPassed && s.evaluated && s.latchRead && s.owed == 0
    requires s.healing || (s.freshAt.Some? && l.now - s.freshAt.value < t.checkInterval)
    requires ProgressWithin(l, s, t.checkTimeout + t.heartbeat)
    ensures Consistent(t, Notify(l), s') && s' == Observe(s, Progress(l.now, !l.ready))
  {
    s' := Observe(s, Progress(l.now, !l.ready));
    EmitObeys(t, l, s, Progress(l.now, !l.ready));
  }

  /** In the healing branch: nothing published but "unknown", no containment owed yet. */
  ghost predicate HealingNow(t: Timing, l: Loop, s: Summary) {
    && Consistent(t, l, s) && s.healing && !s.justPassed && s.evaluated && s.latchRead && s.owed == 0
    && s.healthyAt == None && s.latchSeen == Some(false) && !s.secured
  }

  lemma PauseObeys(t: Timing, l: Loop, s: Summary) returns (s': Summary)
    requires HealingNow(t, l, s) && ProgressWithin(l, s, t.checkTimeout + t.heartbeat)
    ensures HealingNow(t, NotifyIfReady(l), s') && ProgressWithin(NotifyIfReady(l), s', 0.0)
  {
    s' := s;
    if l.ready {
      s' := NotifyObeys(t, l, s);
    }
  }

  /** Right after a passing check: "healthy" may be published, and nothing else. */
  ghost predicate Publishable(t: Timing, l: Loop, s: Summary) {
    && Sound(t) && l.now >= 0.0 && s.last == Some(l.now) && s.freshAt == Some(l.now) && s.evaluated && s.latchRead
    && Monitor(t, l.trace) == Some(s)
    && s.justPassed && s.latchSeen == Some(false) && !s.secured && s.healthyAt == None && s.owed == 0
    && s.subscribed && !s.mustInvalidate && !s.ended && !s.healing
    && s.notified == l.ready && (s.progressAt.Some? ==> s.notified)
    && ProgressWithin(l, s, t.checkTimeout + t.heartbeat)
  }

  /** The first stage of healing, up to the outcome of the restart. */
  lemma RestartObeys(t: Timing, l: Loop, s: Summary, r: Round) returns (s': Summary)
    requires HealingNow(t, l, s) && ProgressWithin(l, s, t.checkTimeout + t.heartbeat) && InRange(t, r)
    ensures var l1 := Later(NotifyIfReady(Emit(l, Published(l.now, Unknown))), r.healTime);
      var l' := Emit(l1, HealDone(l1.now, r.heal));
      if r.heal == Healed then HealingNow(t, l', s') && ProgressWithin(l', s', t.checkTimeout)
      else Consistent(t, l', s') && s'.owed == 1 && !s'.justPassed && s'.latchRead
  {
    var l1 := Emit(l, Published(l.now, Unknown));
    EmitObeys(t, l, s, Published(l.now, Unknown));
    var s2 := PauseObeys(t, l1, Observe(s, Published(l.now, Unknown)));
    var l3 := Later(NotifyIfReady(l1), r.healTime);
    EmitObeys(t, l3, s2, HealDone(l3.now, r.heal));
    s' := Observe(s2, HealDone(l3.now, r.heal));
  }

  lemma RecheckObeys(t: Timing, l: Loop, s: Summary, check: Check, time: real) returns (s': Summary)
    requires HealingNow(t, l, s) && ProgressWithin(l, s, 0.0) && 0.0 <= time <= t.checkTimeout
    ensures var l' := RunCheck(l, check, time);
      if check == Passed then Publishable(t, l', s')
      else Consistent(t, l', s') && s'.owed == 1 && !s'.justPassed && s'.latchRead
  {
    CheckObeys(t, l, s, check, time);
    s' := Observe(s, CheckDone(l.now + time, check));
  }

  lemma HealObeys(t: Timing, l: Loop, s: Summary, r: Round) returns (s': Summary)
    requires HealingNow(t, l, s) && ProgressWithin(l, s, t.checkTimeout + t.heartbeat) && InRange(t, r)
    ensures var l' := HealTor(l, r);
      if r.heal == Healed && r.recheck == Passed then Publishable(t, l', s')
      else Consistent(t, l', s') && s'.owed == 1 && !s'.justPassed && s'.latchRead
  {
    s' := RestartObeys(t, l, s, r);
    if r.heal == Healed {
      var l1 := Later(NotifyIfReady(Emit(l, Published(l.now, Unknown))), r.healTime);
      var l2 := Emit(l1, HealDone(l1.now, r.heal));
      var s2 := PauseObeys(t, l2, s');
      s' := RecheckObeys(t, NotifyIfReady(l2), s2, r.recheck, r.recheckTime);
    }
  }

  /** Before the notification that ends an iteration. */
  ghost predicate MayNotify(t: Timing, l: Loop, s: Summary) {
    && Consistent(t, l, s) && !s.justPassed && s.evaluated && s.latchRead && s.owed == 0 && !s.healing
    && s.freshAt.Some? && l.now - s.freshAt.value < t.checkInterval
    && ProgressWithin(l, s, t.checkTimeout + t.heartbeat)
  }

  /** The first check of an evaluation: pending is published, then the check decides what is next. */
  lemma FirstCheckObeys(t: Timing, l: Loop, s: Summary, r: Round) returns (s': Summary)
    requires Consistent(t, l, s) && !s.justPassed && ProgressWithin(l, s, t.heartbeat) && InRange(t, r)
    requires s.latchSeen == Some(false) && s.latchRead && !s.secured && s.owed == 0 && !s.healing
    ensures var l' := RunCheck(Emit(l, Published(l.now, Unknown)), r.check, r.checkTime);
      match r.check
      case Passed => Publishable(t, l', s')
      case TorFailed => HealingNow(t, l', s') && ProgressWithin(l', s', t.checkTimeout + t.heartbeat)
      case _ => Consistent(t, l', s') && s'.owed == 1 && !s'.justPassed && s'.latchRead
  {
    var l1, s1 := Emit(l, Published(l.now, Unknown)), Observe(s, Published(l.now, Unknown));
    EmitObeys(t, l, s, Published(l.now, Unknown));
    CheckObeys(t, l1, s1, r.check, r.checkTime);
    s' := Observe(s1, CheckDone(l1.now + r.checkTime, r.check));
  }

  lemma PublishObeys(t: Timing, l: Loop, s: Summary) returns (s': Summary)
    requires Publishable(t, l, s)
    ensures MayNotify(t, Emit(l, Published(l.now, Healthy)).(lastCheck := l.now), s') && s'.healthyAt == Some(l.now)
  {
    EmitObeys(t, l, s, Published(l.now, Healthy));
    s' := Observe(s, Published(l.now, Healthy));
  }

  lemma EvaluateObeys(t: Timing, l: Loop, s: Summary, r: Round) returns (s': Summary)
    requires Consistent(t, l, s) && !s.justPassed && ProgressWithin(l, s, t.heartbeat) && InRange(t, r)
    requires s.latchSeen == Some(false) && s.latchRead && !s.secured && s.owed == 0 && !s.healing
    ensures MayNotify(t, Evaluate(l, r), s')
    ensures Integral(r) ==> s'.healthyAt == Some(Evaluate(l, r).now)
  {
    var l2 := RunCheck(Emit(l, Published(l.now, Unknown)), r.check, r.checkTime);
    var s2 := FirstCheckObeys(t, l, s, r);
    var l3 := if r.check == TorFailed then HealTor(l2, r) else l2;
    var s3 := s2;
    if r.check == TorFailed {
      s3 := HealObeys(t, l2, s2, r);
    }
    if Integral(r) {
      s' := PublishObeys(t, l3, s3);
    } else {
      s' := ContainObeys(t, l3, s3, r);
    }
  }

  /** What holds when an iteration begins. */
  ghost predicate Ready(t: Timing, l: Loop, s: Summary) {
    && Consistent(t, l, s) && !s.justPassed && !s.latchRead && s.owed == 0 && !s.healing
    && ProgressWithin(l, s, t.heartbeat)
  }

  lemma ReadLatchObeys(t: Timing, l: Loop, s: Summary, r: Round) returns (s': Summary)
    requires Ready(t, l, s) && InRange(t, r)
    ensures var l' := ReadLatch(l, r);
      && Consistent(t, l', s') && !s'.justPassed && s'.latchRead && !s'.healing
      && l'.ready == l.ready && l'.lastCheck == l.lastCheck
      && (if Latched(l, r) then s'.owed == 1 else s'.owed == 0 && s'.latchSeen == Some(false) && !l'.stored)
      && (!Latched(l, r) ==> ProgressWithin(l', s', t.heartbeat))
  {
    var l1 := l.(stored := l.stored || r.othersLatch);
    if r.latch == LatchUnreadable {
      EmitObeys(t, l1, s, LatchLost(l1.now));
      s' := ContainObeys(t, Emit(l1, LatchLost(l1.now)), Observe(s, LatchLost(l1.now)), r);
    } else {
      EmitObeys(t, l1, s, LatchSeen(l1.now, l1.stored));
      s' := Observe(s, LatchSeen(l1.now, l1.stored));
    }
  }

  /** At the end of an iteration. */
  ghost predicate Notified(t: Timing, l: Loop, s: Summary) {
    && Consistent(t, l, s) && s.progressAt == Some(l.now) && s.justNotified && s.latchRead && s.owed == 0
    && !s.healing && !s.justPassed
  }

  lemma ReportObeys(t: Timing, l: Loop, s: Summary) returns (s': Summary)
    requires MayNotify(t, l, s)
    ensures Notified(t, ReportProgress(l), s') && s'.healthyAt == s.healthyAt
  {
    EmitObeys(t, l, s, Renewed(l.now));
    s' := NotifyObeys(t, Emit(l, Renewed(l.now)), Observe(s, Renewed(l.now)));
  }

  lemma IterateObeys(t: Timing, l: Loop, s: Summary, r: Round) returns (s': Summary)
    requires Ready(t, l, s) && InRange(t, r)
    ensures Notified(t, Iterate(t, l, r), s') && (Latched(l, r) ==> s'.healthyAt == None)
  {
    var l2 := ReadLatch(l, r);
    var s2 := ReadLatchObeys(t, l, s, r);
    if Latched(l, r) {
      var s3 := ContainObeys(t, l2, s2, r);
      s' := ReportObeys(t, Contain(l2, r), s3);
    } else if l2.now - l2.lastCheck >= t.checkInterval {
      var s3 := EvaluateObeys(t, l2, s2, r);
      s' := ReportObeys(t, Evaluate(l2, r), s3);
    } else {
      s' := ReportObeys(t, l2, s2);
    }
  }

  lemma WaitObeys(t: Timing, l: Loop, s: Summary, r: Round, latched: bool) returns (s': Summary)
    requires Notified(t, l, s) && (latched ==> s.healthyAt == None) && r.waited >= 0.0
    ensures Ready(t, Wait(t, l, r, latched), s')
  {
    DelayBounds(t, l, s, latched);
    s' := WokenAndInvalidated(t, l, s, Waited(t, l, r, latched), r.wake == KernelEvent);
  }

  lemma WokenAndInvalidated(t: Timing, l: Loop, s: Summary, waited: real, byEvent: bool) returns (s': Summary)
    requires Notified(t, l, s) && 0.0 <= waited <= t.heartbeat
    requires s.healthyAt.Some? ==> l.now + waited - l.lastCheck <= t.checkInterval
    ensures Ready(t, Woken(t, l, waited, byEvent), s')
  {
    s' := WokenObeys(t, l, s, waited, byEvent);
    if byEvent {
      s' := InvalidateObeys(t, Emit(Later(l, waited), Woke(l.now + waited, true)), s');
    }
  }

  /** The wait ends by the heartbeat, and before a "healthy" is older than a check interval. */
  lemma DelayBounds(t: Timing, l: Loop, s: Summary, latched: bool)
    requires Notified(t, l, s) && (latched ==> s.healthyAt == None)
    ensures 0.0 <= Delay(t, l, latched) <= t.heartbeat
    ensures s.healthyAt.Some? ==> l.now + Delay(t, l, latched) - l.lastCheck <= t.checkInterval
  {
  }

  /** After the wait: ready for the next iteration, or first bound to invalidate the observation. */
  lemma WokenObeys(t: Timing, l: Loop, s: Summary, waited: real, byEvent: bool) returns (s': Summary)
    requires Notified(t, l, s) && 0.0 <= waited <= t.heartbeat
    requires s.healthyAt.Some? ==> l.now + waited - l.lastCheck <= t.checkInterval
    ensures var l' := Emit(Later(l, waited), Woke(l.now + waited, byEvent));
      if byEvent then Invalidated(t, l', s') else Ready(t, l', s')
  {
    var l1 := Later(l, waited);
    s' := Observe(s, Woke(l1.now, byEvent));
    EmitObeys(t, l1, s, Woke(l1.now, byEvent));
  }

  ghost predicate Invalidated(t: Timing, l: Loop, s: Summary) {
    && Sound(t) && l.now >= 0.0
    && Monitor(t, l.trace) == Some(s)
    && s.last == Some(l.now) && s.freshAt == None && s.mustInvalidate && s.subscribed && !s.ended
    && (s.healthyAt.Some? ==> l.now - s.healthyAt.value <= t.checkInterval)
    && s.notified == l.ready && (s.progressAt.Some? ==> s.notified) && (s.notified ==> s.evaluated)
    && (s.secured ==> l.stored)
    && !s.justPassed && !s.latchRead && s.owed == 0 && !s.healing && ProgressWithin(l, s, t.heartbeat)
  }

  lemma InvalidateObeys(t: Timing, l: Loop, s: Summary) returns (s': Summary)
    requires Invalidated(t, l, s)
    ensures Ready(t, Emit(l, Published(l.now, Unknown)).(lastCheck := -t.checkInterval), s')
  {
    EmitObeys(t, l, s, Published(l.now, Unknown));
    s' := Observe(s, Published(l.now, Unknown));
  }

  lemma TurnObeys(t: Timing, l: Loop, s: Summary, r: Round) returns (s': Summary)
    requires Ready(t, l, s) && InRange(t, r)
    ensures Ready(t, Turn(t, l, r), s')
  {
    var s1 := IterateObeys(t, l, s, r);
    s' := WaitObeys(t, Iterate(t, l, r), s1, r, Latched(l, r));
  }

  lemma BeginObeys(t: Timing, start: real, stored: bool) returns (s: Summary)
    requires Sound(t) && start >= 0.0
    ensures Ready(t, Begin(t, start, stored), s)
  {
    var l := Loop(start, -t.checkInterval, false, stored, []);
    EmitObeys(t, l, START, Published(start, Unknown));
    var s1 := Observe(START, Published(start, Unknown));
    EmitObeys(t, Emit(l, Published(start, Unknown)), s1, Subscribed(start));
    s := Observe(s1, Subscribed(start));
  }

  // ---------------------------------------------------------------- cutting a run

  lemma {:induction false} PrefixObeys(t: Timing, trace: seq<Event>, k: nat)
    requires Obeys(t, trace) && k <= |trace|
    ensures Obeys(t, trace[..k])
    decreases |trace|
  {
    if k == |trace| {
      assert trace[..k] == trace;
    } else {
      assert trace[..|trace| - 1][..k] == trace[..k];
      PrefixObeys(t, trace[..|trace| - 1], k);
    }
  }

  /** The summary of what happened before event `k`. */
  function Before(t: Timing, trace: seq<Event>, k: nat): Summary
    requires Obeys(t, trace) && k <= |trace|
  {
    PrefixObeys(t, trace, k);
    Monitor(t, trace[..k]).value
  }

  /** Every event was allowed by what happened before it. */
  lemma EventAllowed(t: Timing, trace: seq<Event>, k: nat)
    requires Obeys(t, trace) && k < |trace|
    ensures Allowed(t, Before(t, trace, k), trace[k])
  {
    PrefixObeys(t, trace, k);
    PrefixObeys(t, trace, k + 1);
    assert trace[..k + 1][..k] == trace[..k];
  }

  lemma BeforeStep(t: Timing, trace: seq<Event>, k: nat)
    requires Obeys(t, trace) && k < |trace|
    ensures Before(t, trace, k + 1) == Observe(Before(t, trace, k), trace[k])
  {
    PrefixObeys(t, trace, k);
    PrefixObeys(t, trace, k + 1);
    assert trace[..k + 1][..k] == trace[..k];
  }

  lemma {:induction false} NotEndedBefore(t: Timing, trace: seq<Event>, k: nat)
    requires Obeys(t, trace) && k <= |trace| && !Monitor(t, trace).value.ended
    ensures !Before(t, trace, k).ended
    decreases |trace| - k
  {
    if k < |trace| {
      NotEndedBefore(t, trace, k + 1);
      BeforeStep(t, trace, k);
    } else {
      assert trace[..k] == trace;
    }
  }

  lemma LastIsBefore(t: Timing, trace: seq<Event>, k: nat)
    requires Obeys(t, trace) && 0 < k <= |trace|
    ensures Before(t, trace, k).last == Some(trace[k - 1].at)
  {
    BeforeStep(t, trace, k - 1);
  }

  /** A run that has not ended and may break off up to now. */
  ghost predicate Breakable(t: Timing, l: Loop) {
    && l.trace != [] && l.trace[|l.trace| - 1].at <= l.now && Obeys(t, l.trace)
    && var s := Monitor(t, l.trace).value;
       !s.ended && (s.healthyAt.Some? ==> l.now - s.healthyAt.value <= t.checkInterval)
  }

  /** Between which times a run may break off after `k` events. */
  predicate Between(l: Loop, k: nat, at: real)
    requires k <= |l.trace|
  {
    (k > 0 ==> l.trace[k - 1].at <= at) && at <= (if k < |l.trace| then l.trace[k].at else l.now)
  }

  /** A run that has not ended may break off after any of its events, into a last request. */
  lemma CutObeys(t: Timing, whole: Loop, k: nat, at: real, end: real, stored: bool)
    requires Breakable(t, whole) && k <= |whole.trace| && Between(whole, k, at) && at <= end
    ensures Obeys(t, Ending(whole.trace[..k], at, end, stored))
  {
    var trace := whole.trace;
    PrefixObeys(t, trace, k);
    NotEndedBefore(t, trace, k);
    var s := Before(t, trace, k);
    if k > 0 { LastIsBefore(t, trace, k); } else { assert trace[..k] == []; }
    if k < |trace| { EventAllowed(t, trace, k); } else { assert trace[..k] == trace; }
    var l := Loop(at, 0.0, false, false, trace[..k]);
    EmitObeys(t, l, s, ContainStarted(at, true));
    EmitObeys(t, Emit(l, ContainStarted(at, true)), Observe(s, ContainStarted(at, true)), Contained(end, stored));
  }

  /** The exception falls between the last kept event and the next, or the end of the iteration. */
  lemma BreakTimeBounds(t: Timing, start: real, whole: Loop, k: nat, b: Break)
    requires Breakable(t, whole) && k <= |whole.trace| && b.spent >= 0.0
    ensures Between(whole, k, BreakTime(start, whole, k, b))
  {
    if 0 < k < |whole.trace| {
      EventAllowed(t, whole.trace, k);
      LastIsBefore(t, whole.trace, k);
    }
  }

  lemma ConsistentBreaks(t: Timing, l: Loop, s: Summary)
    requires Consistent(t, l, s) && l.trace != []
    ensures Breakable(t, l)
  {
    var n := |l.trace|;
    LastIsBefore(t, l.trace, n);
    assert l.trace[..n] == l.trace;
  }

  /** Whatever breaks an iteration off, and wherever, what was recorded until then and the last request obey. */
  lemma BreakObeys(t: Timing, start: real, from: nat, whole: Loop, stored: bool, b: Break)
    requires Breakable(t, whole) && from <= |whole.trace| && BreakInRange(b)
    ensures Obeys(t, BreakOff(start, from, whole, stored, b))
  {
    var k := Kept(from, whole, b);
    var at := BreakTime(start, whole, k, b);
    BreakTimeBounds(t, start, whole, k, b);
    var end := at + b.request;
    var latched := StoredAfter(whole.trace, from, k, stored) || b.stores;
    assert Between(whole, k, at);
    assert at <= end;
    CutObeys(t, whole, k, at, end, latched);
    assert BreakOff(start, from, whole, stored, b) == Ending(whole.trace[..k], at, end, latched);
  }

  /**
   * run_supervisor over every environment: the loop computes the run, and the run obeys every rule.
   * An exception may break it off anywhere, from the first record written before the subscriptions
   * exist to the end of any iteration.
   */
  method RunSupervisor(t: Timing, start: real, stored: bool, setup: Option<Break>, rounds: seq<Round>)
    returns (trace: seq<Event>)
    requires Sound(t) && start >= 0.0 && (setup.Some? ==> BreakInRange(setup.value))
    requires forall r | r in rounds :: InRange(t, r)
    ensures Obeys(t, trace)
    ensures trace == Run(t, start, stored, setup, rounds)
    ensures Ends(trace, stored, setup, rounds)
  {
    RunEnds(t, start, stored, setup, rounds);
    trace := Supervised(t, start, stored, setup, rounds);
  }

  method Supervised(t: Timing, start: real, stored: bool, setup: Option<Break>, rounds: seq<Round>)
    returns (trace: seq<Event>)
    requires Sound(t) && start >= 0.0 && (setup.Some? ==> BreakInRange(setup.value))
    requires forall r | r in rounds :: InRange(t, r)
    ensures Obeys(t, trace)
    ensures trace == Run(t, start, stored, setup, rounds)
  {
    var l := Begin(t, start, stored);
    ghost var s := BeginObeys(t, start, stored);
    if setup.Some? {
      ConsistentBreaks(t, l, s);
      BreakObeys(t, start, 0, l, stored, setup.value);
      return BreakOff(start, 0, l, stored, setup.value);
    }
    var i := 0;
    while i < |rounds|
      invariant 0 <= i <= |rounds| && Ready(t, l, s) && l.trace != []
      invariant Supervise(t, Begin(t, start, stored), rounds) == Supervise(t, l, rounds[i..])
    {
      var r := rounds[i];
      assert r in rounds;
      assert rounds[i..][0] == r && rounds[i..][1..] == rounds[i + 1..];
      if r.intent == NotMine {
        return l.trace;
      }
      var whole := Turn(t, l, r);
      s := TurnObeys(t, l, s, r);
      TurnExtends(t, l, r);
      if r.breaks.Some? {
        ConsistentBreaks(t, whole, s);
        BreakObeys(t, l.now, |l.trace|, whole, l.stored || r.othersLatch, r.breaks.value);
        return BreakOff(l.now, |l.trace|, whole, l.stored || r.othersLatch, r.breaks.value);
      }
      l := whole;
      i := i + 1;
    }
    trace := l.trace;
  }

  /** A healthy iteration, and one that finds the latch stored but fails to publish its containment. */
  function UnpublishedRounds(): seq<Round> {
    [Round(Mine, false, LatchReadable, Passed, 0.0, Healed, 0.0, Passed, 0.0, 0.0, false, Timer, 0.0, None),
     Round(Mine, true, LatchReadable, Passed, 0.0, Healed, 0.0, Passed, 0.0, 0.0, false, Timer, 0.0,
           Some(Break(3, 0.0, 0.0, false)))]
  }

  /** Containment need not be published: this run ends with "healthy" as its last publication. */
  lemma ContainmentCanStayUnpublished(t: Timing)
    requires Sound(t)
    ensures var d := Min(t.heartbeat, t.checkInterval);
      Run(t, 0.0, false, None, UnpublishedRounds()) ==
        [Published(0.0, Unknown), Subscribed(0.0),
         LatchSeen(0.0, false), Published(0.0, Unknown), CheckDone(0.0, Passed), Published(0.0, Healthy),
         Renewed(0.0), Progress(0.0, true), Woke(d, false),
         LatchSeen(d, true), ContainStarted(d, false), Contained(d, true),
         ContainStarted(d, true), Contained(d, true)]
  {
    var rounds, d := UnpublishedRounds(), Min(t.heartbeat, t.checkInterval);
    var l0 := Begin(t, 0.0, false);
    var l1 := Turn(t, l0, rounds[0]);
    assert l1 == Loop(d, 0.0, true, false,
      [Published(0.0, Unknown), Subscribed(0.0),
       LatchSeen(0.0, false), Published(0.0, Unknown), CheckDone(0.0, Passed), Published(0.0, Healthy),
       Renewed(0.0), Progress(0.0, true), Woke(d, false)]);
    var l2 := Turn(t, l1, rounds[1]);
    assert l2.trace[..12] == l1.trace + [LatchSeen(d, true), ContainStarted(d, false), Contained(d, true)];
    assert l2.trace[12] == Published(d, Emergency);
    assert rounds[1..][0] == rounds[1];
    assert Supervise(t, l0, rounds) == Supervise(t, l1, rounds[1..]);
  }

  // ---------------------------------------------------------------- what the rules mean for a run

  /** What single events leave alone. */
  lemma ObserveKeeps(s: Summary, e: Event)
    ensures !e.Published? && !e.ContainStarted? ==> Observe(s, e).healthyAt == s.healthyAt
    ensures !e.Progress? && !e.ContainStarted? ==> Observe(s, e).progressAt == s.progressAt
    ensures !e.LatchSeen? ==> Observe(s, e).latchSeen == s.latchSeen || Observe(s, e).latchSeen == None
    ensures e.LatchSeen? ==> Observe(s, e).latchSeen == Some(e.latched)
  {
  }

  lemma {:induction false} ProgressRemembered(t: Timing, trace: seq<Event>, i: nat, j: nat)
    requires Obeys(t, trace) && i < j <= |trace| && trace[i].Progress?
    requires forall k | i < k < j :: !trace[k].Progress? && !trace[k].ContainStarted?
    ensures Before(t, trace, j).progressAt == Some(trace[i].at)
    decreases j
  {
    BeforeStep(t, trace, j - 1);
    if i < j - 1 {
      ProgressRemembered(t, trace, i, j - 1);
    }
  }

  /** Consecutive progress notifications without containment between them fit twice into the service timeout. */
  lemma ProgressGap(t: Timing, trace: seq<Event>, i: nat, j: nat)
    requires Sound(t) && Obeys(t, trace) && i < j < |trace| && trace[i].Progress? && trace[j].Progress?
    requires forall k | i < k < j :: !trace[k].Progress? && !trace[k].ContainStarted?
    ensures trace[j].at - trace[i].at <= t.checkTimeout + t.heartbeat <= t.service / 2.0
  {
    ProgressRemembered(t, trace, i, j);
    EventAllowed(t, trace, j);
  }

  lemma {:induction false} HealthyRemembered(t: Timing, trace: seq<Event>, i: nat, j: nat)
    requires Obeys(t, trace) && i < j <= |trace| && trace[i].Published? && trace[i].health == Healthy
    requires forall k | i < k < j :: !trace[k].Published? && !trace[k].ContainStarted?
    ensures Before(t, trace, j).healthyAt == Some(trace[i].at)
    decreases j
  {
    BeforeStep(t, trace, j - 1);
    if i < j - 1 {
      HealthyRemembered(t, trace, i, j - 1);
      ObserveKeeps(Before(t, trace, j - 1), trace[j - 1]);
    }
  }

  lemma {:induction false} TimeMoves(t: Timing, trace: seq<Event>, i: nat, j: nat)
    requires Obeys(t, trace) && i <= j < |trace|
    ensures trace[i].at <= trace[j].at
    decreases j
  {
    if i < j {
      TimeMoves(t, trace, i, j - 1);
      BeforeStep(t, trace, j - 1);
      EventAllowed(t, trace, j);
    }
  }

  /**
   * A published "healthy" is still current, by the readers' own test, at every event up to and
   * including the start of the next evaluation or containment.
   */
  lemma HealthyStaysCurrent(t: Timing, trace: seq<Event>, i: nat, j: nat, o: Observation)
    requires Sound(t) && Obeys(t, trace) && i < j < |trace| && trace[i].Published? && trace[i].health == Healthy
    requires forall k | i < k < j :: !trace[k].Published? && !trace[k].ContainStarted?
    requires o.session != "" && o.boot != "" && o.instance != "" && o.observedAt == Finite(trace[i].at)
    ensures IsCurrent(o, o.session, o.boot, o.instance, Finite(trace[j].at), Finite(t.maxAge))
  {
    HealthyRemembered(t, trace, i, j);
    TimeMoves(t, trace, i, j);
    EventAllowed(t, trace, j);
  }

  lemma {:induction false} SecuredRemembered(t: Timing, trace: seq<Event>, i: nat, j: nat)
    requires Obeys(t, trace) && i < j <= |trace| && trace[i].Contained? && trace[i].stored
    ensures Before(t, trace, j).secured
    decreases j
  {
    BeforeStep(t, trace, j - 1);
    if i < j - 1 {
      SecuredRemembered(t, trace, i, j - 1);
    }
  }

  /** Once the supervisor contained with a stored latch it never again publishes "healthy". */
  lemma NeverHealthyAgain(t: Timing, trace: seq<Event>, i: nat, j: nat)
    requires Obeys(t, trace) && i < j < |trace| && trace[i].Contained? && trace[i].stored
    ensures !(trace[j].Published? && trace[j].health == Healthy)
  {
    SecuredRemembered(t, trace, i, j);
    EventAllowed(t, trace, j);
  }

  lemma {:induction false} LastLatch(t: Timing, trace: seq<Event>, j: nat) returns (i: nat)
    requires Obeys(t, trace) && j <= |trace| && Before(t, trace, j).latchSeen == Some(false)
    ensures i < j && trace[i].LatchSeen? && !trace[i].latched
    ensures forall k | i < k < j :: !trace[k].LatchSeen?
    decreases j
  {
    assert j > 0;
    BeforeStep(t, trace, j - 1);
    ObserveKeeps(Before(t, trace, j - 1), trace[j - 1]);
    if trace[j - 1].LatchSeen? {
      i := j - 1;
    } else {
      i := LastLatch(t, trace, j - 1);
    }
  }

  /** "healthy" follows directly on a check without failure, in an iteration that read the latch as absent. */
  lemma HealthyOnlyAfterCheck(t: Timing, trace: seq<Event>, j: nat) returns (i: nat)
    requires Obeys(t, trace) && j < |trace| && trace[j].Published? && trace[j].health == Healthy
    ensures j > 0 && trace[j - 1].CheckDone? && trace[j - 1].result == Passed
    ensures i < j && trace[i].LatchSeen? && !trace[i].latched && forall k | i < k < j :: !trace[k].LatchSeen?
  {
    EventAllowed(t, trace, j);
    i := LastLatch(t, trace, j);
    BeforeStep(t, trace, j - 1);
  }

  lemma {:induction false} FirstEvaluation(t: Timing, trace: seq<Event>, j: nat) returns (i: nat, m: nat)
    requires Obeys(t, trace) && j <= |trace| && Before(t, trace, j).evaluated
    ensures i < m < j && trace[i].Subscribed? && (trace[m].CheckDone? || trace[m].Contained?)
    decreases j
  {
    BeforeStep(t, trace, j - 1);
    if Before(t, trace, j - 1).evaluated {
      i, m := FirstEvaluation(t, trace, j - 1);
    } else {
      i := FirstSubscription(t, trace, j - 1);
      m := j - 1;
    }
  }

  lemma {:induction false} FirstSubscription(t: Timing, trace: seq<Event>, j: nat) returns (i: nat)
    requires Obeys(t, trace) && j <= |trace| && Before(t, trace, j).subscribed
    ensures i < j && trace[i].Subscribed?
    decreases j
  {
    BeforeStep(t, trace, j - 1);
    if Before(t, trace, j - 1).subscribed {
      i := FirstSubscription(t, trace, j - 1);
    } else {
      i := j - 1;
    }
  }

  lemma {:induction false} NotifiedMeans(t: Timing, trace: seq<Event>, j: nat)
    requires Obeys(t, trace) && j <= |trace|
    ensures Before(t, trace, j).notified <==> exists k | 0 <= k < j :: trace[k].Progress?
    decreases j
  {
    if j > 0 {
      BeforeStep(t, trace, j - 1);
      NotifiedMeans(t, trace, j - 1);
    }
  }

  /** READY is the first notification only, after the subscriptions and a completed evaluation or containment. */
  lemma ReadyOnlyAfterEvaluation(t: Timing, trace: seq<Event>, j: nat) returns (i: nat, m: nat)
    requires Obeys(t, trace) && j < |trace| && trace[j].Progress?
    ensures trace[j].ready <==> forall k | 0 <= k < j :: !trace[k].Progress?
    ensures i < m < j && trace[i].Subscribed? && (trace[m].CheckDone? || trace[m].Contained?)
  {
    EventAllowed(t, trace, j);
    NotifiedMeans(t, trace, j);
    i, m := FirstEvaluation(t, trace, j);
  }

  /** A finding that calls for containment: a stored latch, an unreadable one, or a failed check. */
  predicate CallsForContainment(e: Event) {
    || (e.LatchSeen? && e.latched)
    || e.LatchLost?
    || (e.CheckDone? && e.result in {OtherFailed, Deadline})
    || (e.HealDone? && e.heal != Healed)
  }

  ghost predicate Owing(s: Summary) { s.owed > 0 && s.latchRead && !s.justNotified }

  lemma OwingKept(t: Timing, s: Summary, e: Event)
    requires Owing(s) && Allowed(t, s, e) && !e.Contained?
    ensures Owing(Observe(s, e))
  {
  }

  lemma OwingBegins(t: Timing, s: Summary, e: Event)
    requires Allowed(t, s, e) && CallsForContainment(e) && (e.HealDone? ==> s.latchRead)
    ensures Owing(Observe(s, e))
  {
  }

  lemma {:induction false} HealingHasRead(t: Timing, trace: seq<Event>, j: nat)
    requires Obeys(t, trace) && j <= |trace|
    ensures Before(t, trace, j).healing ==> Before(t, trace, j).latchRead && !Before(t, trace, j).justNotified
    decreases j
  {
    if j > 0 {
      BeforeStep(t, trace, j - 1);
      EventAllowed(t, trace, j - 1);
      HealingHasRead(t, trace, j - 1);
      HealingStep(t, Before(t, trace, j - 1), trace[j - 1]);
    }
  }

  lemma HealingStep(t: Timing, s: Summary, e: Event)
    requires Allowed(t, s, e) && (s.healing ==> s.latchRead && !s.justNotified)
    ensures Observe(s, e).healing ==> Observe(s, e).latchRead && !Observe(s, e).justNotified
  {
  }

  lemma {:induction false} OwingRemembered(t: Timing, trace: seq<Event>, i: nat, j: nat)
    requires Obeys(t, trace) && i < j <= |trace| && CallsForContainment(trace[i])
    requires forall k | i < k < j :: !trace[k].Contained?
    ensures Owing(Before(t, trace, j))
    decreases j
  {
    BeforeStep(t, trace, j - 1);
    EventAllowed(t, trace, j - 1);
    if i < j - 1 {
      OwingRemembered(t, trace, i, j - 1);
      OwingKept(t, Before(t, trace, j - 1), trace[j - 1]);
    } else {
      HealingHasRead(t, trace, i);
      OwingBegins(t, Before(t, trace, i), trace[i]);
    }
  }

  /** The supervisor never reports progress between a finding that calls for containment and a completed request. */
  lemma NoProgressBeforeContainment(t: Timing, trace: seq<Event>, i: nat, j: nat)
    requires Obeys(t, trace) && i < j < |trace| && CallsForContainment(trace[i]) && trace[j].Progress?
    ensures exists k | i < k < j :: trace[k].Contained?
  {
    EventAllowed(t, trace, j);
    if forall k | i < k < j :: !trace[k].Contained? {
      OwingRemembered(t, trace, i, j);
    }
  }
}
