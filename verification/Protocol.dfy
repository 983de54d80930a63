// Any number of emergency workers, stops, restorations, starts and lock updates, interleaved step by
// step with crashes and failures: the latch-and-intent protocol of ttp/session_safety.py,
// ttp/state.py, ttp/commands/lifecycle.py and ttp/commands/stop_restart.py.
module Protocol {
  import opened Wrappers
  import opened Intent

  // ---------------------------------------------------------------- processes

  /** request_emergency: waiting for the transition lock, reading intent, then acting. */
  datatype WorkerPc = WWait | WMarker | WLock | WLatch | WKill | WEvidence

  /** do_stop: mark_stopping under the transition lock, then teardown without it. */
  datatype StopPc = SWait | SCheck | SPhase | SPhaseWrite(read: nat) | SMarker | SDestroy | SDelete

  /** `stop --restore-only`: the "*" marker, then teardown. */
  datatype RestorePc = RWait | RMarker | RDestroy | RDelete

  /** start_command: rules, then write_lock as its two file operations. */
  datatype StartPc = TRules | TLock | TUnlink

  /** What a worker's strict read of the lock found: its own session's lock, no lock, or a StateError. */
  datatype Sight = Unseen | Own | Missing | Failed

  datatype Proc =
    | Idle
    | Worker(session: nat, require: bool, repair: bool, wpc: WorkerPc, sight: Sight)
    | Stopper(stopping: nat, spc: StopPc)
    | Restorer(rpc: RestorePc)
    | Starter(tpc: StartPc)
    | Updater(copy: Lock<nat>)

  /**
   * Sessions are numbered in the order write_lock publishes them; `next` is the first unused number.
   * `stopped` and `sealed` are history: the sessions whose lock was ever marked stopping, and whether
   * the newest session is covered by a marker written since the last step of a write_lock.
   */
  datatype State = State(
    lock: Option<Lock<nat>>, marker: Marker<nat>, holder: Option<nat>, table: TableState,
    next: nat, procs: seq<Proc>, stopped: set<nat>, sealed: bool)

  datatype KillOutcome = Skipped | Done | FailedButCommitted | FailedWithoutEffect

  datatype Action =
    | Spawn(p: Proc)
    | Acquire
    | Crash
    | ReadMarker(readable: bool)
    | ReadLock(ok: bool)
    | WriteRecord(written: bool)
    | Kill(outcome: KillOutcome)
    | CheckLock
    | ReadForPhase
    | WritePhase
    | WriteMarker
    | Destroy(destroyed: bool)
    | DeleteLock
    | ApplyRules(applied: bool)
    | WriteLock
    | Unlink
    | WriteBack

  predicate Critical(p: Proc) {
    match p
    case Worker(_, _, _, pc, _) => pc != WWait
    case Stopper(_, pc) => !(pc.SWait? || pc.SDestroy? || pc.SDelete?)
    case Restorer(pc) => pc == RMarker
    case _ => false
  }

  /** Past its decision: about to write the latch, apply the killswitch or publish evidence. */
  predicate Acting(p: Proc) { p.Worker? && p.wpc in {WLatch, WKill, WEvidence} }

  predicate Newest(s: State, session: nat) { session + 1 == s.next }

  /** New processes: a worker of any published session, a stop of the session the lock names, and so on. */
  predicate CanSpawn(split: bool, s: State, p: Proc) {
    match p
    case Idle => false
    case Worker(session, _, _, pc, sight) => session < s.next && pc == WWait && sight == Unseen
    case Stopper(session, pc) => s.lock.Some? && s.lock.value.session == session && pc == SWait
    case Restorer(pc) => pc == RWait
    case Starter(pc) => pc == TRules
    case Updater(copy) => split && s.lock == Some(copy)
  }

  predicate Enabled(split: bool, s: State, i: nat, a: Action) {
    i < |s.procs| &&
    var p := s.procs[i];
    match a
    case Spawn(q) => p == Idle && CanSpawn(split, s, q)
    case Acquire =>
      s.holder == None &&
      ((p.Worker? && p.wpc == WWait) || (p.Stopper? && p.spc == SWait) || (p.Restorer? && p.rpc == RWait))
    case Crash => p != Idle
    case ReadMarker(_) => p.Worker? && p.wpc == WMarker
    case ReadLock(_) => p.Worker? && p.wpc == WLock
    case WriteRecord(_) => p.Worker? && p.wpc in {WLatch, WEvidence}
    case Kill(o) => p.Worker? && p.wpc == WKill && (o == Skipped ==> p.repair && s.table == EmergencyRules)
    case CheckLock => p.Stopper? && p.spc == SCheck
    case ReadForPhase => split && p.Stopper? && p.spc == SPhase
    case WritePhase => p.Stopper? && (if split then p.spc.SPhaseWrite? else p.spc == SPhase)
    case WriteMarker => (p.Stopper? && p.spc == SMarker) || (p.Restorer? && p.rpc == RMarker)
    case Destroy(_) => (p.Stopper? && p.spc == SDestroy) || (p.Restorer? && p.rpc == RDestroy)
    case DeleteLock => (p.Stopper? && p.spc == SDelete) || (p.Restorer? && p.rpc == RDelete)
    case ApplyRules(_) => p.Starter? && p.tpc == TRules
    case WriteLock => p.Starter? && p.tpc == TLock
    case Unlink => p.Starter? && p.tpc == TUnlink
    case WriteBack => p.Updater?
  }

  function With(s: State, i: nat, p: Proc): State
    requires i < |s.procs|
  {
    s.(procs := s.procs[i := p])
  }

  /** The process ends; the kernel releases its transition lock. */
  function End(s: State, i: nat): State
    requires i < |s.procs|
  {
    With(if s.holder == Some(i) then s.(holder := None) else s, i, Idle)
  }

  function View(s: State, ok: bool): LockView<nat> {
    if !ok then Unreadable else if s.lock.None? then Absent else Present(s.lock.value)
  }

  function Stop(s: State, session: nat): State {
    s.(lock := Some(Lock(session, Stopping)), stopped := s.stopped + {session})
  }

  function Apply(split: bool, s: State, i: nat, a: Action): State
    requires Enabled(split, s, i, a)
  {
    var p := s.procs[i];
    match a
    case Spawn(q) => With(s, i, q)
    case Acquire =>
      var s := s.(holder := Some(i));
      (match p
       case Worker(_, _, _, _, _) => With(s, i, p.(wpc := WMarker))
       case Stopper(_, _) => With(s, i, p.(spc := SCheck))
       case _ => With(s, i, Restorer(RMarker)))
    case Crash => End(s, i)
    case ReadMarker(readable) =>
      if !readable || Covers(s.marker, p.session) then End(s, i) else With(s, i, p.(wpc := WLock))
    case ReadLock(ok) =>
      if Choose(Readable(NoMarker), View(s, ok), p.session, p.require) == Proceed
      then With(s, i, p.(wpc := WLatch, sight := if !ok then Failed else if s.lock.None? then Missing else Own))
      else End(s, i)
    case WriteRecord(_) =>
      if p.wpc == WLatch then With(s, i, p.(wpc := WKill)) else End(s, i)
    case Kill(o) =>
      var s := if o in {Done, FailedButCommitted} then s.(table := EmergencyRules) else s;
      With(s, i, p.(wpc := WEvidence))
    case CheckLock =>
      if s.lock.Some? && s.lock.value.session == p.stopping then With(s, i, p.(spc := SPhase)) else End(s, i)
    case ReadForPhase =>
      if s.lock.Some? then With(s, i, p.(spc := SPhaseWrite(s.lock.value.session))) else End(s, i)
    case WritePhase =>
      if split then With(Stop(s, p.spc.read), i, p.(spc := SMarker))
      else if s.lock.Some? then With(Stop(s, s.lock.value.session), i, p.(spc := SMarker))
      else End(s, i)
    case WriteMarker =>
      var s := s.(holder := None);
      if p.Stopper? then
        With(s.(marker := Only(p.stopping), sealed := s.sealed || Newest(s, p.stopping)), i, p.(spc := SDestroy))
      else
        With(s.(marker := Everything, sealed := s.next > 0), i, Restorer(RDestroy))
    case Destroy(destroyed) =>
      var s := if destroyed then s.(table := NoTable) else s;
      With(s, i, if p.Stopper? then p.(spc := SDelete) else Restorer(RDelete))
    case DeleteLock => End(s.(lock := None), i)
    case ApplyRules(applied) => if applied then With(s.(table := SessionRules), i, Starter(TLock)) else End(s, i)
    case WriteLock =>
      With(s.(lock := Some(Lock(s.next, Running)), next := s.next + 1, sealed := false), i, Starter(TUnlink))
    case Unlink => End(s.(marker := NoMarker, sealed := false), i)
    case WriteBack => End(s.(lock := Some(p.copy)), i)
  }

  // ---------------------------------------------------------------- runs

  datatype Move = Move(who: nat, action: Action)

  predicate Initial(s: State) {
    && s.lock == None && s.marker == NoMarker && s.holder == None && s.table == NoTable
    && s.next == 0 && (forall i | 0 <= i < |s.procs| :: s.procs[i] == Idle) && s.stopped == {} && !s.sealed
  }

  predicate IsRun(split: bool, s: State, moves: seq<Move>)
    decreases |moves|
  {
    moves == [] ||
    (Enabled(split, s, moves[0].who, moves[0].action) &&
     IsRun(split, Apply(split, s, moves[0].who, moves[0].action), moves[1..]))
  }

  function Final(split: bool, s: State, moves: seq<Move>): State
    requires IsRun(split, s, moves)
    decreases |moves|
  {
    if moves == [] then s
    else Final(split, Apply(split, s, moves[0].who, moves[0].action), moves[1..])
  }

  // ---------------------------------------------------------------- the invariant

  /** A process inside the critical section holds the transition lock. */
  predicate HolderOk(s: State, j: nat)
    requires j < |s.procs|
  {
    Critical(s.procs[j]) ==> s.holder == Some(j)
  }

  /** A worker past the marker test belongs to a session the marker does not cover. */
  predicate UncoveredOk(s: State, p: Proc) {
    p.Worker? && p.wpc !in {WWait, WMarker} ==> !Covers(s.marker, p.session)
  }

  /** Holds whether lock updates are atomic or split. */
  ghost predicate MarkerInv(s: State) {
    && (forall j | 0 <= j < |s.procs| :: HolderOk(s, j))
    && (forall j | 0 <= j < |s.procs| :: UncoveredOk(s, s.procs[j]))
  }

  lemma HolderKept(split: bool, s: State, i: nat, a: Action, j: nat)
    requires Enabled(split, s, i, a) && j < |s.procs| && HolderOk(s, i) && HolderOk(s, j)
    ensures HolderOk(Apply(split, s, i, a), j)
  {
  }

  lemma UncoveredKept(split: bool, s: State, i: nat, a: Action, j: nat)
    requires Enabled(split, s, i, a) && j < |s.procs| && HolderOk(s, i) && HolderOk(s, j)
    requires UncoveredOk(s, s.procs[i]) && UncoveredOk(s, s.procs[j])
    ensures UncoveredOk(Apply(split, s, i, a), Apply(split, s, i, a).procs[j])
  {
  }

  lemma MarkerInvKept(split: bool, s: State, i: nat, a: Action)
    requires MarkerInv(s) && Enabled(split, s, i, a)
    ensures MarkerInv(Apply(split, s, i, a))
  {
    forall j | 0 <= j < |s.procs|
      ensures HolderOk(Apply(split, s, i, a), j)
      ensures UncoveredOk(Apply(split, s, i, a), Apply(split, s, i, a).procs[j])
    {
      HolderKept(split, s, i, a, j);
      UncoveredKept(split, s, i, a, j);
    }
  }

  /** A worker that decided to act rests on what it saw; see the theorem below. */
  predicate JustifiedWorker(s: State, p: Proc) {
    p.Worker? ==>
      && p.session < s.next
      && (Acting(p) ==>
            && p.sight != Unseen
            && (p.sight != Own ==> p.require)
            && (p.sight == Own ==> p.session !in s.stopped)
            && (p.sight == Missing ==> s.lock.None? || s.lock.value.session != p.session))
  }

  /** The lock names the newest session, and says Stopping only for one marked so. */
  predicate LockNewest(s: State) {
    s.lock.Some? ==>
      var l := s.lock.value;
      Newest(s, l.session) && (l.phase == Stopping ==> l.session in s.stopped)
  }

  predicate StoppedOk(s: State, t: nat) { t in s.stopped ==> t < s.next && s.lock != Some(Lock(t, Running)) }

  /** With atomic updates the lock always names the newest session, and a stopped session never runs again. */
  ghost predicate LockInv(s: State) {
    && LockNewest(s)
    && (forall t: nat :: StoppedOk(s, t))
    && (forall j | 0 <= j < |s.procs| :: !s.procs[j].Updater?)
  }

  ghost predicate WorkerInv(s: State) {
    forall j | 0 <= j < |s.procs| :: JustifiedWorker(s, s.procs[j])
  }

  predicate SealOk(s: State) { s.sealed ==> s.next > 0 && Covers(s.marker, s.next - 1) }

  /** A stop about to write phase or marker while the seal holds is the newest session's. */
  predicate StopperOk(s: State, p: Proc) {
    p.Stopper? && p.spc in {SPhase, SMarker} && s.sealed ==> Newest(s, p.stopping)
  }

  /** The newest session's marker stays until the next write_lock, since only its own stop can rewrite it. */
  ghost predicate SealInv(s: State) {
    SealOk(s) && forall j | 0 <= j < |s.procs| :: StopperOk(s, s.procs[j])
  }

  ghost predicate AtomicInv(s: State) { MarkerInv(s) && LockInv(s) && WorkerInv(s) && SealInv(s) }

  lemma StoppedKept(s: State, i: nat, a: Action, t: nat)
    requires Enabled(false, s, i, a) && !s.procs[i].Updater? && LockNewest(s) && StoppedOk(s, t)
    ensures StoppedOk(Apply(false, s, i, a), t)
    ensures LockNewest(Apply(false, s, i, a))
  {
  }

  lemma NoUpdaterAppears(s: State, i: nat, a: Action, j: nat)
    requires Enabled(false, s, i, a) && j < |s.procs| && !s.procs[i].Updater? && !s.procs[j].Updater?
    ensures !Apply(false, s, i, a).procs[j].Updater?
  {
  }

  lemma LockInvKept(s: State, i: nat, a: Action)
    requires AtomicInv(s) && Enabled(false, s, i, a)
    ensures LockInv(Apply(false, s, i, a))
  {
    forall t: nat ensures StoppedOk(Apply(false, s, i, a), t) && LockNewest(Apply(false, s, i, a)) {
      assert StoppedOk(s, t);
      StoppedKept(s, i, a, t);
    }
    forall j | 0 <= j < |s.procs| ensures !Apply(false, s, i, a).procs[j].Updater? {
      NoUpdaterAppears(s, i, a, j);
    }
    assert LockNewest(Apply(false, s, i, a)) by {
      assert StoppedOk(s, 0);
      StoppedKept(s, i, a, 0);
    }
  }

  lemma JustifiedActor(s: State, i: nat, a: Action)
    requires Enabled(false, s, i, a) && JustifiedWorker(s, s.procs[i]) && !s.procs[i].Updater?
    requires s.lock.Some? ==> StoppedOk(s, s.lock.value.session)
    ensures JustifiedWorker(Apply(false, s, i, a), Apply(false, s, i, a).procs[i])
  {
  }

  /** Only a stop in the critical section marks a session stopping; others delete the lock or publish a session. */
  lemma StoppedGrows(s: State, i: nat, a: Action)
    requires Enabled(false, s, i, a) && !s.procs[i].Updater?
    ensures s.next <= Apply(false, s, i, a).next
    ensures !Critical(s.procs[i]) ==>
      && Apply(false, s, i, a).stopped == s.stopped
      && (var lock := Apply(false, s, i, a).lock; lock == s.lock || lock == None || lock.value.session == s.next)
    ensures forall j | 0 <= j < |s.procs| && j != i :: Apply(false, s, i, a).procs[j] == s.procs[j]
  {
  }

  lemma WorkerInvKept(s: State, i: nat, a: Action)
    requires AtomicInv(s) && Enabled(false, s, i, a)
    ensures WorkerInv(Apply(false, s, i, a))
  {
    forall j | 0 <= j < |s.procs| ensures JustifiedWorker(Apply(false, s, i, a), Apply(false, s, i, a).procs[j]) {
      assert JustifiedWorker(s, s.procs[j]) && HolderOk(s, j) && HolderOk(s, i);
      if j == i {
        assert s.lock.Some? ==> StoppedOk(s, s.lock.value.session);
        JustifiedActor(s, i, a);
      } else {
        StoppedGrows(s, i, a);
        assert Acting(s.procs[j]) ==> Critical(s.procs[j]);
      }
    }
  }

  lemma SealKept(s: State, i: nat, a: Action)
    requires Enabled(false, s, i, a) && !s.procs[i].Updater? && SealOk(s) && StopperOk(s, s.procs[i])
    ensures SealOk(Apply(false, s, i, a))
  {
  }

  lemma StopperKept(s: State, i: nat, a: Action, j: nat)
    requires Enabled(false, s, i, a) && j < |s.procs| && HolderOk(s, i) && HolderOk(s, j) && LockNewest(s)
    requires StopperOk(s, s.procs[i]) && StopperOk(s, s.procs[j])
    ensures StopperOk(Apply(false, s, i, a), Apply(false, s, i, a).procs[j])
  {
  }

  lemma SealInvKept(s: State, i: nat, a: Action)
    requires AtomicInv(s) && Enabled(false, s, i, a)
    ensures SealInv(Apply(false, s, i, a))
  {
    SealKept(s, i, a);
    forall j | 0 <= j < |s.procs| ensures StopperOk(Apply(false, s, i, a), Apply(false, s, i, a).procs[j]) {
      StopperKept(s, i, a, j);
    }
  }

  lemma AtomicInvKept(s: State, i: nat, a: Action)
    requires AtomicInv(s) && Enabled(false, s, i, a)
    ensures AtomicInv(Apply(false, s, i, a))
  {
    MarkerInvKept(false, s, i, a);
    LockInvKept(s, i, a);
    WorkerInvKept(s, i, a);
    SealInvKept(s, i, a);
  }

  // ---------------------------------------------------------------- theorems over every run

  lemma InitialInv(s: State)
    requires Initial(s)
    ensures AtomicInv(s)
  {
  }

  lemma {:induction false} RunKeepsMarkerInv(split: bool, s: State, moves: seq<Move>)
    requires MarkerInv(s) && IsRun(split, s, moves)
    ensures MarkerInv(Final(split, s, moves))
    decreases |moves|
  {
    if moves != [] {
      MarkerInvKept(split, s, moves[0].who, moves[0].action);
      RunKeepsMarkerInv(split, Apply(split, s, moves[0].who, moves[0].action), moves[1..]);
    }
  }

  lemma {:induction false} RunKeepsAtomicInv(s: State, moves: seq<Move>)
    requires AtomicInv(s) && IsRun(false, s, moves)
    ensures AtomicInv(Final(false, s, moves))
    decreases |moves|
  {
    if moves != [] {
      AtomicInvKept(s, moves[0].who, moves[0].action);
      RunKeepsAtomicInv(Apply(false, s, moves[0].who, moves[0].action), moves[1..]);
    }
  }

  /**
   * The marker alone: even when lock updates race, no worker is ever about to write the latch or
   * apply the killswitch for a session the marker covers.
   */
  lemma MarkerAloneForbidsActing(split: bool, s0: State, moves: seq<Move>, i: nat)
    requires Initial(s0) && IsRun(split, s0, moves)
    requires var s := Final(split, s0, moves); i < |s.procs| && Acting(s.procs[i])
    ensures var s := Final(split, s0, moves); !Covers(s.marker, s.procs[i].session)
  {
    InitialInv(s0);
    RunKeepsMarkerInv(split, s0, moves);
  }

  /** Intent on file for `t`: its lock says Stopping, or the marker covers it. */
  predicate IntentStands(s: State, t: nat) { s.lock == Some(Lock(t, Stopping)) || Covers(s.marker, t) }

  /**
   * Intent is never overridden. In every reachable state with atomic lock updates, crashes included:
   * while intent stands for a session, from its first write on, a worker about to act for it is one
   * that may act without a lock and whose strict read of the lock failed; once intent no longer
   * stands, a worker for a session that was ever marked stopping still needs no lock and saw none. A
   * worker that needs the lock never acts again. For a newest session whose marker was written no
   * worker acts at all until the next write_lock.
   */
  lemma IntentIsNeverOverridden(s0: State, moves: seq<Move>, i: nat)
    requires Initial(s0) && IsRun(false, s0, moves)
    requires var s := Final(false, s0, moves); i < |s.procs| && Acting(s.procs[i])
    ensures var s := Final(false, s0, moves);
            var w := s.procs[i];
            && !Covers(s.marker, w.session)
            && (IntentStands(s, w.session) ==> w.require && w.sight == Failed)
            && (s.lock == Some(Lock(w.session, Stopping)) ==> w.require && w.sight == Failed)
            && (w.session in s.stopped ==> w.require && w.sight in {Missing, Failed})
            && !(s.sealed && Newest(s, w.session))
  {
    InitialInv(s0);
    RunKeepsAtomicInv(s0, moves);
    var s := Final(false, s0, moves);
    assert JustifiedWorker(s, s.procs[i]) && UncoveredOk(s, s.procs[i]);
  }

  /**
   * What ends the window in which intent stands: publishing or deleting the lock while the marker
   * does not cover the session, and removing or replacing the marker while the lock does not say
   * Stopping. Nothing else does, and each of these does.
   */
  lemma IntentEndsExactly(s: State, i: nat, a: Action, t: nat)
    requires Enabled(false, s, i, a) && !s.procs[i].Updater? && IntentStands(s, t)
    ensures var lockStands := s.lock == Some(Lock(t, Stopping));
      !IntentStands(Apply(false, s, i, a), t) <==>
        || ((a.DeleteLock? || a.WriteLock?) && !Covers(s.marker, t))
        || (a.Unlink? && !lockStands)
        || (a.WriteMarker? && s.procs[i].Stopper? && s.procs[i].stopping != t && !lockStands)
  {
  }

  /**
   * A finished destroy_rules is never undone by the session it ended: a step that puts rules back is
   * a start's, or a kill by a worker whose session no marker covers and which, if that session was
   * stopped, may act without a lock and saw none, by a failed read if the lock still says Stopping.
   */
  lemma WhoCanUndo(s0: State, moves: seq<Move>, i: nat, a: Action)
    requires Initial(s0) && IsRun(false, s0, moves)
    requires Enabled(false, Final(false, s0, moves), i, a)
    requires var s := Final(false, s0, moves); s.table == NoTable && Apply(false, s, i, a).table != NoTable
    ensures var s := Final(false, s0, moves);
            var p := s.procs[i];
            p.Starter? ||
            (&& p.Worker?
             && !Covers(s.marker, p.session)
             && (IntentStands(s, p.session) ==> p.require && p.sight == Failed)
             && (p.session in s.stopped ==> p.require && p.sight in {Missing, Failed})
             && !(s.sealed && Newest(s, p.session)))
  {
    var s := Final(false, s0, moves);
    if s.procs[i].Worker? {
      IntentIsNeverOverridden(s0, moves, i);
    }
  }

  // ---------------------------------------------------------------- what the conditions exclude

  lemma {:induction false} FinalConcat(split: bool, s: State, a: seq<Move>, b: seq<Move>)
    requires IsRun(split, s, a) && IsRun(split, Final(split, s, a), b)
    ensures IsRun(split, s, a + b) && Final(split, s, a + b) == Final(split, Final(split, s, a), b)
    decreases |a|
  {
    if a == [] {
      assert a + b == b;
    } else {
      assert (a + b)[1..] == a[1..] + b;
      FinalConcat(split, Apply(split, s, a[0].who, a[0].action), a[1..], b);
    }
  }

  lemma OneMove(split: bool, s: State, i: nat, a: Action)
    requires Enabled(split, s, i, a)
    ensures IsRun(split, s, [Move(i, a)]) && Final(split, s, [Move(i, a)]) == Apply(split, s, i, a)
  {
    assert [Move(i, a)][1..] == [];
  }

  /** One more move at the end of a run. */
  lemma Extend(split: bool, s0: State, moves: seq<Move>, i: nat, a: Action) returns (longer: seq<Move>)
    requires IsRun(split, s0, moves) && Enabled(split, Final(split, s0, moves), i, a)
    ensures IsRun(split, s0, longer)
    ensures Final(split, s0, longer) == Apply(split, Final(split, s0, moves), i, a)
  {
    OneMove(split, Final(split, s0, moves), i, a);
    FinalConcat(split, s0, moves, [Move(i, a)]);
    longer := moves + [Move(i, a)];
  }

  /** Process `i` publishes the next session. */
  lemma RunStart(split: bool, s0: State, moves: seq<Move>, i: nat) returns (longer: seq<Move>)
    requires IsRun(split, s0, moves)
    requires var s := Final(split, s0, moves); i < |s.procs| && s.procs[i] == Idle && s.holder != Some(i)
    ensures IsRun(split, s0, longer)
    ensures var s := Final(split, s0, moves);
      Final(split, s0, longer) == s.(lock := Some(Lock(s.next, Running)), marker := NoMarker, table := SessionRules,
                                     next := s.next + 1, sealed := false)
  {
    longer := Extend(split, s0, moves, i, Spawn(Starter(TRules)));
    longer := Extend(split, s0, longer, i, ApplyRules(true));
    longer := Extend(split, s0, longer, i, WriteLock);
    longer := Extend(split, s0, longer, i, Unlink);
    assert Final(split, s0, longer).procs == Final(split, s0, moves).procs;
  }

  /** Process `i` stops the session the lock names, completely. */
  lemma RunStop(split: bool, s0: State, moves: seq<Move>, i: nat) returns (longer: seq<Move>)
    requires IsRun(split, s0, moves)
    requires var s := Final(split, s0, moves);
      i < |s.procs| && s.procs[i] == Idle && s.holder == None && s.lock.Some? && Newest(s, s.lock.value.session)
    ensures IsRun(split, s0, longer)
    ensures var s := Final(split, s0, moves);
      var t := s.lock.value.session;
      Final(split, s0, longer) ==
        s.(lock := None, marker := Only(t), table := NoTable, stopped := s.stopped + {t}, sealed := true)
  {
    var t := Final(split, s0, moves).lock.value.session;
    longer := Extend(split, s0, moves, i, Spawn(Stopper(t, SWait)));
    longer := Extend(split, s0, longer, i, Acquire);
    longer := Extend(split, s0, longer, i, CheckLock);
    if split {
      longer := Extend(split, s0, longer, i, ReadForPhase);
    }
    longer := Extend(split, s0, longer, i, WritePhase);
    longer := Extend(split, s0, longer, i, WriteMarker);
    longer := RunTeardown(split, s0, longer, i);
    assert Final(split, s0, longer).procs == Final(split, s0, moves).procs;
  }

  /** The teardown after both intent writes. */
  lemma RunTeardown(split: bool, s0: State, moves: seq<Move>, i: nat) returns (longer: seq<Move>)
    requires IsRun(split, s0, moves)
    requires var s := Final(split, s0, moves);
      i < |s.procs| && s.procs[i].Stopper? && s.procs[i].spc == SDestroy && s.holder == None
    ensures IsRun(split, s0, longer)
    ensures var s := Final(split, s0, moves);
      Final(split, s0, longer) == s.(lock := None, table := NoTable, procs := s.procs[i := Idle])
  {
    longer := Extend(split, s0, moves, i, Destroy(true));
    longer := Extend(split, s0, longer, i, DeleteLock);
  }

  /** May a worker that reads the lock, or fails to (`ok` false), proceed in a state whose marker it passed? */
  predicate Passes(s: State, t: nat, require: bool, ok: bool) {
    && !Covers(s.marker, t)
    && (if ok then s.lock == Some(Lock(t, Running)) || (require && s.lock == None) else require)
  }

  /** The way of one worker from its start to its decision. */
  function Attempt(i: nat, t: nat, require: bool, repair: bool, ok: bool): seq<Move> {
    [Move(i, Spawn(Worker(t, require, repair, WWait, Unseen))), Move(i, Acquire)] +
    [Move(i, ReadMarker(true)), Move(i, ReadLock(ok))]
  }

  lemma TwoMoves(split: bool, s: State, i: nat, a: Action, b: Action)
    requires Enabled(split, s, i, a) && Enabled(split, Apply(split, s, i, a), i, b)
    ensures IsRun(split, s, [Move(i, a), Move(i, b)])
    ensures Final(split, s, [Move(i, a), Move(i, b)]) == Apply(split, Apply(split, s, i, a), i, b)
  {
    OneMove(split, Apply(split, s, i, a), i, b);
    assert [Move(i, a), Move(i, b)][1..] == [Move(i, b)];
  }

  /** Worker `i` of session `t` takes the transition lock and decides to act. */
  lemma RunAttempt(split: bool, s: State, i: nat, t: nat, require: bool, repair: bool, ok: bool)
    requires i < |s.procs| && s.procs[i] == Idle && s.holder == None && t < s.next && Passes(s, t, require, ok)
    ensures IsRun(split, s, Attempt(i, t, require, repair, ok))
    ensures var sight := if !ok then Failed else if s.lock.None? then Missing else Own;
      Final(split, s, Attempt(i, t, require, repair, ok)) ==
        s.(holder := Some(i), procs := s.procs[i := Worker(t, require, repair, WLatch, sight)])
  {
    var p := Worker(t, require, repair, WWait, Unseen);
    TwoMoves(split, s, i, Spawn(p), Acquire);
    var held := s.(holder := Some(i), procs := s.procs[i := p.(wpc := WMarker)]);
    assert Final(split, s, [Move(i, Spawn(p)), Move(i, Acquire)]) == held;
    TwoMoves(split, held, i, ReadMarker(true), ReadLock(ok));
    FinalConcat(split, s, [Move(i, Spawn(p)), Move(i, Acquire)], [Move(i, ReadMarker(true)), Move(i, ReadLock(ok))]);
  }

  lemma RunWorker(split: bool, s0: State, moves: seq<Move>, i: nat, t: nat, require: bool, ok: bool)
    returns (longer: seq<Move>)
    requires IsRun(split, s0, moves)
    requires var s := Final(split, s0, moves);
      i < |s.procs| && s.procs[i] == Idle && s.holder == None && t < s.next && Passes(s, t, require, ok)
    ensures IsRun(split, s0, longer)
    ensures var s := Final(split, s0, moves);
      var sight := if !ok then Failed else if s.lock.None? then Missing else Own;
      Final(split, s0, longer) == s.(holder := Some(i), procs := s.procs[i := Worker(t, require, true, WLatch, sight)])
  {
    RunAttempt(split, Final(split, s0, moves), i, t, require, true, ok);
    FinalConcat(split, s0, moves, Attempt(i, t, require, true, ok));
    longer := moves + Attempt(i, t, require, true, ok);
  }

  // ---------------------------------------------------------------- when a worker can come to act

  /** The moves of one worker process, from its start on; `sound` when its reads of the lock succeed. */
  predicate OwnMoves(moves: seq<Move>, i: nat, t: nat, require: bool, sound: bool) {
    && moves != []
    && moves[0].who == i && moves[0].action.Spawn?
    && (var p := moves[0].action.p; p.Worker? && p.session == t && p.require == require)
    && LaterMoves(moves[1..], i, sound)
  }

  predicate LaterMoves(moves: seq<Move>, i: nat, sound: bool) {
    forall m | m in moves :: m.who == i && !m.action.Spawn? && (sound ==> m.action != ReadLock(false))
  }

  ghost predicate CanComeToAct(split: bool, s: State, i: nat, t: nat, require: bool, sound: bool) {
    exists moves ::
      && IsRun(split, s, moves) && OwnMoves(moves, i, t, require, sound)
      && i < |Final(split, s, moves).procs| && Acting(Final(split, s, moves).procs[i])
  }

  /** What a worker that starts under this marker and lock can be, however far it gets on its own. */
  predicate Attempting(
    s: State, marker: Marker<nat>, lock: Option<Lock<nat>>, i: nat, t: nat, require: bool, sound: bool)
  {
    && i < |s.procs| && s.marker == marker && s.lock == lock
    && var p := s.procs[i];
       p == Idle ||
       (&& p.Worker? && p.session == t && p.require == require
        && (p.wpc !in {WWait, WMarker} ==> !Covers(marker, t))
        && (Acting(p) ==> Passes(s, t, require, true) || (!sound && Passes(s, t, require, false))))
  }

  lemma AttemptingKept(
    split: bool, s: State, marker: Marker<nat>, lock: Option<Lock<nat>>, i: nat, t: nat, require: bool, sound: bool,
    a: Action)
    requires Attempting(s, marker, lock, i, t, require, sound) && Enabled(split, s, i, a)
    requires !a.Spawn? && (sound ==> a != ReadLock(false))
    ensures Attempting(Apply(split, s, i, a), marker, lock, i, t, require, sound)
  {
  }

  lemma {:induction false} AttemptingStays(
    split: bool, s: State, marker: Marker<nat>, lock: Option<Lock<nat>>, moves: seq<Move>,
    i: nat, t: nat, require: bool, sound: bool)
    requires Attempting(s, marker, lock, i, t, require, sound) && IsRun(split, s, moves) && LaterMoves(moves, i, sound)
    ensures Attempting(Final(split, s, moves), marker, lock, i, t, require, sound)
    decreases |moves|
  {
    if moves != [] {
      assert moves[0] in moves;
      AttemptingKept(split, s, marker, lock, i, t, require, sound, moves[0].action);
      AttemptingStays(split, Apply(split, s, i, moves[0].action), marker, lock, moves[1..], i, t, require, sound);
    }
  }

  /**
   * From any state with a free transition lock, atomic updates or not, a worker of `t` can come to
   * act exactly when the marker does not cover `t` and the lock lets it: its own running session's,
   * or, for one that may act without a lock, an absent lock or a failed read.
   */
  lemma CanComeToActExactly(split: bool, s: State, i: nat, t: nat, require: bool)
    requires i < |s.procs| && s.procs[i] == Idle && s.holder == None && t < s.next
    ensures CanComeToAct(split, s, i, t, require, true) <==> Passes(s, t, require, true)
    ensures CanComeToAct(split, s, i, t, require, false) <==>
      !Covers(s.marker, t) && (require || s.lock == Some(Lock(t, Running)))
  {
    forall sound: bool, moves: seq<Move> | IsRun(split, s, moves) && OwnMoves(moves, i, t, require, sound)
      && i < |Final(split, s, moves).procs| && Acting(Final(split, s, moves).procs[i])
      ensures Passes(s, t, require, true) || (!sound && Passes(s, t, require, false))
    {
      AttemptingStays(split, Apply(split, s, i, moves[0].action), s.marker, s.lock, moves[1..], i, t, require, sound);
    }
    forall ok | Passes(s, t, require, ok) ensures CanComeToAct(split, s, i, t, require, ok) {
      CanAct(split, s, i, t, require, ok, ok);
    }
    if Passes(s, t, require, true) {
      CanAct(split, s, i, t, require, true, false);
    }
  }

  lemma CanAct(split: bool, s: State, i: nat, t: nat, require: bool, ok: bool, sound: bool)
    requires i < |s.procs| && s.procs[i] == Idle && s.holder == None && t < s.next
    requires Passes(s, t, require, ok) && (sound ==> ok)
    ensures CanComeToAct(split, s, i, t, require, sound)
  {
    RunAttempt(split, s, i, t, require, true, ok);
    var moves := Attempt(i, t, require, true, ok);
    assert OwnMoves(moves, i, t, require, sound) by {
      assert moves[1..] == [Move(i, Acquire), Move(i, ReadMarker(true)), Move(i, ReadLock(ok))];
    }
  }

  /**
   * For a stopped session, in every reachable state with a free transition lock: a worker that needs
   * the lock can never come to act again; one that may act without a lock can exactly when the
   * marker does not cover the session, and with working reads exactly when moreover no lock is there.
   */
  lemma StopIsOverriddenExactly(s0: State, moves: seq<Move>, i: nat, t: nat)
    requires Initial(s0) && IsRun(false, s0, moves)
    requires var s := Final(false, s0, moves); i < |s.procs| && s.procs[i] == Idle && s.holder == None && t in s.stopped
    ensures var s := Final(false, s0, moves);
      && !CanComeToAct(false, s, i, t, false, false)
      && (CanComeToAct(false, s, i, t, true, false) <==> !Covers(s.marker, t))
      && (CanComeToAct(false, s, i, t, true, true) <==> !Covers(s.marker, t) && s.lock == None)
  {
    InitialInv(s0);
    RunKeepsAtomicInv(s0, moves);
    var s := Final(false, s0, moves);
    assert StoppedOk(s, t);
    CanComeToActExactly(false, s, i, t, false);
    CanComeToActExactly(false, s, i, t, true);
  }

  // ---------------------------------------------------------------- concrete runs

  function Begin(): State { State(None, NoMarker, None, NoTable, 0, [Idle, Idle], {}, false) }

  /**
   * The exception is real: a worker that may act without a lock, of an older stopped session, can
   * still act after a later session was stopped, because that stop replaced the marker.
   */
  lemma OlderWorkerCanActAfterLaterStop() returns (moves: seq<Move>)
    ensures IsRun(false, Begin(), moves)
    ensures Final(false, Begin(), moves) ==
      State(None, Only(1), Some(1), NoTable, 2, [Idle, Worker(0, true, true, WLatch, Missing)], {0, 1}, true)
  {
    moves := RunStart(false, Begin(), [], 0);
    moves := RunStop(false, Begin(), moves, 0);
    moves := RunStart(false, Begin(), moves, 0);
    moves := RunStop(false, Begin(), moves, 0);
    moves := RunWorker(false, Begin(), moves, 1, 0, true, true);
  }

  /**
   * Atomic updates matter: when update_lock_keys reads before a stop and writes after the next
   * start, the stopped session's lock returns, and even a worker that needs the lock acts for it.
   */
  lemma SplitUpdateResurrectsSession() returns (moves: seq<Move>)
    ensures IsRun(true, Begin(), moves)
    ensures Final(true, Begin(), moves) ==
      State(Some(Lock(0, Running)), NoMarker, Some(1), SessionRules, 2,
            [Idle, Worker(0, false, true, WLatch, Own)], {0}, false)
  {
    moves := RunStart(true, Begin(), [], 0);
    moves := Extend(true, Begin(), moves, 1, Spawn(Updater(Lock(0, Running))));
    moves := RunStop(true, Begin(), moves, 0);
    moves := RunStart(true, Begin(), moves, 0);
    moves := Extend(true, Begin(), moves, 1, WriteBack);
    moves := RunWorker(true, Begin(), moves, 1, 0, false, true);
  }

  /**
   * write_lock's two file operations matter too: a stop that completes between them loses its
   * marker to the unlink, and a worker that may act without a lock then acts for it.
   */
  lemma UnlinkErasesConcurrentStop() returns (moves: seq<Move>)
    ensures IsRun(false, Begin(), moves)
    ensures Final(false, Begin(), moves) ==
      State(None, NoMarker, Some(1), NoTable, 1, [Idle, Worker(0, true, true, WLatch, Missing)], {0}, false)
  {
    moves := Extend(false, Begin(), [], 0, Spawn(Starter(TRules)));
    moves := Extend(false, Begin(), moves, 0, ApplyRules(true));
    moves := Extend(false, Begin(), moves, 0, WriteLock);
    moves := RunStop(false, Begin(), moves, 1);
    moves := Extend(false, Begin(), moves, 0, Unlink);
    moves := RunWorker(false, Begin(), moves, 1, 0, true, true);
  }

  /**
   * A stop that crashes after its first intent write leaves only the lock to say so. A worker that
   * may act without a lock then acts exactly when it fails to read it, as here.
   */
  lemma FailedReadOverridesCrashedStop() returns (moves: seq<Move>)
    ensures IsRun(false, Begin(), moves)
    ensures Final(false, Begin(), moves) ==
      State(Some(Lock(0, Stopping)), NoMarker, Some(1), SessionRules, 1,
            [Idle, Worker(0, true, true, WLatch, Failed)], {0}, false)
  {
    moves := RunStart(false, Begin(), [], 0);
    moves := RunCrashedStop(Begin(), moves, 0);
    moves := RunWorker(false, Begin(), moves, 1, 0, true, false);
  }

  /** Process `i` restores the network whatever is recorded: no worker of any session acts until the next unlink. */
  lemma RunRestore(split: bool, s0: State, moves: seq<Move>, i: nat) returns (longer: seq<Move>)
    requires IsRun(split, s0, moves)
    requires var s := Final(split, s0, moves); i < |s.procs| && s.procs[i] == Idle && s.holder == None
    ensures IsRun(split, s0, longer)
    ensures var s := Final(split, s0, moves);
      && Final(split, s0, longer) == s.(lock := None, marker := Everything, table := NoTable, sealed := s.next > 0)
      && forall t, require, ok :: !Passes(Final(split, s0, longer), t, require, ok)
  {
    longer := Extend(split, s0, moves, i, Spawn(Restorer(RWait)));
    longer := Extend(split, s0, longer, i, Acquire);
    longer := Extend(split, s0, longer, i, WriteMarker);
    longer := Extend(split, s0, longer, i, Destroy(true));
    longer := Extend(split, s0, longer, i, DeleteLock);
    assert Final(split, s0, longer).procs == Final(split, s0, moves).procs;
  }

  /** Process `i` stops the session the lock names and crashes between its two intent writes. */
  lemma RunCrashedStop(s0: State, moves: seq<Move>, i: nat) returns (longer: seq<Move>)
    requires IsRun(false, s0, moves)
    requires var s := Final(false, s0, moves); i < |s.procs| && s.procs[i] == Idle && s.holder == None && s.lock.Some?
    ensures IsRun(false, s0, longer)
    ensures var s := Final(false, s0, moves);
      var t := s.lock.value.session;
      Final(false, s0, longer) == s.(lock := Some(Lock(t, Stopping)), stopped := s.stopped + {t})
  {
    var t := Final(false, s0, moves).lock.value.session;
    longer := Extend(false, s0, moves, i, Spawn(Stopper(t, SWait)));
    longer := Extend(false, s0, longer, i, Acquire);
    longer := Extend(false, s0, longer, i, CheckLock);
    longer := Extend(false, s0, longer, i, WritePhase);
    longer := Extend(false, s0, longer, i, Crash);
    assert Final(false, s0, longer).procs == Final(false, s0, moves).procs;
  }
}
