// Explicit termination intent as ttp/state.py stores it, and the test every emergency worker makes.
module Intent {

  datatype Phase = Running | Stopping

  datatype Lock<S> = Lock(session: S, phase: Phase)

  /** A strict read of the session lock. */
  datatype LockView<S> = Absent | Unreadable | Present(lock: Lock<S>)

  /** The stop marker: none, the restore-all marker "*", or one session's. */
  datatype Marker<S> = NoMarker | Everything | Only(session: S)

  datatype MarkerView<S> = BadMarker | Readable(marker: Marker<S>)

  predicate Covers<S(==)>(m: Marker<S>, s: S) { m == Everything || m == Only(s) }

  datatype Choice = Proceed | Refuse | Fail

  /** What request_emergency does for session `s` once it holds the transition lock. */
  function Choose<S(==)>(marker: MarkerView<S>, lock: LockView<S>, s: S, requireDespiteMissingLock: bool): Choice {
    if marker.BadMarker? then Fail
    else if Covers(marker.marker, s) then Refuse
    else
      match lock
      case Unreadable => if requireDespiteMissingLock then Proceed else Fail
      case Absent => if requireDespiteMissingLock then Proceed else Refuse
      case Present(l) => if l.session != s || l.phase == Stopping then Refuse else Proceed
  }

  /** When a worker goes on, when it leaves quietly, and when it cannot tell. */
  lemma ChooseExactly<S>(marker: MarkerView<S>, lock: LockView<S>, s: S, require: bool)
    ensures Choose(marker, lock, s, require) == Proceed <==>
      && marker.Readable? && marker.marker != Everything && marker.marker != Only(s)
      && (lock == Present(Lock(s, Running)) || (require && !lock.Present?))
    ensures Choose(marker, lock, s, require) == Fail <==>
      || marker == BadMarker
      || (marker.marker != Everything && marker.marker != Only(s) && lock == Unreadable && !require)
    ensures Choose(marker, lock, s, require) == Refuse <==>
      && marker.Readable?
      && (|| marker.marker == Everything
          || marker.marker == Only(s)
          || (lock == Absent && !require)
          || (lock.Present? && lock != Present(Lock(s, Running))))
  {
  }

  /** What the kernel holds under `inet ttp`, as far as intent and containment are concerned. */
  datatype TableState = NoTable | SessionRules | EmergencyRules
}
