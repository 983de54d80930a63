// ttp/session_safety.py: one emergency request from latch to published evidence, and mark_stopping.
module SessionSafety {
  import opened Wrappers
  import opened Evidence
  import opened Causes
  import opened Intent
  import V = Verification
  import K = Kernel
  import Nft
  import Packets

  // ---------------------------------------------------------------- stored evidence

  datatype CauseList = Malformed | Items(items: seq<Item>)

  /** The data of an emergency record. Its existence is the latch. */
  datatype Record = Record(applied: Option<bool>, verified: bool, causes: CauseList)

  /** The codes of every cause the program requests containment for. */
  predicate CauseCode(code: ExitCode) { code in {ERROR, WATCHDOG_UNAVAILABLE, TOR_NEGATIVE} }

  ghost predicate HonestRecord(r: Record) {
    r.causes.Items? ==> forall x | x in r.causes.items && x.decoded.Some? :: CauseCode(x.decoded.value.code)
  }

  function Failure(reason: Reason): Diagnostic { Diagnostic(CONTAINMENT_UNCONFIRMED, reason, true) }

  /** What reading the previous record contributes: its causes, and whether it was usable. */
  function NewCauses(previous: Option<Record>, cause: Diagnostic): seq<Item> {
    if previous.Some? && previous.value.causes.Items? then Upsert(previous.value.causes.items, AsDict(cause))
    else [AsDict(cause)]
  }

  /** Request after request, with readable evidence, the record holds the fold of all requested causes. */
  lemma RequestExtendsStored(requests: seq<Item>, cause: Diagnostic, applied: Option<bool>, verified: bool)
    ensures var previous := if requests == [] then None else Some(Record(applied, verified, Items(Stored(requests))));
      NewCauses(previous, cause) == Stored(requests + [AsDict(cause)])
  {
    var all := requests + [AsDict(cause)];
    assert all[..|all| - 1] == requests;
    if requests == [] {
      assert Without([], Some(cause.reason)) == [];
    }
  }

  predicate Usable(previous: Option<Record>, cause: Diagnostic) {
    previous.Some? ==>
      && previous.value.causes.Items?
      && forall x | x in previous.value.causes.items && x.reason != Some(cause.reason) :: x.decoded.Some?
  }

  function Decoded(items: seq<Item>): Result
    requires forall x | x in items :: x.decoded.Some?
  {
    seq(|items|, i requires 0 <= i < |items| => items[i].decoded.value)
  }

  /** The session's settings snapshot: absent, valid, or refused by Settings.from_snapshot. */
  datatype Policy = NoSettings | Valid | Invalid

  /** How applying the killswitch ended: a timeout may hide a commit. */
  datatype Application = Applied | Failed(committed: bool)

  function AfterApplication(t: TableState, a: Application): TableState {
    if a.Applied? || a.committed then EmergencyRules else t
  }

  /**
   * Everything outside the program during one request: whether the transition lock is obtained, the
   * previous record can be read and the two record writes succeed, how applying the killswitch ends,
   * what the kernel inspections before and after it get from nft, and the delivery diagnostics.
   */
  datatype Faults = Faults(
    acquired: bool, readable: bool, latchWritten: bool, firstReply: V.Reply, apply: Application,
    lastReply: V.Reply, evidenceWritten: bool, notices: Result)

  /** A repair keeps a table that already satisfies the contract. */
  ghost predicate Kept(repair: bool, f: Faults) { repair && V.Conforms(f.firstReply) }

  /** The reply the request relies on: the last one it gets. */
  ghost function LastReply(repair: bool, f: Faults): V.Reply { if Kept(repair, f) then f.firstReply else f.lastReply }

  ghost predicate Inspected(repair: bool, f: Faults) { V.Conforms(LastReply(repair, f)) }

  /** What "emergency verified" means: the listing read last describes a table that only loopback gets through. */
  lemma InspectedIsolates(repair: bool, f: Faults, interpret: V.Json -> Nft.Rule, e: Packets.Env)
    requires Inspected(repair, f) && V.ReadsLoopback(interpret)
    ensures K.Isolates(V.Described(V.ListingOf(LastReply(repair, f)), interpret), e)
  {
    V.ConformingIsolates(LastReply(repair, f), interpret, e);
  }

  /** The record a request latches: its cause folded in, nothing verified, and nothing applied unless it repairs. */
  function LatchRecord(previous: Option<Record>, cause: Diagnostic, repair: bool): Record {
    Record(if !repair then Some(false) else if previous.Some? then previous.value.applied else None,
           false, Items(NewCauses(previous, cause)))
  }

  /** The record it ends with: whether it applied the killswitch, and whether the last reply conformed. */
  ghost function EvidenceRecord(latched: Record, repair: bool, f: Faults): Record {
    Record(if Kept(repair, f) then latched.applied else Some(f.apply.Applied?), Inspected(repair, f), latched.causes)
  }

  /**
   * The record a request that proceeds leaves of its session, field by field: what it applied and saw
   * when the evidence was written, the bare latch when only that was, and the old record otherwise.
   */
  ghost predicate Leaves(before: Option<Record>, after: Option<Record>, cause: Diagnostic, repair: bool, f: Faults) {
    var previous := if f.readable then before else None;
    var known := if previous.Some? then previous.value.applied else None;
    var causes :=
      if previous.Some? && previous.value.causes.Items? then Upsert(previous.value.causes.items, AsDict(cause))
      else [AsDict(cause)];
    if f.evidenceWritten then
      && after.Some? && after.value.causes == Items(causes)
      && after.value.applied == (if repair && V.Conforms(f.firstReply) then known else Some(f.apply.Applied?))
      && (after.value.verified <==> (repair && V.Conforms(f.firstReply)) || V.Conforms(f.lastReply))
    else if f.latchWritten then
      && after.Some? && after.value.causes == Items(causes)
      && after.value.applied == (if repair then known else Some(false))
      && !after.value.verified
    else after == before
  }

  lemma RecordsLeave(before: Option<Record>, cause: Diagnostic, repair: bool, f: Faults)
    ensures var latched := LatchRecord(if f.readable then before else None, cause, repair);
      Leaves(before,
             if f.evidenceWritten then Some(EvidenceRecord(latched, repair, f))
             else if f.latchWritten then Some(latched) else before,
             cause, repair, f)
  {
  }

  /** The same of every reading of the rules and every host. */
  ghost predicate ShowsIsolation(reply: V.Reply) {
    forall interpret: V.Json -> Nft.Rule, e: Packets.Env | V.ReadsLoopback(interpret) ::
      K.Isolates(V.Described(V.ListingOf(reply), interpret), e)
  }

  lemma InspectedShowsIsolation(repair: bool, f: Faults)
    ensures Inspected(repair, f) ==> ShowsIsolation(LastReply(repair, f))
  {
    if Inspected(repair, f) {
      forall interpret: V.Json -> Nft.Rule, e: Packets.Env | V.ReadsLoopback(interpret)
        ensures K.Isolates(V.Described(V.ListingOf(LastReply(repair, f)), interpret), e)
      {
        InspectedIsolates(repair, f, interpret, e);
      }
    }
  }

  /** What a request does to the outside, in order. */
  datatype Effect =
    | PhaseWritten
    | MarkerWritten
    | LatchTried(stored: bool)
    | KillswitchTried(application: Application)
    | KernelRead(reply: V.Reply)
    | EvidenceTried(published: bool)

  ghost function Effects(repair: bool, f: Faults): seq<Effect> {
    [LatchTried(f.latchWritten)] + EffectsOfSecuring(repair, f)
  }

  ghost function EffectsOfSecuring(repair: bool, f: Faults): seq<Effect> {
    (if repair then [KernelRead(f.firstReply)] else []) +
    (if Kept(repair, f) then [] else [KillswitchTried(f.apply), KernelRead(f.lastReply)]) +
    [EvidenceTried(f.evidenceWritten)]
  }

  /**
   * The latch comes first and the evidence last; the killswitch is tried unless a repair read a
   * conforming table, and is never trusted: the kernel is read right after it, and the last
   * reading is the one the request relies on.
   */
  lemma LatchFirstThenInspect(repair: bool, f: Faults)
    ensures var es := Effects(repair, f);
      && es[0] == LatchTried(f.latchWritten) && es[|es| - 1] == EvidenceTried(f.evidenceWritten)
      && |es| == (if Kept(repair, f) then 3 else if repair then 5 else 4)
      && (repair ==> es[1] == KernelRead(f.firstReply))
      && (forall i | 0 <= i < |es| && es[i].KillswitchTried? :: es[i] == KillswitchTried(f.apply))
      && (forall i | 0 <= i < |es| && es[i].KillswitchTried? :: 0 < i < |es| - 1 && es[i + 1].KernelRead?)
      && |es| >= 3 && es[|es| - 2] == KernelRead(LastReply(repair, f))
      && ((exists i | 0 <= i < |es| :: es[i].KillswitchTried?) <==> !Kept(repair, f))
  {
    var es := Effects(repair, f);
    if !Kept(repair, f) {
      assert es[|es| - 3] == KillswitchTried(f.apply);
    }
  }

  lemma HasSnoc(ds: Result, d: Diagnostic, code: ExitCode)
    ensures Has(ds + [d], code) <==> Has(ds, code) || (d.active && d.code == code)
  {
    assert forall x :: x in ds + [d] <==> x in ds || x == d;
    assert d in ds + [d];
  }

  /** The program's own bookkeeping of a result: session codes only, and whether it holds a 7 or an 8. */
  ghost predicate Ledger(ds: Result, seven: bool, eight: bool) {
    && SessionResult(ds)
    && (Has(ds, EMERGENCY_VERIFIED) <==> seven)
    && (Has(ds, CONTAINMENT_UNCONFIRMED) <==> eight)
  }

  method Add(ds: Result, d: Diagnostic, ghost seven: bool, ghost eight: bool) returns (r: Result)
    requires Ledger(ds, seven, eight) && SessionCode(d.code) && d.active
    ensures r == ds + [d]
    ensures Ledger(r, seven || d.code == EMERGENCY_VERIFIED, eight || d.code == CONTAINMENT_UNCONFIRMED)
  {
    r := ds + [d];
    HasSnoc(ds, d, EMERGENCY_VERIFIED);
    HasSnoc(ds, d, CONTAINMENT_UNCONFIRMED);
  }

  lemma AddCauses(ds: Result, items: seq<Item>, eight: bool)
    requires Ledger(ds, false, eight)
    requires forall x | x in items :: x.decoded.Some? && CauseCode(x.decoded.value.code)
    ensures Ledger(ds + Decoded(items), false, eight)
  {
    var r := ds + Decoded(items);
    assert forall d | d in Decoded(items) :: CauseCode(d.code);
    assert forall d :: d in r <==> d in ds || d in Decoded(items);
  }

  /** The session whose supervisor ended unasked: the lock's, or the expected one when there is no lock to read. */
  function Terminated(lock: LockView<string>, expected: Option<string>, requested: bool): Option<string> {
    match lock
    case Present(l) =>
      if !requested || l.phase == Stopping || (expected.Some? && expected.value != l.session) then None
      else Some(l.session)
    case _ => expected
  }

  predicate LetThrough(
    marker: MarkerView<string>, lock: LockView<string>, expected: Option<string>, requested: bool, f: Faults)
  {
    var session := Terminated(lock, expected, requested);
    session.Some? && session.value != "" && f.acquired &&
    Choose(marker, lock, session.value, expected.Some?) == Proceed
  }

  class Session {
    var lock: LockView<string>
    var marker: MarkerView<string>
    var records: map<string, Record>
    var table: TableState
    ghost var effects: seq<Effect>

    constructor ()
      ensures lock == Absent && marker == Readable(NoMarker) && records == map[] && table == NoTable
    {
      lock, marker, records, table := Absent, Readable(NoMarker), map[], NoTable;
      effects := [];
    }

    ghost predicate Honest()
      reads this
    {
      forall s | s in records :: HonestRecord(records[s])
    }

    /** The record as this request reads it; nothing when it is absent. */
    function Previous(session: string): Option<Record>
      reads this
    {
      if session in records then Some(records[session]) else None
    }

    function EmergencyLatched(session: string): bool
      reads this
    {
      session in records
    }

    /** Under the transition lock: phase first, marker second. Fails when the session changed. */
    method MarkStopping(session: string, acquired: bool) returns (ok: bool)
      modifies this`lock, this`marker, this`effects
      ensures ok <==> acquired && old(lock).Present? && old(lock).lock.session == session
      ensures ok ==> lock == Present(Lock(session, Stopping)) && marker == Readable(Only(session))
      ensures !ok ==> lock == old(lock) && marker == old(marker)
      ensures effects == old(effects) + if ok then [PhaseWritten, MarkerWritten] else []
      ensures ok ==> forall require :: Choose(marker, lock, session, require) == Refuse
    {
      if !acquired || !lock.Present? || lock.lock.session != session {
        return false;
      }
      lock := Present(lock.lock.(phase := Stopping));
      effects := effects + [PhaseWritten];
      marker := Readable(Only(session));
      effects := effects + [MarkerWritten];
      ok := true;
    }

    /** The causes to store and the diagnostics the previous record contributes. */
    method ReadPrevious(session: string, cause: Diagnostic, readable: bool, sofar: Result, ghost eight: bool)
      returns (causes: seq<Item>, previousApplied: Option<bool>, result: Result)
      requires Honest() && CauseCode(cause.code) && Ledger(sofar, false, eight)
      ensures var previous := if readable then Previous(session) else None;
        && causes == NewCauses(previous, cause)
        && previousApplied == (if previous.Some? then previous.value.applied else None)
        && Ledger(result, false, eight || !(readable && Usable(previous, cause)))
      ensures HonestRecord(Record(None, false, Items(causes)))
      ensures forall d | d in sofar :: d in result
    {
      result, causes, previousApplied := sofar, [AsDict(cause)], None;
      if readable && session in records {
        var previous := records[session];
        previousApplied := previous.applied;
        if previous.causes.Items? {
          var others := Without(previous.causes.items, Some(cause.reason));
          WithoutMembers(previous.causes.items, Some(cause.reason));
          causes := others + causes;
          if forall x | x in others :: x.decoded.Some? {
            AddCauses(result, others, eight);
            result := result + Decoded(others);
          } else {
            result := Add(result, Failure(EvidenceInvalid), false, eight);
          }
        } else {
          result := Add(result, Failure(EvidenceInvalid), false, eight);
        }
      } else if !readable {
        result := Add(result, Failure(EvidenceInvalid), false, eight);
      }
    }

    /** record_store.write with its failure recorded as a diagnostic. */
    method Publish(session: string, r: Record, written: bool, failure: Reason, sofar: Result,
                   ghost effect: Effect, ghost seven: bool, ghost eight: bool)
      returns (result: Result)
      requires Honest() && HonestRecord(r) && Ledger(sofar, seven, eight)
      modifies this`records, this`effects
      ensures Honest()
      ensures effects == old(effects) + [effect]
      ensures records == if written then old(records)[session := r] else old(records)
      ensures Ledger(result, seven, eight || !written)
      ensures forall d | d in sofar :: d in result
    {
      result := sofar;
      effects := effects + [effect];
      if written {
        records := records[session := r];
      } else {
        result := Add(result, Failure(failure), seven, eight);
      }
    }

    /** Apply the killswitch unless a repair finds the contract already kept, then inspect. */
    method ApplyAndInspect(repair: bool, f: Faults, previous: Option<bool>, sofar: Result, ghost eight: bool)
      returns (applied: Option<bool>, verified: bool, result: Result)
      requires Ledger(sofar, false, eight)
      modifies this`table, this`effects
      ensures effects == old(effects) + (if repair then [KernelRead(f.firstReply)] else []) +
        (if Kept(repair, f) then [] else [KillswitchTried(f.apply), KernelRead(f.lastReply)])
      ensures table == if Kept(repair, f) then old(table) else AfterApplication(old(table), f.apply)
      ensures applied == if Kept(repair, f) then previous else Some(f.apply.Applied?)
      ensures verified == Inspected(repair, f)
      ensures Ledger(result, verified, eight || !verified)
      ensures forall d | d in sofar :: d in result
    {
      result, applied := sofar, previous;
      verified := false;
      if repair {
        var found := V.InspectEmergencyRules(f.firstReply);
        verified := found == V.Verified;
      }
      effects := effects + if repair then [KernelRead(f.firstReply)] else [];
      if !verified {
        applied := Some(f.apply.Applied?);
        table := AfterApplication(table, f.apply);
        effects := effects + [KillswitchTried(f.apply)];
        if !f.apply.Applied? {
          result := Add(result, Diagnostic(ERROR, EmergencyApplyFailed, true), false, eight);
        }
        var found := V.InspectEmergencyRules(f.lastReply);
        verified := found == V.Verified;
        effects := effects + [KernelRead(f.lastReply)];
      }
      var check := if verified then Diagnostic(EMERGENCY_VERIFIED, EmergencyVerified, true)
                   else Diagnostic(CONTAINMENT_UNCONFIRMED, EmergencyUnverified, true);
      result := Add(result, check, false, eight);
    }

    /** The first half of a request: fold the cause into the previous evidence and store the latch. */
    method Latch(session: string, cause: Diagnostic, repair: bool, f: Faults, sofar: Result, ghost eight: bool)
      returns (latched: Record, result: Result)
      requires Honest() && CauseCode(cause.code) && Ledger(sofar, false, eight)
      modifies this`records, this`effects
      ensures Honest() && HonestRecord(latched)
      ensures forall d | d in sofar :: d in result
      ensures effects == old(effects) + [LatchTried(f.latchWritten)]
      ensures latched == LatchRecord(if f.readable then old(Previous(session)) else None, cause, repair)
      ensures records == if f.latchWritten then old(records)[session := latched] else old(records)
      ensures Ledger(result, false, eight || !(f.readable && Usable(old(Previous(session)), cause)) || !f.latchWritten)
    {
      var causes, previousApplied;
      causes, previousApplied, result := ReadPrevious(session, cause, f.readable, sofar, eight);
      ghost var bad := eight || !(f.readable && Usable(Previous(session), cause));
      latched := Record(if repair then previousApplied else Some(false), false, Items(causes));
      result := Publish(session, latched, f.latchWritten, LatchWriteFailed, result,
                        LatchTried(f.latchWritten), false, bad);
    }

    /** The second half: the killswitch, the independent inspection and the published evidence. */
    method Secure(session: string, latched: Record, repair: bool, f: Faults, sofar: Result, ghost eight: bool)
      returns (result: Result)
      requires Honest() && HonestRecord(latched) && Ledger(sofar, false, eight)
      modifies this`records, this`table, this`effects
      ensures Honest()
      ensures forall d | d in sofar :: d in result
      ensures effects == old(effects) + EffectsOfSecuring(repair, f)
      ensures records ==
        if f.evidenceWritten then old(records)[session := EvidenceRecord(latched, repair, f)] else old(records)
      ensures table == if Kept(repair, f) then old(table) else AfterApplication(old(table), f.apply)
      ensures Ledger(result, Inspected(repair, f), eight || !Inspected(repair, f) || !f.evidenceWritten)
    {
      var applied, verified;
      applied, verified, result := ApplyAndInspect(repair, f, latched.applied, sofar, eight);
      result := Publish(session, Record(applied, verified, latched.causes), f.evidenceWritten, EvidenceWriteFailed,
                        result, EvidenceTried(f.evidenceWritten), verified, eight || !verified);
    }

    /**
     * The latch, the killswitch and the independent inspection of one request, by a worker that was
     * let through. `eight` records whether anything so far leaves containment unconfirmed.
     */
    method Contain(session: string, cause: Diagnostic, repair: bool, f: Faults, sofar: Result, ghost eight: bool)
      returns (result: Result)
      requires Honest() && CauseCode(cause.code) && Ledger(sofar, false, eight)
      modifies this`records, this`table, this`effects
      ensures Honest()
      ensures effects == old(effects) + Effects(repair, f)
      ensures forall d | d in sofar :: d in result
      ensures var latched := LatchRecord(if f.readable then old(Previous(session)) else None, cause, repair);
        records ==
          if f.evidenceWritten then old(records)[session := EvidenceRecord(latched, repair, f)]
          else if f.latchWritten then old(records)[session := latched]
          else old(records)
      ensures table == if Kept(repair, f) then old(table) else AfterApplication(old(table), f.apply)
      ensures Ledger(result, Inspected(repair, f),
                     eight || !(f.readable && Usable(old(Previous(session)), cause)) ||
                     !f.latchWritten || !Inspected(repair, f) || !f.evidenceWritten)
    {
      var latched;
      latched, result := Latch(session, cause, repair, f, sofar, eight);
      ghost var bad := eight || !(f.readable && Usable(old(Previous(session)), cause)) || !f.latchWritten;
      result := Secure(session, latched, repair, f, result, bad);
    }

    /** What happens under the transition lock: intent first, and only then containment. */
    method Serialized(session: string, cause: Diagnostic, repair: bool, require: bool, f: Faults, sofar: Result,
                      ghost eight: bool)
      returns (refused: bool, result: Result)
      requires Honest() && CauseCode(cause.code) && Ledger(sofar, false, eight)
      modifies this`records, this`table, this`effects
      ensures Honest()
      ensures forall d | d in sofar :: d in result
      ensures var choice := if f.acquired then Choose(marker, lock, session, require) else Fail;
        && (refused <==> choice == Refuse)
        && effects == old(effects) + (if choice == Proceed then Effects(repair, f) else [])
        && (choice != Proceed ==> records == old(records) && table == old(table))
        && (choice == Fail ==> Ledger(result, false, true))
        && (choice == Proceed ==>
              && table == (if Kept(repair, f) then old(table) else AfterApplication(old(table), f.apply))
              && Ledger(result, Inspected(repair, f),
                        eight || !(f.readable && Usable(old(Previous(session)), cause)) ||
                        !f.latchWritten || !Inspected(repair, f) || !f.evidenceWritten))
      ensures forall s | s != session ::
        (s in records <==> s in old(records)) && (s in records ==> records[s] == old(records)[s])
      ensures session in old(records) ==> session in records
      ensures f.acquired && Choose(marker, lock, session, require) == Proceed ==>
        && Leaves(old(Previous(session)), Previous(session), cause, repair, f)
        && table ==
             (if (repair && V.Conforms(f.firstReply)) || f.apply == Failed(false) then old(table) else EmergencyRules)
    {
      result := sofar;
      var choice := if f.acquired then Choose(marker, lock, session, require) else Fail;
      refused := choice == Refuse;
      match choice {
        case Refuse =>
        case Fail =>
          result := Add(result, Failure(TransitionFailed), false, eight);
        case Proceed =>
          RecordsLeave(Previous(session), cause, repair, f);
          result := Contain(session, cause, repair, f, result, eight);
      }
    }

    /** The desktop delivery that ends a request under valid settings; its diagnostics hide nothing. */
    method Deliver(policy: Policy, notices: Result, sofar: Result) returns (result: Result)
      requires SessionResult(sofar) && ExitCodeOf(sofar) in {EMERGENCY_VERIFIED, CONTAINMENT_UNCONFIRMED}
      requires forall d | d in notices :: d.code == NOTIFICATION_FAILED
      ensures ExitCodeOf(result) == ExitCodeOf(sofar)
      ensures forall d | d in sofar :: d in result
    {
      result := sofar;
      if policy == Valid {
        NotificationsNeverMask(sofar, notices);
        result := sofar + notices;
      }
    }

    /**
     * A request ends with EMERGENCY_VERIFIED exactly when the worker was let through, the inspection
     * it relies on matched the contract, both record writes succeeded, the previous evidence was
     * usable and the policy valid. A refused request leaves no trace and no result.
     */
    method RequestEmergency(session: string, policy: Policy, cause: Diagnostic, repair: bool, require: bool, f: Faults)
      returns (result: Result)
      requires Honest() && CauseCode(cause.code) && cause.active
      requires forall d | d in f.notices :: d.code == NOTIFICATION_FAILED
      modifies this`records, this`table, this`effects
      ensures Honest()
      ensures forall s | s in old(records) :: s in records && (s != session ==> records[s] == old(records)[s])
      ensures forall s | s in records :: s == session || s in old(records)
      ensures session == "" || !f.acquired || Choose(marker, lock, session, require) != Proceed ==>
        records == old(records) && table == old(table) && effects == old(effects)
      ensures session != "" && f.acquired && Choose(marker, lock, session, require) == Proceed ==>
        && effects == old(effects) + Effects(repair, f)
        && Leaves(old(Previous(session)), Previous(session), cause, repair, f)
        && table ==
             (if (repair && V.Conforms(f.firstReply)) || f.apply == Failed(false) then old(table) else EmergencyRules)
      ensures session != "" && f.acquired && Choose(marker, lock, session, require) == Refuse ==> result == []
      ensures session != "" && f.acquired && Choose(marker, lock, session, require) == Proceed ==> result != []
      ensures result != [] ==> ExitCodeOf(result) in {EMERGENCY_VERIFIED, CONTAINMENT_UNCONFIRMED} && cause in result
      ensures ExitCodeOf(result) == EMERGENCY_VERIFIED <==>
        && session != "" && f.acquired && Choose(marker, lock, session, require) == Proceed
        && policy != Invalid
        && f.readable && Usable(old(Previous(session)), cause)
        && f.latchWritten && f.evidenceWritten
        && Inspected(repair, f)
      ensures ExitCodeOf(result) == EMERGENCY_VERIFIED && session in old(records) ==>
        && old(records)[session].causes.Items?
        && forall x | x in old(records)[session].causes.items && x.decoded == None :: x.reason == Some(cause.reason)
      ensures ExitCodeOf(result) == EMERGENCY_VERIFIED ==>
        && EmergencyLatched(session) && records[session].verified
        && ShowsIsolation(LastReply(repair, f))
    {
      InspectedShowsIsolation(repair, f);
      result := [];
      assert Ledger(result, false, false);
      result := Add(result, cause, false, false);
      ghost var bad := policy == Invalid;
      if session == "" {
        result := Add(result, Failure(IdentityMissing), false, false);
        ExitCodeOfEmergency(result);
        return;
      }
      if policy == Invalid {
        result := Add(result, Failure(PolicyInvalid), false, false);
      }
      var refused;
      refused, result := Serialized(session, cause, repair, require, f, result, bad);
      if refused {
        return [];
      }
      ExitCodeOfEmergency(result);
      result := Deliver(policy, f.notices, result);
    }

    /**
     * supervision_terminated, run after the unit stopped. `requested` and `policy` belong to the
     * session lock; an expected session stands in for a lock that cannot be read or is gone.
     * Containment is requested exactly for the session this leaves, if intent lets it, and is then
     * carried through and confirmed like any other request; otherwise nothing happens.
     */
    method SupervisionTerminated(expected: Option<string>, requested: bool, policy: Policy, f: Faults)
      returns (result: Result)
      requires Honest()
      requires forall d | d in f.notices :: d.code == NOTIFICATION_FAILED
      modifies this`records, this`table, this`effects
      ensures Honest()
      ensures Terminated(lock, expected, requested) == None ==>
        result == if lock == Unreadable then [Failure(UnreadableIntent)] else []
      ensures effects == old(effects) +
        if LetThrough(marker, lock, expected, requested, f) then Effects(true, f) else []
      ensures !LetThrough(marker, lock, expected, requested, f) ==> records == old(records) && table == old(table)
      ensures forall s |
        f.acquired && s != "" && marker.Readable? && marker.marker != Everything && marker.marker != Only(s) ::
        (lock == Present(Lock(s, Running)) && requested && (expected == None || expected == Some(s))) ||
        (!lock.Present? && expected == Some(s)) ==>
          effects == old(effects) + Effects(true, f)
      ensures !f.acquired || (!lock.Present? && expected == None) ==> effects == old(effects)
      ensures lock.Present? && (!requested || lock.lock.phase == Stopping) ==> effects == old(effects)
      ensures lock.Present? && expected.Some? && expected.value != lock.lock.session ==> effects == old(effects)
      ensures marker == BadMarker || marker == Readable(Everything) ==> effects == old(effects)
      ensures forall s |
        marker == Readable(Only(s)) && (expected == Some(s) || (lock.Present? && lock.lock.session == s)) ::
        effects == old(effects)
      ensures forall s | s in records && s !in old(records) :: Terminated(lock, expected, requested) == Some(s)
      ensures ExitCodeOf(result) == EMERGENCY_VERIFIED <==>
        && LetThrough(marker, lock, expected, requested, f)
        && (lock.Present? ==> policy != Invalid)
        && f.readable
        && Usable(old(Previous(Terminated(lock, expected, requested).value)),
                  Diagnostic(WATCHDOG_UNAVAILABLE, WatchdogTerminated, true))
        && f.latchWritten && f.evidenceWritten && Inspected(true, f)
      ensures ExitCodeOf(result) == EMERGENCY_VERIFIED ==>
        var s := Terminated(lock, expected, requested).value;
        s in records && records[s].verified
      ensures LetThrough(marker, lock, expected, requested, f) ==>
        ExitCodeOf(result) in {EMERGENCY_VERIFIED, CONTAINMENT_UNCONFIRMED}
    {
      var current := lock;
      if current == Unreadable {
        if expected == None {
          return [Failure(UnreadableIntent)];
        }
        current := Absent;
      }
      if expected.Some? && current.Present? && current.lock.session != expected.value {
        return [];
      }
      var cause := Diagnostic(WATCHDOG_UNAVAILABLE, WatchdogTerminated, true);
      match current {
        case Absent =>
          if expected == None {
            return [];
          }
          result := RequestEmergency(expected.value, NoSettings, cause, true, true, f);
        case Present(l) =>
          if !requested || l.phase == Stopping {
            return [];
          }
          result := RequestEmergency(l.session, policy, cause, true, expected.Some?, f);
      }
    }
  }
}
