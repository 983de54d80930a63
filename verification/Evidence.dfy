// ttp/evidence.py: diagnostics, the exit code that projects them, and the freshness of observations.
module Evidence {

  datatype ExitCode =
    | OK
    | ERROR
    | USAGE
    | UNVERIFIED
    | DNSSEC_CONFLICT
    | WATCHDOG_UNAVAILABLE
    | TOR_NEGATIVE
    | EMERGENCY_VERIFIED
    | CONTAINMENT_UNCONFIRMED
    | NOTIFICATION_FAILED

  function Priority(code: ExitCode): nat {
    match code
    case OK => 0
    case UNVERIFIED => 10
    case NOTIFICATION_FAILED => 20
    case ERROR => 25
    case WATCHDOG_UNAVAILABLE => 30
    case TOR_NEGATIVE => 40
    case EMERGENCY_VERIFIED => 50
    case CONTAINMENT_UNCONFIRMED => 60
    case USAGE => 70
    case DNSSEC_CONFLICT => 70
  }

  /** Stable reason identifiers: the ones this model produces itself, and any other text. */
  datatype Reason =
    | IdentityMissing
    | PolicyInvalid
    | EvidenceInvalid
    | LatchWriteFailed
    | EvidenceWriteFailed
    | TransitionFailed
    | EmergencyApplyFailed
    | EmergencyVerified
    | EmergencyUnverified
    | UnreadableIntent
    | WatchdogTerminated
    | Named(text: string)

  datatype Diagnostic = Diagnostic(code: ExitCode, reason: Reason, active: bool)

  type Result = seq<Diagnostic>

  /** Preflight refusals never take part in a session's result, and OK is no diagnostic. */
  predicate SessionCode(code: ExitCode) { code != USAGE && code != DNSSEC_CONFLICT && code != OK }

  ghost predicate SessionResult(ds: Result) { forall d | d in ds :: SessionCode(d.code) }

  ghost predicate Has(ds: Result, code: ExitCode) { exists d | d in ds :: d.active && d.code == code }

  /** Python's max over the active diagnostics: of equal priorities the first wins, and nothing is OK. */
  function ExitCodeOf(ds: Result): ExitCode {
    if ds == [] then OK
    else
      var best, last := ExitCodeOf(ds[..|ds| - 1]), ds[|ds| - 1];
      if last.active && Priority(last.code) > Priority(best) then last.code else best
  }

  /** The exit code is the code of an active diagnostic, and no active diagnostic outranks it. */
  lemma {:induction false} ExitCodeIsMaximum(ds: Result)
    ensures ExitCodeOf(ds) == OK || Has(ds, ExitCodeOf(ds))
    ensures forall d | d in ds && d.active :: Priority(d.code) <= Priority(ExitCodeOf(ds))
  {
    if ds != [] {
      var init, last := ds[..|ds| - 1], ds[|ds| - 1];
      ExitCodeIsMaximum(init);
      assert forall d :: d in ds <==> d in init || d == last;
      if ExitCodeOf(ds) != OK {
        if last.active && ExitCodeOf(ds) == last.code {
          assert last in ds;
        } else {
          var d :| d in init && d.active && d.code == ExitCodeOf(init);
          assert d in ds;
        }
      }
    }
  }

  /** Session codes have distinct priorities: only which codes are active matters, not order or repetition. */
  lemma ExitCodeOrderIrrelevant(a: Result, b: Result)
    requires SessionResult(a) && SessionResult(b)
    requires forall code :: Has(a, code) <==> Has(b, code)
    ensures ExitCodeOf(a) == ExitCodeOf(b)
  {
    ExitCodeIsMaximum(a);
    ExitCodeIsMaximum(b);
    if ExitCodeOf(a) != OK {
      var d :| d in b && d.active && d.code == ExitCodeOf(a);
    }
    if ExitCodeOf(b) != OK {
      var d :| d in a && d.active && d.code == ExitCodeOf(b);
    }
  }

  lemma {:induction false} ExitCodeMonotone(a: Result, b: Result)
    ensures Priority(ExitCodeOf(a + b)) >= Priority(ExitCodeOf(a))
    ensures Priority(ExitCodeOf(a + b)) >= Priority(ExitCodeOf(b))
  {
    ExitCodeIsMaximum(a);
    ExitCodeIsMaximum(b);
    ExitCodeIsMaximum(a + b);
    assert forall d | d in a :: d in a + b;
    assert forall d | d in b :: d in a + b;
  }

  /** Containment codes in terms of what was recorded: 8 when anything says so, 7 when nothing does. */
  lemma ExitCodeOfEmergency(ds: Result)
    requires SessionResult(ds)
    ensures ExitCodeOf(ds) == CONTAINMENT_UNCONFIRMED <==> Has(ds, CONTAINMENT_UNCONFIRMED)
    ensures ExitCodeOf(ds) == EMERGENCY_VERIFIED <==> Has(ds, EMERGENCY_VERIFIED) && !Has(ds, CONTAINMENT_UNCONFIRMED)
  {
    ExitCodeIsMaximum(ds);
  }

  /** Delivery diagnostics never change a 7 or an 8. */
  lemma NotificationsNeverMask(ds: Result, notices: Result)
    requires SessionResult(ds)
    requires forall d | d in notices :: d.code == NOTIFICATION_FAILED
    requires ExitCodeOf(ds) in {EMERGENCY_VERIFIED, CONTAINMENT_UNCONFIRMED}
    ensures ExitCodeOf(ds + notices) == ExitCodeOf(ds)
  {
    assert forall d | d in ds + notices :: d in ds || d in notices;
    assert forall d | d in ds :: d in ds + notices;
    ExitCodeOfEmergency(ds);
    ExitCodeOfEmergency(ds + notices);
  }

  /** The codes of a session, the most urgent first. */
  const RANKING: seq<ExitCode> :=
    [CONTAINMENT_UNCONFIRMED, EMERGENCY_VERIFIED, TOR_NEGATIVE, WATCHDOG_UNAVAILABLE,
     ERROR, NOTIFICATION_FAILED, UNVERIFIED]

  lemma Ranked(code: ExitCode)
    requires SessionCode(code)
    ensures code in RANKING
  {
    assert RANKING[0] == CONTAINMENT_UNCONFIRMED && RANKING[1] == EMERGENCY_VERIFIED && RANKING[2] == TOR_NEGATIVE;
    assert RANKING[3] == WATCHDOG_UNAVAILABLE && RANKING[4] == ERROR && RANKING[5] == NOTIFICATION_FAILED;
    assert RANKING[6] == UNVERIFIED;
  }

  /** A session exits with the first code of the ranking that an active diagnostic has, or with OK. */
  lemma ExitCodeIsFirstOfRanking(ds: Result, k: nat)
    requires SessionResult(ds) && k < |RANKING|
    ensures ExitCodeOf(ds) == RANKING[k] <==> Has(ds, RANKING[k]) && forall j | 0 <= j < k :: !Has(ds, RANKING[j])
    ensures ExitCodeOf(ds) == OK <==> forall j | 0 <= j < |RANKING| :: !Has(ds, RANKING[j])
  {
    ExitCodeIsMaximum(ds);
    var code := ExitCodeOf(ds);
    if code != OK {
      var d :| d in ds && d.active && d.code == code;
      Ranked(code);
      var i :| 0 <= i < |RANKING| && RANKING[i] == code;
      assert Has(ds, RANKING[i]);
    }
    forall j | 0 <= j < |RANKING| && Has(ds, RANKING[j]) ensures Priority(RANKING[j]) <= Priority(code) {
      var d :| d in ds && d.active && d.code == RANKING[j];
    }
  }

  // ---------------------------------------------------------------- freshness

  /** A float that may be infinite or not a number. */
  datatype Num = Finite(value: real) | NotFinite

  datatype Observation = Observation(session: string, boot: string, instance: string, observedAt: Num)

  predicate IsCurrent(o: Observation, session: string, boot: string, instance: string, now: Num, maxAge: Num) {
    && session != "" && boot != "" && instance != ""
    && (o.session, o.boot, o.instance) == (session, boot, instance)
    && now.Finite? && o.observedAt.Finite? && maxAge.Finite? && maxAge.value > 0.0
    && 0.0 <= now.value - o.observedAt.value < maxAge.value
  }
}
