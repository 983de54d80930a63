// ttp/settings.py: validated session settings, their snapshot, and the timing inequalities the
// supervisor relies on.
module Settings {
  import opened Wrappers

  /** A configured value before validation: Python's bool, int and float are distinct types. */
  datatype Value = VBool(flag: bool) | VInt(int) | VFloat(real) | VNotFinite | VOther

  datatype Watchdog = Watchdog(
    enabled: Value, readinessTimeout: Value, heartbeatInterval: Value, serviceTimeout: Value,
    checkInterval: Value, checkTimeout: Value, observationMaxAge: Value)

  datatype Notifications = Notifications(
    enabled: Value, readinessTimeout: Value, callTimeout: Value, deliveryTimeout: Value, attempts: Value)

  datatype Config = Config(watchdog: Watchdog, verificationTimeout: Value, notifications: Notifications)

  predicate IsNumber(v: Value) { v.VInt? || v.VFloat? }

  function Number(v: Value): real {
    match v
    case VInt(n) => n as real
    case VFloat(r) => r
    case _ => 0.0
  }

  predicate Seconds(v: Value) { IsNumber(v) && 0.0 < Number(v) <= 3600.0 }

  predicate Attempts(v: Value) {
    match v
    case VInt(n) => 1 <= n <= 10
    case _ => false
  }

  predicate TypesValid(c: Config) {
    && c.watchdog.enabled.VBool? && c.notifications.enabled.VBool?
    && Seconds(c.watchdog.readinessTimeout) && Seconds(c.watchdog.heartbeatInterval)
    && Seconds(c.watchdog.serviceTimeout) && Seconds(c.watchdog.checkInterval)
    && Seconds(c.watchdog.checkTimeout) && Seconds(c.watchdog.observationMaxAge)
    && Seconds(c.verificationTimeout)
    && Seconds(c.notifications.readinessTimeout) && Seconds(c.notifications.callTimeout)
    && Seconds(c.notifications.deliveryTimeout) && Attempts(c.notifications.attempts)
  }

  predicate TimingValid(c: Config) {
    var w, n := c.watchdog, c.notifications;
    && 2.0 * (Number(w.checkTimeout) + Number(w.heartbeatInterval)) <= Number(w.serviceTimeout)
    && Number(w.readinessTimeout) >= Number(w.checkTimeout) + Number(w.heartbeatInterval)
    && Number(w.observationMaxAge) >= Number(w.checkInterval) + Number(w.checkTimeout)
    && Number(n.deliveryTimeout) >= Number(n.callTimeout)
  }

  predicate NotificationRoom(c: Config) {
    Number(c.watchdog.serviceTimeout) > Number(c.notifications.deliveryTimeout) + Number(c.watchdog.heartbeatInterval)
  }

  /** Settings.validate. */
  predicate Valid(c: Config) {
    TypesValid(c) && TimingValid(c) && (c.notifications.enabled.flag ==> NotificationRoom(c))
  }

  /** Settings.select: explicit choices replace the two switches, and the outcome is validated again. */
  function Select(c: Config, watchdog: Option<bool>, notifications: Option<bool>): (r: Option<Config>)
  {
    var w := if watchdog.Some? then VBool(watchdog.value) else c.watchdog.enabled;
    var n := if notifications.Some? then VBool(notifications.value) else c.notifications.enabled;
    var chosen := c.(watchdog := c.watchdog.(enabled := w), notifications := c.notifications.(enabled := n));
    if Valid(chosen) then Some(chosen) else None
  }

  /** A valid configuration refuses a selection exactly when it leaves notifications on without room for them. */
  lemma SelectFailsExactly(c: Config, watchdog: Option<bool>, notifications: Option<bool>)
    requires Valid(c)
    ensures Select(c, watchdog, notifications).None? <==> notifications == Some(true) && !NotificationRoom(c)
    ensures Select(c, watchdog, notifications).Some? ==>
      var r := Select(c, watchdog, notifications).value;
      && Valid(r)
      && r.(watchdog := r.watchdog.(enabled := c.watchdog.enabled),
            notifications := r.notifications.(enabled := c.notifications.enabled)) == c
  {
    var r := Select(c, watchdog, notifications);
    if r.Some? {
      assert r.value.watchdog.(enabled := c.watchdog.enabled) == c.watchdog;
      assert r.value.notifications.(enabled := c.notifications.enabled) == c.notifications;
    }
  }

  // ---------------------------------------------------------------- snapshots

  /** A section of a stored snapshot: a dictionary of values, or something else. */
  datatype Section = Dict(values: map<Key, Value>) | NotDict

  datatype Key = Enabled | ReadinessTimeout | HeartbeatInterval | ServiceTimeout | CheckInterval | CheckTimeout
    | ObservationMaxAge | Timeout | CallTimeout | DeliveryTimeout | NumberOfAttempts | UnknownKey(string)

  datatype SectionName = WatchdogSection | VerificationSection | NotificationsSection | UnknownSection(string)

  const WATCHDOG_KEYS: set<Key> :=
    {Enabled, ReadinessTimeout, HeartbeatInterval, ServiceTimeout, CheckInterval, CheckTimeout, ObservationMaxAge}

  const NOTIFICATION_KEYS: set<Key> := {Enabled, ReadinessTimeout, CallTimeout, DeliveryTimeout, NumberOfAttempts}

  type Snapshot = map<SectionName, Section>

  function ToSnapshot(c: Config): Snapshot {
    var w, n := c.watchdog, c.notifications;
    map[
      WatchdogSection := Dict(map[
        Enabled := w.enabled, ReadinessTimeout := w.readinessTimeout, HeartbeatInterval := w.heartbeatInterval,
        ServiceTimeout := w.serviceTimeout, CheckInterval := w.checkInterval, CheckTimeout := w.checkTimeout,
        ObservationMaxAge := w.observationMaxAge]),
      VerificationSection := Dict(map[Timeout := c.verificationTimeout]),
      NotificationsSection := Dict(map[
        Enabled := n.enabled, ReadinessTimeout := n.readinessTimeout, CallTimeout := n.callTimeout,
        DeliveryTimeout := n.deliveryTimeout, NumberOfAttempts := n.attempts])]
  }

  predicate HasKeys(raw: Snapshot, section: SectionName, keys: set<Key>) {
    section in raw && raw[section].Dict? && raw[section].values.Keys == keys
  }

  /** Settings.from_snapshot: exactly the known sections and fields, validated. */
  method FromSnapshot(raw: Snapshot) returns (r: Option<Config>)
    ensures r.Some? ==> Valid(r.value) && ToSnapshot(r.value) == raw
    ensures r.None? ==> forall c: Config | ToSnapshot(c) == raw :: !Valid(c)
  {
    if raw.Keys != {WatchdogSection, VerificationSection, NotificationsSection} {
      return None;
    }
    if !HasKeys(raw, WatchdogSection, WATCHDOG_KEYS) || !HasKeys(raw, VerificationSection, {Timeout}) ||
       !HasKeys(raw, NotificationsSection, NOTIFICATION_KEYS)
    {
      forall c: Config | ToSnapshot(c) == raw ensures false { SnapshotKeys(c); }
      return None;
    }
    var w, v, n := raw[WatchdogSection].values, raw[VerificationSection].values, raw[NotificationsSection].values;
    var c := Config(
      Watchdog(w[Enabled], w[ReadinessTimeout], w[HeartbeatInterval], w[ServiceTimeout], w[CheckInterval],
               w[CheckTimeout], w[ObservationMaxAge]),
      v[Timeout],
      Notifications(n[Enabled], n[ReadinessTimeout], n[CallTimeout], n[DeliveryTimeout], n[NumberOfAttempts]));
    SnapshotOf(raw, c);
    if Valid(c) {
      r := Some(c);
    } else {
      forall d: Config | ToSnapshot(d) == raw ensures d == c { SnapshotInjective(d, c); }
      r := None;
    }
  }

  lemma SnapshotKeys(c: Config)
    ensures HasKeys(ToSnapshot(c), WatchdogSection, WATCHDOG_KEYS)
    ensures HasKeys(ToSnapshot(c), VerificationSection, {Timeout})
    ensures HasKeys(ToSnapshot(c), NotificationsSection, NOTIFICATION_KEYS)
  {
  }

  lemma SnapshotOf(raw: Snapshot, c: Config)
    requires raw.Keys == {WatchdogSection, VerificationSection, NotificationsSection}
    requires HasKeys(raw, WatchdogSection, WATCHDOG_KEYS) && HasKeys(raw, VerificationSection, {Timeout})
    requires HasKeys(raw, NotificationsSection, NOTIFICATION_KEYS)
    requires var w := raw[WatchdogSection].values;
      c.watchdog == Watchdog(w[Enabled], w[ReadinessTimeout], w[HeartbeatInterval], w[ServiceTimeout], w[CheckInterval],
                             w[CheckTimeout], w[ObservationMaxAge])
    requires c.verificationTimeout == raw[VerificationSection].values[Timeout]
    requires var n := raw[NotificationsSection].values;
      c.notifications ==
        Notifications(n[Enabled], n[ReadinessTimeout], n[CallTimeout], n[DeliveryTimeout], n[NumberOfAttempts])
    ensures ToSnapshot(c) == raw
  {
    var s := ToSnapshot(c);
    assert s[WatchdogSection].values == raw[WatchdogSection].values;
    assert s[VerificationSection].values == raw[VerificationSection].values;
    assert s[NotificationsSection].values == raw[NotificationsSection].values;
  }

  /** A snapshot determines its settings, so reading one back changes nothing. */
  lemma SnapshotInjective(a: Config, b: Config)
    requires ToSnapshot(a) == ToSnapshot(b)
    ensures a == b
  {
    var x, y := ToSnapshot(a), ToSnapshot(b);
    var wx, wy := x[WatchdogSection].values, y[WatchdogSection].values;
    var nx, ny := x[NotificationsSection].values, y[NotificationsSection].values;
    assert wx[Enabled] == wy[Enabled] && wx[ReadinessTimeout] == wy[ReadinessTimeout];
    assert wx[HeartbeatInterval] == wy[HeartbeatInterval] && wx[ServiceTimeout] == wy[ServiceTimeout];
    assert wx[CheckInterval] == wy[CheckInterval] && wx[CheckTimeout] == wy[CheckTimeout];
    assert wx[ObservationMaxAge] == wy[ObservationMaxAge];
    assert x[VerificationSection].values[Timeout] == y[VerificationSection].values[Timeout];
    assert nx[Enabled] == ny[Enabled] && nx[ReadinessTimeout] == ny[ReadinessTimeout];
    assert nx[CallTimeout] == ny[CallTimeout] && nx[DeliveryTimeout] == ny[DeliveryTimeout];
    assert nx[NumberOfAttempts] == ny[NumberOfAttempts];
  }

  // ---------------------------------------------------------------- the supervisor's deadlines

  datatype Timing = Timing(heartbeat: real, service: real, checkInterval: real, checkTimeout: real, maxAge: real)

  function TimingOf(w: Watchdog): Timing {
    Timing(Number(w.heartbeatInterval), Number(w.serviceTimeout), Number(w.checkInterval), Number(w.checkTimeout),
           Number(w.observationMaxAge))
  }

  predicate Sound(t: Timing) {
    && t.heartbeat > 0.0 && t.checkInterval > 0.0 && t.checkTimeout > 0.0
    && 2.0 * (t.checkTimeout + t.heartbeat) <= t.service
    && t.checkInterval + t.checkTimeout <= t.maxAge
  }

  lemma ValidTimingIsSound(c: Config)
    requires Valid(c)
    ensures Sound(TimingOf(c.watchdog))
  {
  }

  // ---------------------------------------------------------------- the bounds by the defaults

  /** The defaults of the three sections. */
  function Defaults(): Config {
    Config(
      Watchdog(VBool(false), VInt(30), VInt(5), VInt(30), VInt(15), VInt(10), VInt(30)),
      VInt(60),
      Notifications(VBool(false), VInt(15), VInt(5), VInt(15), VInt(3)))
  }

  /** With everything else at its default, each watchdog setting is valid in exactly this range. */
  lemma WatchdogRanges(x: real)
    ensures var d, v := Defaults(), VFloat(x);
      var w := d.watchdog;
      && Valid(d)
      && TimingOf(w) == Timing(5.0, 30.0, 15.0, 10.0, 30.0)
      && (Valid(d.(watchdog := w.(readinessTimeout := v))) <==> 15.0 <= x <= 3600.0)
      && (Valid(d.(watchdog := w.(heartbeatInterval := v))) <==> 0.0 < x <= 5.0)
      && (Valid(d.(watchdog := w.(serviceTimeout := v))) <==> 30.0 <= x <= 3600.0)
      && (Valid(d.(watchdog := w.(checkInterval := v))) <==> 0.0 < x <= 20.0)
      && (Valid(d.(watchdog := w.(checkTimeout := v))) <==> 0.0 < x <= 10.0)
      && (Valid(d.(watchdog := w.(observationMaxAge := v))) <==> 25.0 <= x <= 3600.0)
  {
  }

  /** The same for verification and notifications; enabled, these must fit beside the heartbeat. */
  lemma OtherRanges(x: real, i: int)
    ensures var d, v := Defaults(), VFloat(x);
      var n := d.notifications;
      && (Valid(d.(verificationTimeout := v)) <==> 0.0 < x <= 3600.0)
      && (Valid(d.(notifications := n.(readinessTimeout := v))) <==> 0.0 < x <= 3600.0)
      && (Valid(d.(notifications := n.(callTimeout := v))) <==> 0.0 < x <= 15.0)
      && (Valid(d.(notifications := n.(deliveryTimeout := v))) <==> 5.0 <= x <= 3600.0)
      && (Valid(d.(notifications := n.(enabled := VBool(true), deliveryTimeout := v))) <==> 5.0 <= x < 25.0)
      && (Valid(d.(notifications := n.(attempts := VInt(i)))) <==> 1 <= i <= 10)
      && !Valid(d.(notifications := n.(attempts := v)))
  {
  }
}
