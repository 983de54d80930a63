// ttp/watchdog/integrity.py: the alarm on what the leak-reject counters gained since the last check.
module Integrity {
  import opened Wrappers

  datatype Name = Doh | Dot | DnsUnredirected

  /** The order in which a check reads the counters. */
  const ORDER: seq<Name> := [Doh, Dot, DnsUnredirected]

  type Readings = map<Name, nat>

  datatype Alarm = Alarm(name: Name, packets: nat)

  /** What a reading adds to the previous one; a smaller reading means the counters restarted from zero. */
  function New(previous: nat, current: nat): nat {
    if current >= previous then current - previous else current
  }

  function Base(baseline: Readings, name: Name): nat { if name in baseline then baseline[name] else 0 }

  /** One check over the counters still to be read: the baseline it leaves and its alarm. */
  function Scan(baseline: Readings, readings: Readings, names: seq<Name>): (Readings, Option<Alarm>)
    decreases |names|
  {
    if names == [] then (baseline, None)
    else
      var name := names[0];
      if name !in readings then Scan(baseline, readings, names[1..])
      else
        var fired := New(Base(baseline, name), readings[name]);
        var next := baseline[name := readings[name]];
        if fired > 0 then (next, Some(Alarm(name, fired))) else Scan(next, readings, names[1..])
  }

  class CounterBaseline {
    var baseline: Readings

    constructor ()
      ensures baseline == map[]
    {
      baseline := map[];
    }

    /**
     * The packets counted since the previous reading: whatever readings came before it, the total of
     * their segments grows by exactly that.
     */
    method NewSinceLastCheck(name: Name, current: nat) returns (fired: nat)
      modifies this
      ensures baseline == old(baseline)[name := current]
      ensures fired == New(Base(old(baseline), name), current)
      ensures forall readings: seq<nat> | Last(readings) == Base(old(baseline), name) ::
        SegmentTotal(readings + [current]) == SegmentTotal(readings) + fired
    {
      forall readings: seq<nat> | Last(readings) == Base(baseline, name)
        ensures SegmentTotal(readings + [current]) == SegmentTotal(readings) + New(Last(readings), current)
      {
        SegmentTotalSnoc(readings, current);
      }
      var previous := Base(baseline, name);
      baseline := baseline[name := current];
      fired := if current >= previous then current - previous else current;
    }

    /** The counter loop of check_system_integrity, which returns at the first counter that moved. */
    method CheckCounters(readings: Readings) returns (alarm: Option<Alarm>)
      modifies this
      ensures (baseline, alarm) == Scan(old(baseline), readings, ORDER)
    {
      var i := 0;
      while i < |ORDER|
        invariant 0 <= i <= |ORDER|
        invariant Scan(old(baseline), readings, ORDER) == Scan(baseline, readings, ORDER[i..])
      {
        var name := ORDER[i];
        assert ORDER[i..][1..] == ORDER[i + 1..];
        if name in readings {
          var fired := NewSinceLastCheck(name, readings[name]);
          if fired > 0 {
            return Some(Alarm(name, fired));
          }
        }
        i := i + 1;
      }
      return None;
    }
  }

  // ---------------------------------------------------------------- runs of checks

  /** The baseline after a sequence of checks, starting from a reset. */
  function After(checks: seq<Readings>): Readings {
    if checks == [] then map[] else Scan(After(checks[..|checks| - 1]), checks[|checks| - 1], ORDER).0
  }

  function AlarmOf(checks: seq<Readings>): Option<Alarm>
    requires checks != []
  {
    Scan(After(checks[..|checks| - 1]), checks[|checks| - 1], ORDER).1
  }

  /** Packets reported for one counter over a sequence of checks. */
  function Reported(checks: seq<Readings>, name: Name): nat {
    if checks == [] then 0
    else
      Reported(checks[..|checks| - 1], name) +
      match AlarmOf(checks) { case Some(Alarm(n, packets)) => (if n == name then packets else 0) case None => 0 }
  }

  /** One reading of a counter, and whether the check got as far as consuming it. */
  datatype Reading = Reading(value: nat, consumed: bool)

  predicate Earlier(a: Name, b: Name) { (a == Doh && b != Doh) || (a == Dot && b == DnsUnredirected) }

  /** All readings of one counter, in order; a check that lacks the counter adds none. */
  function History(checks: seq<Readings>, name: Name): seq<Reading> {
    if checks == [] then []
    else
      var readings := checks[|checks| - 1];
      History(checks[..|checks| - 1], name) +
      if name !in readings then []
      else [Reading(readings[name], Takes(AlarmOf(checks), readings, name))]
  }

  function Values(history: seq<Reading>): seq<nat> { seq(|history|, i requires 0 <= i < |history| => history[i].value) }

  function Consumed(history: seq<Reading>): seq<nat> {
    if history == [] then []
    else
      var last := history[|history| - 1];
      Consumed(history[..|history| - 1]) + if last.consumed then [last.value] else []
  }

  function Last(values: seq<nat>): nat { if values == [] then 0 else values[|values| - 1] }

  /** Reference: the sum of the last readings of each non-decreasing segment. */
  function SegmentTotal(values: seq<nat>): nat {
    if values == [] then 0
    else if |values| == 1 || values[1] < values[0] then values[0] + SegmentTotal(values[1..])
    else SegmentTotal(values[1..])
  }

  lemma {:induction false} SegmentTotalSnoc(values: seq<nat>, x: nat)
    ensures SegmentTotal(values + [x]) == SegmentTotal(values) + New(Last(values), x)
  {
    if values == [] {
      assert [] + [x] == [x] && [x][1..] == [];
    } else if |values| == 1 {
      assert (values + [x])[1..] == [x] && [x][1..] == [] && values[1..] == [];
    } else {
      assert (values + [x])[1..] == values[1..] + [x];
      SegmentTotalSnoc(values[1..], x);
    }
  }

  predicate Takes(alarm: Option<Alarm>, readings: Readings, name: Name) {
    name in readings && !(alarm.Some? && Earlier(alarm.value.name, name))
  }

  /** A scan of counters that do not include `name` leaves its baseline and does not report it. */
  lemma {:induction false} ScanOthers(baseline: Readings, readings: Readings, names: seq<Name>, name: Name)
    requires name !in names
    ensures var (next, alarm) := Scan(baseline, readings, names);
      && Base(next, name) == Base(baseline, name)
      && (alarm.Some? ==> alarm.value.name in names)
    decreases |names|
  {
    if names != [] {
      var head := names[0];
      var next := if head in readings then baseline[head := readings[head]] else baseline;
      ScanOthers(next, readings, names[1..], name);
    }
  }

  /** A scan reaches `name` unless a counter before it raised the alarm. */
  lemma {:induction false} ScanReaches(
    baseline: Readings, readings: Readings, before: seq<Name>, name: Name, rest: seq<Name>)
    requires name !in before && name !in rest
    ensures var (next, alarm) := Scan(baseline, readings, before + [name] + rest);
      var taken := name in readings && !(alarm.Some? && alarm.value.name in before);
      && Base(next, name) == (if taken then readings[name] else Base(baseline, name))
      && (alarm.Some? && alarm.value.name == name ==> taken)
      && (if alarm.Some? && alarm.value.name == name then alarm.value.packets else 0) ==
         (if taken then New(Base(baseline, name), readings[name]) else 0)
    decreases |before|
  {
    var names := before + [name] + rest;
    if before == [] {
      assert names[0] == name && names[1..] == rest;
      var next := if name in readings then baseline[name := readings[name]] else baseline;
      ScanOthers(next, readings, rest, name);
    } else {
      var head := before[0];
      assert names[0] == head && names[1..] == before[1..] + [name] + rest;
      var next := if head in readings then baseline[head := readings[head]] else baseline;
      ScanReaches(next, readings, before[1..], name, rest);
      if head in readings && New(Base(baseline, head), readings[head]) > 0 {
      } else if Scan(next, readings, names[1..]).1.Some? {
        ScanNeverRepeats(next, readings, names[1..], head);
      }
    }
  }

  /** A counter whose baseline is already its reading raises no alarm. */
  lemma {:induction false} ScanNeverRepeats(baseline: Readings, readings: Readings, names: seq<Name>, name: Name)
    requires name in readings ==> New(Base(baseline, name), readings[name]) == 0
    ensures var alarm := Scan(baseline, readings, names).1;
      alarm.Some? ==> alarm.value.name != name && alarm.value.name in names
    decreases |names|
  {
    if names != [] {
      var head := names[0];
      var next := if head in readings then baseline[head := readings[head]] else baseline;
      ScanNeverRepeats(next, readings, names[1..], name);
    }
  }

  /** What one check does to one counter: consumed readings move its baseline, and only they are reported. */
  lemma ScanOne(baseline: Readings, readings: Readings, name: Name)
    ensures var (next, alarm) := Scan(baseline, readings, ORDER);
      var taken := Takes(alarm, readings, name);
      && Base(next, name) == (if taken then readings[name] else Base(baseline, name))
      && (if alarm.Some? && alarm.value.name == name then alarm.value.packets else 0) ==
         (if taken then New(Base(baseline, name), readings[name]) else 0)
  {
    match name {
      case Doh =>
        assert ORDER == [] + [Doh] + [Dot, DnsUnredirected];
        ScanReaches(baseline, readings, [], Doh, [Dot, DnsUnredirected]);
      case Dot =>
        assert ORDER == [Doh] + [Dot] + [DnsUnredirected];
        ScanReaches(baseline, readings, [Doh], Dot, [DnsUnredirected]);
      case DnsUnredirected =>
        assert ORDER == [Doh, Dot] + [DnsUnredirected] + [];
        ScanReaches(baseline, readings, [Doh, Dot], DnsUnredirected, []);
    }
  }

  lemma HistorySnoc(h: seq<Reading>, r: Reading)
    ensures Consumed(h + [r]) == Consumed(h) + if r.consumed then [r.value] else []
    ensures Values(h + [r]) == Values(h) + [r.value]
  {
    assert (h + [r])[..|h|] == h;
  }

  /** One more check extends a counter's history by its reading, if it has one. */
  lemma HistoryStep(checks: seq<Readings>, name: Name)
    requires checks != []
    ensures var init, readings := checks[..|checks| - 1], checks[|checks| - 1];
      Consumed(History(checks, name)) == Consumed(History(init, name)) +
        if Takes(AlarmOf(checks), readings, name) then [readings[name]] else []
  {
    var init, readings := checks[..|checks| - 1], checks[|checks| - 1];
    var h := History(init, name);
    if name in readings {
      HistorySnoc(h, Reading(readings[name], Takes(AlarmOf(checks), readings, name)));
    } else {
      assert History(checks, name) == h + [] == h;
    }
  }

  /**
   * Over any sequence of checks the packets reported for a counter are the segment total of the
   * readings its checks consumed, and its baseline is the last of them. Alarms of other counters and
   * missing readings neither add nor lose anything.
   */
  lemma {:induction false} ReportedIsSegmentTotal(checks: seq<Readings>, name: Name)
    ensures Reported(checks, name) == SegmentTotal(Consumed(History(checks, name)))
    ensures Base(After(checks), name) == Last(Consumed(History(checks, name)))
  {
    if checks != [] {
      var init, readings := checks[..|checks| - 1], checks[|checks| - 1];
      ReportedIsSegmentTotal(init, name);
      ScanOne(After(init), readings, name);
      HistoryStep(checks, name);
      var consumed := Consumed(History(init, name));
      if Takes(AlarmOf(checks), readings, name) {
        SegmentTotalSnoc(consumed, readings[name]);
      } else {
        assert consumed + [] == consumed;
      }
    }
  }

  // ---------------------------------------------------------------- readings an early return skipped

  /** Going from `a` by way of `b` to `c` passes at most one restart, and none that hides packets beyond `a`. */
  predicate OneTurn(a: nat, b: nat, c: nat) {
    a <= b <= c || (c < a && a == b) || b <= c < a
  }

  /** Each reading lies on one turn of the counter with the last consumed reading and the reading before it. */
  predicate NothingHidden(history: seq<Reading>) {
    forall k | 0 <= k < |history| ::
      OneTurn(Last(Consumed(history[..k])), Last(Values(history[..k])), history[k].value)
  }

  /** What was reported, plus what consuming the last reading now would report. */
  function Accounted(history: seq<Reading>): nat {
    SegmentTotal(Consumed(history)) + New(Last(Consumed(history)), Last(Values(history)))
  }

  lemma {:induction false} NothingHiddenSnoc(history: seq<Reading>, r: Reading)
    ensures NothingHidden(history + [r]) <==>
      NothingHidden(history) && OneTurn(Last(Consumed(history)), Last(Values(history)), r.value)
  {
    var all := history + [r];
    assert forall k | 0 <= k < |history| :: all[..k] == history[..k] && all[k] == history[k];
    assert all[..|history|] == history && all[|history|] == r;
  }

  lemma OneTurnExactly(a: nat, b: nat, c: nat)
    ensures New(a, b) + New(b, c) >= New(a, c)
    ensures New(a, b) + New(b, c) == New(a, c) <==> OneTurn(a, b, c)
  {
  }

  /** One more reading leaves as much unaccounted as it passes beyond one turn. */
  lemma AccountedSnoc(history: seq<Reading>, r: Reading)
    ensures var (a, b) := (Last(Consumed(history)), Last(Values(history)));
      SegmentTotal(Values(history + [r])) - Accounted(history + [r]) ==
        SegmentTotal(Values(history)) - Accounted(history) + New(a, b) + New(b, r.value) - New(a, r.value)
  {
    HistorySnoc(history, r);
    SegmentTotalSnoc(Values(history), r.value);
    if r.consumed {
      SegmentTotalSnoc(Consumed(history), r.value);
    } else {
      assert Consumed(history) + [] == Consumed(history);
    }
  }

  lemma {:induction false} AccountedExactly(history: seq<Reading>)
    ensures Accounted(history) <= SegmentTotal(Values(history))
    ensures Accounted(history) == SegmentTotal(Values(history)) <==> NothingHidden(history)
  {
    if history != [] {
      var init, r := history[..|history| - 1], history[|history| - 1];
      assert history == init + [r];
      AccountedExactly(init);
      AccountedSnoc(init, r);
      NothingHiddenSnoc(init, r);
      OneTurnExactly(Last(Consumed(init)), Last(Values(init)), r.value);
    }
  }

  /**
   * Conservation: nothing is reported twice, and reported plus unreported packets equal the segment
   * total of all readings exactly when no reading an early return skipped hid a restart.
   */
  lemma ReportedPlusUnreported(checks: seq<Readings>, name: Name)
    ensures var h := History(checks, name);
      var accounted := Reported(checks, name) + New(Base(After(checks), name), Last(Values(h)));
      && accounted <= SegmentTotal(Values(h))
      && (accounted == SegmentTotal(Values(h)) <==> NothingHidden(h))
  {
    ReportedIsSegmentTotal(checks, name);
    AccountedExactly(History(checks, name));
  }

  /** The first counter is never skipped: everything it shows is reported, whatever the others do. */
  lemma {:induction false} FirstCounterLosesNothing(checks: seq<Readings>)
    ensures Reported(checks, Doh) == SegmentTotal(Values(History(checks, Doh)))
  {
    ReportedIsSegmentTotal(checks, Doh);
    FirstCounterAlwaysConsumed(checks);
  }

  lemma {:induction false} FirstCounterAlwaysConsumed(checks: seq<Readings>)
    ensures Consumed(History(checks, Doh)) == Values(History(checks, Doh))
  {
    if checks != [] {
      var init, readings := checks[..|checks| - 1], checks[|checks| - 1];
      FirstCounterAlwaysConsumed(init);
      if Doh in readings {
        HistorySnoc(History(init, Doh), Reading(readings[Doh], true));
      } else {
        assert History(checks, Doh) == History(init, Doh) + [] == History(init, Doh);
      }
    }
  }

  /** A first counter that moved ends the check; one that did not lets the second be read. */
  lemma FirstTwo(baseline: Readings, readings: Readings)
    requires Doh in readings && Dot in readings
    ensures var fired := New(Base(baseline, Doh), readings[Doh]);
      fired > 0 ==> Scan(baseline, readings, ORDER) == (baseline[Doh := readings[Doh]], Some(Alarm(Doh, fired)))
    ensures var fired := New(Base(baseline, Dot), readings[Dot]);
      New(Base(baseline, Doh), readings[Doh]) == 0 && fired > 0 ==>
        Scan(baseline, readings, ORDER).1 == Some(Alarm(Dot, fired))
  {
    assert ORDER[0] == Doh && ORDER[1..][0] == Dot;
  }

  lemma SkippedThenRead(checks: seq<Readings>, first: nat, second: nat)
    requires History(checks, Dot) == [Reading(first, false), Reading(second, true)]
    ensures Values(History(checks, Dot)) == [first, second]
    ensures Reported(checks, Dot) == second
    ensures Base(After(checks), Dot) == second
  {
    var none: seq<Reading> := [];
    HistorySnoc(none, Reading(first, false));
    HistorySnoc([Reading(first, false)], Reading(second, true));
    assert none + [Reading(first, false)] == [Reading(first, false)];
    assert [Reading(first, false)] + [Reading(second, true)] == History(checks, Dot);
    assert Consumed(History(checks, Dot)) == [second];
    ReportedIsSegmentTotal(checks, Dot);
    assert [second][1..] == [];
  }

  /**
   * A restart behind a skipped reading does lose packets: a DoH alarm skips DoT at 9, the table is
   * reloaded, and the next check finds DoT at 7. Seven of sixteen packets are reported.
   */
  lemma HiddenRestartLosesPackets(before: Readings, after: Readings)
    requires before == map[Doh := 1, Dot := 9] && after == map[Doh := 1, Dot := 7]
    ensures var checks := [before, after];
      && Reported(checks, Dot) == 7
      && New(Base(After(checks), Dot), 7) == 0
      && SegmentTotal(Values(History(checks, Dot))) == 16
  {
    var checks, reset: Readings := [before, after], map[];
    assert checks[..1] == [before] && [before][..0] == [];
    FirstTwo(reset, before);
    assert AlarmOf([before]) == Some(Alarm(Doh, 1));
    assert Base(After([before]), Doh) == 1 && Base(After([before]), Dot) == 0;
    FirstTwo(After([before]), after);
    assert AlarmOf(checks) == Some(Alarm(Dot, 7));
    assert History([before], Dot) == [Reading(9, false)];
    assert History(checks, Dot) == [Reading(9, false), Reading(7, true)];
    SkippedThenRead(checks, 9, 7);
    assert [9, 7][1..] == [7] && [7][1..] == [];
  }
}
