# TTP: containment and the emergency protocol, in Dafny

TTP routes a Linux host through Tor. Two parts of it decide whether anything can leave the host in
cleartext, and this project models and proves both, with the loops that feed them:

* **What the kernel lets through.** `Packets`, `Nft`, `Builder`, `Containment`, `Kernel` and
  `Verification` give nftables rules a packet semantics, compile a session's configuration into its
  chains as `ttp/firewall/builder.py` does, and prove what the session table, the killswitch, every
  table a teardown passes through, and every table the emergency check accepts let through.
* **Who may act.** `Intent`, `Causes`, `Evidence`, `SessionSafety`, `Protocol` and `Correspondence` model emergency
  requests, stops, restorations and starts, first as one process runs them with every possible
  failure, then as any number of processes interleaved step by step with crashes.
* **What runs on top.** `Settings`, `Supervisor` and `Service` (the timed supervision loop, its
  validated deadlines, and what a reader may conclude from its record), `Records` (atomic records
  and the transition lock), `Integrity` (counter accounting), `Probe` (session verification),
  `Inotify` (the event walk) and `Startup` (start with its rollbacks over the resolv.conf mount stack).

Code that works step by step is a class or a method with loops, tied to a specification function by
its contract; the lemmas are about those functions. Protocols are step relations with a program
counter for every process, and theorems quantify over every run.

## Reading guide

| question | answer |
|---|---|
| What may leave during a session? | `Containment.SessionContained`, `Containment.FilterContains`, `Containment.NonExemptDisposition` |
| Can teardown open a gap? | `Kernel.RunStaysContained`, `Kernel.TeardownSilences`, `Kernel.FlushEffect` |
| What does "emergency verified" mean? | `Verification.AcceptedIsolates`, `Verification.InspectEmergencyRules`, `SessionSafety.Session.RequestEmergency` |
| Can a stale worker override a stop? | `Protocol.IntentIsNeverOverridden`, `Protocol.StopIsOverriddenExactly`, `Protocol.MarkerAloneForbidsActing` |
| Can a latch disappear? | `Records.LatchIsNeverCleared`, `Supervisor.NeverHealthyAgain` |
| What does "healthy" mean to a reader? | `Service.HealthyAnswerIsEarned`, `Supervisor.ProgressGap`, `Supervisor.NeverHealthyAgain` |

## Assumptions

* `dnat ip` acts on IPv4 packets only and `dnat ip6` on IPv6 packets only; `meta skuid` and
  `meta skgid` tests, `!=` included, match no packet without a socket.
* NAT is evaluated on the first packet of a connection. Other NAT chains appear only as the arbitrary
  translation of `Containment.ForeignNatCannotLeakDns` and `Containment.AlarmMeansForeignTranslation`.
* `fib daddr type local` and routing to the loopback device are uninterpreted predicates of the
  destination. Lemmas that need it require `LoopbackRouting`: the loopback device carries only
  traffic to loopback or to the host's own addresses.
* One `nft` run commits all of its input or nothing; a run that timed out may have committed. An nft
  child does not outlive the worker that started it.
* The LAN ranges are those of section 3 of RFC 1918, section 2.1 of RFC 3927, section 3.1 of RFC 4193
  and section 2.5.6 of RFC 4291.
* Record names are injective in kind and session, and session identities are fresh: sessions are numbered.
* The flock-style transition lock is exclusive and is released when its holder ends.
* Bookkeeping between the supervisor's timed operations takes no time, and SIGALRM bounds each stage
  by the check timeout. An exception may break the supervisor off after any of its events and at any
  time before the next is due; a record that cannot be written stays as it was. A killed supervisor
  leaves a prefix of a run (`Supervisor.PrefixObeys`).
* Integers of an inotify header are little-endian.

## Where the code and its promises part

Each of these is proved, with the exact condition or a concrete run.

* `destroy_rules` returns success with the table still in the kernel exactly when the table existed,
  its delete was refused and listing it failed as well (`Kernel.Firewall.DestroyRules`).
* An nft timeout is not turned into a `FirewallError` by the runner, so a failed application of the
  killswitch may have committed; the record then says "not applied" while the inspection decides
  (`SessionSafety.Session.ApplyAndInspect`).
* Intent does not hold for workers that may act without a lock through every crash. For a stopped
  session such a worker can by its own steps come to act if and only if the marker does not cover the session, and, as
  long as its reads succeed, only when the lock is gone too (`Protocol.StopIsOverriddenExactly`; for
  every state and every worker `Protocol.CanComeToActExactly`). The next three points show how a
  marker fails to be there.
* A stop that crashes between its two intent writes leaves only the lock to say Stopping. A worker
  that may act without a lock treats a failed strict read as an absent lock, and acts
  (`Protocol.FailedReadOverridesCrashedStop`). No other worker acts while the lock says so; the window
  ends with another stop's deletion of the lock or a new session (`Protocol.IntentEndsExactly`).
* A stop of a later session replaces the stop marker of an older one. A worker that may act without a
  lock, of the older session, can then act (`Protocol.OlderWorkerCanActAfterLaterStop`).
* `write_lock` publishes the lock and removes the marker in two steps; a stop between them loses its
  marker (`Protocol.UnlinkErasesConcurrentStop`). An `update_lock_keys` outside the transition lock
  that races with a stop and a start brings the stopped session's lock back (`Protocol.SplitUpdateResurrectsSession`).
* A containment whose publication fails is not seen by readers of the record: until the supervisor's
  unit is reported as ended they may be told "healthy", for less than the maximum age
  (`Supervisor.ContainmentCanStayUnpublished`, `Service.AnswerAfterUnpublishedContainment`).
* A record that is replaced between a reader's open and its fstat is refused as unsafe although it is
  complete (`Records.ReadRefusesOnlyReplacedFile`).
* A counter reading that an earlier alarm skipped can hide a restart of the counters. Accounting is
  exact if and only if none does (`Integrity.ReportedPlusUnreported`, `Integrity.HiddenRestartLosesPackets`).
* A failed start is not quite all-or-nothing: the lock stays when its file was written but the marker
  could not be removed; stale overlays stay when it failed before clearing them; an overlay stays when
  `mount` was given up on after the kernel made it (`Startup.Host.StartSession`, `Startup.FailedStartStack`).

## Model

| member | source | states |
|---|---|---|
| Packets.LoopbackIsItsPrefix | ttp/firewall/builder.py:127-128 | loopback is 127.0.0.0/8, by prefix, and ::1 |
| Packets.LanIsItsPrefixes | ttp/firewall/builder.py:91 | the IPv4 LAN is 10/8, 172.16/12, 192.168/16 and 169.254/16, by prefix |
| Packets.Lan6IsItsPrefixes | ttp/firewall/builder.py:93 | the IPv6 LAN is fc00::/7 and fe80::/10, by prefix |
| Packets.AddressesAreWritten | ttp/firewall/builder.py:132-169 | localhost and the IPv4 DoH resolvers by their dotted addresses |
| Packets.Doh6IsWritten | ttp/firewall/builder.py:175 | the IPv6 DoH resolvers by their hextets |
| Nft.DecideConcat | ttp/firewall/builder.py:212-325 | first terminating verdict wins: a chain of two parts decides as its first part, or else its second |
| Builder.BuildBypass | ttp/firewall/builder.py:97-116 | the append loops over uids and gids produce the bypass rules of nat output and filter_out, in order |
| Builder.BuildRuleset | ttp/firewall/builder.py:88-332 | the built ruleset is the configuration's specification, chain by chain |
| Containment.DecideBypassNat | ttp/firewall/builder.py:103-113 | bypass rules decide in nat output by membership alone, never for the localhost addresses |
| Containment.DecideBypassFilter | ttp/firewall/builder.py:103-114 | bypass rules decide in filter_out by membership alone |
| Containment.NatOutputClosedForm | ttp/firewall/builder.py:212-237 | the nat output chain equals a closed-form decision on every configuration and packet |
| Containment.PreroutingClosedForm | ttp/firewall/builder.py:196-207 | the nat prerouting chain equals its closed form |
| Containment.FilterOutClosedForm | ttp/firewall/builder.py:242-325 | filter_out equals its closed form and always decides, so its accept policy is never reached |
| Containment.SessionOutput | ttp/firewall/builder.py:179-332 | a session table passes an output packet iff filter_out accepts what nat output made of it |
| Containment.FilterContains | ttp/firewall/builder.py:242-325 | whatever NAT did, an accepted packet stays home, is exempt or goes to a bypassed LAN; without IPv6 only Tor's IPv6 packets are accepted |
| Containment.SessionContained | ttp/firewall/builder.py:67-71 | every packet a session lets out is local, exempt, Tor's own, or on the bypassed LAN, for all configurations |
| Containment.SessionForwardsNothing | ttp/firewall/builder.py:327-332 | no packet is forwarded during a session |
| Containment.NonExemptDisposition | ttp/firewall/builder.py:67-71 | a non-exempt connection's DNS goes to the DNSPort, its TCP to the TransPort, anything else and all unavailable IPv6 is refused |
| Containment.ExemptExactly | ttp/firewall/builder.py:95-114 | who is exempt, by what the configuration lists |
| Containment.CleartextNeverLeaves | ttp/firewall/builder.py:67-71 | towards an address outside 127/8, and outside the LAN blocks if they are bypassed, a non-exempt connection passes exactly when it is TCP or DNS of an available family, and then ends at Tor's port on localhost |
| Containment.NothingPublicWithoutExemption | ttp/firewall/builder.py:242-325 | whatever NAT did, what filter_out accepts towards a public address has an exempt sender, and over unavailable IPv6 only Tor |
| Containment.SessionHooks | ttp/firewall/builder.py:196-332 | the hooks, types, order and policies of the four chains |
| Containment.SessionPrerouting | ttp/firewall/builder.py:196-207 | the prerouting hook of the session table sends outside DNS and TCP to Tor's ports and leaves the rest |
| Containment.ForeignNatCannotLeakDns | ttp/firewall/builder.py:152-166 | after any foreign translation an accepted non-exempt packet of original port 53 goes to loopback, LAN bypass included |
| Containment.ExemptionsDoNotInterfere | ttp/firewall/builder.py:97-116 | changing the bypass lists never changes decision, translation or passage for senders whose membership is unchanged |
| Containment.AlarmsUnreachable | ttp/watchdog/integrity.py:195-204 | under the session's own translation no packet meets the DoT, TCP DoH or un-redirected DNS rules |
| Containment.AlarmMeansForeignTranslation | ttp/watchdog/integrity.py:195-222 | a packet that meets one of them was translated by someone else |
| Kernel.KillswitchExact | ttp/firewall/emergency.py:136-150 | the killswitch passes exactly what leaves or arrived on loopback, and forwards nothing |
| Kernel.KillswitchContained | ttp/firewall/emergency.py:126-150 | the killswitch isolates, and contains every session |
| Kernel.ReplacementIsolates | ttp/firewall/emergency.py:126-161 | a committed replacement leaves the killswitch whatever the kernel held, and every table of the run after it isolates |
| Kernel.IsolationLasts | ttp/firewall/emergency.py:50-123 | no teardown step before the flush undoes isolation |
| Kernel.InsertShrinks | ttp/firewall/emergency.py:59-75 | a blocking head insert never opens a table, never changes translation, and removes exactly the packets it matches |
| Kernel.LockdownLocks | ttp/firewall/emergency.py:50-78 | after the lockdown insert only loopback, Tor and packets without a socket still pass |
| Kernel.TeardownSilences | ttp/commands/lifecycle.py:73-92 | after the three inserts no TCP or UDP leaves at all, and the rest only through loopback, from Tor or without a socket, exactly |
| Kernel.SuccessfulTeardown | ttp/commands/lifecycle.py:73-92 | a teardown whose inserts succeed reaches that table |
| Kernel.RunStaysContained | ttp/commands/lifecycle.py:73-115 | from the commit of the rules to the flush, every table of every run of failing and timed-out steps contains the session and forwards nothing |
| Kernel.RunLeaksNothing | ttp/commands/lifecycle.py:73-115 | in every run, whatever leaves for a public address has a sender the configuration exempts |
| Kernel.FlushEffect | ttp/firewall/runner.py:251-257 | flushing a session table opens output completely; flushing the killswitch leaves it closed |
| Kernel.FlushKeepsChains | ttp/firewall/runner.py:251-257 | a flush removes every rule and nothing else |
| Kernel.StepKeepsGuard | ttp/firewall/runner.py:22-42 | a replacement that commits or not, like every teardown insert, leaves a table that contains the session and forwards nothing |
| Kernel.Firewall.ApplyEmergencyKillswitch | ttp/firewall/emergency.py:126-161 | the table is the killswitch when nft committed and the old one when not, and it raises exactly when nft did not succeed |
| Kernel.Firewall.ApplyTeardownLockdown | ttp/firewall/emergency.py:50-78 | refuses a negative uid unchanged, otherwise one insert whose failure is swallowed |
| Kernel.Firewall.ApplyActiveSocketSlaughter | ttp/firewall/emergency.py:81-123 | the TCP insert happens only after the UDP insert succeeded |
| Kernel.Firewall.DestroyRules | ttp/firewall/runner.py:239-290 | the table left, when success is reported with the table present, and when it raises, each exactly |
| Kernel.Firewall.ApplyRules | ttp/firewall/runner.py:222-236 | the session's table is in force, or the failure destroyed it and is re-raised |
| Kernel.Firewall.TearDown | ttp/commands/lifecycle.py:54-115 | a negative uid is dropped, the table before the flush results from exactly the lockdown, the UDP insert and, if that did not raise, the TCP insert; then flush and delete follow, and when they report success with the table present or raise is exact |
| Verification.MatchesEmergencyContract | ttp/firewall/verification.py:36-90 | accepts exactly the listings that keep the contract stated on entries |
| Verification.Judge | ttp/firewall/verification.py:45-90 | the collecting loop accepts exactly the listings that keep the contract |
| Verification.InspectEmergencyRules | ttp/firewall/verification.py:93-116 | verified is answered only for a parsed reply that keeps the contract |
| Verification.ContractIsRaw | ttp/firewall/verification.py:43-90 | the decided contract is the one a reader of the JSON states: only the five kinds of entries, family and table of each, and the exact table, chains and rules |
| Verification.ClassifyExactly | ttp/firewall/verification.py:49-74 | how each JSON entry is read, and that everything else refuses the listing |
| Verification.BystandersDoNotMatter | ttp/firewall/verification.py:53-74 | metainfo and counters of the table never change the answer |
| Verification.OrderIrrelevant | ttp/firewall/verification.py:49-77 | the decision depends on the multiset of entries only |
| Verification.AcceptedIsKillswitch | ttp/firewall/verification.py:36-90 | an accepted table is the killswitch plus chains without rules |
| Verification.AcceptedIsolates | ttp/firewall/verification.py:36-90 | an accepted table drops all non-loopback output and input and everything forwarded |
| Verification.KillswitchAccepted | ttp/firewall/emergency.py:136-150 | the killswitch's listing is accepted in whatever order nft lists it |
| Evidence.ExitCodeIsMaximum | ttp/evidence.py:100-106 | the exit code is that of an active diagnostic no other outranks |
| Evidence.ExitCodeIsFirstOfRanking | ttp/evidence.py:33-45 | a session exits with the first code of the fixed ranking that an active diagnostic has |
| Evidence.ExitCodeOrderIrrelevant | ttp/evidence.py:33-45 | for session codes only which codes are active matters |
| Evidence.ExitCodeMonotone | ttp/evidence.py:97-109 | adding diagnostics never lowers the priority of the exit code |
| Evidence.ExitCodeOfEmergency | ttp/evidence.py:33-45 | 8 exactly when anything says unconfirmed, 7 exactly when containment was verified and nothing says so |
| Evidence.NotificationsNeverMask | ttp/session_safety.py:142-159 | delivery diagnostics never change a 7 or an 8 |
| Causes.UpsertKeeps | ttp/session_safety.py:87-99 | one request keeps reasons distinct, adds at most one entry and forgets no reason |
| Causes.StoredIsLastOfEachReason | ttp/session_safety.py:87-113 | over any requests the stored list is the last cause of each reason in request order |
| SessionSafety.RequestExtendsStored | ttp/session_safety.py:87-113 | with readable evidence one request extends that fold by its cause |
| Intent.ChooseExactly | ttp/session_safety.py:71-86 | when a worker goes on, when it leaves quietly and when it fails, each exactly |
| SessionSafety.Session.MarkStopping | ttp/session_safety.py:163-172 | phase first and marker second are written under the lock and make every worker refuse; a changed session is refused unchanged |
| SessionSafety.InspectedIsolates | ttp/session_safety.py:115-136 | the reply a confirmed request relies on describes a table only loopback gets through |
| SessionSafety.LatchFirstThenInspect | ttp/session_safety.py:103-141 | the latch is tried first, the kernel is read right after every killswitch, the last reply is the one relied on, and the evidence comes last |
| SessionSafety.Session.Serialized | ttp/session_safety.py:70-141 | under the transition lock intent is read first; a refusal or failure to serialize changes nothing |
| SessionSafety.Session.ReadPrevious | ttp/session_safety.py:87-102 | the causes to store, and an 8 exactly when the previous evidence is unusable |
| SessionSafety.Session.ApplyAndInspect | ttp/session_safety.py:115-135 | a repair keeps a conforming table, otherwise the killswitch is applied; the verdict is the last inspection's |
| SessionSafety.Session.Latch | ttp/session_safety.py:87-113 | the cause is folded into readable evidence and stored, with `applied` reset unless this is a repair |
| SessionSafety.Session.Secure | ttp/session_safety.py:115-141 | a conforming table is kept on repair, the published evidence says what was applied and what was read |
| SessionSafety.Session.Contain | ttp/session_safety.py:87-141 | what record is left after each combination of write failures, and whether anything leaves containment unconfirmed |
| SessionSafety.Session.RequestEmergency | ttp/session_safety.py:42-160 | exit code 7 exactly when allowed, inspected, both records written and evidence and policy sound, and then the last listing read describes a table that isolates; the record left is stated field by field; a refused worker leaves no trace |
| SessionSafety.Session.SupervisionTerminated | ttp/session_safety.py:175-205 | a full request is carried through exactly for the session left unsupervised when intent lets it, nothing happens otherwise, and 7 is answered exactly as by a request |
| Protocol.MarkerInvKept | ttp/session_safety.py:71-86 | mutual exclusion and "no worker past the marker test is covered by the marker" survive every step, lock updates split or atomic |
| Protocol.AtomicInvKept | ttp/state.py:263-316 | with atomic updates the whole protocol invariant survives every step |
| Protocol.MarkerAloneForbidsActing | ttp/state.py:300-316 | in every run no worker is about to act for a session the marker covers |
| Protocol.IntentIsNeverOverridden | ttp/session_safety.py:71-86 | in every run, crashes included: while a session's lock says Stopping or a marker covers it, only a worker that needs no lock and failed to read it is about to act, never under a marker; afterwards only one that needs no lock and saw none |
| Protocol.IntentEndsExactly | ttp/state.py:232-316 | the steps that end the window in which intent stands, exactly |
| Protocol.CanComeToActExactly | ttp/session_safety.py:71-86 | from any state with a free transition lock a worker can come to act by its own steps if and only if the marker does not cover its session and either the lock is its own running session's, or it needs no lock and finds none or fails to read it |
| Protocol.StopIsOverriddenExactly | ttp/session_safety.py:71-86 | in every reachable state a worker that needs the lock can never by its own steps come to act for a stopped session, and one that does not can if and only if the marker does not cover it, with working reads if and only if moreover no lock exists |
| Protocol.WhoCanUndo | ttp/commands/lifecycle.py:111-127 | only a start, or a worker whose session no marker covers and that is under the same conditions, can put rules back after a finished destroy |
| Correspondence.RequestIsARun | ttp/session_safety.py:70-141 | a request that is let through is a run of one protocol worker: same effects in the same order for the same faults, same table, nothing else changed |
| Correspondence.RefusedRequestIsARun | ttp/session_safety.py:70-86 | a request that intent refuses, or that cannot read it, is a run that changes nothing |
| Protocol.FailedReadOverridesCrashedStop | ttp/session_safety.py:73-78 | a concrete run: a stop crashes between phase and marker and a worker that fails to read the lock acts |
| Protocol.OlderWorkerCanActAfterLaterStop | ttp/state.py:300-302 | a concrete run in which a later stop's marker lets an older worker act |
| Protocol.SplitUpdateResurrectsSession | ttp/state.py:263-275 | a concrete run in which a non-atomic update brings a stopped session back |
| Protocol.UnlinkErasesConcurrentStop | ttp/state.py:232-234 | a concrete run in which a start's unlink erases a stop's marker |
| Protocol.RunRestore | ttp/commands/stop_restart.py:40-74 | a restore-only stop ends without lock and table and lets no worker of any session pass |
| Records.InvKept | ttp/runtime_records.py:82-115 | published files are complete, requested payloads under their own name, after every step |
| Records.ReadsAreAtomic | ttp/runtime_records.py:117-166 | in every interleaving with crashes and reboots a read finds one complete requested payload of its name, session and boot |
| Records.ReadRefusesOnlyReplacedFile | ttp/runtime_records.py:127-134 | a reader refuses exactly when the file was replaced between its open and its fstat |
| Records.RenamePublishes | ttp/runtime_records.py:107 | the rename makes the record current for its session and boot |
| Records.LatchIsNeverCleared | ttp/session_safety.py:30-39 | once a record is published, every read of it begun later in that boot ends in a record or a refusal, never in nothing, in every interleaving without a reboot |
| Records.RecordStore.Write | ttp/runtime_records.py:82-115 | publishes the whole payload or leaves every record as it was, and no temporary file |
| Records.RecordStore.Read | ttp/runtime_records.py:117-166 | absent, or the decoding of the named file for this session and boot |
| Records.RecordStore.WriteThenRead | ttp/runtime_records.py:82-166 | a write reads back in its boot and is absent after a reboot |
| Records.AcquireTransition | ttp/runtime_records.py:169-200 | the lock is tried every 0.05 seconds and once at the deadline, until the first attempt that finds it free |
| Settings.SelectFailsExactly | ttp/settings.py:102-110 | a valid configuration refuses exactly a selection that enables notifications without room for them, and changes only the two switches |
| Settings.FromSnapshot | ttp/settings.py:112-123 | accepts exactly the snapshots of valid settings and returns those settings |
| Settings.SnapshotInjective | ttp/settings.py:67-68 | a snapshot determines its settings |
| Settings.ValidTimingIsSound | ttp/settings.py:82-90 | every validated configuration satisfies the supervisor's timing inequalities |
| Settings.WatchdogRanges | ttp/settings.py:36-90 | with the others at their defaults, each watchdog setting is valid in exactly this range |
| Settings.OtherRanges | ttp/settings.py:47-99 | the same for verification and notifications, enabled or not |
| Supervisor.RunSupervisor | ttp/watchdog/supervisor.py:38-149 | over every environment the loop computes the specified run, every event of it obeys the rules, and it ends in a last request, with the latch stored if it ever was, exactly when something raised |
| Supervisor.BrokenRun | ttp/watchdog/supervisor.py:144-147 | a run that something raises in is the unbroken run up to the exception, and then the last request |
| Supervisor.QuietIteration | ttp/watchdog/supervisor.py:70-117 | the events and times of an iteration without latch and due check |
| Supervisor.HealthyIteration | ttp/watchdog/supervisor.py:82-117 | the events and times of an iteration whose check passes |
| Supervisor.FailedIteration | ttp/watchdog/supervisor.py:82-117 | the events and times of an iteration whose check fails on anything but Tor or times out |
| Supervisor.HealedIteration | ttp/watchdog/supervisor.py:88-117 | the events and times of an iteration that heals Tor |
| Supervisor.RefailedIteration | ttp/watchdog/supervisor.py:88-117 | the events and times of an iteration whose repeated check fails |
| Supervisor.UnhealedIteration | ttp/watchdog/supervisor.py:88-117 | the events and times of an iteration that cannot restart Tor |
| Supervisor.LatchedIteration | ttp/watchdog/supervisor.py:74-81 | the events and times of an iteration with a stored latch |
| Supervisor.UnreadableIteration | ttp/watchdog/supervisor.py:74-81 | the events and times of an iteration with an unreadable latch, contained twice |
| Supervisor.WaitReports | ttp/watchdog/supervisor.py:120-143 | how long the wait lasts and what an event does to the observation |
| Supervisor.CutObeys | ttp/watchdog/supervisor.py:144-147 | a run that has not ended may break off after any of its events, at any time before the next, into a last request, and still obeys |
| Supervisor.ContainmentCanStayUnpublished | ttp/watchdog/supervisor.py:60-63 | a concrete run whose containment is not published, so that "healthy" stays the last publication |
| Supervisor.IterateObeys | ttp/watchdog/supervisor.py:70-115 | one iteration from reading intent to its notification obeys the rules and discharges every containment it owes |
| Supervisor.EvaluateObeys | ttp/watchdog/supervisor.py:82-114 | an evaluation, healing included, ends in a published "healthy" or a containment |
| Supervisor.WaitObeys | ttp/watchdog/supervisor.py:117-143 | the wait ends before "healthy" ages past a check interval; an event invalidates it first |
| Supervisor.ProgressGap | ttp/settings.py:82-86 | consecutive notifications without containment are within check timeout plus heartbeat, at most half the service timeout |
| Supervisor.HealthyStaysCurrent | ttp/evidence.py:124-131 | a published "healthy" stays current until the next evaluation or containment starts |
| Supervisor.NeverHealthyAgain | ttp/watchdog/supervisor.py:74-81 | after a containment with a stored latch "healthy" is never published again |
| Supervisor.HealthyOnlyAfterCheck | ttp/watchdog/supervisor.py:82-110 | "healthy" follows directly on a passing check of an unlatched iteration |
| Supervisor.ReadyOnlyAfterEvaluation | ttp/watchdog/supervisor.py:115-119 | READY is the first notification and follows the subscriptions and a completed evaluation or containment |
| Supervisor.NoProgressBeforeContainment | ttp/watchdog/supervisor.py:74-119 | between a finding that calls for containment and any progress a containment completes |
| Service.RecordOfLastPublication | ttp/watchdog/supervisor.py:55-63 | the record holds the last publication, as old as the last write that ended an iteration since |
| Service.AnswersExactly | ttp/watchdog/service.py:149-214 | which answer a reader gets in every case, by the fields on record and their ages |
| Service.AliveExactly | ttp/watchdog/service.py:217-220 | a supervisor counts as alive exactly for a reported "healthy" or "emergency" |
| Service.HealthyAnswerIsEarned | ttp/watchdog/service.py:149-214 | a reader's "healthy" has a passing check behind it, published within the maximum age and not replaced since |
| Service.NoHealthyAnswerAfterContainment | ttp/watchdog/service.py:149-220 | once a latched containment is published no reader gets "healthy" from the run |
| Service.AnswerAfterUnpublishedContainment | ttp/watchdog/service.py:178-214 | when publishing a latched containment failed, a reader still gets "healthy" exactly while the publication before it and its renewal are younger than the maximum age, and so is the containment |
| Service.LivenessIsEarned | ttp/watchdog/service.py:217-220 | a supervisor taken for alive last published "healthy" or "emergency", and both that and its last written record are younger than the maximum age |
| Service.HealthyAnswerUntilNextEvaluation | ttp/watchdog/service.py:182-214 | until the next evaluation or containment starts every reader gets the published "healthy" |
| Integrity.CounterBaseline.NewSinceLastCheck | ttp/watchdog/integrity.py:28-38 | what is reported is exactly what the new reading adds to the segment total of any readings that ended in the baseline |
| Integrity.CounterBaseline.CheckCounters | ttp/watchdog/integrity.py:206-222 | the loop with its early return leaves the baseline and alarm of its specification |
| Integrity.ScanOne | ttp/watchdog/integrity.py:206-222 | a check moves one counter's baseline and reports it exactly when it is read and no earlier counter raised the alarm |
| Integrity.ReportedIsSegmentTotal | ttp/watchdog/integrity.py:28-38 | over any checks the reported packets are the sum of the last readings of each non-decreasing segment of the consumed readings |
| Integrity.ReportedPlusUnreported | ttp/watchdog/integrity.py:203-222 | nothing is reported twice; reported plus pending is the total of all readings exactly when no skipped reading hid a restart |
| Integrity.FirstCounterLosesNothing | ttp/watchdog/integrity.py:207-211 | the first counter's accounting is exact without any condition |
| Integrity.HiddenRestartLosesPackets | ttp/watchdog/integrity.py:215-222 | two concrete checks after which nine of sixteen packets are never reported |
| Probe.VerifySession | ttp/probe.py:125-173 | the fetches keep the schedule, the clock and the verdict follow from them, refused timeouts and exempt identities fetch nothing, and every result exits with its state's code |
| Probe.Ask | ttp/probe.py:138-166 | one endpoint is asked with its own cut of the budget, and the reply concludes, ends the round or leaves the next endpoint due |
| Probe.AskRound | ttp/probe.py:137-166 | one round keeps the schedule and concludes or leaves all bookkeeping equal to its functions of the log |
| Probe.ScheduleBounds | ttp/probe.py:136-145 | at most fifteen fetches in five rounds, none after the deadline, none after an answer or a fatal failure |
| Probe.ScheduleSteps | ttp/probe.py:136-166 | who is asked when and with how much time, fetch by fetch, and what ends the sequence |
| Probe.InconclusiveExactly | ttp/probe.py:141-173 | why a verification without an authoritative answer ends |
| Probe.IssueExactly | ttp/probe.py:146-163 | which diagnostic each fetch leaves |
| Probe.IssuesConcat | ttp/probe.py:146-163 | every fetch leaves its own diagnostic, in order |
| Probe.FallbackIsLastReflected | ttp/probe.py:158-163 | the address of an inconclusive verification is the last a reflector gave |
| Probe.OnlyTheAuthorityDecides | ttp/probe.py:151-160 | confirmed and negative exactly when the first well-formed authority answer says so |
| Probe.WithinBudget | ttp/probe.py:138-145 | the verification returns by the deadline when every fetch respects its timeout |
| Probe.ExitCodeIsTheState | ttp/evidence.py:151-156 | the exit code is 0, 6 or 3 as a function of the state, for every verification whose diagnostics are history once it is confirmed |
| Inotify.InotifyWatchLost | ttp/watchdog/inotify.py:19-42 | terminates on every buffer and answers whether a completely present header carries DELETE_SELF or MOVE_SELF |
| Inotify.TruncatedDecode | ttp/watchdog/inotify.py:34-37 | cutting a buffer loses exactly the headers the cut no longer contains |
| Inotify.TruncationKeepsEarlierLosses | ttp/watchdog/inotify.py:34-37 | a truncated read reports a loss exactly when a header before the cut carries one |
| Inotify.DecodeEncoded | ttp/watchdog/inotify.py:15-16 | decoding packed events gives their headers back, whatever precedes them and a partial header after them |
| Inotify.EncodedLoss | ttp/watchdog/inotify.py:19-42 | on any encoded events a loss is reported iff an event carries it |
| Inotify.DeleteSelfOnTheWire | ttp/watchdog/inotify.py:12-16 | the sixteen bytes of a nameless IN_DELETE_SELF are read as one and reported |
| Startup.ClearedIsClean | ttp/dns.py:75-90 | clearing takes the layers down to the lowest overlay, at most a hundred, and is complete exactly within those |
| Startup.ClearedSparesForeigners | ttp/dns.py:75-90 | foreign mounts stay exactly when none lies among the layers removed |
| Startup.FailedStartStack | ttp/commands/start.py:289-348 | exactly when a failed start leaves the mount stack without overlays and foreign layers as they were |
| Startup.Host.ClearStaleMounts | ttp/dns.py:75-90 | whatever the umounts do only layers down to the lowest overlay go; when all work exactly those |
| Startup.Host.ApplyDns | ttp/dns.py:109-194 | an overlay on top of the cleared stack and resolved configured, or a failure that undoes the drop-in |
| Startup.Host.RestoreDns | ttp/dns.py:197-251 | one layer is unmounted when an overlay is present; only a hanging umount raises |
| Startup.Host.WriteLock | ttp/state.py:140-236 | the lock is published and the marker removed, or StateError, with the lock left in place by a failed unlink |
| Startup.Host.OverlayAndLock | ttp/commands/start.py:296-348 | steps 3 and 4 succeed, or their rollback leaves table, Tor, drop-in, stack and lock exactly as stated |
| Startup.Host.StartSession | ttp/commands/start.py:268-348 | started with rules, overlay and lock exactly when every step succeeds; otherwise the exact state the rollback leaves |

## Left out

- Containment.SessionContained: speaks of this table only; foreign tables can only drop more, or translate first as in Containment.ForeignNatCannotLeakDns.
- Containment.AlarmsUnreachable: covers original-direction packets and not the UDP 443 rules, which share the DoH counter and are reachable by design.
- Kernel.RunStaysContained: starts at the commit of the rules and ends at the flush, where containment ends by intent; emergency workers appear as replacement steps.
- Protocol.StopIsOverriddenExactly: assumes that every lock update is atomic with respect to stops and starts. `mark_stopping` updates under the transition lock, but `start_watchdog` and `stop_watchdog` do not; for split updates the marker half is proved (Protocol.MarkerAloneForbidsActing), the condition to act is the same (Protocol.CanComeToActExactly), and the rest is refuted by a run.
- Protocol.IntentIsNeverOverridden: under the same assumption.
- Supervisor.ProgressGap: iterations with a containment are excluded, since a request may wait for the transition lock and for nft.
- Probe.WithinBudget: parsing and process start are part of a fetch's own time; sleeps do not oversleep.
- Startup.Host.StartSession: the exact state is stated for undo commands that work; when a destroy or umount fails in turn, stack, lock, marker and Tor are only bounded and nothing is said of the table.
- Startup.Host.ClearStaleMounts: reading the mount table never fails, and best-effort removal of resolved's drop-in succeeds.
- Resolution of the Tor user, interface detection, preflight checks, recovery of a lock without session identity, and everything `start` does after publishing the lock.
- Rule-text rendering and parsing of nftables, the counters' byte values, the table fingerprint, and the other checks of `check_system_integrity` (overlay mount, resolv.conf content, bypass rules, Tor control), which appear as one check outcome.
- File ownership, modes, symbolic links and device checks, which are the kernel's business, and the systemd unit text.
- `load_settings` and its parser; `Settings` begins at typed values.
- The healing and suspend states of the watchdog's state machine, which the live loop does not use.
- The signal handler's refusal to tear down a latched session and the restart command's, each a single guard.
- Starting and stopping the watchdog unit, beyond their lock updates.
- Notification delivery: only its diagnostics appear.
