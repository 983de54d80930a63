// ttp/commands/start.py steps 2 to 4 with their rollbacks, and the overlay of ttp/dns.py as a mount stack.
module Startup {
  import opened Wrappers
  import opened Kernel
  import B = Builder

  /** What is mounted on resolv.conf, bottom first. */
  datatype Layer = Ttp | Foreign(id: nat)

  const CLEAR_LIMIT: nat := 100

  // ---------------------------------------------------------------- the stack

  predicate HasTtp(layers: seq<Layer>) { Ttp in layers }

  /** The lowest overlay of TTP's; the height of the stack when there is none. */
  function Lowest(layers: seq<Layer>): (k: nat)
    ensures k <= |layers|
    ensures k < |layers| ==> layers[k] == Ttp
    ensures forall i | 0 <= i < k :: layers[i] != Ttp
  {
    if layers == [] then 0 else if layers[0] == Ttp then 0 else 1 + Lowest(layers[1..])
  }

  /** The height down to which stale mounts are cleared: the lowest overlay, at most a hundred layers away. */
  function ClearedHeight(layers: seq<Layer>): (n: nat)
    ensures n <= |layers|
  {
    if |layers| - Lowest(layers) > CLEAR_LIMIT then |layers| - CLEAR_LIMIT else Lowest(layers)
  }

  function Cleared(layers: seq<Layer>): seq<Layer> { layers[..ClearedHeight(layers)] }

  function Foreigns(layers: seq<Layer>): seq<nat> {
    if layers == [] then []
    else
      var last := layers[|layers| - 1];
      Foreigns(layers[..|layers| - 1]) + if last.Foreign? then [last.id] else []
  }

  lemma {:induction false} ForeignsConcat(a: seq<Layer>, b: seq<Layer>)
    ensures Foreigns(a + b) == Foreigns(a) + Foreigns(b)
    ensures |Foreigns(b)| == 0 <==> forall layer | layer in b :: layer == Ttp
  {
    if b == [] {
      assert a + b == a;
    } else {
      var init, last := b[..|b| - 1], b[|b| - 1];
      ForeignsConcat(a, init);
      assert (a + b)[..|a + b| - 1] == a + init;
      assert forall layer :: layer in b <==> layer in init || layer == last;
      assert last.Foreign? ==> last != Ttp && last in b;
    }
  }

  /** Clearing spares other people's mounts exactly when none of them lies among the layers it removes. */
  lemma ClearedSparesForeigners(layers: seq<Layer>)
    ensures Foreigns(Cleared(layers)) == Foreigns(layers) <==>
      forall layer | layer in layers[ClearedHeight(layers)..] :: layer == Ttp
  {
    var rest := layers[ClearedHeight(layers)..];
    assert layers == Cleared(layers) + rest;
    ForeignsConcat(Cleared(layers), rest);
  }

  lemma NoneBelow(layers: seq<Layer>, n: nat)
    requires n <= |layers|
    ensures HasTtp(layers[..n]) <==> Lowest(layers) < n
  {
    var low := Lowest(layers);
    if low < n {
      assert layers[..n][low] == Ttp;
    }
  }

  /** Clearing removes every overlay exactly when the lowest is within a hundred layers of the top. */
  lemma ClearedIsClean(layers: seq<Layer>)
    ensures !HasTtp(Cleared(layers)) <==> |layers| - Lowest(layers) <= 100
    ensures Cleared(layers) == layers[..if |layers| - Lowest(layers) <= 100 then Lowest(layers) else |layers| - 100]
  {
    var low := Lowest(layers);
    if low < ClearedHeight(layers) {
      assert Cleared(layers)[low] == Ttp;
    }
  }

  function Top(layers: seq<Layer>): Layer
    requires layers != []
  {
    layers[|layers| - 1]
  }

  function Base(layers: seq<Layer>): seq<Layer>
    requires layers != []
  {
    layers[..|layers| - 1]
  }

  /** Some of the clearable layers are gone, from the top. */
  predicate Truncates(was: seq<Layer>, now: seq<Layer>) { ClearedHeight(was) <= |now| <= |was| && now == was[..|now|] }

  /** Whatever fails: clearable layers may be gone from the top, and one overlay may be new. */
  predicate Bounded(was: seq<Layer>, now: seq<Layer>) {
    Truncates(was, now) || (now != [] && Top(now) == Ttp && Truncates(was, Base(now)))
  }

  // ---------------------------------------------------------------- what the outside answers

  /** flush, delete and listing of one destroy_rules. */
  datatype Undo = Undo(flush: Outcome, delete: Outcome, listing: Outcome)

  predicate Works(u: Undo) { !u.flush.TimedOut? && u.delete.Done? && !u.listing.TimedOut? }

  datatype Resolved = Inactive | Configured | NotConfigured

  /** The steps of apply_dns: resolved, writing the file, each stale umount, the identity re-check, the mount. */
  datatype DnsPlan = DnsPlan(resolved: Resolved, written: bool, pops: nat -> Outcome, same: bool, mount: Outcome)

  datatype Plan = Plan(
    apply: Outcome, inner: Undo, dns: DnsPlan, replaced: bool, unlinked: bool, rollback: Undo, umount: Outcome)

  datatype Exit = Started | Failed | Crashed

  /** How far a start got. */
  predicate RulesOk(p: Plan) { p.apply.Done? }
  predicate Clears(d: DnsPlan) { !d.resolved.NotConfigured? && d.written }
  ghost predicate PopsWork(d: DnsPlan) { forall i: nat :: d.pops(i).Done? }
  predicate LockOk(p: Plan) { p.replaced && p.unlinked }

  /** Rules, overlay and lock, when the stale layers come off without a hitch. */
  predicate ReachesLock(p: Plan) { RulesOk(p) && Clears(p.dns) && p.dns.same && p.dns.mount.Done? }

  /** A mount that was given up on, though the kernel had made it. */
  predicate MountLingers(p: Plan) {
    RulesOk(p) && Clears(p.dns) && p.dns.same && p.dns.mount.TimedOut? && p.dns.mount.committed
  }

  function LayersLeft(layers: seq<Layer>, p: Plan): seq<Layer> {
    if !RulesOk(p) || !Clears(p.dns) then layers
    else Cleared(layers) + if MountLingers(p) then [Ttp] else []
  }

  /**
   * When stale overlays lie on top of everyone else's mounts and number at most a hundred, a failed
   * start leaves the stack as others made it, free of overlays, exactly unless it failed with stale
   * overlays before it came to clear them or gave up on a mount that was made.
   */
  lemma FailedStartStack(layers: seq<Layer>, p: Plan)
    requires |layers| - Lowest(layers) <= 100
    requires forall i | Lowest(layers) <= i < |layers| :: layers[i] == Ttp
    ensures var early := p.apply != Done || p.dns.resolved == NotConfigured || !p.dns.written;
      !HasTtp(LayersLeft(layers, p)) && Foreigns(LayersLeft(layers, p)) == Foreigns(layers) <==>
        !(HasTtp(layers) && early) && (early || !p.dns.same || p.dns.mount != TimedOut(true))
  {
    ClearedIsClean(layers);
    ClearedSparesForeigners(layers);
    assert LayersLeft(layers, p) == Cleared(layers) + [] ==> LayersLeft(layers, p) == Cleared(layers);
    if MountLingers(p) {
      assert Top(LayersLeft(layers, p)) == Ttp;
    }
  }

  // ---------------------------------------------------------------- the host

  class Host {
    const fw: Firewall
    var layers: seq<Layer>
    var dropIn: bool
    var lock: Option<nat>
    var marker: bool
    var torRunning: bool

    constructor (layers: seq<Layer>, torRunning: bool)
      ensures fresh(fw) && fw.table == None
      ensures this.layers == layers && this.torRunning == torRunning
      ensures lock == None && !marker && !dropIn
    {
      fw := new Firewall();
      this.layers, this.torRunning := layers, torRunning;
      lock, marker, dropIn := None, false, false;
    }

    /** umount -l removes the topmost layer. */
    method Unmount(o: Outcome)
      modifies this`layers
      ensures layers == if Commits(o) && old(layers) != [] then old(layers)[..|old(layers)| - 1] else old(layers)
    {
      if Commits(o) && layers != [] {
        layers := layers[..|layers| - 1];
      }
    }

    /** Whatever the umounts do, only layers from the lowest overlay up go, top first; when all work, exactly those. */
    method ClearStaleMounts(pops: nat -> Outcome) returns (raised: bool)
      modifies this`layers
      ensures Truncates(old(layers), layers)
      ensures (forall i: nat :: pops(i).Done?) ==> !raised && layers == Cleared(old(layers))
      ensures raised ==> exists i: nat :: pops(i).TimedOut?
    {
      ghost var n := |layers|;
      for i := 0 to CLEAR_LIMIT
        invariant 0 <= n <= |old(layers)| && layers == old(layers)[..n]
        invariant n >= ClearedHeight(old(layers)) && |old(layers)| - n <= i
        invariant (forall k: nat :: pops(k).Done?) ==> n == |old(layers)| - i
      {
        if !HasTtp(layers) {
          NoneBelow(old(layers), n);
          return false;
        }
        NoneBelow(old(layers), n);
        Unmount(pops(i));
        if Commits(pops(i)) {
          n := n - 1;
        }
        if pops(i).TimedOut? {
          return true;
        }
      }
      return false;
    }

    /** Remove resolved's drop-in; both halves are best effort, so the removal is the whole effect. */
    method RestoreResolved()
      modifies this`dropIn
      ensures !dropIn
    {
      dropIn := false;
    }

    /** None is the DNSError every failure becomes; otherwise the backup, which says whether resolved was configured. */
    method ApplyDns(d: DnsPlan) returns (backup: Option<bool>)
      modifies this`layers, this`dropIn
      ensures backup.Some? ==> Clears(d) && d.same && d.mount.Done? && backup.value == d.resolved.Configured?
      ensures PopsWork(d) && Clears(d) && d.same && d.mount.Done? ==> backup.Some?
      ensures !Clears(d) ==> layers == old(layers)
      ensures Bounded(old(layers), layers)
      ensures backup.Some? ==> layers != [] && Top(layers) == Ttp && Truncates(old(layers), Base(layers))
      ensures PopsWork(d) && Clears(d) ==>
        layers == Cleared(old(layers)) + if d.same && Commits(d.mount) then [Ttp] else []
      ensures dropIn ==
        if backup.Some? then old(dropIn) || d.resolved.Configured? else old(dropIn) && d.resolved.Inactive?
    {
      match d.resolved {
        case Inactive =>
        case Configured => dropIn := true;
        case NotConfigured =>
          dropIn := true;
          RestoreResolved();
          return None;
      }
      var failed := !d.written;
      if !failed {
        failed := ClearStaleMounts(d.pops);
      }
      failed := failed || !d.same;
      if !failed {
        if Commits(d.mount) {
          layers := layers + [Ttp];
        }
        failed := !d.mount.Done?;
      }
      if failed {
        if d.resolved.Configured? {
          RestoreResolved();
        }
        return None;
      }
      return Some(d.resolved.Configured?);
    }

    /** Unmount one layer when an overlay is on the stack; only a hanging umount raises. */
    method RestoreDns(resolved: bool, umount: Outcome) returns (raised: bool)
      modifies this`layers, this`dropIn
      ensures layers == if HasTtp(old(layers)) && Commits(umount) then old(layers)[..|old(layers)| - 1] else old(layers)
      ensures raised <==> HasTtp(old(layers)) && umount.TimedOut?
      ensures dropIn == (old(dropIn) && (raised || !resolved))
    {
      if HasTtp(layers) {
        Unmount(umount);
        if umount.TimedOut? {
          return true;
        }
      }
      if resolved {
        RestoreResolved();
      }
      return false;
    }

    /** Replace the lock, then drop the stop marker; either failure is the same StateError. */
    method WriteLock(session: nat, replaced: bool, unlinked: bool) returns (raised: bool)
      modifies this`lock, this`marker
      ensures raised <==> !(replaced && unlinked)
      ensures lock == if replaced then Some(session) else old(lock)
      ensures marker == (old(marker) && raised)
    {
      if !replaced {
        return true;
      }
      lock := Some(session);
      if !unlinked {
        return true;
      }
      marker := false;
      return false;
    }

    method StopTor(external: bool)
      modifies this`torRunning
      ensures torRunning == (old(torRunning) && external)
    {
      if !external {
        torRunning := false;
      }
    }

    /** Stop a managed Tor, then destroy the table; a destroy that raises ends the process. */
    method RollBack(external: bool, u: Undo) returns (raised: bool)
      modifies this`torRunning, fw
      ensures torRunning == (old(torRunning) && external)
      ensures Works(u) ==> !raised && fw.table == None
    {
      StopTor(external);
      var r := fw.DestroyRules(u.flush, u.delete, u.listing);
      raised := r != Gone;
    }

    /** Steps 3 and 4, with the rules in force. */
    method OverlayAndLock(external: bool, session: nat, p: Plan) returns (exit: Exit)
      requires RulesOk(p)
      modifies this, fw
      ensures exit == Started ==>
        && fw.table == old(fw.table)
        && layers != [] && Top(layers) == Ttp && Truncates(old(layers), Base(layers))
        && lock == Some(session) && !marker && torRunning == old(torRunning)
      ensures PopsWork(p.dns) ==> (exit == Started <==>
        && p.apply == Done && p.dns.resolved != NotConfigured && p.dns.written && p.dns.same && p.dns.mount == Done
        && p.replaced && p.unlinked)
      ensures Bounded(old(layers), layers)
      ensures lock == old(lock) || (p.replaced && lock == Some(session))
      ensures marker ==> old(marker)
      ensures torRunning ==> old(torRunning)
      ensures exit != Started && Works(p.rollback) && p.umount.Done? ==>
        && exit == Failed
        && fw.table == None
        && torRunning == (old(torRunning) && external)
        && (dropIn ==> old(dropIn))
      ensures exit != Started && Works(p.rollback) && p.umount.Done? && PopsWork(p.dns) ==>
        && layers == LayersLeft(old(layers), p)
        && lock == (if p.apply == Done && p.dns.resolved != NotConfigured && p.dns.written && p.dns.same &&
                       p.dns.mount == Done && p.replaced then Some(session) else old(lock))
    {
      var backup := ApplyDns(p.dns);
      var raised: bool;
      if backup.None? {
        raised := RollBack(external, p.rollback);
        return if raised then Crashed else Failed;
      }
      raised := WriteLock(session, p.replaced, p.unlinked);
      if !raised {
        return Started;
      }
      raised := RollBack(external, p.rollback);
      if !raised {
        raised := RestoreDns(backup.value, p.umount);
      }
      return if raised then Crashed else Failed;
    }

    /**
     * Steps 2 to 4 of start. When the undo commands work, a failed start leaves no table, a managed
     * Tor stopped and an external one untouched, and of the overlay and the lock exactly what is said here.
     */
    method StartSession(cfg: B.Config, external: bool, session: nat, p: Plan) returns (exit: Exit)
      modifies this, fw
      ensures exit == Started ==>
        && fw.table == Some(B.SessionTable(B.Rules(cfg)))
        && layers != [] && Top(layers) == Ttp && Truncates(old(layers), Base(layers))
        && lock == Some(session) && !marker && torRunning == old(torRunning)
      ensures PopsWork(p.dns) ==> (exit == Started <==>
        && p.apply == Done && p.dns.resolved != NotConfigured && p.dns.written && p.dns.same && p.dns.mount == Done
        && p.replaced && p.unlinked)
      ensures Bounded(old(layers), layers)
      ensures lock == old(lock) || (p.replaced && lock == Some(session))
      ensures marker ==> old(marker)
      ensures torRunning ==> old(torRunning)
      ensures exit != Started && Works(p.inner) && Works(p.rollback) && p.umount.Done? ==>
        && exit == Failed
        && fw.table == None
        && torRunning == (old(torRunning) && external)
        && (dropIn ==> old(dropIn))
      ensures exit != Started && Works(p.inner) && Works(p.rollback) && p.umount.Done? && PopsWork(p.dns) ==>
        && layers == LayersLeft(old(layers), p)
        && lock == (if p.apply == Done && p.dns.resolved != NotConfigured && p.dns.written && p.dns.same &&
                       p.dns.mount == Done && p.replaced then Some(session) else old(lock))
    {
      var raised, escaped := fw.ApplyRules(cfg, p.apply, p.inner.flush, p.inner.delete, p.inner.listing);
      if escaped {
        return Crashed;
      }
      if raised {
        raised := RollBack(external, p.rollback);
        return if raised then Crashed else Failed;
      }
      exit := OverlayAndLock(external, session, p);
    }
  }
}
