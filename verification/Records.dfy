// ttp/runtime_records.py: records published by create, fill and rename, read by open, stat and read,
// and the transition lock with its deadline.
module Records {
  import opened Wrappers

  // ---------------------------------------------------------------- the directory

  /** The envelope of a record; `data` stands for the JSON document inside it. */
  datatype Payload = Payload(session: string, boot: string, data: string)

  /** What a file holds: nothing yet, a truncated document, or the whole of one. */
  datatype Content = Empty | Partial | Complete(payload: Payload)

  /** Temporary names are fresh; a record's name determines its kind and session (injective hashing). */
  datatype FileName = Temporary(id: nat) | RecordFile(name: string, session: string)

  datatype Disk = Disk(entries: map<FileName, nat>, inodes: map<nat, Content>, next: nat)

  /** open(O_CREAT | O_EXCL) of a new temporary name: its inode is `next`. */
  function Create(d: Disk): Disk {
    Disk(d.entries[Temporary(d.next) := d.next], d.inodes[d.next := Empty], d.next + 1)
  }

  function Fill(d: Disk, inode: nat, c: Content): Disk { d.(inodes := d.inodes[inode := c]) }

  function Unlinked(d: Disk, f: FileName): Disk { d.(entries := d.entries - {f}) }

  function Rename(d: Disk, inode: nat, f: FileName): Disk {
    Unlinked(d, Temporary(inode)).(entries := (d.entries - {Temporary(inode)})[f := inode])
  }

  datatype ReadResult = Nothing | Found(payload: Payload) | Refused

  /** The checks read makes on the bytes of a file. */
  function Decode(c: Content, session: string, boot: string): ReadResult {
    match c
    case Complete(p) => if p.session == session && p.boot == boot then Found(p) else Nothing
    case _ => Refused
  }

  // ---------------------------------------------------------------- concurrent writers and readers

  datatype Proc =
    | Idle
    | Writing(name: string, payload: Payload, wpc: WriterPc)
    | Reading(rname: string, session: string, boot: string, rpc: ReaderPc)

  datatype WriterPc = Creating | Filling(inode: nat) | Renaming(renamed: nat) | Cleaning(temporary: nat)

  datatype ReaderPc = Opening | Checking(handle: nat) | Consuming(checked: nat) | Finished(result: ReadResult)

  /** `asked` is history: every record some write was called to publish. */
  datatype State = State(disk: Disk, boot: string, procs: seq<Proc>, asked: set<(string, Payload)>)

  datatype Action =
    | BeginWrite(wname: string, wsession: string, data: string)
    | BeginRead(rdname: string, rdsession: string)
    | Next
    | FillSome
    | Interrupt
    | Reboot(newBoot: string)

  predicate Enabled(s: State, i: nat, a: Action) {
    i < |s.procs| &&
    match a
    case BeginWrite(_, _, _) => s.procs[i] == Idle
    case BeginRead(_, _) => s.procs[i] == Idle
    case Next => s.procs[i] != Idle
    case FillSome => s.procs[i].Writing? && s.procs[i].wpc.Filling?
    case Interrupt => s.procs[i] != Idle
    case Reboot(_) => true
  }

  function With(s: State, i: nat, p: Proc): State
    requires i < |s.procs|
  {
    s.(procs := s.procs[i := p])
  }

  /** `fstat` sees link count 1 exactly while the directory still names the opened inode. */
  predicate Linked(d: Disk, name: string, session: string, inode: nat) {
    RecordFile(name, session) in d.entries && d.entries[RecordFile(name, session)] == inode
  }

  function WriterStep(s: State, i: nat, name: string, payload: Payload, pc: WriterPc): State
    requires i < |s.procs|
  {
    match pc
    case Creating => With(s.(disk := Create(s.disk)), i, Writing(name, payload, Filling(s.disk.next)))
    case Filling(k) => With(s.(disk := Fill(s.disk, k, Complete(payload))), i, Writing(name, payload, Renaming(k)))
    case Renaming(k) =>
      With(s.(disk := Rename(s.disk, k, RecordFile(name, payload.session))), i, Writing(name, payload, Cleaning(k)))
    case Cleaning(k) => With(s.(disk := Unlinked(s.disk, Temporary(k))), i, Idle)
  }

  function ReaderStep(s: State, i: nat, name: string, session: string, boot: string, pc: ReaderPc): State
    requires i < |s.procs|
  {
    var file := RecordFile(name, session);
    match pc
    case Opening =>
      With(s, i, Reading(name, session, boot,
        if file in s.disk.entries then Checking(s.disk.entries[file]) else Finished(Nothing)))
    case Checking(k) =>
      With(s, i, Reading(name, session, boot,
        if Linked(s.disk, name, session, k) then Consuming(k) else Finished(Refused)))
    case Consuming(k) =>
      With(s, i, Reading(name, session, boot,
        Finished(if k in s.disk.inodes then Decode(s.disk.inodes[k], session, boot) else Refused)))
    case Finished(_) => With(s, i, Idle)
  }

  function Apply(s: State, i: nat, a: Action): State
    requires Enabled(s, i, a)
  {
    match a
    case BeginWrite(name, session, data) =>
      var p := Payload(session, s.boot, data);
      With(s.(asked := s.asked + {(name, p)}), i, Writing(name, p, Creating))
    case BeginRead(name, session) => With(s, i, Reading(name, session, s.boot, Opening))
    case Next =>
      (match s.procs[i]
       case Writing(name, payload, pc) => WriterStep(s, i, name, payload, pc)
       case Reading(name, session, boot, pc) => ReaderStep(s, i, name, session, boot, pc)
       case Idle => s)
    case FillSome => s.(disk := Fill(s.disk, s.procs[i].wpc.inode, Partial))
    case Interrupt => With(s, i, Idle)
    case Reboot(b) => s.(boot := b, procs := seq(|s.procs|, j => Idle))
  }

  datatype Move = Move(who: nat, action: Action)

  predicate IsRun(s: State, moves: seq<Move>)
    decreases |moves|
  {
    moves == [] ||
    (Enabled(s, moves[0].who, moves[0].action) && IsRun(Apply(s, moves[0].who, moves[0].action), moves[1..]))
  }

  function Final(s: State, moves: seq<Move>): State
    requires IsRun(s, moves)
    decreases |moves|
  {
    if moves == [] then s else Final(Apply(s, moves[0].who, moves[0].action), moves[1..])
  }

  predicate Initial(s: State) {
    && s.disk == Disk(map[], map[], 0) && s.asked == {}
    && (forall i | 0 <= i < |s.procs| :: s.procs[i] == Idle)
  }

  // ---------------------------------------------------------------- the invariant

  /** Inode `k` holds one complete payload that some write published under this name and session. */
  ghost predicate Published(s: State, k: nat, name: string, session: string) {
    && k in s.disk.inodes
    && s.disk.inodes[k].Complete?
    && (name, s.disk.inodes[k].payload) in s.asked
    && s.disk.inodes[k].payload.session == session
  }

  /** An inode only its writer can change: no record and no reader has it. */
  ghost predicate Private(s: State, i: nat, k: nat) {
    && k < s.disk.next
    && (forall f | f in s.disk.entries && f.RecordFile? :: s.disk.entries[f] != k)
    && (forall j | 0 <= j < |s.procs| && j != i :: !Uses(s.procs[j], k))
  }

  predicate Uses(p: Proc, k: nat) {
    match p
    case Writing(_, _, Filling(m)) => m == k
    case Writing(_, _, Renaming(m)) => m == k
    case Reading(_, _, _, Checking(m)) => m == k
    case Reading(_, _, _, Consuming(m)) => m == k
    case _ => false
  }

  ghost predicate ProcInv(s: State, i: nat, p: Proc) {
    match p
    case Writing(name, payload, pc) =>
      && (name, payload) in s.asked && payload.boot == s.boot
      && (pc.Filling? ==> Private(s, i, pc.inode))
      && (pc.Renaming? ==>
            && Private(s, i, pc.renamed)
            && pc.renamed in s.disk.inodes && s.disk.inodes[pc.renamed] == Complete(payload))
    case Reading(name, session, boot, pc) =>
      && boot == s.boot
      && (pc.Checking? ==> pc.handle < s.disk.next && Published(s, pc.handle, name, session))
      && (pc.Consuming? ==> pc.checked < s.disk.next && Published(s, pc.checked, name, session))
      && (pc.Finished? && pc.result.Found? ==>
            && (name, pc.result.payload) in s.asked
            && pc.result.payload.session == session && pc.result.payload.boot == boot)
    case Idle => true
  }

  ghost predicate FilesInv(s: State) {
    forall f | f in s.disk.entries && f.RecordFile? ::
      s.disk.entries[f] < s.disk.next && Published(s, s.disk.entries[f], f.name, f.session)
  }

  ghost predicate Inv(s: State) {
    FilesInv(s) && forall i | 0 <= i < |s.procs| :: ProcInv(s, i, s.procs[i])
  }

  lemma FilesKept(s: State, i: nat, a: Action)
    requires Inv(s) && Enabled(s, i, a)
    ensures FilesInv(Apply(s, i, a))
  {
    assert ProcInv(s, i, s.procs[i]);
  }

  lemma ActorKept(s: State, i: nat, a: Action)
    requires Inv(s) && Enabled(s, i, a)
    ensures ProcInv(Apply(s, i, a), i, Apply(s, i, a).procs[i])
  {
    var s' := Apply(s, i, a);
    assert ProcInv(s, i, s.procs[i]);
    if a.Next? && s.procs[i].Writing? && s.procs[i].wpc.Creating? {
      forall j | 0 <= j < |s.procs| && j != i ensures !Uses(s'.procs[j], s.disk.next) {
        assert ProcInv(s, j, s.procs[j]);
      }
    }
  }

  lemma OtherKept(s: State, i: nat, a: Action, j: nat)
    requires Inv(s) && Enabled(s, i, a) && j < |s.procs| && j != i
    ensures ProcInv(Apply(s, i, a), j, Apply(s, i, a).procs[j])
  {
    assert ProcInv(s, i, s.procs[i]) && ProcInv(s, j, s.procs[j]);
    var s' := Apply(s, i, a);
    match a {
      case BeginWrite(_, _, _) =>
      case BeginRead(_, _) =>
      case Next =>
        if s.procs[i].Writing? {
          OtherKeptByWriter(s, i, j);
        }
      case FillSome => OtherKeptByFill(s, i, Partial, s.procs[i], j);
      case Interrupt =>
      case Reboot(_) =>
    }
  }

  /** Filling its own private inode disturbs nobody. */
  lemma OtherKeptByFill(s: State, i: nat, c: Content, p: Proc, j: nat)
    requires Inv(s) && i < |s.procs| && s.procs[i].Writing? && s.procs[i].wpc.Filling?
    requires j < |s.procs| && j != i
    requires !Uses(p, s.disk.next) && (p == s.procs[i] || (p.Writing? && p.wpc == Renaming(s.procs[i].wpc.inode)))
    ensures ProcInv(With(s.(disk := Fill(s.disk, s.procs[i].wpc.inode, c)), i, p), j, s.procs[j])
  {
    assert ProcInv(s, i, s.procs[i]) && ProcInv(s, j, s.procs[j]);
  }

  lemma OtherKeptByWriter(s: State, i: nat, j: nat)
    requires Inv(s) && i < |s.procs| && s.procs[i].Writing? && j < |s.procs| && j != i
    ensures ProcInv(Apply(s, i, Next), j, s.procs[j])
  {
    assert ProcInv(s, i, s.procs[i]) && ProcInv(s, j, s.procs[j]);
    match s.procs[i].wpc {
      case Creating =>
      case Filling(k) =>
        var p := s.procs[i];
        OtherKeptByFill(s, i, Complete(p.payload), Writing(p.name, p.payload, Renaming(k)), j);
      case Renaming(k) =>
      case Cleaning(k) =>
    }
  }

  lemma InvKept(s: State, i: nat, a: Action)
    requires Inv(s) && Enabled(s, i, a)
    ensures Inv(Apply(s, i, a))
  {
    FilesKept(s, i, a);
    forall j | 0 <= j < |s.procs| ensures ProcInv(Apply(s, i, a), j, Apply(s, i, a).procs[j]) {
      if j == i { ActorKept(s, i, a); } else { OtherKept(s, i, a, j); }
    }
  }

  lemma {:induction false} RunKeepsInv(s: State, moves: seq<Move>)
    requires Inv(s) && IsRun(s, moves)
    ensures Inv(Final(s, moves))
    decreases |moves|
  {
    if moves != [] {
      InvKept(s, moves[0].who, moves[0].action);
      RunKeepsInv(Apply(s, moves[0].who, moves[0].action), moves[1..]);
    }
  }

  /**
   * Atomicity: in every interleaving of writers, readers, crashes and reboots, what a read finds is
   * one complete payload some write was asked to publish for exactly that name, session and boot.
   */
  lemma ReadsAreAtomic(s0: State, moves: seq<Move>, i: nat)
    requires Initial(s0) && IsRun(s0, moves)
    requires var s := Final(s0, moves); i < |s.procs| && s.procs[i].Reading? && s.procs[i].rpc.Finished?
    requires Final(s0, moves).procs[i].rpc.result.Found?
    ensures var r := Final(s0, moves).procs[i];
            && (r.rname, r.rpc.result.payload) in Final(s0, moves).asked
            && r.rpc.result.payload.session == r.session
            && r.rpc.result.payload.boot == r.boot == Final(s0, moves).boot
  {
    RunKeepsInv(s0, moves);
    var s := Final(s0, moves);
    assert ProcInv(s, i, s.procs[i]);
  }

  /**
   * A reader never sees a truncated document. It refuses a record exactly when a writer replaced the
   * file between its open and its fstat, which then reports no remaining link.
   */
  lemma ReadRefusesOnlyReplacedFile(s0: State, moves: seq<Move>, i: nat)
    requires Initial(s0) && IsRun(s0, moves)
    requires var s := Final(s0, moves); i < |s.procs| && s.procs[i].Reading? && !s.procs[i].rpc.Finished?
    ensures var s := Final(s0, moves);
            var r := s.procs[i];
            Apply(s, i, Next).procs[i].rpc == Finished(Refused) <==>
              r.rpc.Checking? && !Linked(s.disk, r.rname, r.session, r.rpc.handle)
  {
    RunKeepsInv(s0, moves);
    var s := Final(s0, moves);
    assert ProcInv(s, i, s.procs[i]);
  }

  // ---------------------------------------------------------------- a published record stays: the latch

  /** Inode `k` holds a whole record of this session and the running boot. */
  predicate CurrentContent(s: State, k: nat, session: string) {
    k in s.disk.inodes && s.disk.inodes[k].Complete? &&
    s.disk.inodes[k].payload.session == session && s.disk.inodes[k].payload.boot == s.boot
  }

  /** The record exists, and this boot wrote it. For the emergency record this is the stored latch. */
  predicate Current(s: State, name: string, session: string) {
    var f := RecordFile(name, session);
    f in s.disk.entries && CurrentContent(s, s.disk.entries[f], session)
  }

  /** A read of the record that has not gone past it: it still waits, holds its content, or got an answer. */
  predicate Sees(s: State, p: Proc, name: string, session: string) {
    p.Reading? && p.rname == name && p.session == session ==>
      match p.rpc
      case Opening => true
      case Checking(k) => CurrentContent(s, k, session)
      case Consuming(k) => CurrentContent(s, k, session)
      case Finished(r) => r != Nothing
  }

  /** The rename that publishes a record makes it current. */
  lemma RenamePublishes(s: State, i: nat)
    requires Inv(s) && i < |s.procs| && s.procs[i].Writing? && s.procs[i].wpc.Renaming?
    ensures Current(Apply(s, i, Next), s.procs[i].name, s.procs[i].payload.session)
  {
    assert ProcInv(s, i, s.procs[i]);
  }

  /** No step short of a reboot makes a current record disappear. */
  lemma CurrentKept(s: State, i: nat, a: Action, name: string, session: string)
    requires Inv(s) && Enabled(s, i, a) && !a.Reboot? && Current(s, name, session)
    ensures Current(Apply(s, i, a), name, session)
  {
    assert ProcInv(s, i, s.procs[i]);
    assert s.disk.entries[RecordFile(name, session)] < s.disk.next;
  }

  lemma SeesKept(s: State, i: nat, a: Action, name: string, session: string, j: nat)
    requires Inv(s) && Enabled(s, i, a) && !a.Reboot? && Current(s, name, session)
    requires j < |s.procs| && Sees(s, s.procs[j], name, session)
    ensures Sees(Apply(s, i, a), Apply(s, i, a).procs[j], name, session)
  {
    assert ProcInv(s, i, s.procs[i]) && ProcInv(s, j, s.procs[j]);
  }

  lemma {:induction false} LatchedRun(s: State, moves: seq<Move>, name: string, session: string, j: nat)
    requires Inv(s) && IsRun(s, moves) && (forall m | m in moves :: !m.action.Reboot?)
    requires Current(s, name, session) && j < |s.procs| && Sees(s, s.procs[j], name, session)
    ensures Current(Final(s, moves), name, session)
    ensures j < |Final(s, moves).procs| && Sees(Final(s, moves), Final(s, moves).procs[j], name, session)
    decreases |moves|
  {
    if moves != [] {
      assert moves[0] in moves;
      InvKept(s, moves[0].who, moves[0].action);
      CurrentKept(s, moves[0].who, moves[0].action, name, session);
      SeesKept(s, moves[0].who, moves[0].action, name, session, j);
      LatchedRun(Apply(s, moves[0].who, moves[0].action), moves[1..], name, session, j);
    }
  }

  /**
   * The latch is never cleared within a boot. Once a run has published a record of the running boot,
   * it stays current through every interleaving without a reboot, and every read of it begun later
   * ends in a record or a refusal, never in nothing: who asks whether the latch is stored is told
   * that it is, or gets an error.
   */
  lemma LatchIsNeverCleared(s0: State, before: seq<Move>, after: seq<Move>, name: string, session: string, j: nat)
    requires Initial(s0) && IsRun(s0, before) && IsRun(Final(s0, before), after)
    requires forall m | m in after :: !m.action.Reboot?
    requires Current(Final(s0, before), name, session)
    requires j < |Final(s0, before).procs| && Final(s0, before).procs[j] == Idle
    ensures var s := Final(Final(s0, before), after);
      && Current(s, name, session)
      && j < |s.procs|
      && var p := s.procs[j];
         p.Reading? && p.rname == name && p.session == session && p.rpc.Finished? ==> p.rpc.result != Nothing
  {
    RunKeepsInv(s0, before);
    LatchedRun(Final(s0, before), after, name, session, j);
  }

  // ---------------------------------------------------------------- the store as one process uses it

  datatype WriteFault = NoFault | TooLarge | CreateFails | WriteFails | RenameFails

  function ContentOf(d: Disk, f: FileName): Option<Content> {
    if f in d.entries && d.entries[f] in d.inodes then Some(d.inodes[d.entries[f]]) else None
  }

  class RecordStore {
    var disk: Disk

    constructor ()
      ensures disk == Disk(map[], map[], 0) && Valid()
    {
      disk := Disk(map[], map[], 0);
    }

    ghost predicate Valid()
      reads this
    {
      && (forall f | f in disk.entries :: disk.entries[f] < disk.next && disk.entries[f] in disk.inodes)
      && (forall id: nat | Temporary(id) in disk.entries :: id < disk.next)
    }

    /** Publishes the whole payload or leaves every record as it was; the temporary file never stays. */
    method Write(name: string, session: string, data: string, boot: string, fault: WriteFault) returns (ok: bool)
      requires Valid()
      modifies this
      ensures Valid()
      ensures ok <==> fault == NoFault
      ensures ok ==> ContentOf(disk, RecordFile(name, session)) == Some(Complete(Payload(session, boot, data)))
      ensures forall f :: (f != RecordFile(name, session) || !ok) ==> ContentOf(disk, f) == old(ContentOf(disk, f))
    {
      if fault == TooLarge || fault == CreateFails {
        return false;
      }
      var inode := disk.next;
      disk := Create(disk);
      if fault == WriteFails {
        disk := Fill(disk, inode, Partial);
        disk := Unlinked(disk, Temporary(inode));
        return false;
      }
      disk := Fill(disk, inode, Complete(Payload(session, boot, data)));
      if fault != RenameFails {
        disk := Rename(disk, inode, RecordFile(name, session));
      }
      disk := Unlinked(disk, Temporary(inode));
      ok := fault != RenameFails;
    }

    method Read(name: string, session: string, boot: string) returns (r: ReadResult)
      requires Valid()
      ensures r == match ContentOf(disk, RecordFile(name, session))
                   case None => Nothing
                   case Some(c) => Decode(c, session, boot)
    {
      var f := RecordFile(name, session);
      if f !in disk.entries {
        return Nothing;
      }
      r := Decode(disk.inodes[disk.entries[f]], session, boot);
    }

    /** Round trip within one boot; after a reboot the record reads as absent. */
    method WriteThenRead(name: string, session: string, data: string, boot: string, readBoot: string, fault: WriteFault)
      returns (ok: bool, r: ReadResult)
      requires Valid()
      modifies this
      ensures Valid()
      ensures ok ==> r == if readBoot == boot then Found(Payload(session, boot, data)) else Nothing
    {
      ok := Write(name, session, data, boot, fault);
      r := Read(name, session, readBoot);
    }
  }

  // ---------------------------------------------------------------- the transition lock

  /** Polls left when `remaining` seconds are left and each sleep lasts at most 0.05 seconds. */
  function PollsLeft(remaining: real): nat {
    if remaining <= 0.0 then 0 else (remaining * 20.0).Floor + 1
  }

  function Min(a: real, b: real): real { if a <= b then a else b }

  /**
   * flock with a deadline. `free(k)` tells whether the k-th attempt finds the lock free; `tries` are
   * the times of the attempts. With local work taken as instantaneous the lock is tried every 0.05
   * seconds and once at the deadline, until an attempt finds it free.
   */
  method AcquireTransition(start: real, timeout: real, free: nat -> bool) returns (acquired: bool, tries: seq<real>)
    requires timeout > 0.0
    ensures |tries| > 0 && acquired == free(|tries| - 1)
    ensures forall k | 0 <= k < |tries| :: tries[k] == Min(start + k as real * 0.05, start + timeout)
    ensures forall k | 0 <= k < |tries| - 1 :: !free(k) && tries[k] < start + timeout
    ensures !acquired ==> tries[|tries| - 1] == start + timeout
  {
    var deadline, now := start + timeout, start;
    acquired, tries := false, [];
    while true
      invariant now == Min(start + |tries| as real * 0.05, deadline)
      invariant forall k | 0 <= k < |tries| :: tries[k] == Min(start + k as real * 0.05, deadline)
      invariant forall k | 0 <= k < |tries| :: !free(k) && tries[k] < deadline
      decreases PollsLeft(deadline - now)
    {
      tries := tries + [now];
      if free(|tries| - 1) {
        return true, tries;
      }
      var remaining := deadline - now;
      if remaining <= 0.0 {
        return false, tries;
      }
      now := now + Min(0.05, remaining);
    }
  }
}
