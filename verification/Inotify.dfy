// ttp/watchdog/inotify.py: the walk over one read of packed inotify events.
module Inotify {

  newtype Byte = x: int | 0 <= x < 256

  const IN_DELETE_SELF: nat := 0x400
  const IN_MOVE_SELF: nat := 0x800
  const HEADER_SIZE: nat := 16

  const WORD: int := 0x1_0000_0000

  /** `struct inotify_event` without its name, and the offset at which the header ends. */
  datatype Header = Header(wd: int, mask: nat, cookie: nat, len: nat, end: nat)

  /** An event as the kernel packs it; `name` includes its padding. */
  datatype Event = Event(wd: int, mask: nat, cookie: nat, name: seq<Byte>)

  predicate WellFormed(e: Event) {
    && -(WORD / 2) <= e.wd < WORD / 2
    && e.mask < WORD && e.cookie < WORD && |e.name| < WORD
  }

  function Unsigned(data: seq<Byte>, at: nat): nat
    requires at + 4 <= |data|
  {
    data[at] as int + 0x100 * (data[at + 1] as int + 0x100 * (data[at + 2] as int + 0x100 * data[at + 3] as int))
  }

  function Signed(u: nat): int { if u < WORD / 2 then u else u - WORD }

  function HeaderAt(data: seq<Byte>, offset: nat): Header
    requires offset + HEADER_SIZE <= |data|
  {
    Header(Signed(Unsigned(data, offset)), Unsigned(data, offset + 4), Unsigned(data, offset + 8),
           Unsigned(data, offset + 12), offset + HEADER_SIZE)
  }

  /** Does the mask have the bit of this one-bit flag? */
  predicate HasFlag(mask: nat, flag: nat)
    requires flag > 0
  {
    (mask / flag) % 2 == 1
  }

  predicate Loses(mask: nat) { HasFlag(mask, IN_DELETE_SELF) || HasFlag(mask, IN_MOVE_SELF) }

  /** Reference: the completely present headers from `offset` on, each event starting where the last one's name ends. */
  function Decode(data: seq<Byte>, offset: nat): seq<Header>
    decreases |data| - offset
  {
    if offset + HEADER_SIZE > |data| then []
    else
      var header := HeaderAt(data, offset);
      [header] + Decode(data, header.end + header.len)
  }

  ghost predicate AnyLoses(headers: seq<Header>) { exists h | h in headers :: Loses(h.mask) }

  method InotifyWatchLost(data: seq<Byte>) returns (lost: bool)
    ensures lost <==> AnyLoses(Decode(data, 0))
  {
    if |data| < HEADER_SIZE {
      return false;
    }
    var offset := 0;
    lost := false;
    while offset < |data|
      invariant offset >= 0
      invariant AnyLoses(Decode(data, 0)) <==> lost || AnyLoses(Decode(data, offset))
      decreases |data| - offset
    {
      if |data| - offset < HEADER_SIZE {
        break;
      }
      var mask, len := Unsigned(data, offset + 4), Unsigned(data, offset + 12);
      DecodeStep(data, offset);
      if HasFlag(mask, IN_DELETE_SELF) || HasFlag(mask, IN_MOVE_SELF) {
        lost := true;
      }
      offset := offset + HEADER_SIZE + len;
    }
  }

  lemma DecodeStep(data: seq<Byte>, offset: nat)
    requires offset + HEADER_SIZE <= |data|
    ensures var header := HeaderAt(data, offset);
      AnyLoses(Decode(data, offset)) <==> Loses(header.mask) || AnyLoses(Decode(data, header.end + header.len))
  {
    var header := HeaderAt(data, offset);
    AnyLosesCons(header, Decode(data, header.end + header.len));
  }

  lemma AnyLosesCons(first: Header, rest: seq<Header>)
    ensures AnyLoses([first] + rest) <==> Loses(first.mask) || AnyLoses(rest)
  {
    assert forall h :: h in [first] + rest <==> h == first || h in rest;
  }

  // ---------------------------------------------------------------- truncated reads

  lemma {:induction false} EndsAfter(data: seq<Byte>, offset: nat, h: Header)
    requires h in Decode(data, offset)
    ensures h.end >= offset + HEADER_SIZE
    decreases |data| - offset
  {
    var header := HeaderAt(data, offset);
    if h != header {
      EndsAfter(data, header.end + header.len, h);
    }
  }

  /** Cutting a buffer loses exactly the headers the cut no longer contains completely. */
  lemma {:induction false} TruncatedDecode(data: seq<Byte>, offset: nat, cut: nat, h: Header)
    requires cut <= |data|
    ensures h in Decode(data[..cut], offset) <==> h in Decode(data, offset) && h.end <= cut
    decreases |data| - offset
  {
    if offset + HEADER_SIZE <= cut {
      var header := HeaderAt(data, offset);
      assert header == HeaderAt(data[..cut], offset);
      assert h in Decode(data[..cut], offset) <==> h == header || h in Decode(data[..cut], header.end + header.len);
      TruncatedDecode(data, header.end + header.len, cut, h);
    } else if h in Decode(data, offset) {
      EndsAfter(data, offset, h);
    }
  }

  /** A truncated read reports a loss exactly when a header before the cut carries one. */
  lemma TruncationKeepsEarlierLosses(data: seq<Byte>, cut: nat)
    requires cut <= |data|
    ensures AnyLoses(Decode(data[..cut], 0)) <==> exists h | h in Decode(data, 0) :: Loses(h.mask) && h.end <= cut
  {
    forall h ensures h in Decode(data[..cut], 0) <==> h in Decode(data, 0) && h.end <= cut {
      TruncatedDecode(data, 0, cut, h);
    }
  }

  // ---------------------------------------------------------------- round trip

  function Word(u: nat): (w: seq<Byte>)
    requires u < WORD
    ensures |w| == 4 && Unsigned(w, 0) == u
  {
    var high := u / 0x100;
    var higher := high / 0x100;
    [(u % 0x100) as Byte, (high % 0x100) as Byte, (higher % 0x100) as Byte, (higher / 0x100) as Byte]
  }

  function Pack(e: Event): (p: seq<Byte>)
    requires WellFormed(e)
    ensures |p| == HEADER_SIZE + |e.name|
  {
    Word(if e.wd < 0 then e.wd + WORD else e.wd) + Word(e.mask) + Word(e.cookie) + Word(|e.name|) + e.name
  }

  function Encode(events: seq<Event>): seq<Byte>
    requires forall e | e in events :: WellFormed(e)
  {
    if events == [] then [] else Pack(events[0]) + Encode(events[1..])
  }

  /** The headers of these events when the first starts at `offset`. */
  function Headers(events: seq<Event>, offset: nat): seq<Header> {
    if events == [] then []
    else
      var e := events[0];
      [Header(e.wd, e.mask, e.cookie, |e.name|, offset + HEADER_SIZE)] +
      Headers(events[1..], offset + HEADER_SIZE + |e.name|)
  }

  predicate Holds(data: seq<Byte>, at: nat, part: seq<Byte>) {
    at + |part| <= |data| && data[at..at + |part|] == part
  }

  lemma HoldsParts(data: seq<Byte>, at: nat, a: seq<Byte>, b: seq<Byte>)
    requires Holds(data, at, a + b)
    ensures Holds(data, at, a) && Holds(data, at + |a|, b)
  {
    var whole := data[at..at + |a + b|];
    assert whole[..|a|] == a && whole[|a|..] == b;
    assert data[at..at + |a|] == whole[..|a|] && data[at + |a|..at + |a| + |b|] == whole[|a|..];
  }

  lemma HeldWord(data: seq<Byte>, at: nat, u: nat)
    requires u < WORD && Holds(data, at, Word(u))
    ensures Unsigned(data, at) == u
  {
    var w := data[at..at + 4];
    assert w[0] == data[at] && w[1] == data[at + 1] && w[2] == data[at + 2] && w[3] == data[at + 3];
  }

  lemma HeldHeader(data: seq<Byte>, at: nat, e: Event)
    requires WellFormed(e) && Holds(data, at, Pack(e))
    ensures HeaderAt(data, at) == Header(e.wd, e.mask, e.cookie, |e.name|, at + HEADER_SIZE)
  {
    var u: nat := if e.wd < 0 then e.wd + WORD else e.wd;
    var w0, w1, w2, w3 := Word(u), Word(e.mask), Word(e.cookie), Word(|e.name|);
    HoldsParts(data, at, w0 + w1 + w2 + w3, e.name);
    HoldsParts(data, at, w0 + w1 + w2, w3);
    HoldsParts(data, at, w0 + w1, w2);
    HoldsParts(data, at, w0, w1);
    HeldWord(data, at, u);
    HeldWord(data, at + 4, e.mask);
    HeldWord(data, at + 8, e.cookie);
    HeldWord(data, at + 12, |e.name|);
  }

  /** The headers of these events lie in the buffer one after the other, each with room for its name. */
  ghost predicate Laid(data: seq<Byte>, at: nat, events: seq<Event>)
    decreases |events|
  {
    events != [] ==>
      var e := events[0];
      var next := at + HEADER_SIZE + |e.name|;
      && next <= |data|
      && HeaderAt(data, at) == Header(e.wd, e.mask, e.cookie, |e.name|, at + HEADER_SIZE)
      && Laid(data, next, events[1..])
  }

  function EndOf(events: seq<Event>, at: nat): nat
    decreases |events|
  {
    if events == [] then at else EndOf(events[1..], at + HEADER_SIZE + |events[0].name|)
  }

  lemma {:induction false} EncodedIsLaid(data: seq<Byte>, at: nat, events: seq<Event>)
    requires forall e | e in events :: WellFormed(e)
    requires Holds(data, at, Encode(events))
    ensures Laid(data, at, events) && at + |Encode(events)| == EndOf(events, at)
    decreases |events|
  {
    if events != [] {
      EncodedHead(data, at, events);
      EncodedIsLaid(data, at + HEADER_SIZE + |events[0].name|, events[1..]);
    }
  }

  lemma EncodedHead(data: seq<Byte>, at: nat, events: seq<Event>)
    requires events != [] && (forall e | e in events :: WellFormed(e)) && Holds(data, at, Encode(events))
    ensures var e := events[0];
      var next := at + HEADER_SIZE + |e.name|;
      && next <= |data|
      && HeaderAt(data, at) == Header(e.wd, e.mask, e.cookie, |e.name|, at + HEADER_SIZE)
      && Holds(data, next, Encode(events[1..]))
      && at + |Encode(events)| == next + |Encode(events[1..])|
  {
    HoldsParts(data, at, Pack(events[0]), Encode(events[1..]));
    HeldHeader(data, at, events[0]);
  }

  lemma {:induction false} DecodeLaid(data: seq<Byte>, at: nat, events: seq<Event>)
    requires Laid(data, at, events) && |data| < EndOf(events, at) + HEADER_SIZE
    ensures Decode(data, at) == Headers(events, at)
    decreases |events|
  {
    if events != [] {
      DecodeLaid(data, at + HEADER_SIZE + |events[0].name|, events[1..]);
    }
  }

  /** Decoding packed events, with whatever precedes them and a partial header after them, gives their headers. */
  lemma DecodeEncoded(data: seq<Byte>, at: nat, events: seq<Event>)
    requires forall e | e in events :: WellFormed(e)
    requires Holds(data, at, Encode(events))
    requires |data| < at + |Encode(events)| + HEADER_SIZE
    ensures Decode(data, at) == Headers(events, at)
  {
    EncodedIsLaid(data, at, events);
    DecodeLaid(data, at, events);
  }

  lemma {:induction false} HeadersLose(events: seq<Event>, offset: nat)
    ensures AnyLoses(Headers(events, offset)) <==> exists e | e in events :: Loses(e.mask)
    decreases |events|
  {
    if events != [] {
      var e := events[0];
      var rest := Headers(events[1..], offset + HEADER_SIZE + |e.name|);
      HeadersLose(events[1..], offset + HEADER_SIZE + |e.name|);
      assert Headers(events, offset)[0].mask == e.mask;
      assert forall h :: h in Headers(events, offset) <==> h == Headers(events, offset)[0] || h in rest;
      assert forall x :: x in events <==> x == e || x in events[1..];
    }
  }

  /** On the encoding of any events, even cut inside one more header, a loss is reported iff an event carries it. */
  lemma EncodedLoss(events: seq<Event>, tail: seq<Byte>)
    requires forall e | e in events :: WellFormed(e)
    requires |tail| < HEADER_SIZE
    ensures AnyLoses(Decode(Encode(events) + tail, 0)) <==>
      exists e | e in events :: (e.mask / 0x400) % 2 == 1 || (e.mask / 0x800) % 2 == 1
  {
    assert forall e | e in events :: Loses(e.mask) <==> (e.mask / 0x400) % 2 == 1 || (e.mask / 0x800) % 2 == 1;
    var data := Encode(events) + tail;
    assert data[0..|Encode(events)|] == Encode(events);
    DecodeEncoded(data, 0, events);
    HeadersLose(events, 0);
  }

  /** One event as the kernel writes it: watch 1, IN_DELETE_SELF, no cookie and no name, lowest byte first. */
  lemma DeleteSelfOnTheWire(data: seq<Byte>)
    requires data == [1, 0, 0, 0, 0, 4, 0, 0, 0, 0, 0, 0, 0, 0, 0, 0]
    ensures HeaderAt(data, 0) == Header(1, 0x400, 0, 0, 16)
    ensures AnyLoses(Decode(data, 0))
  {
    DecodeStep(data, 0);
  }
}
