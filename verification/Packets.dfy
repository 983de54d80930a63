// Addresses, packets and the host facts a netfilter rule can ask about.
module Packets {
  import opened Wrappers

  /** An address is its family and its bits read as one big-endian number. */
  datatype Addr = V4(bits: nat) | V6(bits: nat)

  const LOCALHOST4: nat := 0x7F00_0001
  const LOCALHOST6: nat := 1

  /** The IPv4 sets the rules name. Lan4 is section 3 of RFC 1918 and section 2.1 of RFC 3927. */
  datatype Set4 = Localhost4 | Loopback4 | Lan4 | Doh4
  {
    predicate Has(n: nat) {
      match this
      case Localhost4 => n == LOCALHOST4
      case Loopback4 => 0x7F00_0000 <= n < 0x8000_0000
      case Lan4 =>
        || 0x0A00_0000 <= n < 0x0B00_0000
        || 0xAC10_0000 <= n < 0xAC20_0000
        || 0xC0A8_0000 <= n < 0xC0A9_0000
        || 0xA9FE_0000 <= n < 0xA9FF_0000
      case Doh4 =>
        n in {0x0101_0101, 0x0100_0001, 0x0808_0808, 0x0808_0404,
              0x0909_0909, 0x9570_7070, 0xD043_DEDE, 0xD043_DCDC}
    }
  }

  /** The IPv6 sets the rules name. Lan6 is section 3.1 of RFC 4193 and section 2.5.6 of RFC 4291. */
  datatype Set6 = Localhost6 | Lan6 | Doh6
  {
    predicate Has(n: nat) {
      match this
      case Localhost6 => n == LOCALHOST6
      case Lan6 =>
        || 0xFC00_0000_0000_0000_0000_0000_0000_0000 <= n < 0xFE00_0000_0000_0000_0000_0000_0000_0000
        || 0xFE80_0000_0000_0000_0000_0000_0000_0000 <= n < 0xFEC0_0000_0000_0000_0000_0000_0000_0000
      case Doh6 =>
        n in {0x2606_4700_4700_0000_0000_0000_0000_1111, 0x2606_4700_4700_0000_0000_0000_0000_1001,
              0x2001_4860_4860_0000_0000_0000_0000_8888, 0x2001_4860_4860_0000_0000_0000_0000_8844,
              0x2620_00FE_0000_0000_0000_0000_0000_00FE, 0x2620_00FE_0000_0000_0000_0000_0000_0009,
              0x2620_0000_0CCC_0000_0000_0000_0000_0002, 0x2620_0000_0CCD_0000_0000_0000_0000_0002}
    }
  }

  predicate IsLoopback(a: Addr) {
    match a
    case V4(n) => Loopback4.Has(n)
    case V6(n) => Localhost6.Has(n)
  }

  predicate IsLan(a: Addr) {
    match a
    case V4(n) => Lan4.Has(n)
    case V6(n) => Lan6.Has(n)
  }

  // ---------------------------------------------------------------- the sets by their prefixes

  function Dotted(a: nat, b: nat, c: nat, d: nat): nat { ((a * 256 + b) * 256 + c) * 256 + d }

  function Hextets(a: nat, b: nat, c: nat, d: nat, e: nat, f: nat, g: nat, h: nat): nat {
    var high := ((a * 0x1_0000 + b) * 0x1_0000 + c) * 0x1_0000 + d;
    (((high * 0x1_0000 + e) * 0x1_0000 + f) * 0x1_0000 + g) * 0x1_0000 + h
  }

  /** 127.0.0.0/8 and ::1 are loopback, and nothing else. */
  lemma LoopbackIsItsPrefix(n: nat)
    ensures n < 0x1_0000_0000 ==> (IsLoopback(V4(n)) <==> n / 0x100_0000 == 127)
    ensures IsLoopback(V6(n)) <==> n == Hextets(0, 0, 0, 0, 0, 0, 0, 1)
  {
  }

  /** 10.0.0.0/8, 172.16.0.0/12, 192.168.0.0/16 and 169.254.0.0/16 are the IPv4 LAN. */
  lemma LanIsItsPrefixes(n: nat)
    requires n < 0x1_0000_0000
    ensures IsLan(V4(n)) <==>
      || n / 0x100_0000 == 10
      || n / 0x10_0000 == 172 * 16 + 1
      || n / 0x1_0000 == 192 * 256 + 168
      || n / 0x1_0000 == 169 * 256 + 254
  {
  }

  /** fc00::/7 and fe80::/10, by the top seven and the top ten bits, are the IPv6 LAN. */
  lemma Lan6IsItsPrefixes(n: nat)
    requires n < 0x1_0000_0000_0000_0000_0000_0000_0000_0000
    ensures IsLan(V6(n)) <==>
      || n / 0x0200_0000_0000_0000_0000_0000_0000_0000 == 0x7E
      || n / 0x0040_0000_0000_0000_0000_0000_0000_0000 == 0x3FA
  {
  }

  /** The localhost addresses and the public DoH resolvers, written as addresses are. */
  lemma AddressesAreWritten(n: nat)
    ensures Localhost4.Has(n) <==> n == Dotted(127, 0, 0, 1)
    ensures Localhost6.Has(n) <==> n == Hextets(0, 0, 0, 0, 0, 0, 0, 1)
    ensures LOCALHOST4 == Dotted(127, 0, 0, 1) && LOCALHOST6 == Hextets(0, 0, 0, 0, 0, 0, 0, 1)
    ensures Doh4.Has(n) <==>
      n in {Dotted(1, 1, 1, 1), Dotted(1, 0, 0, 1), Dotted(8, 8, 8, 8), Dotted(8, 8, 4, 4),
            Dotted(9, 9, 9, 9), Dotted(149, 112, 112, 112), Dotted(208, 67, 222, 222), Dotted(208, 67, 220, 220)}
  {
  }

  lemma Doh6IsWritten(n: nat)
    ensures Doh6.Has(n) <==>
      || n == Hextets(0x2606, 0x4700, 0x4700, 0, 0, 0, 0, 0x1111)
      || n == Hextets(0x2606, 0x4700, 0x4700, 0, 0, 0, 0, 0x1001)
      || n == Hextets(0x2001, 0x4860, 0x4860, 0, 0, 0, 0, 0x8888)
      || n == Hextets(0x2001, 0x4860, 0x4860, 0, 0, 0, 0, 0x8844)
      || n == Hextets(0x2620, 0xFE, 0, 0, 0, 0, 0, 0xFE)
      || n == Hextets(0x2620, 0xFE, 0, 0, 0, 0, 0, 9)
      || n == Hextets(0x2620, 0, 0xCCC, 0, 0, 0, 0, 2)
      || n == Hextets(0x2620, 0, 0xCCD, 0, 0, 0, 0, 2)
  {
  }

  datatype Proto = Tcp | Udp | OtherProto(number: nat)

  /** The process behind a locally generated packet; `slice` is membership of ttp-bypass.slice. */
  datatype Sender = Sender(uid: nat, gid: nat, slice: bool)

  /**
   * A packet as a chain sees it: its current destination, and the direction and original
   * destination port its connection tracking entry records. A packet the kernel generates by
   * itself has no sender, and no `meta skuid` or `meta skgid` test matches it.
   */
  datatype Packet = Packet(
    dst: Addr, dport: nat, proto: Proto, sender: Option<Sender>,
    inLo: bool, original: bool, origDport: nat)

  /**
   * Host facts: which addresses `fib daddr type local` recognises, and for which destinations
   * routing picks the loopback device.
   */
  datatype Env = Env(isLocal: Addr -> bool, viaLo: Addr -> bool)

  /** The loopback device carries only traffic to loopback or to the host's own addresses. */
  ghost predicate LoopbackRouting(e: Env) {
    forall a :: e.viaLo(a) ==> IsLoopback(a) || e.isLocal(a)
  }
}
