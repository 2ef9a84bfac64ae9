/**
 * The outbound-connection guard (netguard.go): which addresses may never be dialled, and the dial
 * loop that enforces it. Name resolution and the dialler are parameters.
 */
module NetGuard {
  import opened Base

  type Bytes = seq<Byte>

  /** netip.Addr without a zone. */
  datatype Addr = V4(bytes: Bytes) | V6(bytes: Bytes)

  predicate WellFormed(a: Addr) { |a.bytes| == if a.V4? then 4 else 16 }

  /** AddrFromSlice and Unmap: an IPv4-mapped address becomes the IPv4 address itself. */
  function Parse(ip: Bytes): Option<Addr> {
    if |ip| == 4 then Some(V4(ip))
    else if |ip| != 16 then None
    else if ip[..12] == MAPPED then Some(V4(ip[12..]))
    else Some(V6(ip))
  }

  const MAPPED: Bytes := [0, 0, 0, 0, 0, 0, 0, 0, 0, 0, 0xff, 0xff]

  // ---------------------------------------------------------------- prefixes, bit by bit

  datatype Prefix = Prefix(bytes: Bytes, bits: nat)

  /** The value of the first `r` bits of an octet. */
  function Top(x: Byte, r: nat): nat
    requires r <= 8
  {
    var n := x as int;
    match r
    case 0 => 0
    case 1 => n / 128
    case 2 => n / 64
    case 3 => n / 32
    case 4 => n / 16
    case 5 => n / 8
    case 6 => n / 4
    case 7 => n / 2
    case _ => n
  }

  /** Bit `j` of an octet, the most significant first. */
  function BitOf(x: Byte, j: nat): nat
    requires j < 8
  {
    Top(x, j + 1) % 2
  }

  function Bit(b: Bytes, i: nat): nat
    requires i < 8 * |b|
  {
    BitOf(b[i / 8], i % 8)
  }

  predicate ValidPrefix(p: Prefix) { p.bits <= 8 * |p.bytes| }

  /** Prefix.Contains: the same family, and the first bits agree. */
  predicate Contains(p: Prefix, b: Bytes) {
    |b| == |p.bytes| && ValidPrefix(p) && forall i | 0 <= i < p.bits :: Bit(b, i) == Bit(p.bytes, i)
  }

  lemma TopStep(x: Byte, r: nat)
    requires r < 8
    ensures Top(x, r) == Top(x, r + 1) / 2 && Top(x, r + 1) == 2 * Top(x, r) + BitOf(x, r)
  {
    var n := x as int;
    assert n / 128 / 2 == 0 && n / 64 / 2 == n / 128 && n / 32 / 2 == n / 64 && n / 16 / 2 == n / 32;
    assert n / 8 / 2 == n / 16 && n / 4 / 2 == n / 8 && n / 2 / 2 == n / 4;
  }

  lemma {:induction false} TopFromBits(x: Byte, y: Byte, r: nat)
    requires r <= 8 && forall j | 0 <= j < r :: BitOf(x, j) == BitOf(y, j)
    ensures Top(x, r) == Top(y, r)
    decreases r
  {
    if r > 0 {
      TopFromBits(x, y, r - 1);
      TopStep(x, r - 1);
      TopStep(y, r - 1);
    }
  }

  lemma {:induction false} BitsFromTop(x: Byte, y: Byte, r: nat, j: nat)
    requires j < r <= 8 && Top(x, r) == Top(y, r)
    ensures BitOf(x, j) == BitOf(y, j)
    decreases r
  {
    TopStep(x, r - 1);
    TopStep(y, r - 1);
    if j < r - 1 { BitsFromTop(x, y, r - 1, j); }
  }

  /** The octet form of a prefix: whole octets, then the top of one more. */
  predicate Covers(p: Prefix, b: Bytes) {
    && |b| == |p.bytes| && ValidPrefix(p)
    && (forall k | 0 <= k < p.bits / 8 :: b[k] == p.bytes[k])
    && (p.bits % 8 != 0 ==> Top(b[p.bits / 8], p.bits % 8) == Top(p.bytes[p.bits / 8], p.bits % 8))
  }

  lemma OctetOfBits(p: Prefix, b: Bytes, k: nat, r: nat)
    requires Contains(p, b) && r <= 8 && 8 * k + r <= p.bits && k < |b|
    ensures Top(b[k], r) == Top(p.bytes[k], r)
  {
    forall j | 0 <= j < r ensures BitOf(b[k], j) == BitOf(p.bytes[k], j) {
      assert (8 * k + j) / 8 == k && (8 * k + j) % 8 == j;
      assert Bit(b, 8 * k + j) == Bit(p.bytes, 8 * k + j);
    }
    TopFromBits(b[k], p.bytes[k], r);
  }

  /** Bit-level containment is octet-level containment. */
  lemma ContainsIffCovers(p: Prefix, b: Bytes)
    ensures Contains(p, b) <==> Covers(p, b)
  {
    if Contains(p, b) {
      forall k | 0 <= k < p.bits / 8 ensures b[k] == p.bytes[k] { OctetOfBits(p, b, k, 8); }
      if p.bits % 8 != 0 { OctetOfBits(p, b, p.bits / 8, p.bits % 8); }
    }
    if Covers(p, b) {
      forall i | 0 <= i < p.bits ensures Bit(b, i) == Bit(p.bytes, i) {
        if i / 8 == p.bits / 8 { BitsFromTop(b[i / 8], p.bytes[i / 8], p.bits % 8, i % 8); }
      }
    }
  }

  // ---------------------------------------------------------------- classification

  const THIS_NETWORK := Prefix([0, 0, 0, 0], 8)
  const CGNAT := Prefix([100, 64, 0, 0], 10)
  const IETF := Prefix([192, 0, 0, 0], 24)
  const TEST_NET_1 := Prefix([192, 0, 2, 0], 24)
  const BENCHMARKING := Prefix([198, 18, 0, 0], 15)
  const TEST_NET_2 := Prefix([198, 51, 100, 0], 24)
  const TEST_NET_3 := Prefix([203, 0, 113, 0], 24)
  const RESERVED := Prefix([240, 0, 0, 0], 4)
  const TEREDO := Prefix([0x20, 0x01, 0, 0, 0, 0, 0, 0, 0, 0, 0, 0, 0, 0, 0, 0], 32)
  const DOCUMENTATION := Prefix([0x20, 0x01, 0x0d, 0xb8, 0, 0, 0, 0, 0, 0, 0, 0, 0, 0, 0, 0], 32)
  const LOCAL_NAT64 := Prefix([0, 0x64, 0xff, 0x9b, 0, 1, 0, 0, 0, 0, 0, 0, 0, 0, 0, 0], 48)
  const SITE_LOCAL := Prefix([0xfe, 0xc0, 0, 0, 0, 0, 0, 0, 0, 0, 0, 0, 0, 0, 0, 0], 10)

  const IPV4_PREFIXES: seq<Prefix> := [THIS_NETWORK, CGNAT, IETF, TEST_NET_1, BENCHMARKING, TEST_NET_2, TEST_NET_3,
                                       RESERVED]
  const IPV6_PREFIXES: seq<Prefix> := [TEREDO, DOCUMENTATION, LOCAL_NAT64, SITE_LOCAL]
  const BLOCKED_PREFIXES: seq<Prefix> := IPV4_PREFIXES + IPV6_PREFIXES

  predicate InAny(ps: seq<Prefix>, b: Bytes) { exists i | 0 <= i < |ps| :: Contains(ps[i], b) }

  const IPV4_COMPATIBLE := Prefix([0, 0, 0, 0, 0, 0, 0, 0, 0, 0, 0, 0, 0, 0, 0, 0], 96)
  const NAT64 := Prefix([0, 0x64, 0xff, 0x9b, 0, 0, 0, 0, 0, 0, 0, 0, 0, 0, 0, 0], 96)
  const SIIT := Prefix([0, 0, 0, 0, 0, 0, 0, 0, 0xff, 0xff, 0, 0, 0, 0, 0, 0], 96)
  const SIX_TO_FOUR := Prefix([0x20, 0x02, 0, 0, 0, 0, 0, 0, 0, 0, 0, 0, 0, 0, 0, 0], 16)

  predicate AllZero(b: Bytes) { forall i | 0 <= i < |b| :: b[i] == 0 }

  /** The standard library's loopback, private, link-local, multicast and unspecified classes. */
  predicate Classified(a: Addr)
    requires WellFormed(a)
  {
    var b := a.bytes;
    if a.V4? then
      || b[0] == 127
      || b[0] == 10 || (b[0] == 172 && 16 <= b[1] <= 31) || (b[0] == 192 && b[1] == 168)
      || (b[0] == 169 && b[1] == 254)
      || 224 <= b[0] <= 239
      || AllZero(b)
    else
      || (AllZero(b[..15]) && b[15] == 1)
      || 0xfc <= b[0] <= 0xfd
      || (b[0] == 0xfe && 0x80 <= b[1] <= 0xbf)
      || b[0] == 0xff
      || AllZero(b)
  }

  /** `isBlockedAddr`. */
  predicate BlockedAddr(a: Addr)
    requires WellFormed(a)
  {
    Classified(a) || InAny(BLOCKED_PREFIXES, a.bytes)
  }

  method IsBlockedAddr(a: Addr) returns (blocked: bool)
    requires WellFormed(a)
    ensures blocked == BlockedAddr(a)
  {
    if Classified(a) {
      return true;
    }
    for i := 0 to |BLOCKED_PREFIXES|
      invariant forall j | 0 <= j < i :: !Contains(BLOCKED_PREFIXES[j], a.bytes)
    {
      if Contains(BLOCKED_PREFIXES[i], a.bytes) {
        return true;
      }
    }
    return false;
  }

  /** `embeddedIPv4`. */
  function Embedded(a: Addr): Option<Addr>
    requires WellFormed(a)
  {
    if a.V4? then None
    else if Contains(NAT64, a.bytes) || Contains(IPV4_COMPATIBLE, a.bytes) || Contains(SIIT, a.bytes)
      then Some(V4(a.bytes[12..16]))
    else if Contains(SIX_TO_FOUR, a.bytes) then Some(V4(a.bytes[2..6]))
    else None
  }

  predicate Blocked(ip: Bytes) {
    match Parse(ip)
    case None => true
    case Some(a) => (Embedded(a).Some? && BlockedAddr(Embedded(a).value)) || BlockedAddr(a)
  }

  method IsBlocked(ip: Bytes) returns (blocked: bool)
    ensures blocked == Blocked(ip)
  {
    var a := Parse(ip);
    if a == None {
      return true;
    }
    var v4 := Embedded(a.value);
    if v4.Some? {
      blocked := IsBlockedAddr(v4.value);
      if blocked {
        return true;
      }
    }
    blocked := IsBlockedAddr(a.value);
  }

  // ---------------------------------------------------------------- IPv4, octet by octet

  /** The IPv4 addresses that may never be dialled. */
  predicate BlockedIPv4(b: Bytes)
    requires |b| == 4
  {
    || b[0] == 0 || b[0] == 10 || b[0] == 127 || b[0] >= 224
    || (b[0] == 100 && 64 <= b[1] <= 127)
    || (b[0] == 169 && b[1] == 254)
    || (b[0] == 172 && 16 <= b[1] <= 31)
    || (b[0] == 192 && (b[1] == 168 || (b[1] == 0 && (b[2] == 0 || b[2] == 2))))
    || (b[0] == 198 && (b[1] == 18 || b[1] == 19 || (b[1] == 51 && b[2] == 100)))
    || (b[0] == 203 && b[1] == 0 && b[2] == 113)
  }

  lemma InThisNetwork(b: Bytes)
    requires |b| == 4
    ensures Contains(THIS_NETWORK, b) <==> b[0] == 0
  {
    ContainsIffCovers(THIS_NETWORK, b);
  }

  lemma InCgnat(b: Bytes)
    requires |b| == 4
    ensures Contains(CGNAT, b) <==> b[0] == 100 && 64 <= b[1] <= 127
  {
    ContainsIffCovers(CGNAT, b);
  }

  lemma InBenchmarking(b: Bytes)
    requires |b| == 4
    ensures Contains(BENCHMARKING, b) <==> b[0] == 198 && 18 <= b[1] <= 19
  {
    ContainsIffCovers(BENCHMARKING, b);
  }

  lemma InReserved(b: Bytes)
    requires |b| == 4
    ensures Contains(RESERVED, b) <==> b[0] >= 240
  {
    ContainsIffCovers(RESERVED, b);
  }

  /** A /24: the first three octets. */
  lemma InSlash24(p: Prefix, b: Bytes)
    requires |b| == |p.bytes| == 4 && p.bits == 24
    ensures Contains(p, b) <==> b[0] == p.bytes[0] && b[1] == p.bytes[1] && b[2] == p.bytes[2]
  {
    ContainsIffCovers(p, b);
  }

  lemma InEither(ps: seq<Prefix>, qs: seq<Prefix>, b: Bytes)
    ensures InAny(ps + qs, b) <==> InAny(ps, b) || InAny(qs, b)
  {
    if InAny(ps, b) {
      var i :| 0 <= i < |ps| && Contains(ps[i], b);
      assert (ps + qs)[i] == ps[i];
    }
    if InAny(qs, b) {
      var i :| 0 <= i < |qs| && Contains(qs[i], b);
      assert (ps + qs)[|ps| + i] == qs[i];
    }
  }

  lemma InEight(ps: seq<Prefix>, b: Bytes)
    requires |ps| == 8
    ensures InAny(ps, b) <==>
              || Contains(ps[0], b) || Contains(ps[1], b) || Contains(ps[2], b) || Contains(ps[3], b)
              || Contains(ps[4], b) || Contains(ps[5], b) || Contains(ps[6], b) || Contains(ps[7], b)
  {
    if i :| 0 <= i < |ps| && Contains(ps[i], b) {
      assert i == 0 || i == 1 || i == 2 || i == 3 || i == 4 || i == 5 || i == 6 || i == 7;
    }
  }

  lemma InFour(ps: seq<Prefix>, b: Bytes)
    requires |ps| == 4
    ensures InAny(ps, b) <==> Contains(ps[0], b) || Contains(ps[1], b) || Contains(ps[2], b) || Contains(ps[3], b)
  {
    if i :| 0 <= i < |ps| && Contains(ps[i], b) {
      assert i == 0 || i == 1 || i == 2 || i == 3;
    }
  }

  /** A prefix of the other family contains nothing. */
  lemma OtherFamily(ps: seq<Prefix>, b: Bytes)
    requires forall i | 0 <= i < |ps| :: |ps[i].bytes| != |b|
    ensures !InAny(ps, b)
  {
  }

  /** The IPv4 prefixes of the list, as octets. */
  predicate InIPv4Prefixes(b: Bytes)
    requires |b| == 4
  {
    || b[0] == 0 || (b[0] == 100 && 64 <= b[1] <= 127) || (b[0] == 198 && 18 <= b[1] <= 19) || b[0] >= 240
    || (b[0] == 192 && b[1] == 0 && (b[2] == 0 || b[2] == 2)) || (b[0] == 198 && b[1] == 51 && b[2] == 100)
    || (b[0] == 203 && b[1] == 0 && b[2] == 113)
  }

  lemma IPv4Prefixes(b: Bytes)
    requires |b| == 4
    ensures InAny(BLOCKED_PREFIXES, b) <==> InIPv4Prefixes(b)
  {
    InEither(IPV4_PREFIXES, IPV6_PREFIXES, b);
    OtherFamily(IPV6_PREFIXES, b);
    InEight(IPV4_PREFIXES, b);
    InThisNetwork(b);
    InCgnat(b);
    InBenchmarking(b);
    InReserved(b);
    FourSlash24(b);
  }

  lemma FourSlash24(b: Bytes)
    requires |b| == 4
    ensures Contains(IETF, b) <==> b[0] == 192 && b[1] == 0 && b[2] == 0
    ensures Contains(TEST_NET_1, b) <==> b[0] == 192 && b[1] == 0 && b[2] == 2
    ensures Contains(TEST_NET_2, b) <==> b[0] == 198 && b[1] == 51 && b[2] == 100
    ensures Contains(TEST_NET_3, b) <==> b[0] == 203 && b[1] == 0 && b[2] == 113
  {
    InSlash24(IETF, b);
    InSlash24(TEST_NET_1, b);
    InSlash24(TEST_NET_2, b);
    InSlash24(TEST_NET_3, b);
  }

  /** The verdict on an IPv4 address, from classes and bit-level prefixes, is the octet-level list. */
  lemma IPv4Verdict(b: Bytes)
    requires |b| == 4
    ensures BlockedAddr(V4(b)) <==> BlockedIPv4(b)
    ensures Blocked(b) <==> BlockedIPv4(b)
  {
    IPv4Prefixes(b);
  }

  // ---------------------------------------------------------------- IPv6, octet by octet

  predicate StartsWith(b: Bytes, head: Bytes) { head <= b }

  const COMPATIBLE_HEAD: Bytes := [0, 0, 0, 0, 0, 0, 0, 0, 0, 0, 0, 0]
  const NAT64_HEAD: Bytes := [0, 0x64, 0xff, 0x9b, 0, 0, 0, 0, 0, 0, 0, 0]
  const SIIT_HEAD: Bytes := [0, 0, 0, 0, 0, 0, 0, 0, 0xff, 0xff, 0, 0]

  /** The forms that carry an IPv4 address in their last four octets. */
  predicate CarriesLow(b: Bytes) {
    StartsWith(b, COMPATIBLE_HEAD) || StartsWith(b, NAT64_HEAD) || StartsWith(b, SIIT_HEAD) || StartsWith(b, MAPPED)
  }

  /** The IPv6 addresses that may never be dialled whatever they carry. */
  predicate NeverIPv6(b: Bytes)
    requires |b| == 16
  {
    || b[0] == 0xfc || b[0] == 0xfd || b[0] == 0xff
    || (b[0] == 0xfe && b[1] >= 0x80)
    || StartsWith(b, [0x20, 0x01, 0, 0]) || StartsWith(b, [0x20, 0x01, 0x0d, 0xb8])
       || StartsWith(b, [0, 0x64, 0xff, 0x9b, 0, 1])
  }

  predicate BlockedIPv6(b: Bytes)
    requires |b| == 16
  {
    || NeverIPv6(b)
    || (CarriesLow(b) && BlockedIPv4(b[12..16]))
    || (StartsWith(b, [0x20, 0x02]) && BlockedIPv4(b[2..6]))
  }

  /** A prefix of whole octets contains exactly what starts with them. */
  lemma OctetPrefix(p: Prefix, b: Bytes)
    requires |b| == |p.bytes| && ValidPrefix(p) && p.bits % 8 == 0
    ensures Contains(p, b) <==> forall k | 0 <= k < p.bits / 8 :: b[k] == p.bytes[k]
  {
    ContainsIffCovers(p, b);
  }

  lemma InHead(p: Prefix, head: Bytes, b: Bytes)
    requires |b| == |p.bytes| && ValidPrefix(p) && p.bits == 8 * |head| && head <= p.bytes
    ensures Contains(p, b) <==> StartsWith(b, head)
  {
    OctetPrefix(p, b);
    assert forall k | 0 <= k < |head| :: head[k] == p.bytes[k];
  }

  lemma InSiteLocal(b: Bytes)
    requires |b| == 16
    ensures Contains(SITE_LOCAL, b) <==> b[0] == 0xfe && b[1] >= 0xc0
  {
    ContainsIffCovers(SITE_LOCAL, b);
  }

  lemma InIPv6Prefixes(b: Bytes)
    requires |b| == 16
    ensures InAny(BLOCKED_PREFIXES, b) <==>
            || StartsWith(b, [0x20, 0x01, 0, 0]) || StartsWith(b, [0x20, 0x01, 0x0d, 0xb8])
            || StartsWith(b, [0, 0x64, 0xff, 0x9b, 0, 1]) || (b[0] == 0xfe && b[1] >= 0xc0)
  {
    InEither(IPV4_PREFIXES, IPV6_PREFIXES, b);
    OtherFamily(IPV4_PREFIXES, b);
    InFour(IPV6_PREFIXES, b);
    InHead(TEREDO, [0x20, 0x01, 0, 0], b);
    InHead(DOCUMENTATION, [0x20, 0x01, 0x0d, 0xb8], b);
    InHead(LOCAL_NAT64, [0, 0x64, 0xff, 0x9b, 0, 1], b);
    InSiteLocal(b);
  }

  /** What the classes add to the prefixes; the two that need all sixteen octets carry 0.0.0.0 or 0.0.0.1. */
  lemma IPv6Blocked(b: Bytes)
    requires |b| == 16
    ensures BlockedAddr(V6(b)) ==> NeverIPv6(b) || (StartsWith(b, COMPATIBLE_HEAD) && b[12] == 0)
    ensures NeverIPv6(b) ==> BlockedAddr(V6(b))
  {
    InIPv6Prefixes(b);
  }

  lemma EmbeddedForms(b: Bytes)
    requires |b| == 16
    ensures Embedded(V6(b)) ==
            if StartsWith(b, COMPATIBLE_HEAD) || StartsWith(b, NAT64_HEAD) || StartsWith(b, SIIT_HEAD)
              then Some(V4(b[12..16]))
            else if StartsWith(b, [0x20, 0x02]) then Some(V4(b[2..6])) else None
  {
    InHead(NAT64, NAT64_HEAD, b);
    InHead(IPV4_COMPATIBLE, COMPATIBLE_HEAD, b);
    InHead(SIIT, SIIT_HEAD, b);
    InHead(SIX_TO_FOUR, [0x20, 0x02], b);
  }

  /** No form is two at once. */
  lemma FormsAreDisjoint(b: Bytes)
    requires |b| == 16
    ensures StartsWith(b, [0x20, 0x02]) ==> !CarriesLow(b) && !NeverIPv6(b)
    ensures StartsWith(b, MAPPED) ==>
              !NeverIPv6(b) && !StartsWith(b, COMPATIBLE_HEAD) && b[..12] == MAPPED && b[12..] == b[12..16]
    ensures !StartsWith(b, MAPPED) ==> b[..12] != MAPPED
  {
    if StartsWith(b, [0x20, 0x02]) { assert b[0] == 0x20 && b[1] == 0x02; }
    if StartsWith(b, MAPPED) { assert b[0] == 0 && b[1] == 0 && b[10] == 0xff; }
  }

  /** The verdict on every 16-byte address is an explicit list of octet ranges. */
  lemma IPv6Verdict(b: Bytes)
    requires |b| == 16
    ensures Blocked(b) <==> BlockedIPv6(b)
  {
    FormsAreDisjoint(b);
    IPv4Verdict(b[12..16]);
    IPv4Verdict(b[2..6]);
    EmbeddedForms(b);
    IPv6Blocked(b);
  }

  // ---------------------------------------------------------------- embeddings

  /** Section 2.5.5.2 of RFC 4291. */
  function Mapped(v4: Bytes): Bytes { MAPPED + v4 }

  /** Section 2.5.5.1 of RFC 4291. */
  function Compatible(v4: Bytes): Bytes { COMPATIBLE_HEAD + v4 }

  /** Section 2.1 of RFC 6052. */
  function Nat64(v4: Bytes): Bytes { NAT64_HEAD + v4 }

  /** The IPv4-translated form of RFC 7915. */
  function Translated(v4: Bytes): Bytes { SIIT_HEAD + v4 }

  /** Section 2 of RFC 3056, with any subnet and interface. */
  function SixToFour(v4: Bytes, rest: Bytes): Bytes { [0x20, 0x02] + v4 + rest }

  /** The forms with the IPv4 address at the end. */
  lemma LowForm(head: Bytes, v4: Bytes)
    requires head == MAPPED || head == COMPATIBLE_HEAD || head == NAT64_HEAD || head == SIIT_HEAD
    requires |v4| == 4
    ensures Blocked(head + v4) <==> BlockedIPv4(v4)
  {
    var b := head + v4;
    assert b[12..16] == v4 && b[0] == head[0] == 0 && b[5] == head[5] == 0;
    IPv6Verdict(b);
  }

  lemma LowForms(v4: Bytes)
    requires |v4| == 4
    ensures (Blocked(Mapped(v4)) <==> BlockedIPv4(v4)) && (Blocked(Compatible(v4)) <==> BlockedIPv4(v4))
    ensures (Blocked(Nat64(v4)) <==> BlockedIPv4(v4)) && (Blocked(Translated(v4)) <==> BlockedIPv4(v4))
  {
    LowForm(MAPPED, v4);
    LowForm(COMPATIBLE_HEAD, v4);
    LowForm(NAT64_HEAD, v4);
    LowForm(SIIT_HEAD, v4);
  }

  lemma SixToFourForm(v4: Bytes, rest: Bytes)
    requires |v4| == 4 && |rest| == 10
    ensures Blocked(SixToFour(v4, rest)) <==> BlockedIPv4(v4)
  {
    var b := SixToFour(v4, rest);
    assert b[2..6] == v4 && StartsWith(b, [0x20, 0x02]);
    FormsAreDisjoint(b);
    IPv6Verdict(b);
  }

  /** However an IPv4 address is carried inside an IPv6 one, the verdict is the IPv4 verdict. */
  lemma EmbeddingsAreSeenThrough(v4: Bytes, rest: Bytes)
    requires |v4| == 4 && |rest| == 10
    ensures Blocked(v4) <==> BlockedIPv4(v4)
    ensures Blocked(Mapped(v4)) <==> BlockedIPv4(v4)
    ensures Blocked(Compatible(v4)) <==> BlockedIPv4(v4)
    ensures Blocked(Nat64(v4)) <==> BlockedIPv4(v4)
    ensures Blocked(Translated(v4)) <==> BlockedIPv4(v4)
    ensures Blocked(SixToFour(v4, rest)) <==> BlockedIPv4(v4)
  {
    IPv4Verdict(v4);
    LowForms(v4);
    SixToFourForm(v4, rest);
  }

  // ---------------------------------------------------------------- dialling

  datatype Outcome<T> = Connected(conn: T) | Refused(why: Refusal)
  datatype Refusal = BadAddress | LookupFailed | NoAddresses | BlockedAddress | DialFailed

  /** The check before dialling. */
  method AnyBlocked(resolved: seq<Bytes>) returns (blocked: bool)
    ensures blocked == HasBlocked(resolved)
  {
    for i := 0 to |resolved|
      invariant forall j | 0 <= j < i :: !Blocked(resolved[j])
    {
      blocked := IsBlocked(resolved[i]);
      if blocked {
        return true;
      }
    }
    return false;
  }

  predicate HasBlocked(resolved: seq<Bytes>) { exists i | 0 <= i < |resolved| :: Blocked(resolved[i]) }

  /** What dialling the addresses in order gives: the first success, after only failures. */
  predicate InOrder<T(==)>(r: Outcome<T>, dialled: seq<Bytes>, resolved: seq<Bytes>, dial: (nat, Bytes) -> Option<T>) {
    && dialled <= resolved && dialled != []
    && (forall i | 0 <= i < |dialled| - 1 :: dial(i, dialled[i]) == None)
    && match dial(|dialled| - 1, dialled[|dialled| - 1])
       case Some(c) => r == Connected(c)
       case None => r == Refused(DialFailed) && dialled == resolved
  }

  method DialAll<T(==)>(resolved: seq<Bytes>, dial: (nat, Bytes) -> Option<T>)
    returns (r: Outcome<T>, dialled: seq<Bytes>)
    requires resolved != []
    ensures InOrder(r, dialled, resolved, dial)
  {
    dialled := [];
    for i := 0 to |resolved|
      invariant dialled == resolved[..i] && forall j | 0 <= j < i :: dial(j, resolved[j]) == None
    {
      dialled := resolved[..i + 1];
      var conn := dial(i, resolved[i]);
      if conn.Some? {
        return Connected(conn.value), dialled;
      }
    }
    return Refused(DialFailed), dialled;
  }

  /**
   * `DialContext` once `addr` is split: `literal` is the host parsed as an address, `lookup` the
   * resolver's answer, and `dial` what dialling the n-th address does. `dialled` is what it dialled.
   */
  method DialContext<T(==)>(split: bool, literal: Option<Bytes>, lookup: Option<seq<Bytes>>,
                            dial: (nat, Bytes) -> Option<T>)
    returns (r: Outcome<T>, dialled: seq<Bytes>)
    ensures var resolved := Resolved(literal, lookup);
            if !split then r == Refused(BadAddress) && dialled == []
            else if literal == None && lookup == None then r == Refused(LookupFailed) && dialled == []
            else if resolved == [] then r == Refused(NoAddresses) && dialled == []
            else if HasBlocked(resolved) then r == Refused(BlockedAddress) && dialled == []
            else InOrder(r, dialled, resolved, dial)
    ensures forall i | 0 <= i < |dialled| :: dialled[i] in Resolved(literal, lookup) && !Blocked(dialled[i])
  {
    dialled := [];
    if !split {
      return Refused(BadAddress), dialled;
    }
    var resolved;
    if literal.Some? {
      resolved := [literal.value];
    } else if lookup.Some? {
      resolved := lookup.value;
    } else {
      return Refused(LookupFailed), dialled;
    }
    if |resolved| == 0 {
      return Refused(NoAddresses), dialled;
    }
    var blocked := AnyBlocked(resolved);
    if blocked {
      return Refused(BlockedAddress), dialled;
    }
    r, dialled := DialAll(resolved, dial);
    forall i | 0 <= i < |dialled| ensures dialled[i] in resolved
      && !Blocked(dialled[i]) { assert dialled[i] == resolved[i]; }
  }

  function Resolved(literal: Option<Bytes>, lookup: Option<seq<Bytes>>): seq<Bytes> {
    if literal.Some? then [literal.value] else lookup.GetOr([])
  }
}
