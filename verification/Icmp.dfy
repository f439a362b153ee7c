/** The ICMP and ICMPv6 errors the tunnel ends generate. */
module Icmp {
  import opened Bits
  import opened Wrappers
  import opened Wire
  import opened Checksum

  const IPV4_MIN_HDR: nat := 20
  const IPV6_MIN_HDR: nat := 40
  const IPV6_MIN_MTU: nat := 1280
  const ICMP_TTL: Byte := 64
  const PROTO_ICMP: Byte := 1
  const PROTO_ICMPV6: Byte := 58

  /** Put `s` into `a` from position `at` on. */
  method Blit(a: array<Byte>, at: nat, s: seq<Byte>)
    requires at + |s| <= a.Length
    modifies a
    ensures forall i :: 0 <= i < a.Length ==> a[i] == if at <= i < at + |s| then s[i - at] else old(a[i])
  {
    for i := 0 to |s|
      invariant forall k :: 0 <= k < a.Length ==> a[k] == if at <= k < at + i then s[k - at] else old(a[k])
    {
      a[at + i] := s[i];
    }
  }

  /** Compute the checksum of a range whose checksum word is still zero, and write it there. */
  method FillChecksum(a: array<Byte>, lo: nat, hi: nat, at: nat, extra: nat)
    requires lo <= at && at + 2 <= hi <= a.Length && (at - lo) % 2 == 0 && hi - lo <= 0xffff && extra <= 0x20_0000
    requires a[at] == 0 && a[at + 1] == 0
    modifies a
    ensures forall i :: 0 <= i < a.Length && i != at && i != at + 1 ==> a[i] == old(a[i])
    ensures Fold(extra + WordSum(a[lo..hi])) == ALL_ONES
  {
    hide Fold, WordSum;
    ghost var s := a[lo..hi];
    var sum := SumRange(a, lo, hi, extra);
    var c := FoldAndComplement(sum);
    a[at] := (c / 0x100) % 0x100;
    a[at + 1] := c % 0x100;
    FilledVerifies(s, at - lo, extra, c);
    ghost var half: seq<Byte> := s[at - lo := a[at]];
    assert a[lo..hi] == half[at - lo + 1 := a[at + 1]];
  }

  // ----- ICMP -----

  /** Length of the IPv4 header of the original packet. */
  function Ihl(orig: seq<Byte>): nat
    requires |orig| > 0
  {
    (orig[0] % 16) * 4
  }

  /** The error quotes the header of the original packet and eight octets, as far as it has them. */
  ghost predicate IsErrorV4(p: seq<Byte>, srcIp: seq<Byte>, kind: Byte, code: Byte, mtu: nat, orig: seq<Byte>) {
    && |orig| >= IPV4_MIN_HDR && |srcIp| == 4
    && |p| == 28 + Min(Ihl(orig) + 8, |orig|)
    && p[0] == 0x45 && p[1] == 0xc0 && Word(p, 2) == |p| && p[4..8] == [0, 0, 0, 0]
    && p[8] == ICMP_TTL && p[9] == PROTO_ICMP && p[12..16] == srcIp && p[16..20] == orig[12..16]
    && p[20] == kind && p[21] == code && p[24..26] == [0, 0] && Word(p, 26) == mtu
    && p[28..] == orig[..Min(Ihl(orig) + 8, |orig|)]
  }

  method HeaderV4(pkt: array<Byte>, srcIp: seq<Byte>, dstIp: seq<Byte>)
    requires 28 <= pkt.Length <= 0xffff && |srcIp| == |dstIp| == 4
    requires forall i :: 0 <= i < pkt.Length ==> pkt[i] == 0
    modifies pkt
    ensures pkt[0] == 0x45 && pkt[1] == 0xc0 && pkt[2] as int * 0x100 + pkt[3] == pkt.Length
    ensures forall i :: 4 <= i < 8 ==> pkt[i] == 0
    ensures pkt[8] == ICMP_TTL && pkt[9] == PROTO_ICMP
    ensures forall i :: 0 <= i < 4 ==> pkt[12 + i] == srcIp[i] && pkt[16 + i] == dstIp[i]
    ensures forall i :: 20 <= i < pkt.Length ==> pkt[i] == 0
    ensures Verifies(pkt[0..20])
  {
    hide Fold, WordSum;
    pkt[0] := 0x45;
    pkt[1] := 0xc0;
    pkt[2] := (pkt.Length / 0x100) % 0x100;
    pkt[3] := pkt.Length % 0x100;
    pkt[8] := ICMP_TTL;
    pkt[9] := PROTO_ICMP;
    Blit(pkt, 12, srcIp);
    Blit(pkt, 16, dstIp);
    FillChecksum(pkt, 0, 20, 10, 0);
  }

  method BodyV4(pkt: array<Byte>, kind: Byte, code: Byte, mtu: nat, data: seq<Byte>)
    requires pkt.Length == 28 + |data| <= 0xffff && mtu <= 0xffff
    requires forall i :: 20 <= i < pkt.Length ==> pkt[i] == 0
    modifies pkt
    ensures forall i :: 0 <= i < 20 ==> pkt[i] == old(pkt[i])
    ensures pkt[..20] == old(pkt[0..20])
    ensures pkt[20] == kind && pkt[21] == code && pkt[24] == 0 && pkt[25] == 0
    ensures pkt[26] as int * 0x100 + pkt[27] == mtu && pkt[28..] == data
    ensures Verifies(pkt[20..])
  {
    hide Fold, WordSum;
    pkt[20] := kind;
    pkt[21] := code;
    pkt[26] := mtu / 0x100;
    pkt[27] := mtu % 0x100;
    Blit(pkt, 28, data);
    FillChecksum(pkt, 20, pkt.Length, 22, 0);
    assert pkt[20..] == pkt[20..pkt.Length];
  }

  /** An ICMP error is sent exactly when the original packet holds the IPv4 header it announces, and then both of its
      checksums verify, whatever the packet and however odd its length. */
  method SendV4(srcIp: seq<Byte>, kind: Byte, code: Byte, mtu: nat, orig: seq<Byte>) returns (out: Option<seq<Byte>>)
    requires |srcIp| == 4 && mtu <= 0xffff
    ensures out.Some? <==> |orig| >= IPV4_MIN_HDR && IPV4_MIN_HDR <= Ihl(orig) <= |orig|
    ensures out.Some? ==> IsErrorV4(out.value, srcIp, kind, code, mtu, orig)
    ensures out.Some? ==> Verifies(out.value[..20]) && Verifies(out.value[20..])
  {
    hide Fold, WordSum;
    if |orig| < IPV4_MIN_HDR {
      return None;
    }
    var ihl := Ihl(orig);
    if ihl < IPV4_MIN_HDR || ihl > |orig| {
      return None;
    }
    var dataLen := ihl + 8;
    if dataLen > |orig| {
      dataLen := |orig|;
    }
    var pkt := new Byte[IPV4_MIN_HDR + 8 + dataLen](_ => 0);
    HeaderV4(pkt, srcIp, orig[12..16]);
    BodyV4(pkt, kind, code, mtu, orig[..dataLen]);
    return Some(pkt[..]);
  }

  // ----- ICMPv6 -----

  /** The pseudo-header of section 2.3 of RFC 4443. */
  function PseudoV6(src: seq<Byte>, dst: seq<Byte>, len: nat): seq<Byte> {
    src + dst + Octets(len, 4) + [0, 0, 0, PROTO_ICMPV6]
  }

  ghost predicate IsErrorV6(p: seq<Byte>, srcIp: seq<Byte>, kind: Byte, code: Byte, mtu: nat, orig: seq<Byte>) {
    && |orig| >= IPV6_MIN_HDR && |srcIp| == 16
    && |p| == 48 + Min(|orig|, IPV6_MIN_MTU - 48)
    && p[0] == 0x60 && p[1..4] == [0, 0, 0] && Word(p, 4) == |p| - 40 && p[6] == PROTO_ICMPV6 && p[7] == ICMP_TTL
    && p[8..24] == srcIp && p[24..40] == orig[8..24]
    && p[40] == kind && p[41] == code && p[44..48] == Octets(mtu, 4)
    && p[48..] == orig[..Min(|orig|, IPV6_MIN_MTU - 48)]
  }

  lemma OctetsWordSum(len: nat)
    requires len <= 0xffff
    ensures WordSum(Octets(len, 4) + [0, 0, 0, PROTO_ICMPV6]) == len + PROTO_ICMPV6
  {
    hide WordSum;
    OctetsSmall(len);
    var hi: Byte, lo: Byte := len / 0x100, len % 0x100;
    assert Octets(len, 4) + [0, 0, 0, PROTO_ICMPV6] == [0, 0] + ([hi, lo] + ([0, 0] + [0, PROTO_ICMPV6]));
    WordSumConcat([0, 0], [hi, lo] + ([0, 0] + [0, PROTO_ICMPV6]));
    WordSumConcat([hi, lo], [0, 0] + [0, PROTO_ICMPV6]);
    WordSumConcat([0, 0], [0, PROTO_ICMPV6]);
    WordSumPair(0, 0);
    WordSumPair(hi, lo);
    WordSumPair(0, PROTO_ICMPV6);
  }

  lemma OctetsSmall(len: nat)
    requires len <= 0xffff
    ensures Octets(len, 4) == [0, 0, len / 0x100, len % 0x100]
  {
    assert Octets(0, 1) == [0];
    assert Octets(0, 2) == [0, 0];
    assert Octets(len / 0x100, 3) == [0, 0, len / 0x100];
  }

  lemma PseudoSum(src: seq<Byte>, dst: seq<Byte>, len: nat, rest: seq<Byte>)
    requires |src| == |dst| == 16 && len <= 0xffff
    ensures WordSum(PseudoV6(src, dst, len) + rest) ==
            WordSum(src) + WordSum(dst) + len + PROTO_ICMPV6 + WordSum(rest)
  {
    hide WordSum, Octets;
    var tail := Octets(len, 4) + [0, 0, 0, PROTO_ICMPV6];
    OctetsWordSum(len);
    assert PseudoV6(src, dst, len) + rest == src + (dst + (tail + rest));
    WordSumConcat(src, dst + (tail + rest));
    WordSumConcat(dst, tail + rest);
    WordSumConcat(tail, rest);
  }

  /** Sum of the pseudo-header: addresses, length in two halves, next header. */
  method PseudoHeaderSum(pkt: array<Byte>, len: nat) returns (sum: nat)
    requires pkt.Length >= 40 && len <= 0xffff
    ensures sum == WordSum(pkt[8..24]) + WordSum(pkt[24..40]) + len + PROTO_ICMPV6 && sum <= 0x10_0000 + 0xffff + 58
  {
    hide WordSum;
    sum := SumRange(pkt, 8, 24, 0);
    WordSumBound(pkt[8..24]);
    WordSumBound(pkt[24..40]);
    sum := SumRange(pkt, 24, 40, sum);
    sum := sum + len / 0x1_0000 + len % 0x1_0000 + PROTO_ICMPV6;
  }

  method HeaderV6(pkt: array<Byte>, srcIp: seq<Byte>, dstIp: seq<Byte>)
    requires 48 <= pkt.Length <= IPV6_MIN_MTU && |srcIp| == |dstIp| == 16
    requires forall i :: 0 <= i < pkt.Length ==> pkt[i] == 0
    modifies pkt
    ensures pkt[0] == 0x60 && pkt[1] == 0 && pkt[2] == 0 && pkt[3] == 0
    ensures pkt[4] as int * 0x100 + pkt[5] == pkt.Length - 40 && pkt[6] == PROTO_ICMPV6 && pkt[7] == ICMP_TTL
    ensures pkt[8..24] == srcIp && pkt[24..40] == dstIp
    ensures forall i :: 40 <= i < pkt.Length ==> pkt[i] == 0
  {
    pkt[0] := 0x60;
    pkt[4] := ((pkt.Length - IPV6_MIN_HDR) / 0x100) % 0x100;
    pkt[5] := (pkt.Length - IPV6_MIN_HDR) % 0x100;
    pkt[6] := PROTO_ICMPV6;
    pkt[7] := ICMP_TTL;
    Blit(pkt, 8, srcIp);
    Blit(pkt, 24, dstIp);
  }

  method BodyV6(pkt: array<Byte>, kind: Byte, code: Byte, mtu: nat, data: seq<Byte>)
    requires pkt.Length == 48 + |data|
    requires forall i :: 40 <= i < pkt.Length ==> pkt[i] == 0
    modifies pkt
    ensures forall i :: 0 <= i < 40 ==> pkt[i] == old(pkt[i])
    ensures pkt[40] == kind && pkt[41] == code && pkt[42] == 0 && pkt[43] == 0
    ensures pkt[44..48] == Octets(mtu, 4) && pkt[48..] == data
  {
    hide Octets;
    pkt[40] := kind;
    pkt[41] := code;
    Blit(pkt, 44, Octets(mtu, 4));
    Blit(pkt, 48, data);
  }

  /** The checksum of an ICMPv6 message, over its pseudo-header. */
  method ChecksumV6(pkt: array<Byte>)
    requires 48 <= pkt.Length <= IPV6_MIN_MTU && pkt[42] == 0 && pkt[43] == 0
    modifies pkt
    ensures forall i :: 0 <= i < pkt.Length && i != 42 && i != 43 ==> pkt[i] == old(pkt[i])
    ensures Verifies(PseudoV6(pkt[8..24], pkt[24..40], pkt.Length - 40) + pkt[40..])
  {
    hide Fold, WordSum, PseudoV6;
    ghost var src, dst := pkt[8..24], pkt[24..40];
    var sum := PseudoHeaderSum(pkt, pkt.Length - 40);
    FillChecksum(pkt, 40, pkt.Length, 42, sum);
    PseudoSum(src, dst, pkt.Length - 40, pkt[40..pkt.Length]);
    assert pkt[8..24] == src && pkt[24..40] == dst && pkt[40..] == pkt[40..pkt.Length];
  }

  /** An ICMPv6 error is sent for every packet with a whole IPv6 header; it fits the minimum MTU and its checksum
      verifies over the pseudo-header. */
  method SendV6(srcIp: seq<Byte>, kind: Byte, code: Byte, mtu: nat, orig: seq<Byte>) returns (out: Option<seq<Byte>>)
    requires |srcIp| == 16 && mtu < 0x1_0000_0000
    ensures out.Some? <==> |orig| >= IPV6_MIN_HDR
    ensures out.Some? ==> IsErrorV6(out.value, srcIp, kind, code, mtu, orig) && |out.value| <= IPV6_MIN_MTU
    ensures out.Some? ==> Verifies(PseudoV6(srcIp, orig[8..24], |out.value| - 40) + out.value[40..])
  {
    hide Fold, WordSum, Octets, PseudoV6;
    if |orig| < IPV6_MIN_HDR {
      return None;
    }
    var dataLen := |orig|;
    if IPV6_MIN_HDR + 8 + dataLen > IPV6_MIN_MTU {
      dataLen := IPV6_MIN_MTU - IPV6_MIN_HDR - 8;
    }
    var pkt := new Byte[IPV6_MIN_HDR + 8 + dataLen](_ => 0);
    HeaderV6(pkt, srcIp, orig[8..24]);
    ghost var addresses := pkt[8..40];
    assert addresses == srcIp + orig[8..24];
    BodyV6(pkt, kind, code, mtu, orig[..dataLen]);
    ChecksumV6(pkt);
    assert pkt[8..40] == addresses;
    assert pkt[8..24] == addresses[..16] && pkt[24..40] == addresses[16..];
    assert pkt[44..48] == Octets(mtu, 4) && pkt[48..] == orig[..dataLen];
    return Some(pkt[..]);
  }
}
