/** Exactly which packets the parser gives a 5-tuple, and which it calls fragments. */
module WireInverse {
  import opened Bits
  import opened ReorderConfig
  import opened Wire

  /** A whole segment of the flow: an unfragmented IPv4 packet, or an IPv6 packet with at most fifteen extension headers,
      long enough for the header of its transport. */
  ghost predicate IsSegment(pkt: seq<Byte>, key: FlowKey) {
    || (IsV4Key(key) && exists h: V4Head, rest: seq<Byte> ::
          h.Valid() && h.Whole() && |rest| >= AfterPorts(key.proto) && pkt == BuildV4(key, h, rest))
    || (IsV6Key(key) && exists h: V6Head, rest: seq<Byte> ::
          h.Valid() && |h.exts| <= 15 && |rest| >= AfterPorts(key.proto) && pkt == BuildV6(key, h, rest))
  }

  /** What a TCP or UDP header holds at least behind the ports. */
  function AfterPorts(proto: Byte): nat {
    if proto == 6 then 16 else 4
  }

  /** A fragment: an IPv4 packet of any protocol with an offset or with more fragments to come, or an IPv6 packet with a
      fragment header behind at most fifteen others; whatever it carries. */
  ghost predicate IsFragment(pkt: seq<Byte>) {
    || (exists h: V4Head, proto: Byte, src: seq<Byte>, dst: seq<Byte>, rest: seq<Byte> ::
          h.Valid() && !h.Whole() && |src| == 4 && |dst| == 4 && pkt == HeadV4(h, proto, src, dst) + rest)
    || (exists h: V6Head, src: seq<Byte>, dst: seq<Byte>, rest: seq<Byte> ::
          h.Valid() && |h.exts| <= 15 && |src| == 16 && |dst| == 16 && pkt == HeadV6(h, IP6_FRAGMENT, src, dst) + rest)
  }

  // ----- IPv4 -----

  /** The header of an IPv4 packet, read off its octets. */
  function HeadOfV4(pkt: seq<Byte>): V4Head
    requires |pkt| >= 20
  {
    var n := (pkt[0] % 16) * 4;
    V4Head(pkt[1], pkt[2..6], Word(pkt, 6), pkt[8], pkt[10..12], if 20 <= n <= |pkt| then pkt[20..n] else [])
  }

  predicate HasHeadV4(pkt: seq<Byte>) {
    |pkt| >= 20 && pkt[0] / 16 == 4 && 20 <= (pkt[0] % 16) * 4 <= |pkt|
  }

  lemma HeadV4Inverse(pkt: seq<Byte>)
    requires HasHeadV4(pkt)
    ensures var h := HeadOfV4(pkt); var n := (pkt[0] % 16) * 4;
      h.Valid() && 20 + |h.options| == n && pkt == HeadV4(h, pkt[9], pkt[12..16], pkt[16..20]) + pkt[n..]
  {
    hide Octets, Word;
    var h, n := HeadOfV4(pkt), (pkt[0] % 16) * 4;
    OctetsOfWord(pkt, 6);
    assert pkt[0] == 0x45 + |h.options| / 4;
    assert pkt[..n] == HeadV4(h, pkt[9], pkt[12..16], pkt[16..20]);
    assert pkt == pkt[..n] + pkt[n..];
  }

  lemma HeadV4Parses(h: V4Head, proto: Byte, src: seq<Byte>, dst: seq<Byte>, rest: seq<Byte>)
    requires h.Valid() && |src| == 4 && |dst| == 4
    ensures var pkt := HeadV4(h, proto, src, dst) + rest; HasHeadV4(pkt) && (ParseL3L4(pkt) == Fragment <==> !h.Whole())
  {
    hide And, HeadV4, Word;
    HeadV4Fields(h, proto, src, dst, rest);
    FragmentBits(h.frag);
  }

  lemma PortsInverse(tail: seq<Byte>, key: FlowKey)
    requires |tail| >= 4 && key.srcPort == Word(tail, 0) && key.dstPort == Word(tail, 2)
    ensures key.srcPort < 0x1_0000 && key.dstPort < 0x1_0000 && tail == Ports(key) + tail[4..]
  {
    hide Word, Octets;
    OctetsOfWord(tail, 0);
    OctetsOfWord(tail, 2);
    assert tail[0..4] == tail[0..2] + tail[2..4];
  }

  /** A 5-tuple read off an IPv4 packet is the one it was built for. */
  lemma V4Inverse(pkt: seq<Byte>, key: FlowKey)
    requires |pkt| >= 1 && pkt[0] / 16 == 4 && (ParseL3L4(pkt) == Udp(key) || ParseL3L4(pkt) == Tcp(key))
    ensures IsV4Key(key) && IsSegment(pkt, key) && ParseL3L4(pkt) == L4Found(key.proto, key)
  {
    hide And, HeadV4, BuildV4, Ports, Octets;
    var h, n := HeadOfV4(pkt), (pkt[0] % 16) * 4;
    assert HasHeadV4(pkt);
    HeadV4Inverse(pkt);
    FragmentBits(h.frag);
    var tail := pkt[n..];
    assert Word(tail, 0) == Word(pkt, n) && Word(tail, 2) == Word(pkt, n + 2);
    PortsInverse(tail, key);
    assert key.srcIp[..4] == pkt[12..16] && key.dstIp[..4] == pkt[16..20];
    BuiltIs(pkt, key, h, tail);
    assert |tail[4..]| >= AfterPorts(key.proto);
  }

  lemma BuiltIs(pkt: seq<Byte>, key: FlowKey, h: V4Head, tail: seq<Byte>)
    requires h.Valid() && |key.srcIp| == 16 && |key.dstIp| == 16 && |tail| >= 4
    requires pkt == HeadV4(h, key.proto, key.srcIp[..4], key.dstIp[..4]) + tail && tail == Ports(key) + tail[4..]
    ensures pkt == BuildV4(key, h, tail[4..])
  {
  }

  // ----- IPv6 -----

  /** Where the walk gives an answer, it has followed a chain. */
  lemma {:induction false} WalkInverse(pkt: seq<Byte>, next: Byte, off: nat, i: nat)
      returns (exts: seq<Ext>, last: Byte, tail: seq<Byte>)
    requires 40 <= off <= |pkt| && i <= MAX_EXT_STEPS
    requires var v := WalkV6(pkt, next, off, i); v.Udp? || v.Tcp? || v.Fragment?
    ensures i + |exts| < MAX_EXT_STEPS && IsLast(last) && next == FirstKind(exts, last)
    ensures forall e :: e in exts ==> e.Valid()
    ensures pkt[off..] == ChainBytes(exts, last) + tail
    decreases MAX_EXT_STEPS - i
  {
    if IsLast(next) {
      exts, last, tail := [], next, pkt[off..];
      ChainEmpty(last, tail);
    } else {
      var beyond := off + (pkt[off + 1] as int + 1) * 8;
      var more: seq<Ext>;
      more, last, tail := WalkInverse(pkt, pkt[off], beyond, i + 1);
      var e := Ext(next, pkt[off + 2..beyond]);
      exts := [e] + more;
      assert exts[1..] == more;
      ChainPrefix(pkt, off, e, more, last, tail);
    }
  }

  lemma ChainPrefix(pkt: seq<Byte>, off: nat, e: Ext, more: seq<Ext>, last: Byte, tail: seq<Byte>)
    requires off + 2 <= |pkt| && pkt[off] == FirstKind(more, last) && IsExtension(e.kind)
    requires var beyond := off + (pkt[off + 1] as int + 1) * 8;
      beyond <= |pkt| && e.body == pkt[off + 2..beyond] && forall x :: x in more ==> x.Valid()
    requires pkt[off + (pkt[off + 1] as int + 1) * 8..] == ChainBytes(more, last) + tail
    ensures e.Valid() && forall x :: x in [e] + more ==> x.Valid()
    ensures pkt[off..] == ChainBytes([e] + more, last) + tail
  {
    hide ChainBytes;
    var beyond := off + (pkt[off + 1] as int + 1) * 8;
    var all := [e] + more;
    assert all[1..] == more;
    ChainUnfold(all, last, tail);
    assert pkt[off..] == pkt[off..beyond] + pkt[beyond..];
    assert pkt[off..beyond] == HeaderBytes(all, last);
  }

  /** An IPv6 packet for which the walk gives an answer, as header, chain and what stands behind it. */
  lemma V6Shape(pkt: seq<Byte>) returns (h: V6Head, last: Byte, tail: seq<Byte>)
    requires |pkt| >= 1 && pkt[0] / 16 == 6
    requires var v := ParseL3L4(pkt); v.Udp? || v.Tcp? || v.Fragment?
    ensures |pkt| >= 40 && h.Valid() && |h.exts| <= 15 && IsLast(last)
    ensures pkt == HeadV6(h, last, pkt[8..24], pkt[24..40]) + tail
    ensures ParseL3L4(pkt) == Landing(pkt, last, tail)
  {
    hide WalkV6, ChainBytes, Landing;
    var exts: seq<Ext>;
    exts, last, tail := WalkInverse(pkt, pkt[6], 40, 0);
    h := V6Head(pkt[..6], pkt[7], exts);
    assert pkt == pkt[..6] + [pkt[6], pkt[7]] + pkt[8..24] + pkt[24..40] + pkt[40..];
    HeadV6Parses(h, last, pkt[8..24], pkt[24..40], tail);
  }

  lemma V6Inverse(pkt: seq<Byte>, key: FlowKey)
    requires |pkt| >= 1 && pkt[0] / 16 == 6 && (ParseL3L4(pkt) == Udp(key) || ParseL3L4(pkt) == Tcp(key))
    ensures IsV6Key(key) && IsSegment(pkt, key) && ParseL3L4(pkt) == L4Found(key.proto, key)
  {
    hide ParseL3L4, HeadV6, Ports, Word;
    var h, last, tail := V6Shape(pkt);
    PortsInverse(tail, key);
    assert pkt == BuildV6(key, h, tail[4..]);
    assert |tail[4..]| >= AfterPorts(key.proto);
  }

  // ----- both -----

  lemma OnlyVersions(pkt: seq<Byte>)
    requires !ParseL3L4(pkt).Malformed?
    ensures |pkt| >= 1 && (pkt[0] / 16 == 4 || pkt[0] / 16 == 6)
  {
  }

  lemma SegmentParses(pkt: seq<Byte>, key: FlowKey)
    requires IsSegment(pkt, key)
    ensures ParseL3L4(pkt) == L4Found(key.proto, key) && (key.proto == PROTO_UDP || key.proto == PROTO_TCP)
  {
    hide ParseL3L4, BuildV4, BuildV6, L4Found;
    if IsV4Key(key) {
      var h: V4Head, rest: seq<Byte> :|
        h.Valid() && h.Whole() && |rest| >= AfterPorts(key.proto) && pkt == BuildV4(key, h, rest);
      BuiltV4Parses(key, h, rest);
    } else {
      var h: V6Head, rest: seq<Byte> :|
        h.Valid() && |h.exts| <= 15 && |rest| >= AfterPorts(key.proto) && pkt == BuildV6(key, h, rest);
      BuiltV6Parses(key, h, rest);
    }
  }

  /** The parser gives a packet a UDP or TCP 5-tuple exactly if it is a whole segment of that flow. */
  lemma ParsesIff(pkt: seq<Byte>, key: FlowKey)
    ensures ParseL3L4(pkt) == Udp(key) <==> IsSegment(pkt, key) && key.proto == PROTO_UDP
    ensures ParseL3L4(pkt) == Tcp(key) <==> IsSegment(pkt, key) && key.proto == PROTO_TCP
  {
    hide ParseL3L4, IsSegment;
    if ParseL3L4(pkt) == Udp(key) || ParseL3L4(pkt) == Tcp(key) {
      OnlyVersions(pkt);
      if pkt[0] / 16 == 4 {
        V4Inverse(pkt, key);
      } else {
        V6Inverse(pkt, key);
      }
    }
    if IsSegment(pkt, key) {
      SegmentParses(pkt, key);
    }
  }

  /** The parser calls a packet a fragment exactly if it is one; so no payload is ever taken for ports. */
  lemma FragmentIff(pkt: seq<Byte>)
    ensures ParseL3L4(pkt) == Fragment <==> IsFragment(pkt)
  {
    hide ParseL3L4, HeadV4, HeadV6, HasHeadV4;
    if ParseL3L4(pkt) == Fragment {
      OnlyVersions(pkt);
      if pkt[0] / 16 == 4 {
        FragmentHasHead(pkt);
        HeadV4Inverse(pkt);
        var n := (pkt[0] % 16) * 4;
        HeadV4Parses(HeadOfV4(pkt), pkt[9], pkt[12..16], pkt[16..20], pkt[n..]);
      } else {
        var h, last, tail := V6Shape(pkt);
        assert last == IP6_FRAGMENT;
      }
    }
    if h: V4Head, proto: Byte, src: seq<Byte>, dst: seq<Byte>, rest: seq<Byte> :|
        h.Valid() && !h.Whole() && |src| == 4 && |dst| == 4 && pkt == HeadV4(h, proto, src, dst) + rest {
      HeadV4Parses(h, proto, src, dst, rest);
    }
    if h: V6Head, src: seq<Byte>, dst: seq<Byte>, rest: seq<Byte> :|
        h.Valid() && |h.exts| <= 15 && |src| == 16 && |dst| == 16 && pkt == HeadV6(h, IP6_FRAGMENT, src, dst) + rest {
      HeadV6Parses(h, IP6_FRAGMENT, src, dst, rest);
    }
  }

  lemma FragmentHasHead(pkt: seq<Byte>)
    requires |pkt| >= 1 && pkt[0] / 16 == 4 && ParseL3L4(pkt) == Fragment
    ensures HasHeadV4(pkt) && |pkt| >= 20 && 20 <= (pkt[0] % 16) * 4 <= |pkt|
  {
    hide And;
  }
}
