/** The 8-byte reorder header and the parser that finds the 5-tuple of an inner IP packet. */
module Wire {
  import opened Bits
  import opened Wrappers
  import opened ReorderConfig

  const TYPE_V1: Byte := 0x01
  const FLAG_RESET: Byte := 0x01
  const HDR_LEN: nat := 8

  // ----- header codec -----

  datatype Kind = Raw | ReorderV1 | Unknown

  function ClassifyByte(b0: Byte): Kind {
    if b0 / 16 == 4 || b0 / 16 == 6 then Raw
    else if b0 == TYPE_V1 then ReorderV1
    else Unknown
  }

  datatype Header = Header(kind: Byte, flags: Byte, seqNo: nat)

  /** The value of a big-endian string of octets. */
  function BigEndian(s: seq<Byte>): nat {
    if s == [] then 0 else BigEndian(s[..|s| - 1]) * 0x100 + s[|s| - 1]
  }

  /** The low n octets, most significant first. */
  function Octets(v: nat, n: nat): (r: seq<Byte>)
    ensures |r| == n
  {
    if n == 0 then [] else Octets(v / 0x100, n - 1) + [v % 0x100]
  }

  lemma {:induction false} OctetsInvert(v: nat, n: nat)
    ensures BigEndian(Octets(v, n)) == v % Exp256(n)
  {
    if n > 0 {
      var rest := Octets(v / 0x100, n - 1);
      OctetsInvert(v / 0x100, n - 1);
      assert Octets(v, n)[..n - 1] == rest;
      ModStep(v, Exp256(n - 1));
    }
  }

  function Exp256(n: nat): (r: nat)
    ensures r > 0
  {
    if n == 0 then 1 else 0x100 * Exp256(n - 1)
  }

  lemma ModStep(v: nat, d: nat)
    requires d > 0
    ensures ((v / 0x100) % d) * 0x100 + v % 0x100 == v % (0x100 * d)
  {
    var q, r := (v / 0x100) / d, (v / 0x100) % d;
    assert v == (0x100 * d) * q + (0x100 * r + v % 0x100) by {
      assert v / 0x100 == d * q + r;
      assert (0x100 * d) * q == 0x100 * (d * q);
    }
    assert r <= d - 1;
    ModUnique(v, 0x100 * d, q, 0x100 * r + v % 0x100);
  }

  lemma {:induction false} BigEndianInvert(s: seq<Byte>)
    ensures BigEndian(s) < Exp256(|s|) && Octets(BigEndian(s), |s|) == s
  {
    if s != [] {
      var init, last := s[..|s| - 1], s[|s| - 1];
      BigEndianInvert(init);
      assert BigEndian(s) / 0x100 == BigEndian(init) && BigEndian(s) % 0x100 == last;
      assert s == init + [last];
    }
  }

  function Encode(h: Header): seq<Byte> {
    [h.kind, h.flags] + Octets(h.seqNo, 6)
  }

  function Decode(datagram: seq<Byte>): Option<Header> {
    if |datagram| < HDR_LEN then None
    else Some(Header(datagram[0], datagram[1], BigEndian(datagram[2..HDR_LEN])))
  }

  /** `wire_encode`: fill an 8-byte buffer by shifting. */
  method WireEncode(out: array<Byte>, kind: Byte, flags: Byte, s: nat)
    requires out.Length == HDR_LEN
    modifies out
    ensures out[..] == Encode(Header(kind, flags, s))
  {
    out[0] := kind;
    out[1] := flags;
    out[2] := (s / 0x100_0000_0000) % 0x100;
    out[3] := (s / 0x1_0000_0000) % 0x100;
    out[4] := (s / 0x100_0000) % 0x100;
    out[5] := (s / 0x1_0000) % 0x100;
    out[6] := (s / 0x100) % 0x100;
    out[7] := s % 0x100;
    SixOctets(s);
  }

  lemma SixOctets(s: nat)
    ensures Octets(s, 6) == [(s / 0x100_0000_0000) % 0x100, (s / 0x1_0000_0000) % 0x100, (s / 0x100_0000) % 0x100,
                             (s / 0x1_0000) % 0x100, (s / 0x100) % 0x100, s % 0x100]
  {
    var a, b, c, d, e := s / 0x100, s / 0x1_0000, s / 0x100_0000, s / 0x1_0000_0000, s / 0x100_0000_0000;
    assert a / 0x100 == b && b / 0x100 == c && c / 0x100 == d && d / 0x100 == e;
    assert Octets(e, 1) == [e % 0x100];
    assert Octets(d, 2) == [e % 0x100, d % 0x100];
    assert Octets(c, 3) == [e % 0x100, d % 0x100, c % 0x100];
    assert Octets(b, 4) == [e % 0x100, d % 0x100, c % 0x100, b % 0x100];
    assert Octets(a, 5) == [e % 0x100, d % 0x100, c % 0x100, b % 0x100, a % 0x100];
  }

  lemma Exp256Six()
    ensures Exp256(6) == 0x1_0000_0000_0000
  {
    assert Exp256(3) == 0x100_0000;
  }

  /** Decoding what was encoded gives back the header, the number being carried modulo 2^48. */
  lemma DecodeEncode(h: Header, inner: seq<Byte>)
    ensures Decode(Encode(h) + inner) == Some(h.(seqNo := h.seqNo % 0x1_0000_0000_0000))
  {
    OctetsInvert(h.seqNo, 6);
    Exp256Six();
    assert (Encode(h) + inner)[2..HDR_LEN] == Octets(h.seqNo, 6);
  }

  /** Encoding what was decoded gives back the eight octets. */
  lemma EncodeDecode(datagram: seq<Byte>)
    requires |datagram| >= HDR_LEN
    ensures Decode(datagram).Some? && Encode(Decode(datagram).value) == datagram[..HDR_LEN]
    ensures Decode(datagram).value.seqNo < 0x1_0000_0000_0000
  {
    BigEndianInvert(datagram[2..HDR_LEN]);
    Exp256Six();
    assert datagram[..HDR_LEN] == [datagram[0], datagram[1]] + datagram[2..HDR_LEN];
  }

  // ----- 5-tuple parser -----

  const PROTO_TCP: Byte := 6
  const PROTO_UDP: Byte := 17
  const IP6_HOPOPTS: Byte := 0
  const IP6_ROUTING: Byte := 43
  const IP6_FRAGMENT: Byte := 44
  const IP6_DSTOPTS: Byte := 60
  const MAX_EXT_STEPS: nat := 16

  datatype L4Verdict = Udp(key: FlowKey) | Tcp(key: FlowKey) | Fragment | Other | Malformed

  const ZEROS_12: seq<Byte> := [0, 0, 0, 0, 0, 0, 0, 0, 0, 0, 0, 0]

  function Word(pkt: seq<Byte>, at: nat): nat
    requires at + 2 <= |pkt|
  {
    pkt[at] as int * 0x100 + pkt[at + 1]
  }

  function L4Min(proto: Byte): nat {
    if proto == PROTO_TCP then 20 else 8
  }

  function L4Found(proto: Byte, key: FlowKey): L4Verdict {
    if proto == PROTO_TCP then Tcp(key) else Udp(key)
  }

  function ParseV4(pkt: seq<Byte>): L4Verdict
    requires |pkt| >= 1
  {
    if |pkt| < 20 then Malformed
    else
      var ihl := pkt[0] % 16;
      var hdrLen := ihl * 4;
      if ihl < 5 || |pkt| < hdrLen then Malformed
      else if And(Word(pkt, 6), 0x3fff) != 0 then Fragment
      else
        var proto := pkt[9];
        if proto != PROTO_UDP && proto != PROTO_TCP then Other
        else if |pkt| < hdrLen + L4Min(proto) then Malformed
        else
          L4Found(proto, FlowKey(4, proto, Word(pkt, hdrLen), Word(pkt, hdrLen + 2),
                                 pkt[12..16] + ZEROS_12, pkt[16..20] + ZEROS_12))
  }

  predicate IsExtension(next: Byte) {
    next == IP6_HOPOPTS || next == IP6_ROUTING || next == IP6_DSTOPTS
  }

  /** The extension-header walk, from step i on, with `next` naming the header at `off`. */
  function WalkV6(pkt: seq<Byte>, next: Byte, off: nat, i: nat): L4Verdict
    requires |pkt| >= 40 && i <= MAX_EXT_STEPS
    decreases MAX_EXT_STEPS - i
  {
    if i == MAX_EXT_STEPS then Other
    else if next == PROTO_UDP || next == PROTO_TCP then
      if |pkt| < off + L4Min(next) then Malformed
      else L4Found(next, FlowKey(6, next, Word(pkt, off), Word(pkt, off + 2), pkt[8..24], pkt[24..40]))
    else if next == IP6_FRAGMENT then Fragment
    else if IsExtension(next) then
      if |pkt| < off + 2 then Malformed
      else
        var beyond := off + (pkt[off + 1] as int + 1) * 8;
        if beyond > |pkt| then Malformed else WalkV6(pkt, pkt[off], beyond, i + 1)
    else Other
  }

  function ParseL3L4(pkt: seq<Byte>): L4Verdict {
    if |pkt| < 1 then Malformed
    else if pkt[0] / 16 == 4 then ParseV4(pkt)
    else if pkt[0] / 16 == 6 then
      if |pkt| < 40 then Malformed else WalkV6(pkt, pkt[6], 40, 0)
    else Malformed
  }

  method ParsePacket(pkt: seq<Byte>) returns (v: L4Verdict)
    ensures v == ParseL3L4(pkt)
  {
    if |pkt| < 1 {
      return Malformed;
    }
    var version := pkt[0] / 16;
    if version == 4 {
      v := ParseV4(pkt);
      return;
    }
    if version != 6 || |pkt| < 40 {
      return Malformed;
    }
    var next, off: nat := pkt[6], 40;
    for i := 0 to MAX_EXT_STEPS
      invariant WalkV6(pkt, next, off, i) == WalkV6(pkt, pkt[6], 40, 0)
    {
      if next == PROTO_UDP || next == PROTO_TCP {
        if |pkt| < off + L4Min(next) {
          return Malformed;
        }
        var key := FlowKey(6, next, Word(pkt, off), Word(pkt, off + 2), pkt[8..24], pkt[24..40]);
        return L4Found(next, key);
      }
      if next == IP6_FRAGMENT {
        return Fragment;
      }
      if !IsExtension(next) {
        return Other;
      }
      if |pkt| < off + 2 {
        return Malformed;
      }
      var extBytes := (pkt[off + 1] as int + 1) * 8;
      next := pkt[off];
      off := off + extBytes;
      if off > |pkt| {
        return Malformed;
      }
    }
    return Other;
  }

  // ----- what the parser is for -----

  /** What an IPv4 header says besides protocol and addresses; `frag` holds the flags and the fragment offset. */
  datatype V4Head = V4Head(tos: Byte, length: seq<Byte>, frag: nat, ttl: Byte, checksum: seq<Byte>, options: seq<Byte>) {
    predicate Valid() {
      |length| == 4 && frag < 0x1_0000 && |checksum| == 2 && |options| <= 40 && |options| % 4 == 0
    }

    /** Neither an offset nor more fragments to come. */
    predicate Whole() {
      frag % 0x4000 == 0
    }
  }

  /** An IPv4 header. */
  function HeadV4(h: V4Head, proto: Byte, src: seq<Byte>, dst: seq<Byte>): (r: seq<Byte>)
    requires h.Valid() && |src| == 4 && |dst| == 4
    ensures |r| == 20 + |h.options|
  {
    [0x45 + |h.options| / 4, h.tos] + h.length + Octets(h.frag, 2) + [h.ttl, proto] + h.checksum + src + dst + h.options
  }

  function Ports(key: FlowKey): (r: seq<Byte>)
    ensures |r| == 4
  {
    Octets(key.srcPort, 2) + Octets(key.dstPort, 2)
  }

  /** An IPv4 packet with the given 5-tuple, any header and any payload. */
  function BuildV4(key: FlowKey, h: V4Head, rest: seq<Byte>): seq<Byte>
    requires h.Valid() && |key.srcIp| == 16 && |key.dstIp| == 16
  {
    HeadV4(h, key.proto, key.srcIp[..4], key.dstIp[..4]) + (Ports(key) + rest)
  }

  ghost predicate IsV4Key(key: FlowKey) {
    && key.ipVersion == 4 && (key.proto == PROTO_UDP || key.proto == PROTO_TCP)
    && key.srcPort < 0x1_0000 && key.dstPort < 0x1_0000
    && |key.srcIp| == 16 && key.srcIp[4..] == ZEROS_12 && |key.dstIp| == 16 && key.dstIp[4..] == ZEROS_12
  }

  /** The mask of the fragment test leaves out the two topmost flags. */
  lemma FragmentBits(v: nat)
    ensures And(v, 0x3fff) == v % 0x4000
  {
    assert Pow2(7) == 128;
    assert Pow2(14) == 128 * Pow2(7);
    MaskIsMod(v, 14);
  }

  lemma OctetPair(v: nat)
    ensures Octets(v, 2) == [(v / 0x100) % 0x100, v % 0x100]
  {
    assert Octets(v / 0x100, 1) == [(v / 0x100) % 0x100];
  }

  lemma TwoOctets(pkt: seq<Byte>, at: nat, v: nat)
    requires at + 2 <= |pkt| && pkt[at..at + 2] == Octets(v, 2) && v < 0x1_0000
    ensures Word(pkt, at) == v
  {
    OctetPair(v);
    assert pkt[at] == pkt[at..at + 2][0] && pkt[at + 1] == pkt[at..at + 2][1];
  }

  lemma OctetsOfWord(pkt: seq<Byte>, at: nat)
    requires at + 2 <= |pkt|
    ensures Word(pkt, at) < 0x1_0000 && Octets(Word(pkt, at), 2) == pkt[at..at + 2]
  {
    OctetPair(Word(pkt, at));
  }

  lemma HeadV4Fields(h: V4Head, proto: Byte, src: seq<Byte>, dst: seq<Byte>, after: seq<Byte>)
    requires h.Valid() && |src| == 4 && |dst| == 4
    ensures var pkt := HeadV4(h, proto, src, dst) + after; var n := 20 + |h.options|;
      && |pkt| == n + |after| && pkt[0] == 0x40 + n / 4 && Word(pkt, 6) == h.frag && pkt[9] == proto
      && pkt[12..16] == src && pkt[16..20] == dst && pkt[n..] == after
  {
    hide Octets;
    var pkt := HeadV4(h, proto, src, dst) + after;
    assert pkt[6..8] == Octets(h.frag, 2);
    TwoOctets(pkt, 6, h.frag);
  }

  lemma PortsAt(pkt: seq<Byte>, at: nat, key: FlowKey)
    requires at + 4 <= |pkt| && pkt[at..at + 4] == Ports(key) && key.srcPort < 0x1_0000 && key.dstPort < 0x1_0000
    ensures Word(pkt, at) == key.srcPort && Word(pkt, at + 2) == key.dstPort
  {
    assert pkt[at..at + 2] == pkt[at..at + 4][..2];
    assert pkt[at + 2..at + 4] == pkt[at..at + 4][2..];
    TwoOctets(pkt, at, key.srcPort);
    TwoOctets(pkt, at + 2, key.dstPort);
  }

  lemma BuiltV4Fields(key: FlowKey, h: V4Head, rest: seq<Byte>)
    requires IsV4Key(key) && h.Valid()
    ensures var pkt := BuildV4(key, h, rest); var n := 20 + |h.options|;
      && |pkt| == n + 4 + |rest| && pkt[0] == 0x40 + n / 4 && Word(pkt, 6) == h.frag && pkt[9] == key.proto
      && pkt[12..16] == key.srcIp[..4] && pkt[16..20] == key.dstIp[..4]
      && Word(pkt, n) == key.srcPort && Word(pkt, n + 2) == key.dstPort
  {
    hide HeadV4, Ports, Octets;
    HeadV4Fields(h, key.proto, key.srcIp[..4], key.dstIp[..4], Ports(key) + rest);
    var pkt, n := BuildV4(key, h, rest), 20 + |h.options|;
    assert pkt[n..n + 4] == pkt[n..][..4] == Ports(key);
    PortsAt(pkt, n, key);
  }

  /** A whole UDP or TCP segment over IPv4 is found, with its own 5-tuple, whatever the options; a fragment is not. */
  lemma BuiltV4Parses(key: FlowKey, h: V4Head, rest: seq<Byte>)
    requires IsV4Key(key) && h.Valid() && |rest| + 4 >= L4Min(key.proto)
    ensures ParseL3L4(BuildV4(key, h, rest)) == if h.Whole() then L4Found(key.proto, key) else Fragment
  {
    hide BuildV4, And;
    BuiltV4Fields(key, h, rest);
    FragmentBits(h.frag);
    assert key.srcIp == key.srcIp[..4] + ZEROS_12 && key.dstIp == key.dstIp[..4] + ZEROS_12;
  }

  /** A hop-by-hop, routing or destination options header. */
  datatype Ext = Ext(kind: Byte, body: seq<Byte>) {
    ghost predicate Valid() {
      kind in {0, 43, 60} && |body| % 8 == 6 && |body| / 8 < 0x100
    }
  }

  function FirstKind(exts: seq<Ext>, last: Byte): Byte {
    if exts == [] then last else exts[0].kind
  }

  /** The extension chain: each header names the next one and its own length in 8-octet units. */
  function ChainBytes(exts: seq<Ext>, last: Byte): seq<Byte>
    requires forall e :: e in exts ==> e.Valid()
  {
    if exts == [] then []
    else
      assert exts[0].Valid();
      var units: Byte := |exts[0].body| / 8;
      [FirstKind(exts[1..], last), units] + exts[0].body + ChainBytes(exts[1..], last)
  }

  ghost predicate IsV6Key(key: FlowKey) {
    && key.ipVersion == 6 && (key.proto == PROTO_UDP || key.proto == PROTO_TCP)
    && key.srcPort < 0x1_0000 && key.dstPort < 0x1_0000
    && |key.srcIp| == 16 && |key.dstIp| == 16
  }

  /** What an IPv6 header says besides addresses: six octets of version, class, label and length, the hop limit, and the
      extension headers. */
  datatype V6Head = V6Head(first: seq<Byte>, hopLimit: Byte, exts: seq<Ext>) {
    ghost predicate Valid() {
      |first| == 6 && first[0] / 16 == 6 && forall e :: e in exts ==> e.Valid()
    }
  }

  /** An IPv6 header with its extension headers, `last` naming what comes behind them. */
  function HeadV6(h: V6Head, last: Byte, src: seq<Byte>, dst: seq<Byte>): seq<Byte>
    requires h.Valid() && |src| == 16 && |dst| == 16
  {
    h.first + [FirstKind(h.exts, last), h.hopLimit] + src + dst + ChainBytes(h.exts, last)
  }

  /** An IPv6 packet with the given 5-tuple behind any chain of extension headers. */
  function BuildV6(key: FlowKey, h: V6Head, rest: seq<Byte>): seq<Byte>
    requires h.Valid() && |key.srcIp| == 16 && |key.dstIp| == 16
  {
    HeadV6(h, key.proto, key.srcIp, key.dstIp) + (Ports(key) + rest)
  }

  lemma Peel(pkt: seq<Byte>, off: nat, a: seq<Byte>, b: seq<Byte>)
    requires off <= |pkt| && pkt[off..] == a + b
    ensures off + |a| <= |pkt| && pkt[off + |a|..] == b
    ensures forall i :: 0 <= i < |a| ==> pkt[off + i] == a[i]
  {
    assert pkt[off + |a|..] == pkt[off..][|a|..];
    forall i | 0 <= i < |a|
      ensures pkt[off + i] == a[i]
    {
      assert pkt[off + i] == pkt[off..][i];
    }
  }

  /** The first header of a chain, as bytes. */
  function HeaderBytes(exts: seq<Ext>, last: Byte): (r: seq<Byte>)
    requires exts != [] && exts[0].Valid()
  {
    var units: Byte := |exts[0].body| / 8;
    [FirstKind(exts[1..], last), units] + exts[0].body
  }

  lemma ChainUnfold(exts: seq<Ext>, last: Byte, after: seq<Byte>)
    requires exts != [] && forall e :: e in exts ==> e.Valid()
    ensures exts[0].Valid()
    ensures ChainBytes(exts, last) + after == HeaderBytes(exts, last) + (ChainBytes(exts[1..], last) + after)
    ensures |HeaderBytes(exts, last)| == (HeaderBytes(exts, last)[1] as int + 1) * 8
  {
    assert exts[0].Valid();
  }

  lemma ChainStep(pkt: seq<Byte>, off: nat, exts: seq<Ext>, last: Byte, after: seq<Byte>)
    requires off <= |pkt| && exts != [] && forall e :: e in exts ==> e.Valid()
    requires pkt[off..] == ChainBytes(exts, last) + after
    ensures |pkt| >= off + 2 && pkt[off] == FirstKind(exts[1..], last)
    ensures var beyond := off + (pkt[off + 1] as int + 1) * 8;
      off <= beyond <= |pkt| && pkt[beyond..] == ChainBytes(exts[1..], last) + after
  {
    hide ChainBytes;
    ChainUnfold(exts, last, after);
    Peel(pkt, off, HeaderBytes(exts, last), ChainBytes(exts[1..], last) + after);
    assert pkt[off] == HeaderBytes(exts, last)[0] && pkt[off + 1] == HeaderBytes(exts, last)[1];
  }

  lemma WalkStep(pkt: seq<Byte>, next: Byte, off: nat, i: nat)
    requires |pkt| >= 40 && i < MAX_EXT_STEPS && IsExtension(next) && off + 2 <= |pkt|
    requires off + (pkt[off + 1] as int + 1) * 8 <= |pkt|
    ensures WalkV6(pkt, next, off, i) == WalkV6(pkt, pkt[off], off + (pkt[off + 1] as int + 1) * 8, i + 1)
  {
  }

  /** What ends a chain that the parser has an answer for. */
  predicate IsLast(last: Byte) {
    last == PROTO_UDP || last == PROTO_TCP || last == IP6_FRAGMENT
  }

  /** The answer for what stands behind the chain. */
  function Landing(pkt: seq<Byte>, last: Byte, tail: seq<Byte>): L4Verdict
    requires |pkt| >= 40
  {
    if last == IP6_FRAGMENT then Fragment
    else if |tail| < L4Min(last) then Malformed
    else L4Found(last, FlowKey(6, last, Word(tail, 0), Word(tail, 2), pkt[8..24], pkt[24..40]))
  }

  /** Up to fifteen extension headers are walked over; from sixteen on the packet is given up as Other. */
  lemma {:induction false} WalkFollowsChain(pkt: seq<Byte>, off: nat, i: nat, exts: seq<Ext>, last: Byte, tail: seq<Byte>)
    requires 40 <= off <= |pkt| && i <= MAX_EXT_STEPS && IsLast(last)
    requires forall e :: e in exts ==> e.Valid()
    requires pkt[off..] == ChainBytes(exts, last) + tail
    ensures WalkV6(pkt, FirstKind(exts, last), off, i) ==
            if i + |exts| < MAX_EXT_STEPS then Landing(pkt, last, tail) else Other
    decreases |exts|
  {
    hide ChainBytes, WalkV6, Landing;
    if i == MAX_EXT_STEPS {
      WalkEnds(pkt, FirstKind(exts, last), off);
    } else if exts == [] {
      ChainEmpty(last, tail);
      WalkArrives(pkt, off, i, last, tail);
    } else {
      assert exts[0].Valid();
      ChainStep(pkt, off, exts, last, tail);
      WalkStep(pkt, exts[0].kind, off, i);
      WalkFollowsChain(pkt, off + (pkt[off + 1] as int + 1) * 8, i + 1, exts[1..], last, tail);
    }
  }

  lemma ChainEmpty(last: Byte, after: seq<Byte>)
    ensures ChainBytes([], last) + after == after
  {
  }

  lemma WalkEnds(pkt: seq<Byte>, next: Byte, off: nat)
    requires |pkt| >= 40
    ensures WalkV6(pkt, next, off, MAX_EXT_STEPS) == Other
  {
  }

  lemma WalkArrives(pkt: seq<Byte>, off: nat, i: nat, last: Byte, tail: seq<Byte>)
    requires 40 <= off <= |pkt| && i < MAX_EXT_STEPS && IsLast(last) && pkt[off..] == tail
    ensures WalkV6(pkt, last, off, i) == Landing(pkt, last, tail)
  {
    if |tail| >= 4 {
      assert Word(tail, 0) == Word(pkt, off) && Word(tail, 2) == Word(pkt, off + 2);
    }
  }

  lemma HeadV6Fields(h: V6Head, last: Byte, src: seq<Byte>, dst: seq<Byte>, after: seq<Byte>)
    requires h.Valid() && |src| == 16 && |dst| == 16
    ensures var pkt := HeadV6(h, last, src, dst) + after;
      && |pkt| >= 40 && pkt[0] / 16 == 6 && pkt[6] == FirstKind(h.exts, last)
      && pkt[8..24] == src && pkt[24..40] == dst && pkt[40..] == ChainBytes(h.exts, last) + after
  {
    hide ChainBytes;
  }

  lemma HeadV6Parses(h: V6Head, last: Byte, src: seq<Byte>, dst: seq<Byte>, after: seq<Byte>)
    requires h.Valid() && |src| == 16 && |dst| == 16 && IsLast(last)
    ensures var pkt := HeadV6(h, last, src, dst) + after;
      && |pkt| >= 40 && pkt[8..24] == src && pkt[24..40] == dst
      && ParseL3L4(pkt) == if |h.exts| <= 15 then Landing(pkt, last, after) else Other
  {
    hide WalkV6, HeadV6, Landing;
    HeadV6Fields(h, last, src, dst, after);
    var pkt := HeadV6(h, last, src, dst) + after;
    WalkFollowsChain(pkt, 40, 0, h.exts, last, after);
  }

  lemma PortsLanding(key: FlowKey, rest: seq<Byte>)
    requires key.srcPort < 0x1_0000 && key.dstPort < 0x1_0000
    ensures Word(Ports(key) + rest, 0) == key.srcPort && Word(Ports(key) + rest, 2) == key.dstPort
  {
    hide Ports;
    assert (Ports(key) + rest)[0..4] == Ports(key);
    PortsAt(Ports(key) + rest, 0, key);
  }

  /** A UDP or TCP segment over IPv6 is found behind up to fifteen extension headers. */
  lemma BuiltV6Parses(key: FlowKey, h: V6Head, rest: seq<Byte>)
    requires IsV6Key(key) && h.Valid() && |rest| + 4 >= L4Min(key.proto)
    ensures ParseL3L4(BuildV6(key, h, rest)) == if |h.exts| <= 15 then L4Found(key.proto, key) else Other
  {
    hide ParseL3L4, HeadV6, Ports, Word;
    HeadV6Parses(h, key.proto, key.srcIp, key.dstIp, Ports(key) + rest);
    PortsLanding(key, rest);
  }

  // ----- TTL -----

  /** Decrement the TTL or hop limit, with the incremental header checksum for IPv4; None when it has run out. */
  function Forwarded(pkt: seq<Byte>): Option<seq<Byte>>
    requires |pkt| >= 1 && (if pkt[0] / 16 == 4 then |pkt| >= 20 else |pkt| >= 40)
  {
    if pkt[0] / 16 == 4 then
      if pkt[8] <= 1 then None
      else
        var sum := Word(pkt, 10) + 0x0100;
        var folded := sum % 0x1_0000 + sum / 0x1_0000;
        Some(pkt[8 := pkt[8] - 1][10 := (folded / 0x100) % 0x100][11 := folded % 0x100])
    else if pkt[7] <= 1 then None
    else Some(pkt[7 := pkt[7] - 1])
  }

  lemma {:induction false} WalkIgnoresHopLimit(pkt: seq<Byte>, v: Byte, next: Byte, off: nat, i: nat)
    requires |pkt| >= 40 && i <= MAX_EXT_STEPS && off >= 40
    ensures WalkV6(pkt[7 := v], next, off, i) == WalkV6(pkt, next, off, i)
    decreases MAX_EXT_STEPS - i
  {
    assert pkt[7 := v][8..24] == pkt[8..24] && pkt[7 := v][24..40] == pkt[24..40];
    if i < MAX_EXT_STEPS && IsExtension(next) && off + 2 <= |pkt| {
      WalkIgnoresHopLimit(pkt, v, pkt[off], off + (pkt[off + 1] as int + 1) * 8, i + 1);
    }
  }

  /** The 5-tuple does not depend on what forwarding changes. */
  lemma ParseIgnoresForwarding(pkt: seq<Byte>)
    requires |pkt| >= 1 && (if pkt[0] / 16 == 4 then |pkt| >= 20 else |pkt| >= 40)
    requires Forwarded(pkt).Some?
    ensures var fwd := Forwarded(pkt).value;
      |fwd| == |pkt| && fwd[0] == pkt[0] && ParseL3L4(fwd) == ParseL3L4(pkt)
  {
    hide And;
    var fwd := Forwarded(pkt).value;
    if pkt[0] / 16 == 4 {
      assert fwd[12..16] == pkt[12..16] && fwd[16..20] == pkt[16..20];
    } else if pkt[0] / 16 == 6 {
      WalkIgnoresHopLimit(pkt, pkt[7] - 1, pkt[6], 40, 0);
    }
  }
}
