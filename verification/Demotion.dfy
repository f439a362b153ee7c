/** Detection of acknowledgement-like flows: what the classifier measures, and when it gives a verdict. */
module Demotion {
  import opened Bits
  import opened Ring
  import opened ReorderConfig
  import opened ReorderModel
  import opened Wire

  // ----- what is measured -----

  /** For IPv4 the measure is the UDP payload, options or not; `rest` holds UDP length, checksum and payload. */
  lemma PayloadOfV4(key: FlowKey, h: V4Head, payload: seq<Byte>, udp: seq<Byte>)
    requires IsV4Key(key) && h.Valid() && |udp| == 4
    ensures InnerUdpPayloadLen(BuildV4(key, h, udp + payload)) == |payload|
  {
    hide BuildV4;
    BuiltV4Fields(key, h, udp + payload);
  }

  /** For IPv6 extension headers count as payload: the measure is exact if and only if there are none. */
  lemma PayloadOfV6Iff(key: FlowKey, h: V6Head, payload: seq<Byte>, udp: seq<Byte>)
    requires IsV6Key(key) && h.Valid() && |udp| == 4
    ensures var len := InnerUdpPayloadLen(BuildV6(key, h, udp + payload));
      && len == |payload| + |ChainBytes(h.exts, key.proto)|
      && (len == |payload| <==> h.exts == [])
  {
  }

  predicate IsLarge(cfg: Config, pkt: Packet) {
    InnerUdpPayloadLen(pkt) >= cfg.smallThreshold
  }

  /** So a packet with a small payload is taken for a large one exactly if its extension headers make up the difference. */
  lemma FlipsIff(cfg: Config, key: FlowKey, h: V6Head, payload: seq<Byte>, udp: seq<Byte>)
    requires IsV6Key(key) && h.Valid() && |udp| == 4
    ensures |payload| < cfg.smallThreshold && IsLarge(cfg, BuildV6(key, h, udp + payload)) <==>
            |payload| < cfg.smallThreshold <= |payload| + |ChainBytes(h.exts, key.proto)|
  {
    hide BuildV6, InnerUdpPayloadLen, ChainBytes;
    PayloadOfV6Iff(key, h, payload, udp);
  }

  /** An instance, at the default threshold of 200: 192 octets of payload behind one destination-options header of 8. */
  lemma SmallTakenForLarge(cfg: Config, key: FlowKey, payload: seq<Byte>)
    requires cfg.smallThreshold == 200 && IsV6Key(key) && |payload| == 192
    ensures var ext := Ext(IP6_DSTOPTS, [1, 4, 0, 0, 0, 0]);
      var h := V6Head([0x60, 0, 0, 0, 0, 0], 64, [ext]);
      h.Valid() && IsLarge(cfg, BuildV6(key, h, [0, 0, 0, 0] + payload))
  {
    hide BuildV6, IsLarge;
    var ext := Ext(IP6_DSTOPTS, [1, 4, 0, 0, 0, 0]);
    assert ext.Valid();
    OneHeader(ext, key.proto);
    FlipsIff(cfg, key, V6Head([0x60, 0, 0, 0, 0, 0], 64, [ext]), payload, [0, 0, 0, 0]);
  }

  lemma OneHeader(ext: Ext, proto: Byte)
    requires ext.Valid()
    ensures |ChainBytes([ext], proto)| == 2 + |ext.body|
  {
    assert ChainBytes([ext][1..], proto) == [];
  }

  // ----- the verdict -----

  function LargeCount(cfg: Config, pkts: seq<Packet>): (n: nat)
    ensures n <= |pkts|
  {
    if pkts == [] then 0
    else LargeCount(cfg, pkts[..|pkts| - 1]) + if IsLarge(cfg, pkts[|pkts| - 1]) then 1 else 0
  }

  /** The flow, and the last verdict, after the classifier has seen some packets. */
  function ClassifyAll(cfg: Config, f: Flow, pkts: seq<Packet>): (Flow, Verdict) {
    if pkts == [] then (f, Unchanged) else Classify(cfg, ClassifyAll(cfg, f, pkts[..|pkts| - 1]).0, pkts[|pkts| - 1])
  }

  lemma {:induction false} ClassifierCounts(cfg: Config, f: Flow, pkts: seq<Packet>)
    requires f.classifySeen == 0 && f.classifyLarge == 0 && !cfg.forceNoDemotion
    ensures var n := if |pkts| <= cfg.classifyWindow then |pkts| else cfg.classifyWindow;
      ClassifyAll(cfg, f, pkts).0 == f.(classifySeen := n, classifyLarge := LargeCount(cfg, pkts[..n]))
  {
    hide InnerUdpPayloadLen;
    if pkts != [] {
      var init := pkts[..|pkts| - 1];
      ClassifierCounts(cfg, f, init);
      if |pkts| <= cfg.classifyWindow {
        assert pkts[..|pkts|] == pkts && init[..|init|] == init;
      } else {
        assert init[..cfg.classifyWindow] == pkts[..cfg.classifyWindow];
      }
    }
  }

  /** A flow is judged once, at the packet that completes the window, and is demoted exactly if at most `maxLarge`
      of the packets in the window were large. A window of zero, or the evaluation switch, means never. */
  lemma DemotedIff(cfg: Config, f: Flow, pkts: seq<Packet>)
    requires f.classifySeen == 0 && f.classifyLarge == 0 && pkts != []
    ensures ClassifyAll(cfg, f, pkts).1 == Demote <==>
            !cfg.forceNoDemotion && |pkts| == cfg.classifyWindow && LargeCount(cfg, pkts) <= cfg.maxLarge
  {
    hide InnerUdpPayloadLen;
    if !cfg.forceNoDemotion {
      var init := pkts[..|pkts| - 1];
      ClassifierCounts(cfg, f, init);
      if |init| <= cfg.classifyWindow {
        assert init[..|init|] == init;
      }
    }
  }

  /** A flow of which every packet is taken for large is never demoted, however small its payloads are. */
  lemma FlippedFlowStays(cfg: Config, f: Flow, pkts: seq<Packet>)
    requires f.classifySeen == 0 && f.classifyLarge == 0 && pkts != [] && cfg.maxLarge < cfg.classifyWindow
    requires forall p :: p in pkts ==> IsLarge(cfg, p)
    ensures ClassifyAll(cfg, f, pkts).1 == Unchanged
  {
    hide IsLarge;
    DemotedIff(cfg, f, pkts);
    AllLarge(cfg, pkts);
  }

  lemma {:induction false} AllLarge(cfg: Config, pkts: seq<Packet>)
    requires forall p :: p in pkts ==> IsLarge(cfg, p)
    ensures LargeCount(cfg, pkts) == |pkts|
  {
    hide IsLarge;
    if pkts != [] {
      AllLarge(cfg, pkts[..|pkts| - 1]);
    }
  }
}
