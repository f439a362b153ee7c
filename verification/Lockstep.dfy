/** The two ends agree on which packets take part: what the sender stamps the receiver reorders, and nothing else. */
module Lockstep {
  import opened Bits
  import opened Wrappers
  import opened Ring
  import opened ReorderConfig
  import opened Wire
  import opened WireInverse
  import opened SenderModel
  import opened ReceiverModel
  import opened ReceiverLoss
  import opened EndToEnd

  /** A fragment, TCP, and whatever is no whole UDP segment goes out as it is, and leaves no trace in the table. */
  lemma OnlySegmentsAreStamped(tx: Tx, pkt: Packet, now: nat, budget: nat)
    requires !exists key :: IsSegment(pkt, key) && key.proto == PROTO_UDP
    ensures PeekVictim(tx, pkt, now, None) && Peek(tx, pkt, now, budget, None) == (tx, SendRaw)
  {
    hide ParseL3L4, IsSegment;
    if ParseL3L4(pkt).Udp? {
      ParsesIff(pkt, ParseL3L4(pkt).key);
    }
  }

  lemma FragmentIsNoSegment(pkt: Packet, key: FlowKey)
    requires IsFragment(pkt)
    ensures !IsSegment(pkt, key)
  {
    hide IsFragment, IsSegment, ParseL3L4;
    FragmentIff(pkt);
    if IsSegment(pkt, key) {
      SegmentParses(pkt, key);
    }
  }

  /** No fragment is ever stamped, nor accepted behind a stamp. */
  lemma FragmentsGoRaw(tx: Tx, cfg: Config, header: Header, pkt: Packet, now: nat, budget: nat)
    requires IsFragment(pkt) && header.seqNo < SEQ_LIMIT
    ensures Peek(tx, pkt, now, budget, None) == (tx, SendRaw)
    ensures var d := DispatchDatagram(cfg, Stamped(header, pkt)); d == Ignore || d == Direct(pkt)
  {
    hide IsFragment, IsSegment, ParseL3L4, Decode, Stamped;
    FragmentIff(pkt);
    forall key: FlowKey
      ensures !IsSegment(pkt, key)
    {
      FragmentIsNoSegment(pkt, key);
    }
    OnlySegmentsAreStamped(tx, pkt, now, budget);
    StampedDecodes(header, pkt);
  }

  /** Everything on the wire belongs to flows to reorder. */
  ghost predicate WireChosen(tx: Tx) {
    forall i :: 0 <= i < |tx.wire| ==> ToReorder(tx.cfg, tx.wire[i].key)
  }

  lemma StepKeepsWireChosen(tx: Tx, ev: TxEvent)
    requires TxInv(tx) && WireChosen(tx) && PeekVictim(tx, ev.pkt, ev.now, ev.victim)
    ensures WireChosen(TxStep(tx, ev))
  {
    hide ParseL3L4, TxInv, ToReorder, Admit, PeekVictim;
    StampsIff(tx, ev.pkt, ev.now, ev.budget, ev.victim);
    PeekStampOf(tx, ev.pkt, ev.now, ev.budget, ev.victim);
  }

  lemma {:induction false} RunKeepsWireChosen(states: seq<Tx>, evs: seq<TxEvent>, cfg: Config, n: nat)
    requires IsTxRun(states, evs) && states[0] == FreshTx(cfg) && n < |states|
    ensures WireChosen(states[n])
  {
    hide TxInv, TxStep, PeekVictim;
    if n > 0 {
      RunKeepsWireChosen(states, evs, cfg, n - 1);
      RunKeepsTxInv(states, evs, cfg, n - 1);
      StepKeepsWireChosen(states[n - 1], evs[n - 1]);
    }
  }

  /** Under one finalized configuration, in every run of the sender: each packet it has stamped is put in order by the
      receiver, except where a zero wait was set for every flow; then it is passed on at once. None is ever dropped. */
  lemma StampedIsReordered(states: seq<Tx>, evs: seq<TxEvent>, cfg: Config, n: nat, i: nat)
    requires IsTxRun(states, evs) && states[0] == FreshTx(cfg) && Resolved(cfg) && n < |states| && i < |states[n].wire|
    requires (forall j :: 0 <= j < n ==> Faithful(evs[j])) && |states[n].wire| <= SEQ_LIMIT
    ensures var s := states[n].wire[i];
      && ToReorder(cfg, s.key)
      && DispatchDatagram(cfg, Stamped(s.header, s.inner)) ==
         if Waits(cfg, s.key) then Reorder(s.key, s.header, s.inner) else Direct(s.inner)
  {
    hide TxInv, WireSound, ToReorder, Waits, DispatchDatagram, FlowWaitMs, Resolved, Stamped, SentBy, IsTxRun;
    RunKeepsTxInv(states, evs, cfg, n);
    RunKeepsWireSound(states, evs, cfg, n);
    RunKeepsWireChosen(states, evs, cfg, n);
    var s := states[n].wire[i];
    OnWire(states[n], i);
    WaitsIff(cfg, s.key);
    StampedIsDispatched(cfg, s.key, s.header, s.inner);
  }

  lemma OnWire(tx: Tx, i: nat)
    requires TxInv(tx) && WireSound(tx) && i < |tx.wire| && |tx.wire| <= SEQ_LIMIT
    ensures var s := tx.wire[i];
      && s.header.kind == TYPE_V1 && s.header.seqNo < SEQ_LIMIT
      && ParseL3L4(s.inner) == Udp(s.key) && |s.inner| <= 0xffff
  {
    hide ParseL3L4, SentBy, FlowNumbered;
    var k := IndexInIncarnation(tx.wire, i);
    assert Numbered(SentBy(tx.wire, tx.wire[i].id), tx.cfg.resetMarks);
  }

  /** Where a packet stands among those of its incarnation. */
  lemma {:induction false} IndexInIncarnation(wire: seq<Sent>, i: nat) returns (k: nat)
    requires i < |wire|
    ensures k < |SentBy(wire, wire[i].id)| && SentBy(wire, wire[i].id)[k] == wire[i]
  {
    var n := |wire| - 1;
    if i < n {
      k := IndexInIncarnation(wire[..n], i);
    } else {
      k := |SentBy(wire[..n], wire[i].id)|;
    }
  }

  /** A flow of profile default_udp is never stamped, and would not wait. */
  lemma DefaultUdpStaysRaw(states: seq<Tx>, evs: seq<TxEvent>, cfg: Config, n: nat, i: nat, r: nat)
    requires IsTxRun(states, evs) && states[0] == FreshTx(cfg) && Resolved(cfg) && n < |states| && i < |states[n].wire|
    requires Decides(cfg.rules, states[n].wire[i].key, r)
    ensures ForReordering(cfg.rules[r].profile) && cfg.rules[r].profile != DefaultUdp
  {
    hide TxInv, IsTxRun, MatchIndex;
    RunKeepsTxInv(states, evs, cfg, n);
    RunKeepsWireChosen(states, evs, cfg, n);
    var key := states[n].wire[i].key;
    assert ToReorder(cfg, key);
    DecidesMeans(cfg.rules, key, r);
    var j: nat :| Decides(cfg.rules, key, j) && ForReordering(cfg.rules[j].profile);
    DecidesIs(cfg.rules, key, j);
  }

  lemma DecidesMeans(rules: seq<Rule>, key: FlowKey, r: nat)
    requires Decides(rules, key, r)
    ensures rules != [] && r < |rules| && MatchIndex(rules, key) == r
  {
    DecidesIs(rules, key, r);
  }

  // ----- what the receiver accepts -----

  /** The datagram is a header of type 1 and a packet behind it. */
  ghost predicate IsStamped(datagram: seq<Byte>, header: Header, inner: Packet) {
    header.kind == 1 && header.seqNo < SEQ_LIMIT && datagram == Stamped(header, inner) && 0 < |inner| <= 0xffff
  }

  lemma DecodedIsStamped(datagram: seq<Byte>)
    requires |datagram| >= HDR_LEN
    ensures Decode(datagram).Some?
    ensures var h := Decode(datagram).value; h.seqNo < SEQ_LIMIT && datagram == Stamped(h, datagram[HDR_LEN..])
  {
    hide Encode, Decode;
    EncodeDecode(datagram);
    assert datagram == datagram[..HDR_LEN] + datagram[HDR_LEN..];
  }

  lemma StampedIff(datagram: seq<Byte>, inner: Packet)
    ensures (exists h :: IsStamped(datagram, h, inner)) <==>
            && Decode(datagram).Some? && IsStamped(datagram, Decode(datagram).value, inner)
  {
    hide Decode, Stamped;
    if h :| IsStamped(datagram, h, inner) {
      StampedDecodes(h, inner);
    }
  }

  /** What the decoder and the dispatch make of a datagram, in their own terms. */
  lemma DispatchMeans(cfg: Config, datagram: seq<Byte>)
    ensures var d := DispatchDatagram(cfg, datagram);
      if |datagram| < HDR_LEN then d == Ignore
      else
        var h, inner := Decode(datagram).value, datagram[HDR_LEN..];
        if !IsStamped(datagram, h, inner) then d == Ignore
        else if cfg.maxWaitMs == 0 && cfg.rules == [] then d == Direct(inner)
        else if !ParseL3L4(inner).Udp? then d == Ignore
        else if FlowWaitMs(cfg, ParseL3L4(inner).key) == 0 then d == Direct(inner)
        else d == Reorder(ParseL3L4(inner).key, h, inner)
  {
    hide ParseL3L4, Stamped, FlowWaitMs;
    if |datagram| >= HDR_LEN {
      DecodedIsStamped(datagram);
    }
  }

  /** The receiver puts a datagram in order exactly if it is a stamped whole UDP segment of a flow that waits; it passes the
      packet of a stamped one on exactly if nothing waits, or it is such a segment and its flow does not; and else ignores
      it. */
  lemma DispatchIff(cfg: Config, datagram: seq<Byte>, key: FlowKey, header: Header, inner: Packet)
    ensures DispatchDatagram(cfg, datagram) == Reorder(key, header, inner) <==>
            && IsStamped(datagram, header, inner)
            && IsSegment(inner, key) && key.proto == PROTO_UDP && FlowWaitMs(cfg, key) > 0
    ensures DispatchDatagram(cfg, datagram) == Direct(inner) <==>
            && (exists h :: IsStamped(datagram, h, inner))
            && ((cfg.maxWaitMs == 0 && cfg.rules == []) ||
                exists k :: IsSegment(inner, k) && k.proto == PROTO_UDP && FlowWaitMs(cfg, k) == 0)
  {
    hide IsSegment, ParseL3L4, Decode, FlowWaitMs, DispatchDatagram, Stamped;
    DispatchMeans(cfg, datagram);
    StampedIff(datagram, inner);
    WaitOfNone(cfg, key);
    if h :| IsStamped(datagram, h, inner) {
      StampedDecodes(h, inner);
    }
    if IsStamped(datagram, header, inner) {
      StampedDecodes(header, inner);
    }
    forall k: FlowKey
      ensures ParseL3L4(inner) == Udp(k) <==> IsSegment(inner, k) && k.proto == PROTO_UDP
    {
      ParsesIff(inner, k);
    }
    if ParseL3L4(inner).Udp? {
      assert ParseL3L4(inner) == Udp(ParseL3L4(inner).key);
    }
    ShortIsIgnored(datagram);
  }

  lemma ShortIsIgnored(datagram: seq<Byte>)
    ensures |datagram| < HDR_LEN <==> Decode(datagram) == None
  {
  }

  lemma WaitOfNone(cfg: Config, key: FlowKey)
    ensures cfg.rules == [] ==> FlowWaitMs(cfg, key) == cfg.maxWaitMs
  {
  }

  // ----- forgetting a flow -----

  /** Why the receiver's idle limit must be the shorter one: when the sender may give a flow's place away, and so start its
      numbers over, a tick of the receiver forgets the flow, provided no packet was under way for more than a second. */
  lemma SilentFlowIsForgotten(tx: Tx, rx: Rx, key: FlowKey, now: nat)
    requires Validate(rx.cfg) && tx.cfg == rx.cfg && RxInv(rx) && RxSized(rx)
    requires key in tx.flows && now > tx.flows[key].lastActivity + tx.cfg.egressIdleSec * 1000000
    requires key in rx.flows && rx.flows[key].lastProgress <= tx.flows[key].lastActivity + 1000000
    requires rx.flows[key].armed ==> rx.flows[key].deadline > now
    ensures key !in OnTick(rx, now).flows
  {
    hide RxInv, OnTick;
    SurvivesTickIff(rx, now, key);
  }
}
