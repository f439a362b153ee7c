/** Sender and receiver together: what is stamped at one end comes out in order at the other. */
module EndToEnd {
  import opened Bits
  import opened Wrappers
  import opened Ring
  import opened ReorderConfig
  import opened ReorderModel
  import opened FlowInvariants
  import opened FlowModes
  import opened FlowBudget
  import opened FlowRestoration
  import opened Wire
  import opened SenderModel
  import opened ReceiverModel
  import opened ReceiverLoss

  const SEQ_LIMIT: nat := 0x1_0000_0000_0000

  /** The datagram of a stamped packet. */
  function Stamped(header: Header, inner: Packet): seq<Byte> {
    Encode(header) + inner
  }

  lemma StampedDecodes(header: Header, inner: Packet)
    requires header.seqNo < SEQ_LIMIT
    ensures Decode(Stamped(header, inner)) == Some(header) && Stamped(header, inner)[HDR_LEN..] == inner
    ensures Stamped(header, inner)[0] == header.kind
  {
    DecodeEncode(header, inner);
    assert header.seqNo % SEQ_LIMIT == header.seqNo;
  }

  /** A stamped datagram is recognised as one and never dropped: the receiver reads from it the key, the header and the
      inner bytes that the sender put in, and passes it on at once only if the flow does not wait. */
  lemma StampedIsDispatched(cfg: Config, key: FlowKey, header: Header, inner: Packet)
    requires header.kind == TYPE_V1 && header.seqNo < SEQ_LIMIT
    requires ParseL3L4(inner) == Udp(key) && |inner| <= 0xffff
    ensures ClassifyByte(Stamped(header, inner)[0]) == ReorderV1
    ensures DispatchDatagram(cfg, Stamped(header, inner)) ==
            if FlowWaitMs(cfg, key) == 0 then Direct(inner) else Reorder(key, header, inner)
  {
    hide Decode, Stamped;
    StampedDecodes(header, inner);
    assert cfg.rules == [] ==> FlowWaitMs(cfg, key) == cfg.maxWaitMs;
  }

  /** A bare IP packet is never taken for a stamped one: not by its first byte, and not by the receiver. */
  lemma BareIsNotStamped(cfg: Config, pkt: Packet)
    requires |pkt| > 0 && (pkt[0] / 16 == 4 || pkt[0] / 16 == 6)
    ensures ClassifyByte(pkt[0]) == Raw && DispatchDatagram(cfg, pkt) == Ignore
  {
  }

  // ----- one flow in a run of the receiver -----

  ghost predicate ForFlow(cfg: Config, ev: RxEvent, key: FlowKey) {
    ev.Datagram? && var d := DispatchDatagram(cfg, ev.bytes); d.Reorder? && d.key == key
  }

  /** The event leaves the flow alone: it is for another flow and evicts another, or a tick before the flow's deadlines. */
  ghost predicate Undisturbed(rx: Rx, ev: RxEvent, key: FlowKey) {
    match ev
    case Datagram(bytes, now, victim) => !ForFlow(rx.cfg, ev, key) && victim != Some(key)
    case TimerTick(now) => key in rx.flows ==> !Due(rx.flows[key], now) && !Idle(rx.cfg, rx.flows[key], now)
    case ForceNoDemotion(on) => false
  }

  ghost predicate SameAt(a: Rx, b: Rx, key: FlowKey) {
    && a.cfg == b.cfg
    && (key in a.flows <==> key in b.flows)
    && (key in a.flows ==> a.flows[key] == b.flows[key])
  }

  lemma UndisturbedKeeps(rx: Rx, ev: RxEvent, key: FlowKey)
    requires Possible(rx, ev) && Undisturbed(rx, ev, key)
    ensures SameAt(rx, RxStep(rx, ev), key)
  {
    hide DispatchDatagram, OnReordered, NewFlow, GapTimeout, Accumulate, AccumulateAll;
  }

  /** The arrival a datagram of the flow amounts to. */
  ghost function ArrivalOf(rx: Rx, ev: RxEvent, key: FlowKey): Arrival
    requires Possible(rx, ev) && ForFlow(rx.cfg, ev, key)
  {
    var d := DispatchDatagram(rx.cfg, ev.bytes);
    Arrival(d.header.seqNo, HasReset(d.header.flags), OthersUsed(WithFlow(rx, key, ev.victim).flows, key), ev.now)
  }

  /** The flow as its next datagram finds it. */
  ghost function FlowAt(rx: Rx, key: FlowKey): Flow {
    if key in rx.flows then rx.flows[key] else NewFlow(FlowCap(rx.cfg, key), FlowWaitMs(rx.cfg, key))
  }

  lemma OwnDatagram(rx: Rx, ev: RxEvent, key: FlowKey)
    requires Possible(rx, ev) && ForFlow(rx.cfg, ev, key)
    ensures var d := DispatchDatagram(rx.cfg, ev.bytes); var a := ArrivalOf(rx, ev, key); var after := RxStep(rx, ev);
      var f := FlowAt(rx, key);
      && after.cfg == rx.cfg && key in after.flows && |f.stats.residence| == LAT_BUCKETS
      && after.flows[key] == OnReordered(rx.cfg, f, a.others, a.index, a.reset, d.inner, a.now)
  {
    hide DispatchDatagram, OnReordered, Accumulate, FlowCap, FlowWaitMs;
  }

  /** The arrivals of a flow in the first n events of a run. */
  ghost function Arrivals(states: seq<Rx>, evs: seq<RxEvent>, key: FlowKey, n: nat): seq<Arrival>
    requires IsRun(states, evs) && n <= |evs|
  {
    if n == 0 then []
    else
      Arrivals(states, evs, key, n - 1) +
      if ForFlow(states[n - 1].cfg, evs[n - 1], key) then [ArrivalOf(states[n - 1], evs[n - 1], key)] else []
  }

  lemma {:induction false} FeedAppend(cfg: Config, f: Flow, base: nat, sent: seq<Packet>, arrivals: seq<Arrival>, a: Arrival)
    requires |f.stats.residence| == LAT_BUCKETS && a.index < |sent| && forall b :: b in arrivals ==> b.index < |sent|
    ensures Feed(cfg, f, base, sent, arrivals + [a]) ==
      OnReordered(cfg, Feed(cfg, f, base, sent, arrivals), a.others, base + a.index, a.reset, sent[a.index], a.now)
    decreases |arrivals|
  {
    hide OnReordered;
    var all := arrivals + [a];
    if arrivals == [] {
      assert all[1..] == [];
      assert Feed(cfg, f, base, sent, all) ==
        Feed(cfg, OnReordered(cfg, f, a.others, base + a.index, a.reset, sent[a.index], a.now), base, sent, []);
    } else {
      var b := arrivals[0];
      assert all[1..] == arrivals[1..] + [a];
      FeedAppend(cfg, OnReordered(cfg, f, b.others, base + b.index, b.reset, sent[b.index], b.now), base, sent, arrivals[1..], a);
    }
  }

  // ----- the stamped packets of one incarnation -----

  function Inners(sent: seq<Sent>): (r: seq<Packet>)
    ensures |r| == |sent| && forall i :: 0 <= i < |sent| ==> r[i] == sent[i].inner
  {
    seq(|sent|, i requires 0 <= i < |sent| => sent[i].inner)
  }

  /** Packets of one flow, numbered from zero, as the receiver can read them. */
  ghost predicate Sendable(sent: seq<Sent>, key: FlowKey) {
    && |sent| <= SEQ_LIMIT
    && forall i :: 0 <= i < |sent| ==>
         && sent[i].header.kind == TYPE_V1 && sent[i].header.seqNo == i
         && ParseL3L4(sent[i].inner) == Udp(key) && |sent[i].inner| <= 0xffff
  }

  ghost predicate Carries(ev: RxEvent, sent: seq<Sent>) {
    ev.Datagram? && exists i :: 0 <= i < |sent| && ev.bytes == Stamped(sent[i].header, sent[i].inner)
  }

  /** The receiver sees datagrams of the flow only as they were sent, and nothing else touches the flow. */
  ghost predicate Delivers(states: seq<Rx>, evs: seq<RxEvent>, key: FlowKey, sent: seq<Sent>, n: nat)
    requires |states| == |evs| + 1 && n <= |evs|
  {
    forall i :: 0 <= i < n ==> Carries(evs[i], sent) || Undisturbed(states[i], evs[i], key)
  }

  lemma CarriedArrival(rx: Rx, ev: RxEvent, key: FlowKey, sent: seq<Sent>)
    requires Sendable(sent, key) && Carries(ev, sent) && FlowWaitMs(rx.cfg, key) > 0 && Possible(rx, ev)
    ensures ForFlow(rx.cfg, ev, key)
    ensures var a := ArrivalOf(rx, ev, key);
      a.index < |sent| && DispatchDatagram(rx.cfg, ev.bytes).inner == sent[a.index].inner
  {
    hide DispatchDatagram, Stamped, ParseL3L4, FlowWaitMs, WithFlow, OthersUsed;
    var i :| 0 <= i < |sent| && ev.bytes == Stamped(sent[i].header, sent[i].inner);
    StampedIsDispatched(rx.cfg, key, sent[i].header, sent[i].inner);
  }

  lemma FlowAtSized(rx: Rx, key: FlowKey)
    requires RxSized(rx)
    ensures |FlowAt(rx, key).stats.residence| == LAT_BUCKETS
  {
  }

  /** The state of the flow is what feeding its arrivals to the flow at the start gives, whatever else the receiver does. */
  lemma {:induction false} FlowIsFed(states: seq<Rx>, evs: seq<RxEvent>, cfg: Config, key: FlowKey, sent: seq<Sent>, n: nat)
    requires IsRun(states, evs) && n <= |evs| && states[0].cfg == cfg && RxSized(states[0])
    requires Sendable(sent, key) && FlowWaitMs(cfg, key) > 0 && Delivers(states, evs, key, sent, n)
    ensures states[n].cfg == cfg
    ensures var arrivals := Arrivals(states, evs, key, n); var f := FlowAt(states[0], key);
      && (forall a :: a in arrivals ==> a.index < |sent|)
      && |f.stats.residence| == LAT_BUCKETS
      && (key in states[n].flows <==> arrivals != [] || key in states[0].flows)
      && FlowAt(states[n], key) == Feed(cfg, f, 0, Inners(sent), arrivals)
  {
    hide DispatchDatagram, OnReordered, Sendable, Undisturbed, Carries, RxStep, Possible, FlowWaitMs, FlowCap, ForFlow, ArrivalOf;
    hide Feed, NewFlow;
    var f := FlowAt(states[0], key);
    FlowAtSized(states[0], key);
    FeedNone(cfg, f, Inners(sent));
    if n > 0 {
      FlowIsFed(states, evs, cfg, key, sent, n - 1);
      var rx, ev := states[n - 1], evs[n - 1];
      var before := Arrivals(states, evs, key, n - 1);
      if Carries(ev, sent) {
        CarriedArrival(rx, ev, key, sent);
        OwnDatagram(rx, ev, key);
        var a := ArrivalOf(rx, ev, key);
        FeedAppend(cfg, f, 0, Inners(sent), before, a);
      } else {
        UndisturbedIsNotFor(rx, ev, key);
        UndisturbedKeeps(rx, ev, key);
        assert Arrivals(states, evs, key, n) == before;
      }
    }
  }

  lemma UndisturbedIsNotFor(rx: Rx, ev: RxEvent, key: FlowKey)
    requires Undisturbed(rx, ev, key)
    ensures !ForFlow(rx.cfg, ev, key)
  {
  }

  lemma FeedNone(cfg: Config, f: Flow, sent: seq<Packet>)
    requires |f.stats.residence| == LAT_BUCKETS
    ensures Feed(cfg, f, 0, sent, []) == f
  {
  }

  /** Number 0 arrives at an idle receiver. */
  lemma FlowOpens(cfg: Config, key: FlowKey, inner: Packet)
    requires Finalized(cfg) && cfg.rules == [] && cfg.maxWaitMs > 0 && cfg.cap >= 4 && cfg.forceNoDemotion
    requires ParseL3L4(inner) == Udp(key) && |inner| <= 1500
    ensures var first := Datagram(Stamped(Header(TYPE_V1, 0, 0), inner), 0, None);
      && Possible(Fresh(cfg), first)
      && var rx := RxStep(Fresh(cfg), first);
         && RxSized(rx) && rx.cfg == cfg && rx.flows.Keys == {key} && rx.armedWhenEvicted == 0 && rx.lost == 0
         && Steady(cfg, rx.flows[key]) && rx.flows[key].expected == 1 && rx.flows[key].cap == cfg.cap
         && rx.flows[key].buf == map[]
  {
    hide DispatchDatagram, Stamped, ParseL3L4, OnReordered, NewFlow, Finalized, Steady, Early, HasReset, RxStep, Possible;
    hide WithFlow, OthersUsed;
    var h0 := Header(TYPE_V1, 0, 0);
    StampedIsDispatched(cfg, key, h0, inner);
    NotReset();
    var r0, first := Fresh(cfg), Datagram(Stamped(h0, inner), 0, None);
    OnlyFlow(r0, first, key);
    OwnDatagram(r0, first, key);
    StartedStep(cfg, cfg.cap, cfg.maxWaitMs, 0, inner, 0);
  }

  /** The first two arrivals of an otherwise idle receiver: numbers 0 and 2 of one flow. */
  lemma GapOpens(cfg: Config, key: FlowKey, inner: Packet)
    requires Finalized(cfg) && cfg.rules == [] && cfg.maxWaitMs > 0 && cfg.cap >= 4 && cfg.forceNoDemotion
    requires ParseL3L4(inner) == Udp(key) && |inner| <= 1500 && cfg.maxFlowBytes >= 1500 && cfg.maxPoolBytes >= 1500
    ensures var first := Datagram(Stamped(Header(TYPE_V1, 0, 0), inner), 0, None);
      var third := Datagram(Stamped(Header(TYPE_V1, 0, 2), inner), 1, None);
      && Possible(Fresh(cfg), first) && Possible(RxStep(Fresh(cfg), first), third)
      && var rx := RxStep(RxStep(Fresh(cfg), first), third);
         && rx.cfg == cfg && RxInv(rx) && rx.flows.Keys == {key} && rx.flows[key].buf != map[]
         && rx.armedWhenEvicted == 0 && rx.lost == 0
  {
    hide DispatchDatagram, Stamped, ParseL3L4, OnReordered, NewFlow, Finalized, Steady, Early, HasReset, RxStep, Possible, WithFlow;
    hide OthersUsed, Bytes, Fresh;
    var h0, h2 := Header(TYPE_V1, 0, 0), Header(TYPE_V1, 0, 2);
    FlowOpens(cfg, key, inner);
    StampedIsDispatched(cfg, key, h2, inner);
    NotReset();
    NoBytes();
    var third := Datagram(Stamped(h2, inner), 1, None);
    var r1 := RxStep(Fresh(cfg), Datagram(Stamped(h0, inner), 0, None));
    OnlyFlow(r1, third, key);
    OwnDatagram(r1, third, key);
    SteadyEarly(cfg, r1.flows[key], 2);
    StoredStep(cfg, r1.flows[key], 2, inner, 1);
    FreshInv(cfg);
    StepKeepsRxInv(Fresh(cfg), Datagram(Stamped(h0, inner), 0, None));
    StepKeepsRxInv(r1, third);
  }

  /** A datagram for the only flow, or for a receiver without flows. */
  lemma OnlyFlow(rx: Rx, ev: RxEvent, key: FlowKey)
    requires RxSized(rx) && ForFlow(rx.cfg, ev, key) && ev.victim == None
    requires rx.flows.Keys == {key} || rx.flows == map[]
    ensures Possible(rx, ev) && ArrivalOf(rx, ev, key).others == 0
    ensures RxStep(rx, ev).flows.Keys == {key} && RxStep(rx, ev).armedWhenEvicted == rx.armedWhenEvicted
    ensures RxStep(rx, ev).lost == rx.lost
    ensures RxSized(RxStep(rx, ev))
  {
    hide DispatchDatagram, OnReordered, NewFlow, FlowCap, FlowWaitMs;
    assert rx.flows == map[] ==> !TableFull(rx);
    AloneInPool(WithFlow(rx, key, None).flows, key);
  }

  lemma NotReset()
    ensures !HasReset(0)
  {
  }

  lemma AloneInPool(flows: map<FlowKey, Flow>, key: FlowKey)
    requires flows.Keys == {key}
    ensures OthersUsed(flows, key) == 0
  {
    assert flows - {key} == map[];
  }

  /** An instance of the open term in the gap identity: at that moment one period has been opened and none has ended. */
  lemma OpenPeriodCounts(cfg: Config, key: FlowKey, inner: Packet)
    requires Finalized(cfg) && cfg.rules == [] && cfg.maxWaitMs > 0 && cfg.cap >= 4 && cfg.forceNoDemotion
    requires ParseL3L4(inner) == Udp(key) && |inner| <= 1500 && cfg.maxFlowBytes >= 1500 && cfg.maxPoolBytes >= 1500
    ensures var first := Datagram(Stamped(Header(TYPE_V1, 0, 0), inner), 0, None);
      var third := Datagram(Stamped(Header(TYPE_V1, 0, 2), inner), 1, None);
      && Possible(Fresh(cfg), first) && Possible(RxStep(Fresh(cfg), first), third)
      && var s := Snapshot(RxStep(RxStep(Fresh(cfg), first), third)); s.gaps != PeriodsEnded(s)
  {
    hide RxStep, Possible, Finalized, ParseL3L4, FlowInv, LedgerBalanced, Accounted, PoolUsed, AccumulateAll, Stamped;
    GapOpens(cfg, key, inner);
    var first := Datagram(Stamped(Header(TYPE_V1, 0, 0), inner), 0, None);
    var third := Datagram(Stamped(Header(TYPE_V1, 0, 2), inner), 1, None);
    var r1 := RxStep(Fresh(cfg), first);
    var r2 := RxStep(r1, third);
    FreshInv(cfg);
    StepKeepsRxInv(Fresh(cfg), first);
    StepKeepsRxInv(r1, third);
    SnapshotBalanced(r2);
    WaitingIsArmed(r2.flows[key]);
  }

  /** An instance of a loss: with room for one flow, a datagram of another flow frees the packet that waits. */
  lemma EvictionLoses(cfg: Config, key: FlowKey, inner: Packet, other: FlowKey, pkt: Packet)
    requires Finalized(cfg) && cfg.rules == [] && cfg.maxWaitMs > 0 && cfg.cap >= 4 && cfg.forceNoDemotion
    requires ParseL3L4(inner) == Udp(key) && |inner| <= 1500 && cfg.maxFlowBytes >= 1500 && cfg.maxPoolBytes >= 1500
    requires cfg.maxFlows == 1 && other != key && ParseL3L4(pkt) == Udp(other) && |pkt| <= 1500
    ensures var first := Datagram(Stamped(Header(TYPE_V1, 0, 0), inner), 0, None);
      var third := Datagram(Stamped(Header(TYPE_V1, 0, 2), inner), 1, None);
      var newcomer := Datagram(Stamped(Header(TYPE_V1, 0, 0), pkt), 2, Some(key));
      && Possible(Fresh(cfg), first) && Possible(RxStep(Fresh(cfg), first), third)
      && var rx := RxStep(RxStep(Fresh(cfg), first), third);
         Possible(rx, newcomer) && rx.lost == 0 < RxStep(rx, newcomer).lost
  {
    hide RxStep, Finalized, ParseL3L4, RxInv, Stamped, DispatchDatagram, Fresh;
    GapOpens(cfg, key, inner);
    StampedIsDispatched(cfg, other, Header(TYPE_V1, 0, 0), pkt);
    var rx := RxStep(RxStep(Fresh(cfg), Datagram(Stamped(Header(TYPE_V1, 0, 0), inner), 0, None)),
                     Datagram(Stamped(Header(TYPE_V1, 0, 2), inner), 1, None));
    var newcomer := Datagram(Stamped(Header(TYPE_V1, 0, 0), pkt), 2, Some(key));
    InvSized(rx);
    assert |rx.flows.Keys| == |rx.flows|;
    assert Possible(rx, newcomer) && Loses(rx, newcomer);
    StepLosesIff(rx, newcomer);
  }

  lemma WaitingIsArmed(f: Flow)
    requires FlowInv(f)
    ensures f.buf != map[] ==> f.armed
  {
    hide StepInv;
  }

  // ----- what the sender puts on the wire -----

  /** The largest datagram either end asks its transport for. */
  const DATAGRAM_LIMIT: nat := 0xffff

  /** What goes out behind the header still parses as what came in: the packet itself, or the packet forwarded. */
  ghost predicate Faithful(ev: TxEvent) {
    ParseL3L4(ev.inner) == ParseL3L4(ev.pkt) && |ev.inner| == |ev.pkt| && ev.budget <= DATAGRAM_LIMIT
  }

  /** The server decrements the TTL between the peek and the send. */
  lemma ForwardedIsFaithful(ev: TxEvent)
    requires |ev.pkt| >= 1 && (if ev.pkt[0] / 16 == 4 then |ev.pkt| >= 20 else |ev.pkt| >= 40)
    requires ev.budget <= DATAGRAM_LIMIT && Forwarded(ev.pkt) == Some(ev.inner)
    ensures Faithful(ev)
  {
    ParseIgnoresForwarding(ev.pkt);
  }

  ghost predicate WireSound(tx: Tx) {
    && (forall i :: 0 <= i < |tx.wire| ==> ParseL3L4(tx.wire[i].inner) == Udp(tx.wire[i].key) && |tx.wire[i].inner| <= 0xffff)
    && (forall i, j :: 0 <= i < |tx.wire| && 0 <= j < |tx.wire| && tx.wire[i].id == tx.wire[j].id ==> tx.wire[i].key == tx.wire[j].key)
    && (forall i, k :: 0 <= i < |tx.wire| && k in tx.flows && tx.wire[i].id == tx.flows[k].id ==> tx.wire[i].key == k)
  }

  lemma PeekKeepsWireSound(tx: Tx, pkt: Packet, now: nat, budget: nat, victim: Option<FlowKey>)
    requires TxInv(tx) && WireSound(tx) && PeekVictim(tx, pkt, now, victim)
    ensures var (after, p) := Peek(tx, pkt, now, budget, victim);
      WireSound(after) && (p.Stamp? ==> ParseL3L4(pkt) == Udp(p.key) && HDR_LEN + |pkt| <= budget)
  {
    hide ParseL3L4, Eligible, Numbered, SentBy;
  }

  lemma CommitKeepsWireSound(tx: Tx, key: FlowKey, header: Header, inner: Packet, now: nat)
    requires TxInv(tx) && WireSound(tx) && key in tx.flows && ParseL3L4(inner) == Udp(key) && |inner| <= 0xffff
    ensures WireSound(Commit(tx, key, header, inner, now))
  {
    hide ParseL3L4, Eligible, Numbered, SentBy;
  }

  lemma {:induction false} RunKeepsWireSound(states: seq<Tx>, evs: seq<TxEvent>, cfg: Config, n: nat)
    requires IsTxRun(states, evs) && states[0] == FreshTx(cfg) && n < |states|
    requires forall i :: 0 <= i < n ==> Faithful(evs[i])
    ensures TxInv(states[n]) && WireSound(states[n])
  {
    RunKeepsTxInv(states, evs, cfg, n);
    hide TxInv, Peek, Commit, PeekVictim, Faithful;
    if n > 0 {
      RunKeepsTxInv(states, evs, cfg, n - 1);
      RunKeepsWireSound(states, evs, cfg, n - 1);
      hide WireSound, ParseL3L4;
      var tx, ev := states[n - 1], evs[n - 1];
      PeekKeepsInv(tx, ev.pkt, ev.now, ev.budget, ev.victim);
      PeekKeepsWireSound(tx, ev.pkt, ev.now, ev.budget, ev.victim);
      var (after, p) := Peek(tx, ev.pkt, ev.now, ev.budget, ev.victim);
      if p.Stamp? && ev.sent {
        FaithfulMeans(ev);
        CommitKeepsWireSound(after, p.key, p.header, ev.inner, ev.sentAt);
      }
    }
  }

  lemma FaithfulMeans(ev: TxEvent)
    requires Faithful(ev)
    ensures ParseL3L4(ev.inner) == ParseL3L4(ev.pkt) && |ev.inner| == |ev.pkt| && ev.budget <= DATAGRAM_LIMIT
  {
  }

  lemma {:induction false} SentByIsOnWire(wire: seq<Sent>, id: nat, i: nat)
    requires i < |SentBy(wire, id)|
    ensures SentBy(wire, id)[i].id == id && SentBy(wire, id)[i] in wire
  {
    var n := |wire| - 1;
    var before := SentBy(wire[..n], id);
    if i < |before| {
      SentByIsOnWire(wire[..n], id, i);
    }
  }

  /** What one incarnation has sent, at any point of any run of the sender, is fit to be received. */
  lemma SentIsSendable(states: seq<Tx>, evs: seq<TxEvent>, cfg: Config, n: nat, id: nat, key: FlowKey)
    requires IsTxRun(states, evs) && states[0] == FreshTx(cfg) && n < |states|
    requires forall i :: 0 <= i < n ==> Faithful(evs[i])
    requires var sent := SentBy(states[n].wire, id); 0 < |sent| <= SEQ_LIMIT && sent[0].key == key
    ensures Sendable(SentBy(states[n].wire, id), key)
  {
    RunKeepsWireSound(states, evs, cfg, n);
    hide ParseL3L4, SentBy, TxInv;
    var sent := SentBy(states[n].wire, id);
    NumberedMeans(states[n], id);
    SentByIsOnWire(states[n].wire, id, 0);
    forall i | 0 <= i < |sent|
      ensures ParseL3L4(sent[i].inner) == Udp(key) && |sent[i].inner| <= 0xffff
    {
      SentByIsOnWire(states[n].wire, id, i);
    }
  }

  lemma NumberedMeans(tx: Tx, id: nat)
    requires TxInv(tx)
    ensures Numbered(SentBy(tx.wire, id), tx.cfg.resetMarks)
  {
  }

  /** A sender that marks at all marks the first packet of every incarnation, and the receiver reads the mark. */
  lemma FirstIsMarked(tx: Tx, id: nat)
    requires TxInv(tx) && tx.cfg.resetMarks > 0 && SentBy(tx.wire, id) != []
    ensures HasReset(SentBy(tx.wire, id)[0].header.flags)
  {
    hide SentBy;
    NumberedMeans(tx, id);
    ResetBit(FLAG_RESET);
  }

  // ----- end to end -----

  /** A run of the receiver, from any state it may be in, in which every packet of `sent` arrives at least once, the first
      one first; in which nothing but these packets touches the flow; and which is roomy. The flow is new, or it is left
      over from an earlier incarnation and has been silent for longer than the grace period. */
  ghost predicate Reached(states: seq<Rx>, evs: seq<RxEvent>, cfg: Config, key: FlowKey, sent: seq<Sent>) {
    && IsRun(states, evs) && states[0].cfg == cfg && Finalized(cfg) && RxInv(states[0])
    && FlowWaitMs(cfg, key) > 0 && Delivers(states, evs, key, sent, |evs|)
    && var arrivals := Arrivals(states, evs, key, |evs|);
       && |sent| > 0 && arrivals != [] && arrivals[0].index == 0 && Begins(cfg, FlowAt(states[0], key), arrivals[0])
       && (forall i :: 0 <= i < |sent| ==> i in Indices(arrivals))
       && Undemotable(cfg, ShownInRun(Inners(sent), arrivals))
       && Roomy(cfg, FlowAt(states[0], key).cap, Inners(sent), {0}, arrivals[0].now, arrivals[1..])
  }

  /** Since the start the flow has delivered exactly these packets, in the order in which they were sent, and keeps none
      back. */
  ghost predicate Restored(start: Rx, rx: Rx, key: FlowKey, sent: seq<Sent>) {
    && key in rx.flows
    && var f, r := FlowAt(start, key), rx.flows[key];
       && r.log == f.log + Emitted(r.epoch, 0, Inners(sent), |sent|) && r.epoch >= f.epoch
       && r.buf == map[] && !r.armed && r.stats.gaps - f.stats.gaps == r.stats.filled - f.stats.filled
  }

  lemma FlowAtInv(rx: Rx, key: FlowKey)
    requires RxInv(rx) && Finalized(rx.cfg) && FlowWaitMs(rx.cfg, key) > 0
    ensures RxSized(rx) && FlowInv(FlowAt(rx, key))
  {
    hide FlowInv, NewFlow, IsPow2, Finalized, LedgerBalanced, Accounted, PoolUsed, FlowCap, FlowWaitMs;
    InvSized(rx);
    FlowCapIsPow2(rx.cfg, key);
    Pow2Positive(FlowCap(rx.cfg, key));
    NewFlowInv(FlowCap(rx.cfg, key), FlowWaitMs(rx.cfg, key));
  }

  lemma ReachedIsRestored(states: seq<Rx>, evs: seq<RxEvent>, cfg: Config, key: FlowKey, sent: seq<Sent>)
    requires Sendable(sent, key) && Reached(states, evs, cfg, key, sent)
    ensures |states| == |evs| + 1 && Restored(states[0], states[|evs|], key, sent)
  {
    hide Sendable, Delivers, Roomy, Undemotable, FlowWaitMs, FlowCap, Emitted, Feed, Finalized, RxStep, Possible, RxInv, Begins;
    hide FlowInv, NewFlow;
    FlowAtInv(states[0], key);
    FlowIsFed(states, evs, cfg, key, sent, |evs|);
    RestorationOfRoomyRun(cfg, FlowAt(states[0], key), 0, Inners(sent), Arrivals(states, evs, key, |evs|));
  }

  /** Whatever the sender and the receiver do besides: if what was stamped for an incarnation of a flow reaches the
      receiver, it is restored. */
  lemma EndToEndDelivery(txStates: seq<Tx>, txEvs: seq<TxEvent>, txCfg: Config, m: nat, id: nat, key: FlowKey,
                         rxStates: seq<Rx>, rxEvs: seq<RxEvent>, rxCfg: Config)
    requires IsTxRun(txStates, txEvs) && txStates[0] == FreshTx(txCfg) && m < |txStates|
    requires forall i :: 0 <= i < m ==> Faithful(txEvs[i])
    requires var sent := SentBy(txStates[m].wire, id);
      && 0 < |sent| <= SEQ_LIMIT && sent[0].key == key
      && Reached(rxStates, rxEvs, rxCfg, key, sent)
    ensures |rxStates| == |rxEvs| + 1 && Restored(rxStates[0], rxStates[|rxEvs|], key, SentBy(txStates[m].wire, id))
  {
    hide IsTxRun, Sendable, SentBy, Reached, Restored, Faithful;
    SentIsSendable(txStates, txEvs, txCfg, m, id, key);
    ReachedIsRestored(rxStates, rxEvs, rxCfg, key, SentBy(txStates[m].wire, id));
  }
}
