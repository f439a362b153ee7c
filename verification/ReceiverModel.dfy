/** The receiver as a value: a map from 5-tuple to flow, what it does with a datagram and a tick, and what that keeps. */
module ReceiverModel {
  import opened Bits
  import opened Totals
  import opened Wrappers
  import opened Ring
  import opened ReorderConfig
  import opened ReorderModel
  import opened FlowInvariants
  import opened FlowLimits
  import opened FlowBudget
  import opened FlowHistory
  import opened Wire

  /** The last four fields are history: flows destroyed inside a gap period, packets that entered any flow, packets
      freed with the flow that buffered them, and packets
      delivered without any flow state. */
  datatype Rx = Rx(cfg: Config, flows: map<FlowKey, Flow>, evicted: Stats,
                   armedWhenEvicted: nat, admitted: nat, lost: nat, direct: seq<Packet>)

  // ----- dispatch of a datagram -----

  datatype Dispatch = Ignore | Direct(inner: Packet) | Reorder(key: FlowKey, header: Header, inner: Packet)

  function DispatchDatagram(cfg: Config, datagram: seq<Byte>): Dispatch {
    match Decode(datagram)
    case None => Ignore
    case Some(h) =>
      var inner := datagram[HDR_LEN..];
      if h.kind != TYPE_V1 || |inner| == 0 || |inner| > 0xffff then Ignore
      else if cfg.maxWaitMs == 0 && cfg.rules == [] then Direct(inner)
      else
        match ParseL3L4(inner)
        case Udp(key) => if FlowWaitMs(cfg, key) == 0 then Direct(inner) else Reorder(key, h, inner)
        case _ => Ignore
  }

  // ----- flow table -----

  /** Fold the counters of one flow into a total. */
  function Accumulate(a: Stats, b: Stats): (r: Stats)
    requires |a.residence| == LAT_BUCKETS && |b.residence| == LAT_BUCKETS
    ensures |r.residence| == LAT_BUCKETS
  {
    Stats(a.delivered + b.delivered, a.late + b.late, a.farAhead + b.farAhead, a.duplicate + b.duplicate,
          a.flowLimit + b.flowLimit, a.poolDrop + b.poolDrop, a.resetDiscard + b.resetDiscard,
          a.gaps + b.gaps, a.filled + b.filled, a.timedOut + b.timedOut, a.overflowed + b.overflowed,
          a.demoteEnded + b.demoteEnded, a.resetEnded + b.resetEnded, a.demotions + b.demotions,
          seq(LAT_BUCKETS, i requires 0 <= i < LAT_BUCKETS => a.residence[i] + b.residence[i]),
          if b.maxResidence > a.maxResidence then b.maxResidence else a.maxResidence)
  }

  ghost predicate AllSized(flows: map<FlowKey, Flow>) {
    forall k :: k in flows ==> |flows[k].stats.residence| == LAT_BUCKETS
  }

  /** A base total plus the counters of every flow. */
  ghost function AccumulateAll(base: Stats, flows: map<FlowKey, Flow>): (r: Stats)
    requires |base.residence| == LAT_BUCKETS && AllSized(flows)
    ensures |r.residence| == LAT_BUCKETS
    decreases |flows|
  {
    if flows == map[] then base
    else
      var k := Pick(flows);
      AccumulateAll(Accumulate(base, flows[k].stats), flows - {k})
  }

  /** The lifetime snapshot: flows destroyed so far and flows alive now. */
  ghost function Snapshot(rx: Rx): Stats
    requires |rx.evicted.residence| == LAT_BUCKETS && AllSized(rx.flows)
  {
    AccumulateAll(rx.evicted, rx.flows)
  }

  function ArmedOne(f: Flow): nat {
    if f.armed then 1 else 0
  }

  function Waiting(f: Flow): nat {
    |f.buf|
  }

  function Evict(rx: Rx, k: FlowKey): Rx
    requires k in rx.flows && |rx.evicted.residence| == LAT_BUCKETS && |rx.flows[k].stats.residence| == LAT_BUCKETS
  {
    rx.(flows := rx.flows - {k}, evicted := Accumulate(rx.evicted, rx.flows[k].stats),
        armedWhenEvicted := rx.armedWhenEvicted + ArmedOne(rx.flows[k]), lost := rx.lost + Waiting(rx.flows[k]))
  }

  ghost predicate LeastRecent(flows: map<FlowKey, Flow>, k: FlowKey) {
    k in flows && forall j :: j in flows ==> flows[k].lastProgress <= flows[j].lastProgress
  }

  predicate TableFull(rx: Rx) {
    rx.cfg.maxFlows > 0 && |rx.flows| >= rx.cfg.maxFlows
  }

  /** A flow is sacrificed exactly when a new one is needed and the table is full, and it is one that
      has gone longest without progress. */
  ghost predicate VictimFor(rx: Rx, key: FlowKey, victim: Option<FlowKey>) {
    if key !in rx.flows && TableFull(rx) then victim.Some? && LeastRecent(rx.flows, victim.value)
    else victim == None
  }

  ghost function WithFlow(rx: Rx, key: FlowKey, victim: Option<FlowKey>): (r: Rx)
    requires |rx.evicted.residence| == LAT_BUCKETS && AllSized(rx.flows) && VictimFor(rx, key, victim)
    ensures key in r.flows && |r.evicted.residence| == LAT_BUCKETS && AllSized(r.flows)
  {
    if key in rx.flows then rx
    else
      var room := if victim.Some? then Evict(rx, victim.value) else rx;
      room.(flows := room.flows[key := NewFlow(FlowCap(rx.cfg, key), FlowWaitMs(rx.cfg, key))])
  }

  // ----- shared pool -----

  ghost function PoolUsed(flows: map<FlowKey, Flow>): nat {
    Total(flows, BufferedBytes)
  }

  ghost function OthersUsed(flows: map<FlowKey, Flow>, key: FlowKey): nat {
    PoolUsed(flows - {key})
  }

  // ----- the two entry points -----

  ghost function InFlow(rx: Rx, key: FlowKey, header: Header, inner: Packet, now: nat): (r: Rx)
    requires key in rx.flows && AllSized(rx.flows)
    ensures AllSized(r.flows)
  {
    rx.(flows := rx.flows[key := OnReordered(rx.cfg, rx.flows[key], OthersUsed(rx.flows, key), header.seqNo,
                                             HasReset(header.flags), inner, now)],
        admitted := rx.admitted + 1)
  }

  ghost predicate RxSized(rx: Rx) {
    |rx.evicted.residence| == LAT_BUCKETS && AllSized(rx.flows)
  }

  ghost predicate FitsTable(rx: Rx, datagram: seq<Byte>, victim: Option<FlowKey>) {
    match DispatchDatagram(rx.cfg, datagram)
    case Reorder(key, header, inner) => VictimFor(rx, key, victim)
    case _ => victim == None
  }

  ghost function OnDatagram(rx: Rx, datagram: seq<Byte>, now: nat, victim: Option<FlowKey>): (r: Rx)
    requires RxSized(rx) && FitsTable(rx, datagram, victim)
    ensures RxSized(r)
  {
    match DispatchDatagram(rx.cfg, datagram)
    case Ignore => rx
    case Direct(inner) => rx.(direct := rx.direct + [inner])
    case Reorder(key, header, inner) => InFlow(WithFlow(rx, key, victim), key, header, inner, now)
  }

  ghost function Fire(flows: map<FlowKey, Flow>, now: nat): (r: map<FlowKey, Flow>)
    requires AllSized(flows)
    ensures AllSized(r) && r.Keys == flows.Keys
  {
    map k | k in flows :: TickFlow(flows[k], now)
  }

  predicate Idle(cfg: Config, f: Flow, now: nat) {
    now > f.lastProgress && now - f.lastProgress > cfg.ingressIdleSec * 1000000
  }

  function IdleFlows(cfg: Config, flows: map<FlowKey, Flow>, now: nat): map<FlowKey, Flow> {
    map k | k in flows && Idle(cfg, flows[k], now) :: flows[k]
  }

  ghost function Sweep(rx: Rx, now: nat): (r: Rx)
    requires RxSized(rx)
    ensures RxSized(r)
  {
    var idle := IdleFlows(rx.cfg, rx.flows, now);
    rx.(flows := rx.flows - idle.Keys, evicted := AccumulateAll(rx.evicted, idle),
        armedWhenEvicted := rx.armedWhenEvicted + Total(idle, ArmedOne), lost := rx.lost + Total(idle, Waiting))
  }

  /** Gap timeouts first, then idle eviction. */
  ghost function OnTick(rx: Rx, now: nat): (r: Rx)
    requires RxSized(rx)
    ensures RxSized(r)
  {
    Sweep(rx.(flows := Fire(rx.flows, now)), now)
  }

  // ----- snapshot algebra -----

  lemma AccumulateSwap(a: Stats, b: Stats, c: Stats)
    requires |a.residence| == LAT_BUCKETS && |b.residence| == LAT_BUCKETS && |c.residence| == LAT_BUCKETS
    ensures Accumulate(Accumulate(a, b), c) == Accumulate(Accumulate(a, c), b)
  {
    assert Accumulate(Accumulate(a, b), c).residence == Accumulate(Accumulate(a, c), b).residence;
  }

  /** The order in which flows are folded does not matter. */
  lemma {:induction false} AccumulateAllRemove(base: Stats, flows: map<FlowKey, Flow>, k: FlowKey)
    requires |base.residence| == LAT_BUCKETS && AllSized(flows) && k in flows
    ensures AccumulateAll(base, flows) == AccumulateAll(Accumulate(base, flows[k].stats), flows - {k})
    decreases |flows|
  {
    hide Accumulate;
    var p := Pick(flows);
    if p != k {
      AccumulateAllRemove(Accumulate(base, flows[p].stats), flows - {p}, k);
      AccumulateAllRemove(Accumulate(base, flows[k].stats), flows - {k}, p);
      AccumulateSwap(base, flows[p].stats, flows[k].stats);
      assert flows - {p} - {k} == flows - {k} - {p};
    }
  }

  lemma AccumulateNext(base: Stats, flows: map<FlowKey, Flow>, k: FlowKey)
    requires |base.residence| == LAT_BUCKETS && AllSized(flows) && k in flows
    ensures |flows[k].stats.residence| == LAT_BUCKETS && AllSized(flows - {k})
    ensures AccumulateAll(Accumulate(base, flows[k].stats), flows - {k}) == AccumulateAll(base, flows)
  {
    AccumulateAllRemove(base, flows, k);
  }

  lemma AccumulateNone(base: Stats, flows: map<FlowKey, Flow>)
    requires |base.residence| == LAT_BUCKETS && flows == map[]
    ensures AllSized(flows) && AccumulateAll(base, flows) == base
  {
  }

  /** All counters and histogram buckets, in a row. */
  function Counters(st: Stats): (r: seq<nat>)
    requires |st.residence| == LAT_BUCKETS
    ensures |r| == 14 + LAT_BUCKETS
  {
    [st.delivered, st.late, st.farAhead, st.duplicate, st.flowLimit, st.poolDrop, st.resetDiscard,
     st.gaps, st.filled, st.timedOut, st.overflowed, st.demoteEnded, st.resetEnded, st.demotions] + st.residence
  }

  /** Each counter of the total is the sum of that counter over the flows, and the maximum is the largest. */
  lemma {:induction false} AccumulateAllSums(base: Stats, flows: map<FlowKey, Flow>, i: nat, counter: Flow -> nat)
    requires |base.residence| == LAT_BUCKETS && AllSized(flows) && i < 14 + LAT_BUCKETS
    requires forall k :: k in flows ==> counter(flows[k]) == Counters(flows[k].stats)[i]
    ensures Counters(AccumulateAll(base, flows))[i] == Counters(base)[i] + Total(flows, counter)
    ensures var top := AccumulateAll(base, flows).maxResidence;
      && top >= base.maxResidence
      && (forall k :: k in flows ==> top >= flows[k].stats.maxResidence)
      && (top == base.maxResidence || exists k :: k in flows && top == flows[k].stats.maxResidence)
    decreases |flows|
  {
    hide Accumulate, Counters;
    if flows != map[] {
      var k := Pick(flows);
      AccumulateAdds(base, flows[k].stats, i);
      AccumulateAllSums(Accumulate(base, flows[k].stats), flows - {k}, i, counter);
      assert forall j :: j in flows ==> j == k || j in flows - {k};
    }
  }

  lemma AccumulateAdds(a: Stats, b: Stats, i: nat)
    requires |a.residence| == LAT_BUCKETS && |b.residence| == LAT_BUCKETS && i < 14 + LAT_BUCKETS
    ensures Counters(Accumulate(a, b))[i] == Counters(a)[i] + Counters(b)[i]
    ensures var top := Accumulate(a, b).maxResidence;
      top >= a.maxResidence && top >= b.maxResidence && (top == a.maxResidence || top == b.maxResidence)
  {
  }

  /** Evicting a flow changes nothing in the lifetime snapshot. */
  lemma EvictKeepsSnapshot(rx: Rx, k: FlowKey)
    requires RxSized(rx) && k in rx.flows
    ensures Snapshot(Evict(rx, k)) == Snapshot(rx)
  {
    AccumulateAllRemove(rx.evicted, rx.flows, k);
  }

  lemma {:induction false} AccumulateAllSplit(base: Stats, flows: map<FlowKey, Flow>, part: map<FlowKey, Flow>)
    requires |base.residence| == LAT_BUCKETS && AllSized(flows)
    requires forall k :: k in part ==> k in flows && flows[k] == part[k]
    ensures AllSized(part) && AllSized(flows - part.Keys)
    ensures AccumulateAll(AccumulateAll(base, part), flows - part.Keys) == AccumulateAll(base, flows)
    decreases |part|
  {
    hide Accumulate, AccumulateAll;
    if part == map[] {
      assert flows - part.Keys == flows;
      AccumulateNone(base, part);
    } else {
      var k := Pick(part);
      AccumulateAllRemove(base, flows, k);
      AccumulateAllRemove(base, part, k);
      AccumulateAllSplit(Accumulate(base, part[k].stats), flows - {k}, part - {k});
      assert flows - {k} - (part - {k}).Keys == flows - part.Keys;
    }
  }

  /** Nor does an idle sweep. */
  lemma SweepKeepsSnapshot(rx: Rx, now: nat)
    requires RxSized(rx)
    ensures Snapshot(Sweep(rx, now)) == Snapshot(rx)
  {
    AccumulateAllSplit(rx.evicted, rx.flows, IdleFlows(rx.cfg, rx.flows, now));
  }

  lemma SweepTotals(idle: map<FlowKey, Flow>, base: Stats, k: FlowKey)
    requires |base.residence| == LAT_BUCKETS && AllSized(idle) && k in idle
    ensures AllSized(idle - {k}) && |idle[k].stats.residence| == LAT_BUCKETS
    ensures AccumulateAll(Accumulate(base, idle[k].stats), idle - {k}) == AccumulateAll(base, idle)
    ensures ArmedOne(idle[k]) + Total(idle - {k}, ArmedOne) == Total(idle, ArmedOne)
    ensures Waiting(idle[k]) + Total(idle - {k}, Waiting) == Total(idle, Waiting)
  {
    hide Accumulate, AccumulateAll, Total;
    AccumulateAllRemove(base, idle, k);
    TotalRemove(idle, ArmedOne, k);
    TotalRemove(idle, Waiting, k);
  }

  /** Destroying one idle flow leaves the rest of the sweep to do. */
  lemma SweepStep(rx: Rx, k: FlowKey, now: nat)
    requires RxSized(rx) && k in rx.flows && Idle(rx.cfg, rx.flows[k], now)
    ensures RxSized(Evict(rx, k)) && Sweep(Evict(rx, k), now) == Sweep(rx, now)
  {
    hide Accumulate, AccumulateAll, Total, Idle, ArmedOne, Waiting;
    var idle := IdleFlows(rx.cfg, rx.flows, now);
    assert IdleFlows(rx.cfg, rx.flows - {k}, now) == idle - {k};
    SweepTotals(idle, rx.evicted, k);
    assert rx.flows - {k} - (idle - {k}).Keys == rx.flows - idle.Keys;
  }

  lemma SweepNothing(rx: Rx, now: nat)
    requires RxSized(rx) && forall k :: k in rx.flows ==> !Idle(rx.cfg, rx.flows[k], now)
    ensures Sweep(rx, now) == rx
  {
    hide Idle;
    assert IdleFlows(rx.cfg, rx.flows, now) == map[];
  }

  // ----- the invariant -----

  /** Counters of destroyed flows: a period that was open at destruction never ended. */
  ghost predicate LedgerBalanced(st: Stats, open: nat) {
    && |st.residence| == LAT_BUCKETS
    && st.gaps == PeriodsEnded(st) + open
    && Sum(st.residence) == st.delivered
  }

  /** Packets that have left the shim, delivered or refused. */
  function Disposed(st: Stats): nat {
    st.delivered + DropCount(st)
  }

  function DisposedOf(f: Flow): nat {
    Disposed(f.stats)
  }

  function Arrived(f: Flow): nat {
    |f.entered|
  }

  /** Every packet that entered a flow is accounted for: disposed of by a flow now destroyed, freed with it, or counted
      by a live flow. */
  ghost predicate Accounted(rx: Rx) {
    rx.admitted == Disposed(rx.evicted) + rx.lost + Total(rx.flows, Arrived)
  }

  lemma FlowAccounted(f: Flow)
    requires FlowInv(f)
    ensures Arrived(f) == DisposedOf(f) + Waiting(f)
  {
    hide Orderly, Sum;
    LoggedSize(f.log);
    HeldSize(f.buf, f.epoch);
  }

  lemma {:induction false} FlowsAccounted(flows: map<FlowKey, Flow>)
    requires forall k :: k in flows ==> FlowInv(flows[k])
    ensures Total(flows, Arrived) == Total(flows, DisposedOf) + Total(flows, Waiting)
    decreases |flows|
  {
    hide FlowInv, Arrived, DisposedOf, Waiting;
    if flows != map[] {
      var k := Pick(flows);
      FlowAccounted(flows[k]);
      FlowsAccounted(flows - {k});
      TotalRemove(flows, Arrived, k);
      TotalRemove(flows, DisposedOf, k);
      TotalRemove(flows, Waiting, k);
    }
  }

  lemma {:induction false} AccumulateAllDisposed(base: Stats, flows: map<FlowKey, Flow>)
    requires |base.residence| == LAT_BUCKETS && AllSized(flows)
    ensures Disposed(AccumulateAll(base, flows)) == Disposed(base) + Total(flows, DisposedOf)
    decreases |flows|
  {
    if flows != map[] {
      var k := Pick(flows);
      var both := Accumulate(base, flows[k].stats);
      assert Disposed(both) == Disposed(base) + DisposedOf(flows[k]);
      hide Accumulate, Disposed, DisposedOf;
      AccumulateAllDisposed(both, flows - {k});
      TotalRemove(flows, DisposedOf, k);
    }
  }

  ghost predicate RxInv(rx: Rx) {
    && Finalized(rx.cfg)
    && (forall k :: k in rx.flows ==> FlowInv(rx.flows[k]))
    && (rx.cfg.maxFlows > 0 ==> |rx.flows| <= rx.cfg.maxFlows)
    && PoolUsed(rx.flows) <= rx.cfg.maxPoolBytes
    && LedgerBalanced(rx.evicted, rx.armedWhenEvicted)
    && Accounted(rx)
  }

  lemma InvSized(rx: Rx)
    requires RxInv(rx)
    ensures RxSized(rx)
  {
    hide StepInv, Sum;
    forall k | k in rx.flows
      ensures |rx.flows[k].stats.residence| == LAT_BUCKETS
    {
      StepSize(rx.flows[k], multiset{});
    }
  }

  lemma {:induction false} SumAdds(a: seq<nat>, b: seq<nat>, c: seq<nat>)
    requires |a| == |b| == |c| && forall i :: 0 <= i < |a| ==> c[i] == a[i] + b[i]
    ensures Sum(c) == Sum(a) + Sum(b)
  {
    if a != [] {
      var n := |a| - 1;
      SumAdds(a[..n], b[..n], c[..n]);
    }
  }

  lemma AccumulateBalanced(a: Stats, b: Stats, m: nat, n: nat)
    requires LedgerBalanced(a, m) && LedgerBalanced(b, n)
    ensures LedgerBalanced(Accumulate(a, b), m + n)
  {
    SumAdds(a.residence, b.residence, Accumulate(a, b).residence);
  }

  lemma FlowLedger(f: Flow)
    requires FlowInv(f)
    ensures LedgerBalanced(f.stats, ArmedOne(f))
  {
    hide Conserved, Orderly, Sum;
  }

  lemma {:induction false} AccumulateAllBalanced(base: Stats, flows: map<FlowKey, Flow>, open: nat)
    requires LedgerBalanced(base, open) && forall k :: k in flows ==> FlowInv(flows[k])
    ensures AllSized(flows)
    ensures LedgerBalanced(AccumulateAll(base, flows), open + Total(flows, ArmedOne))
    decreases |flows|
  {
    hide FlowInv, PeriodsEnded, Sum, Accumulate;
    forall k | k in flows
      ensures |flows[k].stats.residence| == LAT_BUCKETS
    {
      InvSize(flows[k]);
    }
    if flows != map[] {
      var k := Pick(flows);
      FlowLedger(flows[k]);
      AccumulateBalanced(base, flows[k].stats, open, ArmedOne(flows[k]));
      AccumulateAllBalanced(Accumulate(base, flows[k].stats), flows - {k}, open + ArmedOne(flows[k]));
    }
  }

  lemma EvictAccounts(rx: Rx, k: FlowKey)
    requires RxInv(rx) && RxSized(rx) && k in rx.flows
    ensures Accounted(Evict(rx, k))
  {
    hide FlowInv, LedgerBalanced, PoolUsed;
    FlowAccounted(rx.flows[k]);
    TotalRemove(rx.flows, Arrived, k);
  }

  lemma EvictKeepsInv(rx: Rx, k: FlowKey)
    requires RxInv(rx) && k in rx.flows
    ensures RxSized(rx) && RxInv(Evict(rx, k)) && |Evict(rx, k).flows| == |rx.flows| - 1
  {
    hide FlowInv, Accumulate, LedgerBalanced, BufferedBytes, Accounted;
    InvSized(rx);
    EvictAccounts(rx, k);
    FlowLedger(rx.flows[k]);
    AccumulateBalanced(rx.evicted, rx.flows[k].stats, rx.armedWhenEvicted, ArmedOne(rx.flows[k]));
    TotalSubmap(rx.flows - {k}, rx.flows, BufferedBytes);
  }

  /** A new flow holds nothing. */
  lemma NewFlowBytes(cap: nat, waitMs: nat)
    ensures BufferedBytes(NewFlow(cap, waitMs)) == 0 && Arrived(NewFlow(cap, waitMs)) == 0
  {
  }

  lemma NewFlowKeepsInv(rx: Rx, key: FlowKey, cap: nat, waitMs: nat)
    requires RxInv(rx) && key !in rx.flows && !TableFull(rx) && cap > 0 && waitMs > 0
    ensures RxInv(rx.(flows := rx.flows[key := NewFlow(cap, waitMs)]))
  {
    hide FlowInv, LedgerBalanced, BufferedBytes, NewFlow, Disposed, Arrived;
    NewFlowInv(cap, waitMs);
    NewFlowBytes(cap, waitMs);
    TotalInsert(rx.flows, BufferedBytes, key, NewFlow(cap, waitMs));
    TotalInsert(rx.flows, Arrived, key, NewFlow(cap, waitMs));
  }

  lemma WithFlowKeepsInv(rx: Rx, key: FlowKey, victim: Option<FlowKey>)
    requires RxInv(rx) && FlowWaitMs(rx.cfg, key) > 0
    requires RxSized(rx) && VictimFor(rx, key, victim)
    ensures RxInv(WithFlow(rx, key, victim))
  {
    hide RxInv, NewFlow, FlowCap, FlowWaitMs, IsPow2, Accumulate;
    if key !in rx.flows {
      InvTable(rx);
      if victim.Some? {
        EvictKeepsInv(rx, victim.value);
        EvictKeepsCfg(rx, victim.value);
      }
      var room := if victim.Some? then Evict(rx, victim.value) else rx;
      FlowCapIsPow2(rx.cfg, key);
      Pow2Positive(FlowCap(rx.cfg, key));
      NewFlowKeepsInv(room, key, FlowCap(rx.cfg, key), FlowWaitMs(rx.cfg, key));
    }
  }

  lemma InvTable(rx: Rx)
    requires RxInv(rx)
    ensures Finalized(rx.cfg) && (rx.cfg.maxFlows > 0 ==> |rx.flows| <= rx.cfg.maxFlows)
  {
  }

  lemma EvictKeepsCfg(rx: Rx, k: FlowKey)
    requires RxSized(rx) && k in rx.flows
    ensures Evict(rx, k).cfg == rx.cfg && Evict(rx, k).flows == rx.flows - {k}
  {
    hide Accumulate;
  }

  lemma InFlowKeepsInv(rx: Rx, key: FlowKey, header: Header, inner: Packet, now: nat)
    requires RxInv(rx) && key in rx.flows && RxSized(rx)
    ensures RxInv(InFlow(rx, key, header, inner, now))
  {
    hide FlowInv, LedgerBalanced, BufferedBytes, OnReordered, Disposed, Bytes, BreaksBudget, RefusedExactly;
    var f, others := rx.flows[key], OthersUsed(rx.flows, key);
    TotalRemove(rx.flows, BufferedBytes, key);
    OnReorderedKeeps(rx.cfg, f, others, header.seqNo, HasReset(header.flags), inner, now);
    OnReorderedWithinPool(rx.cfg, f, others, header.seqNo, HasReset(header.flags), inner, now);
    var g := OnReordered(rx.cfg, f, others, header.seqNo, HasReset(header.flags), inner, now);
    TotalUpdate(rx.flows, BufferedBytes, key, g);
    DatagramAdmission(rx.cfg, f, others, header.seqNo, HasReset(header.flags), inner, now);
    TotalUpdate(rx.flows, Arrived, key, g);
  }

  lemma {:induction false} TotalPointwise(m: map<FlowKey, Flow>, n: map<FlowKey, Flow>)
    requires m.Keys == n.Keys && forall k :: k in m ==> BufferedBytes(m[k]) <= BufferedBytes(n[k])
    ensures PoolUsed(m) <= PoolUsed(n)
    decreases |m|
  {
    hide BufferedBytes;
    if m != map[] {
      var k := Pick(m);
      assert k in n;
      TotalRemove(n, BufferedBytes, k);
      TotalPointwise(m - {k}, n - {k});
    } else {
      assert n == map[];
    }
  }

  lemma TickArrivesNothing(f: Flow, now: nat)
    requires FlowInv(f)
    ensures |f.stats.residence| == LAT_BUCKETS && Arrived(TickFlow(f, now)) == Arrived(f)
  {
    hide FlowInv, TickFlow;
    TickEntersNothing(f, now);
  }

  lemma FireKeepsInv(rx: Rx, now: nat)
    requires RxInv(rx) && RxSized(rx)
    ensures RxInv(rx.(flows := Fire(rx.flows, now)))
    ensures forall k :: k in Fire(rx.flows, now) ==>
              Fire(rx.flows, now)[k].armed ==> Fire(rx.flows, now)[k].deadline > now
  {
    hide FlowInv, LedgerBalanced, BufferedBytes, TickFlow, Disposed, Arrived;
    forall k | k in rx.flows
      ensures FlowInv(TickFlow(rx.flows[k], now)) && BufferedBytes(TickFlow(rx.flows[k], now)) <= BufferedBytes(rx.flows[k])
      ensures TickFlow(rx.flows[k], now).armed ==> TickFlow(rx.flows[k], now).deadline > now
      ensures Arrived(TickFlow(rx.flows[k], now)) == Arrived(rx.flows[k])
    {
      TickArrivesNothing(rx.flows[k], now);
      TickFlowKeeps(rx.flows[k], now);
      TickFlowShrinks(rx.flows[k], now);
    }
    TotalPointwise(Fire(rx.flows, now), rx.flows);
    TotalSame(Fire(rx.flows, now), rx.flows, Arrived);
    assert |Fire(rx.flows, now).Keys| == |rx.flows.Keys|;
  }

  lemma SweepAccounts(rx: Rx, now: nat)
    requires RxInv(rx) && RxSized(rx)
    ensures Accounted(Sweep(rx, now))
  {
    hide FlowInv, LedgerBalanced, PoolUsed, Idle, AccumulateAll, Total, Disposed, Arrived, Waiting;
    var idle := IdleFlows(rx.cfg, rx.flows, now);
    FlowsAccounted(idle);
    AccumulateAllDisposed(rx.evicted, idle);
    TotalSplit(rx.flows, idle, Arrived);
  }

  lemma SweepKeepsInv(rx: Rx, now: nat)
    requires RxInv(rx) && RxSized(rx)
    ensures RxInv(Sweep(rx, now))
  {
    hide FlowInv, LedgerBalanced, BufferedBytes, Idle, AccumulateAll, Total, Accounted;
    SweepAccounts(rx, now);
    var idle := IdleFlows(rx.cfg, rx.flows, now);
    AccumulateAllBalanced(rx.evicted, idle, rx.armedWhenEvicted);
    TotalSubmap(rx.flows - idle.Keys, rx.flows, BufferedBytes);
    assert (rx.flows - idle.Keys).Keys <= rx.flows.Keys;
    SubsetSize((rx.flows - idle.Keys).Keys, rx.flows.Keys);
  }

  lemma {:induction false} SubsetSize<T>(a: set<T>, b: set<T>)
    requires a <= b
    ensures |a| <= |b|
  {
    assert b == a + (b - a);
  }

  lemma TickKeepsInv(rx: Rx, now: nat)
    requires RxInv(rx) && RxSized(rx)
    ensures RxInv(OnTick(rx, now))
    ensures forall k :: k in OnTick(rx, now).flows ==>
              OnTick(rx, now).flows[k].armed ==> OnTick(rx, now).flows[k].deadline > now
  {
    hide RxInv, TickFlow, Idle;
    FireKeepsInv(rx, now);
    SweepKeepsInv(rx.(flows := Fire(rx.flows, now)), now);
  }

  /** Flow state exists only for flows that wait, and only for packets of a sane size. */
  lemma OnlyWaitingFlowsReorder(cfg: Config, datagram: seq<Byte>)
    ensures var d := DispatchDatagram(cfg, datagram);
      d.Reorder? ==> FlowWaitMs(cfg, d.key) > 0 && 0 < |d.inner| <= 0xffff && ParseL3L4(d.inner) == Udp(d.key)
  {
    hide ParseL3L4, Decode, FlowWaitMs;
  }

  lemma DirectKeepsInv(rx: Rx, inner: Packet)
    requires RxInv(rx)
    ensures RxInv(rx.(direct := rx.direct + [inner]))
  {
  }

  lemma DatagramKeepsInv(rx: Rx, datagram: seq<Byte>, now: nat, victim: Option<FlowKey>)
    requires RxInv(rx) && RxSized(rx) && FitsTable(rx, datagram, victim)
    ensures RxInv(OnDatagram(rx, datagram, now, victim))
  {
    hide RxInv, DispatchDatagram, InFlow, WithFlow, AllSized, FlowWaitMs, VictimFor;
    OnlyWaitingFlowsReorder(rx.cfg, datagram);
    match DispatchDatagram(rx.cfg, datagram)
    case Ignore =>
    case Direct(inner) =>
      DirectKeepsInv(rx, inner);
    case Reorder(key, header, inner) =>
      WithFlowKeepsInv(rx, key, victim);
      InvSized(WithFlow(rx, key, victim));
      InFlowKeepsInv(WithFlow(rx, key, victim), key, header, inner, now);
  }

  // ----- whole runs -----

  datatype RxEvent =
    | Datagram(bytes: seq<Byte>, now: nat, victim: Option<FlowKey>)
    | TimerTick(now: nat)
    | ForceNoDemotion(on: bool)

  ghost predicate Possible(rx: Rx, ev: RxEvent) {
    RxSized(rx) && (ev.Datagram? ==> FitsTable(rx, ev.bytes, ev.victim))
  }

  ghost function RxStep(rx: Rx, ev: RxEvent): (r: Rx)
    requires Possible(rx, ev)
    ensures RxSized(r)
  {
    match ev
    case Datagram(bytes, now, victim) => OnDatagram(rx, bytes, now, victim)
    case TimerTick(now) => OnTick(rx, now)
    case ForceNoDemotion(on) => rx.(cfg := rx.cfg.(forceNoDemotion := on))
  }

  /** A run is a sequence of states, each reached from the one before by its event. */
  ghost predicate IsRun(states: seq<Rx>, evs: seq<RxEvent>) {
    && |states| == |evs| + 1
    && forall i :: 0 <= i < |evs| ==> Possible(states[i], evs[i]) && states[i + 1] == RxStep(states[i], evs[i])
  }

  ghost function Fresh(cfg: Config): Rx {
    Rx(cfg, map[], ZERO_STATS, 0, 0, 0, [])
  }

  lemma FreshInv(cfg: Config)
    requires Finalized(cfg)
    ensures RxInv(Fresh(cfg))
  {
    SumOfZeros(ZERO_STATS.residence);
  }

  lemma StepKeepsRxInv(rx: Rx, ev: RxEvent)
    requires RxInv(rx) && Possible(rx, ev)
    ensures RxInv(RxStep(rx, ev))
  {
    match ev
    case Datagram(bytes, now, victim) =>
      hide RxInv, OnDatagram;
      DatagramKeepsInv(rx, bytes, now, victim);
    case TimerTick(now) =>
      hide RxInv, OnTick;
      TickKeepsInv(rx, now);
    case ForceNoDemotion(on) =>
  }

  /** In every state of every run: each flow satisfies its invariant, the table respects max_flows,
      and the pool never holds more than its budget. */
  lemma {:induction false} RunKeepsRxInv(states: seq<Rx>, evs: seq<RxEvent>, cfg: Config, n: nat)
    requires IsRun(states, evs) && Finalized(cfg) && states[0] == Fresh(cfg) && n < |states|
    ensures RxInv(states[n])
  {
    hide RxInv, RxStep, Possible;
    if n == 0 {
      FreshInv(cfg);
    } else {
      RunKeepsRxInv(states, evs, cfg, n - 1);
      StepKeepsRxInv(states[n - 1], evs[n - 1]);
    }
  }

  /** Conservation for the whole receiver: every packet that ever entered a flow has been delivered, refused for a
      counted reason, waits in a buffer, or was freed uncounted when its flow was destroyed. */
  lemma ReceiverConserves(rx: Rx)
    requires RxInv(rx)
    ensures RxSized(rx)
    ensures rx.admitted == Disposed(Snapshot(rx)) + Total(rx.flows, Waiting) + rx.lost
  {
    hide FlowInv, LedgerBalanced, PoolUsed, AccumulateAll, Disposed;
    InvSized(rx);
    FlowsAccounted(rx.flows);
    AccumulateAllDisposed(rx.evicted, rx.flows);
  }

  /** The lifetime snapshot is exact once the open periods are counted; the plain identity, without them,
      holds exactly when no period is open now and none was open when its flow was destroyed. */
  lemma SnapshotBalanced(rx: Rx)
    requires RxInv(rx)
    ensures RxSized(rx)
    ensures var s, open := Snapshot(rx), Total(rx.flows, ArmedOne) + rx.armedWhenEvicted;
      && s.gaps == PeriodsEnded(s) + open
      && (s.gaps == PeriodsEnded(s) <==> rx.armedWhenEvicted == 0 && forall k :: k in rx.flows ==> !rx.flows[k].armed)
      && Sum(s.residence) == s.delivered
  {
    hide FlowInv, PeriodsEnded, Sum, Accumulate, AccumulateAll;
    InvSized(rx);
    AccumulateAllBalanced(rx.evicted, rx.flows, rx.armedWhenEvicted);
    NoneArmed(rx.flows);
  }

  lemma {:induction false} NoneArmed(flows: map<FlowKey, Flow>)
    ensures Total(flows, ArmedOne) == 0 <==> forall k :: k in flows ==> !flows[k].armed
    decreases |flows|
  {
    if flows != map[] {
      var k := Pick(flows);
      NoneArmed(flows - {k});
      assert forall j :: j in flows ==> j == k || j in flows - {k};
    }
  }
}
