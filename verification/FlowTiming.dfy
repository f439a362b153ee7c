/** Deadlines and idleness: with a clock that does not step back, a flow does not go idle with packets in its buffer. */
module FlowTiming {
  import opened Ring
  import opened ReorderConfig
  import opened ReorderModel
  import opened FlowInvariants

  /** The clock of the flow is not ahead, and an armed deadline is at most one wait after the last progress. */
  ghost predicate Timely(f: Flow, clock: nat) {
    && f.lastProgress <= clock
    && (f.armed ==> f.deadline <= f.lastProgress + f.waitMs * 1000)
  }

  /** Timer, wait and progress are untouched. */
  ghost predicate SameClock(f: Flow, g: Flow) {
    g.armed == f.armed && g.deadline == f.deadline && g.waitMs == f.waitMs && g.lastProgress == f.lastProgress
  }

  lemma TimelyLater(f: Flow, clock: nat, now: nat)
    requires Timely(f, clock) && clock <= now
    ensures Timely(f, now)
  {
  }

  lemma {:induction false} DrainSameClock(f: Flow, now: nat)
    requires |f.stats.residence| == LAT_BUCKETS
    ensures SameClock(f, Drain(f, now))
    decreases |f.buf|
  {
    if f.expected in f.buf {
      DrainSameClock(TakeNext(f, now), now);
    }
  }

  lemma {:induction false} FlushSameClock(f: Flow, now: nat)
    requires |f.stats.residence| == LAT_BUCKETS
    ensures SameClock(f, FlushAscending(f, now))
    decreases |f.buf|
  {
    if f.buf != map[] {
      FlushSameClock(TakeNext(f.(expected := Lowest(f.buf)), now), now);
    }
  }

  lemma SkipTimely(f: Flow, now: nat)
    requires |f.stats.residence| == LAT_BUCKETS && f.buf != map[] && Timely(f, now)
    ensures var g := SkipAndDrain(f, now);
      Timely(g, now) && g.armed == f.armed && g.deadline == f.deadline && g.waitMs == f.waitMs && g.lastProgress == now
  {
    hide Drain, Lowest;
    DrainSameClock(f.(expected := Lowest(f.buf)), now);
  }

  lemma OverflowTimely(f: Flow, now: nat)
    requires |f.stats.residence| == LAT_BUCKETS && f.buf != map[] && Timely(f, now)
    ensures Timely(OverflowFlush(f, now), now) && OverflowFlush(f, now).waitMs == f.waitMs
  {
    hide SkipAndDrain;
    SkipTimely(f, now);
  }

  lemma InOrderTimely(f: Flow, s: nat, pkt: Packet, now: nat)
    requires |f.stats.residence| == LAT_BUCKETS && Timely(f, now)
    ensures Timely(DeliverInOrder(f, s, pkt, now), now) && DeliverInOrder(f, s, pkt, now).waitMs == f.waitMs
  {
    hide Drain, Record;
    RecordSized(f, now);
    DrainSameClock(DeliverCurrent(f, s, pkt, now), now);
  }

  lemma RecordSized(f: Flow, now: nat)
    requires |f.stats.residence| == LAT_BUCKETS
    ensures |Record(f.stats.(delivered := f.stats.delivered + 1), now, now).residence| == LAT_BUCKETS
  {
  }

  lemma ReclassifyTimely(f: Flow, s: nat, pkt: Packet, now: nat)
    requires |f.stats.residence| == LAT_BUCKETS && Timely(f, now)
    ensures var g := Reclassify(f, s, pkt, now).0; Timely(g, now) && g.waitMs == f.waitMs
  {
    hide DeliverInOrder;
    InOrderTimely(f, s, pkt, now);
  }

  lemma AdmitTimely(cfg: Config, f: Flow, others: nat, s: nat, pkt: Packet, now: nat)
    requires |f.stats.residence| == LAT_BUCKETS && Timely(f, now)
    ensures var g := AdmitToPool(cfg, f, others, s, pkt, now).0; Timely(g, now) && g.waitMs == f.waitMs
  {
    hide OverflowFlush, Reclassify, ExceedsPool;
    if f.buf != map[] {
      OverflowTimely(f, now);
      ReclassifyTimely(OverflowFlush(f, now), s, pkt, now);
    }
  }

  lemma BufferAdmitTimely(cfg: Config, f: Flow, others: nat, s: nat, pkt: Packet, now: nat)
    requires |f.stats.residence| == LAT_BUCKETS && Timely(f, now)
    ensures var g := BufferAdmit(cfg, f, others, s, pkt, now).0; Timely(g, now) && g.waitMs == f.waitMs
  {
    hide OverflowFlush, Reclassify, AdmitToPool, ExceedsFlowLimits;
    AdmitTimely(cfg, f, others, s, pkt, now);
    if f.buf != map[] {
      var g := OverflowFlush(f, now);
      OverflowTimely(f, now);
      ReclassifyTimely(g, s, pkt, now);
      AdmitTimely(cfg, Reclassify(g, s, pkt, now).0, others, s, pkt, now);
    }
  }

  lemma ProcessTimely(cfg: Config, f: Flow, others: nat, s: nat, pkt: Packet, now: nat)
    requires |f.stats.residence| == LAT_BUCKETS && Timely(f, now)
    ensures var g := Process(cfg, f, others, s, pkt, now).0; Timely(g, now) && g.waitMs == f.waitMs
  {
    hide BufferAdmit, DeliverInOrder, Record;
    InOrderTimely(f, s, pkt, now);
    BufferAdmitTimely(cfg, f, others, s, pkt, now);
  }

  lemma ObserveTimely(cfg: Config, f: Flow, out: Outcome, pkt: Packet, now: nat)
    requires |f.stats.residence| == LAT_BUCKETS && Timely(f, now)
    ensures var g := ObserveTraffic(cfg, f, out, pkt, now); Timely(g, now) && g.waitMs == f.waitMs
  {
    hide FlushAscending, InnerUdpPayloadLen;
    var g := Classify(cfg, f, pkt).0;
    FlushSameClock(if g.armed then g.(stats := g.stats.(demoteEnded := g.stats.demoteEnded + 1)) else g, now);
  }

  /** A datagram at a time not before the flow's clock. */
  lemma OnReorderedTimely(cfg: Config, f: Flow, others: nat, s: nat, reset: bool, pkt: Packet, now: nat)
    requires |f.stats.residence| == LAT_BUCKETS && Timely(f, now)
    ensures var g := OnReordered(cfg, f, others, s, reset, pkt, now); Timely(g, now) && g.waitMs == f.waitMs
  {
    hide Process, ObserveTraffic, Record, HeldTags;
    var g := Enter(f.(lastSeen := now), s, pkt);
    ProcessTimely(cfg, g, others, s, pkt, now);
    var (h, out) := Process(cfg, g, others, s, pkt, now);
    ObserveTimely(cfg, h, out, pkt, now);
  }

  lemma TickTimely(f: Flow, now: nat)
    requires |f.stats.residence| == LAT_BUCKETS && Timely(f, now)
    ensures Timely(TickFlow(f, now), now) && TickFlow(f, now).waitMs == f.waitMs
  {
    hide SkipAndDrain;
    if f.buf != map[] {
      SkipTimely(f.(stats := f.stats.(timedOut := f.stats.timedOut + 1)), now);
    }
  }

  /** Without progress for longer than its wait, a flow has nothing left to wait for once its timer has been looked at. */
  lemma IdleIsEmpty(f: Flow, now: nat)
    requires FlowInv(f) && Timely(f, now)
    ensures |f.stats.residence| == LAT_BUCKETS
    ensures var g := TickFlow(f, now); now > g.lastProgress + g.waitMs * 1000 ==> g.buf == map[] && !g.armed
  {
    hide StepInv, GapTimeout;
    InvSize(f);
    TickFlowKeeps(f, now);
    TickTimely(f, now);
  }
}
