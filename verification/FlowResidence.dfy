/** The residence histogram tells how long each delivered packet has waited in the buffer. */
module FlowResidence {
  import opened Totals
  import opened Ring
  import opened ReorderConfig
  import opened ReorderModel
  import opened FlowInvariants
  import opened FlowModes

  /** Counts the packets that, delivered at `now`, would have waited for a time of bucket i. */
  function Weight(now: nat, i: nat): Item -> nat {
    (item: Item) => if BucketFrom(Residence(now, item.enqueued), 0) == i then 1 else 0
  }

  /** The histogram with everything that still waits, as if it were delivered now. */
  ghost function Projected(f: Flow, now: nat, i: nat): nat
    requires |f.stats.residence| == LAT_BUCKETS && i < LAT_BUCKETS
  {
    f.stats.residence[i] + Total(f.buf, Weight(now, i))
  }

  /** Some packet has waited for at least that long, delivered or not. */
  ghost predicate Waited(f: Flow, now: nat, t: nat) {
    f.stats.maxResidence >= t || exists s :: s in f.buf && Residence(now, f.buf[s].enqueued) >= t
  }

  /** Handing packets out at `now` leaves the projection as it is, but for a packet that has just come in. */
  ghost predicate Truthful(f: Flow, g: Flow, now: nat, came: bool) {
    && |f.stats.residence| == LAT_BUCKETS && |g.stats.residence| == LAT_BUCKETS
    && (forall i :: 0 <= i < LAT_BUCKETS ==>
          Projected(g, now, i) == Projected(f, now, i) + if came && i == 0 then 1 else 0)
    && (forall t: nat :: t > 0 ==> (Waited(g, now, t) <==> Waited(f, now, t)))
  }

  lemma TruthfulThen(f: Flow, g: Flow, h: Flow, now: nat, came: bool)
    requires Truthful(f, g, now, false) && Truthful(g, h, now, came)
    ensures Truthful(f, h, now, came)
  {
    hide Projected, Waited;
  }

  lemma TruthfulFirst(f: Flow, g: Flow, h: Flow, now: nat)
    requires Truthful(f, g, now, true) && Truthful(g, h, now, false)
    ensures Truthful(f, h, now, true)
  {
    hide Projected, Waited;
  }

  lemma SameWaiting(f: Flow, g: Flow, now: nat)
    requires |f.stats.residence| == LAT_BUCKETS && g.buf == f.buf
    requires g.stats.residence == f.stats.residence && g.stats.maxResidence == f.stats.maxResidence
    ensures Truthful(f, g, now, false)
  {
    hide Weight, Total;
  }

  lemma TakeNextTruthful(f: Flow, now: nat)
    requires |f.stats.residence| == LAT_BUCKETS && f.expected in f.buf
    ensures Truthful(f, TakeNext(f, now), now, false)
  {
    hide Total, BucketFrom;
    var g, s := TakeNext(f, now), f.expected;
    forall i | 0 <= i < LAT_BUCKETS
      ensures Projected(g, now, i) == Projected(f, now, i)
    {
      TotalRemove(f.buf, Weight(now, i), s);
    }
    assert forall t :: t in f.buf ==> t == s || (t in g.buf && g.buf[t] == f.buf[t]);
  }

  lemma {:induction false} DrainTruthful(f: Flow, now: nat)
    requires |f.stats.residence| == LAT_BUCKETS
    ensures Truthful(f, Drain(f, now), now, false)
    decreases |f.buf|
  {
    hide Truthful, TakeNext;
    if f.expected in f.buf {
      TakeNextTruthful(f, now);
      TakeNextShrinks(f, now);
      DrainTruthful(TakeNext(f, now), now);
      TruthfulThen(f, TakeNext(f, now), Drain(f, now), now, false);
    } else {
      SameWaiting(f, f, now);
    }
  }

  lemma TakeNextShrinks(f: Flow, now: nat)
    requires |f.stats.residence| == LAT_BUCKETS && f.expected in f.buf
    ensures |TakeNext(f, now).buf| < |f.buf| && |TakeNext(f, now).stats.residence| == LAT_BUCKETS
  {
  }

  lemma {:induction false} AscendingTruthful(f: Flow, now: nat)
    requires |f.stats.residence| == LAT_BUCKETS
    ensures Truthful(f, FlushAscending(f, now), now, false)
    decreases |f.buf|
  {
    hide Truthful, TakeNext;
    if f.buf != map[] {
      var g := f.(expected := Lowest(f.buf));
      SameWaiting(f, g, now);
      TakeNextTruthful(g, now);
      TakeNextShrinks(g, now);
      AscendingTruthful(TakeNext(g, now), now);
      TruthfulThen(g, TakeNext(g, now), FlushAscending(f, now), now, false);
      TruthfulThen(f, g, FlushAscending(f, now), now, false);
    } else {
      SameWaiting(f, f, now);
    }
  }

  lemma SkipTruthful(f: Flow, now: nat)
    requires |f.stats.residence| == LAT_BUCKETS && f.buf != map[]
    ensures Truthful(f, SkipAndDrain(f, now), now, false)
  {
    hide Truthful, Drain, Lowest;
    var g := f.(expected := Lowest(f.buf));
    var h := Drain(g, now);
    SameWaiting(f, g, now);
    DrainTruthful(g, now);
    SameWaiting(h, SkipAndDrain(f, now), now);
    TruthfulThen(f, g, h, now, false);
    TruthfulThen(f, h, SkipAndDrain(f, now), now, false);
  }

  lemma OverflowTruthful(f: Flow, now: nat)
    requires |f.stats.residence| == LAT_BUCKETS && f.buf != map[]
    ensures Truthful(f, OverflowFlush(f, now), now, false)
  {
    hide Truthful, SkipAndDrain;
    SkipTruthful(f, now);
    SameWaiting(SkipAndDrain(f, now), OverflowFlush(f, now), now);
    TruthfulThen(f, SkipAndDrain(f, now), OverflowFlush(f, now), now, false);
  }

  /** A timeout counts each packet that comes out of the buffer with its own wait. */
  lemma TickTruthful(f: Flow, now: nat)
    requires FlowInv(f)
    ensures |f.stats.residence| == LAT_BUCKETS && Truthful(f, TickFlow(f, now), now, false)
  {
    hide FlowInv, Truthful, SkipAndDrain;
    InvSize(f);
    if f.armed && f.deadline <= now && f.buf != map[] {
      var g := f.(stats := f.stats.(timedOut := f.stats.timedOut + 1));
      SameWaiting(f, g, now);
      SkipTruthful(g, now);
      SameWaiting(SkipAndDrain(g, now), TickFlow(f, now), now);
      TruthfulThen(f, g, SkipAndDrain(g, now), now, false);
      TruthfulThen(f, SkipAndDrain(g, now), TickFlow(f, now), now, false);
    } else {
      SameWaiting(f, TickFlow(f, now), now);
    }
  }

  // ----- a datagram -----

  lemma NoWait(now: nat)
    ensures Residence(now, now) == 0 && BucketFrom(0, 0) == 0
  {
  }

  lemma EmitTruthful(f: Flow, now: nat, s: nat, pkt: Packet)
    requires |f.stats.residence| == LAT_BUCKETS
    ensures Truthful(f, Emit(f, now, s, pkt, now), now, true)
  {
    hide Total, Weight;
    NoWait(now);
  }

  lemma InOrderTruthful(f: Flow, s: nat, pkt: Packet, now: nat)
    requires |f.stats.residence| == LAT_BUCKETS
    ensures Truthful(f, DeliverInOrder(f, s, pkt, now), now, true)
  {
    hide Truthful, Drain, Emit;
    var g, h, r := Emit(f, now, s, pkt, now), DeliverCurrent(f, s, pkt, now), DeliverInOrder(f, s, pkt, now);
    EmitHands(f, now, s, pkt, now);
    EmitTruthful(f, now, s, pkt);
    SameWaiting(g, h, now);
    TruthfulFirst(f, g, h, now);
    DrainTruthful(h, now);
    TruthfulFirst(f, h, Drain(h, now), now);
    SameWaiting(Drain(h, now), r, now);
    TruthfulFirst(f, Drain(h, now), r, now);
  }

  lemma StoreTruthful(f: Flow, s: nat, pkt: Packet, now: nat)
    requires |f.stats.residence| == LAT_BUCKETS && s !in f.buf
    ensures Truthful(f, Store(f, s, pkt, now), now, true)
  {
    hide Total, BucketFrom;
    var g := Store(f, s, pkt, now);
    NoWait(now);
    forall i | 0 <= i < LAT_BUCKETS
      ensures Projected(g, now, i) == Projected(f, now, i) + if i == 0 then 1 else 0
    {
      TotalInsert(f.buf, Weight(now, i), s, Item(pkt, now));
    }
    assert forall t :: t in f.buf ==> t in g.buf && g.buf[t] == f.buf[t];
  }

  /** The packet has been handed out or taken in. */
  predicate Came(out: Outcome) {
    out == Delivered || out == Buffered
  }

  lemma ReclassifyTruthful(f: Flow, s: nat, pkt: Packet, now: nat)
    requires |f.stats.residence| == LAT_BUCKETS
    ensures var (g, out) := Reclassify(f, s, pkt, now);
      Truthful(f, g, now, out == Delivered) && (out == Buffered ==> s !in g.buf)
  {
    hide Truthful, DeliverInOrder;
    InOrderTruthful(f, s, pkt, now);
    var (g, out) := Reclassify(f, s, pkt, now);
    if out != Delivered {
      SameWaiting(f, g, now);
    }
  }

  lemma AdmitTruthful(cfg: Config, f: Flow, others: nat, s: nat, pkt: Packet, now: nat)
    requires |f.stats.residence| == LAT_BUCKETS && s !in f.buf
    ensures var (g, out) := AdmitToPool(cfg, f, others, s, pkt, now); Truthful(f, g, now, Came(out))
  {
    hide Truthful, OverflowFlush, Reclassify, ExceedsPool, Store;
    StoreTruthful(f, s, pkt, now);
    SameWaiting(f, DropPool(f, s, pkt), now);
    if f.buf != map[] {
      var g := OverflowFlush(f, now);
      OverflowTruthful(f, now);
      ReclassifyTruthful(g, s, pkt, now);
      var (k, first) := Reclassify(g, s, pkt, now);
      SameWaiting(k, DropPool(k, s, pkt), now);
      var (h, out) := AdmitToPool(cfg, f, others, s, pkt, now);
      if ExceedsPool(cfg, f, others, |pkt|) {
        if first == Buffered {
          StoreTruthful(k, s, pkt, now);
          TruthfulThen(g, k, h, now, Came(out));
        }
        TruthfulThen(f, g, h, now, Came(out));
      }
    }
  }

  lemma BufferTruthful(cfg: Config, f: Flow, others: nat, s: nat, pkt: Packet, now: nat)
    requires |f.stats.residence| == LAT_BUCKETS
    ensures var (g, out) := BufferAdmit(cfg, f, others, s, pkt, now); Truthful(f, g, now, Came(out))
  {
    hide Truthful, OverflowFlush, Reclassify, AdmitToPool, ExceedsFlowLimits;
    SameWaiting(f, DropDuplicate(f, s, pkt), now);
    SameWaiting(f, DropFlowLimit(f, s, pkt), now);
    if s !in f.buf {
      AdmitTruthful(cfg, f, others, s, pkt, now);
      if f.buf != map[] {
        var g := OverflowFlush(f, now);
        OverflowTruthful(f, now);
        ReclassifyTruthful(g, s, pkt, now);
        var (k, first) := Reclassify(g, s, pkt, now);
        var (h, out) := BufferAdmit(cfg, f, others, s, pkt, now);
        if ExceedsFlowLimits(cfg, f, |pkt|) {
          if first == Buffered {
            AdmitTruthful(cfg, k, others, s, pkt, now);
            TruthfulThen(g, k, h, now, Came(out));
          }
          TruthfulThen(f, g, h, now, Came(out));
        }
      }
    }
  }

  lemma ProcessTruthful(cfg: Config, f: Flow, others: nat, s: nat, pkt: Packet, now: nat)
    requires |f.stats.residence| == LAT_BUCKETS
    ensures var (g, out) := Process(cfg, f, others, s, pkt, now); Truthful(f, g, now, Came(out))
  {
    hide Truthful, BufferAdmit, DeliverInOrder, Emit;
    if !f.initialized {
      ColdStartTruthful(f, s, pkt, now);
    }
    InOrderTruthful(f, s, pkt, now);
    SameWaiting(f, DropLate(f, s, pkt), now);
    SameWaiting(f, DropFarAhead(f, s, pkt), now);
    BufferTruthful(cfg, f, others, s, pkt, now);
  }

  lemma ColdStartTruthful(f: Flow, s: nat, pkt: Packet, now: nat)
    requires |f.stats.residence| == LAT_BUCKETS
    ensures Truthful(f, DeliverCurrent(f.(initialized := true), s, pkt, now), now, true)
  {
    hide Truthful, Emit;
    var k := f.(initialized := true);
    EmitHands(k, now, s, pkt, now);
    SameWaiting(f, k, now);
    EmitTruthful(k, now, s, pkt);
    TruthfulThen(f, k, Emit(k, now, s, pkt, now), now, true);
    SameWaiting(Emit(k, now, s, pkt, now), DeliverCurrent(k, s, pkt, now), now);
    TruthfulFirst(f, Emit(k, now, s, pkt, now), DeliverCurrent(k, s, pkt, now), now);
  }

  lemma ObserveTruthful(cfg: Config, f: Flow, out: Outcome, pkt: Packet, now: nat)
    requires |f.stats.residence| == LAT_BUCKETS
    ensures Truthful(f, ObserveTraffic(cfg, f, out, pkt, now), now, false)
  {
    hide Truthful, FlushAscending, Judged, Classify;
    ClassifyShows(cfg, f, pkt);
    var g, r := Classify(cfg, f, pkt).0, ObserveTraffic(cfg, f, out, pkt, now);
    SameWaiting(f, f, now);
    SameWaiting(f, g, now);
    var k := if g.armed then g.(stats := g.stats.(demoteEnded := g.stats.demoteEnded + 1)) else g;
    if !Refused(out) && Classify(cfg, f, pkt).1 == Demote {
      var h := FlushAscending(k, now);
      SameWaiting(g, k, now);
      TruthfulThen(f, g, k, now, false);
      AscendingTruthful(k, now);
      TruthfulThen(f, k, h, now, false);
      SameWaiting(h, r, now);
      TruthfulThen(f, h, r, now, false);
    }
  }

  /** Whatever a datagram causes to be handed out: each packet from the buffer is counted in the bucket of its own wait, the
      packet itself without any, and the maximum is the longest of these waits; unless an epoch starts, which counts only
      the packet that starts it. */
  lemma DatagramTruthful(cfg: Config, f: Flow, others: nat, s: nat, reset: bool, pkt: Packet, now: nat)
    requires FlowInv(f)
    ensures |f.stats.residence| == LAT_BUCKETS
    ensures var r := OnReordered(cfg, f, others, s, reset, pkt, now);
      var dropped := Refusals(r.stats) > Refusals(f.stats) || r.stats.late > f.stats.late;
      Truthful(if StartsEpoch(cfg, f, reset, now) then f.(buf := map[]) else f, r, now, !dropped)
  {
    hide FlowInv, Truthful, Process, ObserveTraffic, Emit, StartEpoch, Refusals, BufferedBytes, Restarted;
    InvSize(f);
    var r := OnReordered(cfg, f, others, s, reset, pkt, now);
    var g := Enter(f.(lastSeen := now), s, pkt);
    SameWaiting(f, g, now);
    if StartsEpoch(cfg, f, reset, now) {
      ResetTruthful(f, s, pkt, now);
      ResetStartsEpoch(cfg, f, others, s, reset, pkt, now);
      RestartedDropsNone(f, r, s, pkt, now);
    } else if f.passThrough {
      EmitHands(g, now, s, pkt, now);
      EmitTruthful(g, now, s, pkt);
      TruthfulThen(f, g, Emit(g, now, s, pkt, now), now, true);
      SameWaiting(Emit(g, now, s, pkt, now), r, now);
      TruthfulFirst(f, Emit(g, now, s, pkt, now), r, now);
      PassedThrough(cfg, f, others, s, reset, pkt, now);
    } else {
      ProcessTruthful(cfg, g, others, s, pkt, now);
      ProcessCounts(cfg, f, g, others, s, pkt, now);
      var (h, out) := Process(cfg, g, others, s, pkt, now);
      TruthfulThen(f, g, h, now, Came(out));
      ObserveTruthful(cfg, h, out, pkt, now);
      ObserveModes(cfg, h, out, pkt, now);
      if Came(out) {
        TruthfulFirst(f, h, r, now);
      } else {
        TruthfulThen(f, h, r, now, false);
      }
    }
  }

  lemma RestartedDropsNone(f: Flow, r: Flow, s: nat, pkt: Packet, now: nat)
    requires Restarted(f, r, s, pkt, now)
    ensures Refusals(r.stats) == Refusals(f.stats) && r.stats.late == f.stats.late
  {
  }

  lemma ProcessCounts(cfg: Config, f: Flow, g: Flow, others: nat, s: nat, pkt: Packet, now: nat)
    requires |g.stats.residence| == LAT_BUCKETS && g.stats == f.stats && g.passThrough == f.passThrough
    ensures var (h, out) := Process(cfg, g, others, s, pkt, now);
      && h.passThrough == f.passThrough
      && (!Came(out) <==> Refusals(h.stats) > Refusals(f.stats) || h.stats.late > f.stats.late)
  {
    hide Process, BufferedBytes;
    ProcessHandles(cfg, g, others, s, pkt, now);
  }

  lemma ResetTruthful(f: Flow, s: nat, pkt: Packet, now: nat)
    requires |f.stats.residence| == LAT_BUCKETS
    ensures Truthful(f.(buf := map[]), StartEpoch(f.(lastSeen := now), s, pkt, now), now, true)
  {
    hide Truthful, Emit, HeldTags;
    var e := f.(buf := map[]);
    var g := Enter(Reset(f.(lastSeen := now)).(epoch := f.epoch + 1), s, pkt).(initialized := true);
    var r := StartEpoch(f.(lastSeen := now), s, pkt, now);
    EmitHands(g, now, s, pkt, now);
    SameWaiting(e, g, now);
    EmitTruthful(g, now, s, pkt);
    TruthfulThen(e, g, Emit(g, now, s, pkt, now), now, true);
    SameWaiting(Emit(g, now, s, pkt, now), r, now);
    TruthfulFirst(e, Emit(g, now, s, pkt, now), r, now);
  }
}
