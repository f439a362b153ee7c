/** Occupancy: what bounds the buffer of a flow, and what does not. */
module FlowLimits {
  import opened Totals
  import opened Ring
  import opened ReorderConfig
  import opened ReorderModel
  import opened FlowInvariants

  // ----- packet count -----

  lemma {:induction false} WindowCount(keys: set<nat>, lo: nat, n: nat)
    requires forall s :: s in keys ==> lo < s < lo + n
    ensures n == 0 ==> keys == {}
    ensures n > 0 ==> |keys| <= n - 1
    decreases n
  {
    if n > 1 {
      var top := lo + n - 1;
      WindowCount(keys - {top}, lo, n - 1);
    }
  }

  /** Where buffered numbers lie, at every point of a run at which nothing deliverable is left. */
  ghost predicate Windowed(f: Flow) {
    |f.stats.residence| == LAT_BUCKETS && InWindow(f.buf, f.expected, f.cap) && f.expected !in f.buf && f.cap > 0
  }

  /** So at every admission, whatever packet is being processed. */
  lemma SettledWindowed(f: Flow, owed: multiset<Tag>)
    requires Settled(f, owed)
    ensures Windowed(f)
  {
    StepSize(f, owed);
  }

  /** The packet limit never bites: the window already keeps the count below the capacity. */
  lemma CountBelowCap(f: Flow)
    requires Windowed(f)
    ensures |f.buf| < f.cap
  {
    WindowCount(f.buf.Keys, f.expected, f.cap);
  }

  // ----- after an overflow flush -----

  ghost predicate SubBuffer(b: map<nat, Item>, c: map<nat, Item>) {
    forall s :: s in b ==> s in c && c[s] == b[s]
  }

  lemma {:induction false} DrainSub(f: Flow, now: nat)
    requires |f.stats.residence| == LAT_BUCKETS
    ensures var r := Drain(f, now);
      SubBuffer(r.buf, f.buf) && r.cap == f.cap && r.expected >= f.expected && r.expected !in r.buf
    decreases |f.buf|
  {
    if f.expected in f.buf {
      DrainSub(TakeNext(f, now), now);
    }
  }

  lemma SkipAndDrainSub(f: Flow, now: nat)
    requires |f.stats.residence| == LAT_BUCKETS && f.buf != map[]
    ensures var r := SkipAndDrain(f, now);
      SubBuffer(r.buf, f.buf) && r.cap == f.cap && r.expected >= Lowest(f.buf) && r.expected !in r.buf
  {
    hide Drain, Lowest;
    DrainSub(f.(expected := Lowest(f.buf)), now);
  }

  // ----- the shared pool -----

  ghost predicate WithinPool(cfg: Config, f: Flow, others: nat) {
    others + BufferedBytes(f) <= cfg.maxPoolBytes
  }

  lemma BytesShrink(f: Flow, g: Flow)
    requires SubBuffer(g.buf, f.buf)
    ensures BufferedBytes(g) <= BufferedBytes(f)
  {
    TotalSubmap(g.buf, f.buf, Length);
  }

  lemma OverflowFlushShrinks(f: Flow, now: nat)
    requires |f.stats.residence| == LAT_BUCKETS && f.buf != map[]
    ensures SubBuffer(OverflowFlush(f, now).buf, f.buf) && BufferedBytes(OverflowFlush(f, now)) <= BufferedBytes(f)
  {
    hide SkipAndDrain, Total, Lowest;
    SkipAndDrainSub(f, now);
    BytesShrink(f, OverflowFlush(f, now));
  }

  lemma ReclassifyShrinks(f: Flow, s: nat, pkt: Packet, now: nat)
    requires |f.stats.residence| == LAT_BUCKETS
    ensures var (g, out) := Reclassify(f, s, pkt, now);
      && BufferedBytes(g) <= BufferedBytes(f)
      && (out == Buffered ==> g == f && s !in f.buf)
  {
    hide Total, Drain;
    DrainSub(DeliverCurrent(f, s, pkt, now), now);
    BytesShrink(f, Reclassify(f, s, pkt, now).0);
  }

  lemma StoreBytes(f: Flow, s: nat, pkt: Packet, now: nat)
    requires s !in f.buf
    ensures BufferedBytes(Store(f, s, pkt, now)) == BufferedBytes(f) + |pkt|
  {
    TotalInsert(f.buf, Length, s, Item(pkt, now));
  }

  lemma AdmitToPoolWithin(cfg: Config, f: Flow, others: nat, s: nat, pkt: Packet, now: nat)
    requires |f.stats.residence| == LAT_BUCKETS && s !in f.buf && WithinPool(cfg, f, others)
    ensures WithinPool(cfg, AdmitToPool(cfg, f, others, s, pkt, now).0, others)
  {
    hide Total, OverflowFlush, Reclassify, Store;
    if !ExceedsPool(cfg, f, others, |pkt|) {
      StoreBytes(f, s, pkt, now);
    } else if f.buf != map[] {
      var g := OverflowFlush(f, now);
      OverflowFlushShrinks(f, now);
      ReclassifyShrinks(g, s, pkt, now);
      if Reclassify(g, s, pkt, now).1 == Buffered {
        StoreBytes(g, s, pkt, now);
      }
    }
  }

  lemma BufferAdmitWithin(cfg: Config, f: Flow, others: nat, s: nat, pkt: Packet, now: nat)
    requires |f.stats.residence| == LAT_BUCKETS && WithinPool(cfg, f, others)
    ensures WithinPool(cfg, BufferAdmit(cfg, f, others, s, pkt, now).0, others)
  {
    hide Total, OverflowFlush, Reclassify, AdmitToPool, ExceedsFlowLimits;
    if s in f.buf {
    } else if !ExceedsFlowLimits(cfg, f, |pkt|) {
      AdmitToPoolWithin(cfg, f, others, s, pkt, now);
    } else if f.buf != map[] {
      var g := OverflowFlush(f, now);
      OverflowFlushShrinks(f, now);
      ReclassifyShrinks(g, s, pkt, now);
      if Reclassify(g, s, pkt, now).1 == Buffered {
        AdmitToPoolWithin(cfg, g, others, s, pkt, now);
      }
    }
  }

  lemma ProcessWithin(cfg: Config, f: Flow, others: nat, s: nat, pkt: Packet, now: nat)
    requires |f.stats.residence| == LAT_BUCKETS && WithinPool(cfg, f, others)
    ensures WithinPool(cfg, Process(cfg, f, others, s, pkt, now).0, others)
  {
    hide Total, Drain, BufferAdmit;
    DrainSub(DeliverCurrent(f, s, pkt, now), now);
    if f.initialized && s == f.expected {
      BytesShrink(f, DeliverInOrder(f, s, pkt, now));
    } else if f.initialized && s > f.expected {
      BufferAdmitWithin(cfg, f, others, s, pkt, now);
    }
  }

  lemma ObserveTrafficWithin(cfg: Config, f: Flow, others: nat, out: Outcome, pkt: Packet, now: nat)
    requires |f.stats.residence| == LAT_BUCKETS && WithinPool(cfg, f, others)
    ensures WithinPool(cfg, ObserveTraffic(cfg, f, out, pkt, now), others)
  {
    hide Total, FlushAscending;
    var g := Classify(cfg, f, pkt).0;
    FlushAscendingEmpties(if g.armed then g.(stats := g.stats.(demoteEnded := g.stats.demoteEnded + 1)) else g, now);
    TotalEmpty<nat, Item>(map[], Length);
  }

  /** No datagram takes the pool over its budget. */
  lemma OnReorderedWithinPool(cfg: Config, f: Flow, others: nat, s: nat, reset: bool, pkt: Packet, now: nat)
    requires |f.stats.residence| == LAT_BUCKETS && WithinPool(cfg, f, others)
    ensures WithinPool(cfg, OnReordered(cfg, f, others, s, reset, pkt, now), others)
  {
    hide Total, Process, ObserveTraffic;
    TotalEmpty<nat, Item>(map[], Length);
    var g := Enter(f.(lastSeen := now), s, pkt);
    ProcessWithin(cfg, g, others, s, pkt, now);
    var (h, out) := Process(cfg, g, others, s, pkt, now);
    if !(reset && HonoursReset(cfg, f, now)) && !f.passThrough {
      ObserveTrafficWithin(cfg, h, others, out, pkt, now);
    }
  }

  /** Nor does a tick. */
  lemma TickFlowShrinks(f: Flow, now: nat)
    requires |f.stats.residence| == LAT_BUCKETS
    ensures BufferedBytes(TickFlow(f, now)) <= BufferedBytes(f)
  {
    hide Total, SkipAndDrain, Lowest;
    if f.buf != map[] {
      SkipAndDrainSub(f.(stats := f.stats.(timedOut := f.stats.timedOut + 1)), now);
      BytesShrink(f, GapTimeout(f, now));
    }
  }
}
