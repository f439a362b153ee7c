/** One reorder flow as the receiver keeps it: fields and a ring updated in place, proved against ReorderModel. */
module FlowObject {
  import opened Bits
  import opened Totals
  import opened Wrappers
  import opened Ring
  import opened ReorderConfig
  import opened ReorderModel

  /** The byte budget shared by all flows of a receiver. */
  class Pool {
    var used: nat

    constructor ()
      ensures used == 0
    {
      used := 0;
    }

    method Release(len: nat)
      modifies this
      ensures used == if old(used) >= len then old(used) - len else 0
    {
      if used >= len {
        used := used - len;
      } else {
        used := 0;
      }
    }
  }

  class FlowState {
    const key: FlowKey
    const buffer: SlotRing
    const waitMs: nat
    var initialized: bool
    var expected: nat
    var armed: bool
    var deadline: nat
    var armedAt: nat
    var lastSeen: nat
    var lastProgress: nat
    var passThrough: bool
    var classifySeen: nat
    var classifyLarge: nat
    var stats: Stats

    // History: what the deliver callback has been given, what came in and what was thrown away.
    ghost var epoch: nat
    ghost var log: seq<Delivery>
    ghost var entered: multiset<Tag>
    ghost var dropped: multiset<Tag>

    ghost function View(): Flow
      reads this, buffer
    {
      Flow(initialized, expected, buffer.cap, buffer.contents, armed, deadline, armedAt, waitMs, lastSeen, lastProgress,
           passThrough, classifySeen, classifyLarge, stats, epoch, log, entered, dropped)
    }

    ghost predicate Valid()
      reads this, buffer, buffer.slots
    {
      && buffer.Valid()
      && buffer.Covers(expected)
      && |stats.residence| == LAT_BUCKETS
    }

    /** Between calls: everything deliverable has been delivered. */
    ghost predicate Ready()
      reads this, buffer, buffer.slots
    {
      Valid() && expected !in buffer.contents
    }

    /** What this flow has buffered is charged to the pool. */
    ghost predicate Charged(pool: Pool)
      reads buffer, pool
    {
      pool.used >= buffer.bytes
    }

    /** What the other flows have charged to the pool. */
    ghost function Others(pool: Pool): int
      reads buffer, pool
    {
      pool.used - buffer.bytes
    }

    constructor (key: FlowKey, cap: nat, waitMs: nat)
      requires IsPow2(cap)
      ensures Valid() && View() == NewFlow(cap, waitMs) && this.key == key
      ensures fresh(buffer) && buffer.slots == null
    {
      this.key, this.waitMs := key, waitMs;
      buffer := new SlotRing(cap);
      initialized, expected, armed, deadline, armedAt, lastSeen, lastProgress := false, 0, false, 0, 0, 0, 0;
      passThrough, classifySeen, classifyLarge, stats := false, 0, 0, ZERO_STATS;
      epoch, log, entered, dropped := 0, [], multiset{}, multiset{};
    }

    method RecordResidence(now: nat, enqueued: nat)
      requires |stats.residence| == LAT_BUCKETS
      modifies this`stats
      ensures stats == Record(old(stats), now, enqueued)
    {
      var residence := if now > enqueued then now - enqueued else 0;
      var i := 0;
      while i < LAT_BUCKETS - 1 && residence > LAT_BOUNDS[i]
        invariant i < LAT_BUCKETS && (i > 0 ==> residence > LAT_BOUNDS[i - 1])
        invariant BucketFrom(residence, i) == BucketFrom(residence, 0)
      {
        i := i + 1;
      }
      stats := stats.(residence := stats.residence[i := stats.residence[i] + 1]);
      if residence > stats.maxResidence {
        stats := stats.(maxResidence := residence);
      }
    }

    method DeliverPacket(s: nat, pkt: Packet, now: nat, enqueued: nat)
      requires |stats.residence| == LAT_BUCKETS
      modifies this`stats, this`log
      ensures log == old(log) + [Delivery(Tag(epoch, s, pkt), !passThrough)]
      ensures stats == Record(old(stats).(delivered := old(stats).delivered + 1), now, enqueued)
      ensures |stats.residence| == LAT_BUCKETS
    {
      log := log + [Delivery(Tag(epoch, s, pkt), !passThrough)];
      stats := stats.(delivered := stats.delivered + 1);
      RecordResidence(now, enqueued);
    }

    /** Arm the gap timer for a new period. */
    method OpenPeriod(now: nat)
      modifies this`armed, this`armedAt, this`deadline, this`stats
      ensures View() == Arm(old(View()), now) && stats.residence == old(stats).residence
    {
      armed := true;
      armedAt := now;
      deadline := now + waitMs * 1000;
      stats := stats.(gaps := stats.gaps + 1);
    }

    /** Take a packet out of the ring, if it is there, and give its bytes back to the pool. */
    method Withdraw(pool: Pool, s: nat) returns (item: Option<Item>)
      requires buffer.Valid() && Charged(pool)
      modifies buffer, buffer.slots, pool
      ensures buffer.Valid() && buffer.slots == old(buffer.slots) && buffer.size == old(buffer.size)
      ensures Charged(pool) && Others(pool) == old(Others(pool))
      ensures buffer.contents == old(buffer.contents) - {s}
      ensures item == if s in old(buffer.contents) then Some(old(buffer.contents)[s]) else None
    {
      hide SlotRing.Valid;
      item := buffer.Remove(s);
      if item.Some? {
        pool.Release(|item.value.pkt|);
      }
    }

    /** Deliver the packet at `expected`, if it is buffered, and step past it. */
    method TakeBuffered(pool: Pool, now: nat) returns (taken: bool)
      requires Valid() && Charged(pool)
      modifies this`stats, this`log, this`expected, buffer, buffer.slots, pool
      ensures Valid() && Charged(pool) && Others(pool) == old(Others(pool))
      ensures buffer.slots == old(buffer.slots)
      ensures taken <==> old(expected) in old(buffer.contents)
      ensures View() == if taken then TakeNext(old(View()), now) else old(View())
    {
      hide SlotRing.Valid, Record;
      var item := Withdraw(pool, expected);
      taken := item.Some?;
      if taken {
        DeliverPacket(expected, item.value.pkt, now, item.value.enqueued);
        expected := expected + 1;
      } else {
        assert buffer.contents == old(buffer.contents);
      }
    }

    method DrainContiguous(pool: Pool, now: nat)
      requires Valid() && Charged(pool)
      modifies this`stats, this`log, this`expected, buffer, buffer.slots, pool
      ensures Ready() && Charged(pool) && Others(pool) == old(Others(pool))
      ensures buffer.slots == old(buffer.slots)
      ensures View() == Drain(old(View()), now)
    {
      hide Drain, SlotRing.Valid, Record;
      var more := true;
      while more
        invariant Valid() && Charged(pool) && Others(pool) == old(Others(pool))
        invariant buffer.slots == old(buffer.slots)
        invariant Drain(View(), now) == Drain(old(View()), now)
        invariant !more ==> expected !in buffer.contents
        decreases more, |buffer.contents|
      {
        ghost var before := View();
        DrainUnfold(before, now);
        more := TakeBuffered(pool, now);
        assert more ==> View() == TakeNext(before, now);
      }
      DrainUnfold(View(), now);
    }

    /** Jump `expected` to the lowest buffered number. */
    method AdvanceToLowest()
      requires Valid() && buffer.contents != map[]
      modifies this`expected
      ensures Valid() && View() == old(View()).(expected := Lowest(old(View()).buf))
    {
      hide SlotRing.Valid, Lowest;
      var lowest := buffer.LowestSeq(expected);
      LowestUnique(buffer.contents, lowest);
      if lowest > expected {
        expected := lowest;
      }
    }

    method MarkProgress(now: nat)
      modifies this`lastProgress
      ensures View() == old(View()).(lastProgress := now)
    {
      lastProgress := now;
    }

    /** Jump over the gap and deliver the run behind it. */
    method SkipToLowestAndDrain(pool: Pool, now: nat)
      requires Valid() && Charged(pool) && buffer.contents != map[]
      modifies this`stats, this`log, this`expected, this`lastProgress, buffer, buffer.slots, pool
      ensures Ready() && Charged(pool) && Others(pool) == old(Others(pool))
      ensures buffer.slots == old(buffer.slots)
      ensures View() == SkipAndDrain(old(View()), now)
    {
      hide SlotRing.Valid, SlotRing.Covers, Drain, Lowest, View;
      ViewBuffer();
      AdvanceToLowest();
      DrainContiguous(pool, now);
      MarkProgress(now);
    }

    lemma ViewBuffer()
      ensures View().buf == buffer.contents && View().armed == armed && View().stats == stats
      ensures View().expected == expected && View().cap == buffer.cap
    {
    }

    /** After a timeout: stop the timer, or start a new period for what is still buffered. */
    method StopOrRearm(now: nat)
      requires buffer.Valid()
      modifies this`armed, this`armedAt, this`deadline, this`stats
      ensures View() == if old(View()).buf == map[] then old(View()).(armed := false) else Arm(old(View()), now)
      ensures stats.residence == old(stats).residence
    {
      hide SlotRing.Valid;
      var empty := buffer.IsEmpty();
      if empty {
        armed := false;
      } else {
        OpenPeriod(now);
      }
    }

    method StopTimer()
      modifies this`armed
      ensures View() == old(View()).(armed := false)
    {
      armed := false;
    }

    method CountTimeout()
      modifies this`stats
      ensures View() == old(View()).(stats := old(View()).stats.(timedOut := old(View()).stats.timedOut + 1))
      ensures stats.residence == old(stats).residence
    {
      stats := stats.(timedOut := stats.timedOut + 1);
    }

    method OnGapTimeout(pool: Pool, now: nat)
      requires Ready() && Charged(pool)
      modifies this, buffer, buffer.slots, pool
      ensures Ready() && Charged(pool) && Others(pool) == old(Others(pool))
      ensures buffer.slots == old(buffer.slots)
      ensures View() == GapTimeout(old(View()), now)
    {
      hide SlotRing.Valid, SlotRing.Covers, SkipAndDrain, View, Arm;
      ViewBuffer();
      var empty := buffer.IsEmpty();
      if empty {
        StopTimer();
      } else {
        CountTimeout();
        SkipToLowestAndDrain(pool, now);
        StopOrRearm(now);
      }
    }

    method FlushOverflow(pool: Pool, now: nat)
      requires Valid() && Charged(pool) && buffer.contents != map[]
      modifies this, buffer, buffer.slots, pool
      ensures Ready() && Charged(pool) && Others(pool) == old(Others(pool))
      ensures buffer.slots == old(buffer.slots)
      ensures View() == OverflowFlush(old(View()), now)
    {
      hide SlotRing.Valid, SlotRing.Covers, SkipAndDrain, Lowest, Total;
      var wasArmed := armed;
      SkipToLowestAndDrain(pool, now);
      var empty := buffer.IsEmpty();
      if empty {
        if wasArmed {
          stats := stats.(overflowed := stats.overflowed + 1);
        }
        armed := false;
      }
    }

    /** Give every buffered packet's bytes back and free the ring. */
    method DropBuffered(pool: Pool) returns (n: nat)
      requires buffer.Valid() && Charged(pool)
      modifies buffer, buffer.slots, pool
      ensures buffer.Valid() && buffer.contents == map[] && buffer.slots == null
      ensures buffer.bytes == 0 && pool.used == old(Others(pool))
      ensures n == |old(buffer.contents)|
    {
      hide Represents, Below, Total;
      TotalEmpty<nat, Item>(map[], Length);
      n := 0;
      if buffer.slots != null {
        ghost var slots, contents := buffer.slots[..], buffer.contents;
        BelowEnds(slots, contents);
        for i := 0 to buffer.size
          invariant unchanged(buffer) && |slots| == buffer.size
          invariant forall j :: i <= j < |slots| ==> buffer.slots[j] == slots[j]
          invariant n == |Below(contents, |slots|, i)|
          invariant pool.used == old(pool.used) - Total(Below(contents, |slots|, i), Length)
        {
          BelowTotals(slots, contents, i);
          var slot := buffer.slots[i];
          if slot.Held? {
            pool.Release(|slot.item.pkt|);
            n := n + 1;
            buffer.slots[i] := Vacant;
          }
        }
      }
      buffer.Free();
    }

    method DiscardBufferForReset(pool: Pool)
      requires Valid() && Charged(pool)
      modifies this`stats, this`dropped, this`armed, buffer, buffer.slots, pool
      ensures View() == Discard(old(View()))
      ensures Ready() && buffer.bytes == 0 && pool.used == old(Others(pool)) && buffer.slots == null
      ensures buffer.contents == map[]
    {
      hide SlotRing.Valid, HeldTags, CountDiscard;
      CountDiscardSize(stats, |buffer.contents|, armed);
      dropped := dropped + multiset(HeldTags(buffer.contents, epoch));
      var n := DropBuffered(pool);
      stats := CountDiscard(stats, n, armed);
      armed := false;
    }

    method ResetFlow(pool: Pool)
      requires Valid() && Charged(pool)
      modifies this, buffer, buffer.slots, pool
      ensures Ready() && buffer.bytes == 0 && pool.used == old(Others(pool)) && buffer.slots == null
      ensures buffer.contents == map[]
      ensures View() == Reset(old(View()))
    {
      hide SlotRing.Valid, HeldTags, Discard;
      DiscardBufferForReset(pool);
      passThrough := false;
      classifySeen := 0;
      classifyLarge := 0;
    }

    /** The buffer has been judged useless: deliver what is left, a run at a time. */
    method DeliverRemaining(pool: Pool, now: nat)
      requires Valid() && Charged(pool)
      modifies this`stats, this`log, this`expected, buffer, buffer.slots, pool
      ensures Valid() && Charged(pool) && Others(pool) == old(Others(pool)) && buffer.slots == old(buffer.slots)
      ensures View() == FlushAscending(old(View()), now)
    {
      hide SlotRing.Valid, FlushAscending, Drain, Lowest;
      var empty := buffer.IsEmpty();
      while !empty
        invariant Valid() && Charged(pool) && Others(pool) == old(Others(pool)) && buffer.slots == old(buffer.slots)
        invariant empty <==> buffer.contents == map[]
        invariant FlushAscending(View(), now) == FlushAscending(old(View()), now)
        decreases |buffer.contents|
      {
        ghost var f := View();
        AdvanceToLowest();
        FlushDrain(f, now);
        DrainShrinks(View(), now);
        DrainContiguous(pool, now);
        empty := buffer.IsEmpty();
      }
      FlushEmpty(View(), now);
    }

    method CountDemoteEnd()
      modifies this`stats
      ensures View() == if old(armed) then old(View()).(stats := old(View()).stats.(demoteEnded := old(View()).stats.demoteEnded + 1))
                        else old(View())
      ensures stats.residence == old(stats).residence
    {
      if armed {
        stats := stats.(demoteEnded := stats.demoteEnded + 1);
      }
    }

    /** Free the empty ring. */
    method FreeRing(pool: Pool)
      requires Valid() && Charged(pool) && buffer.contents == map[]
      modifies buffer
      ensures Ready() && Charged(pool) && Others(pool) == old(Others(pool)) && buffer.slots == null
      ensures View() == old(View())
    {
      hide SlotRing.Valid;
      buffer.EmptyRing();
      buffer.Free();
    }

    /** Deliver everything buffered in ascending order, then free the ring. */
    method FlushBufferForDemote(pool: Pool, now: nat)
      requires Valid() && Charged(pool)
      modifies this, buffer, buffer.slots, pool
      ensures Ready() && Charged(pool) && Others(pool) == old(Others(pool)) && buffer.slots == null
      ensures View() == DemoteFlush(old(View()), now)
    {
      hide SlotRing.Valid, SlotRing.Covers, FlushAscending, View;
      ViewBuffer();
      CountDemoteEnd();
      FlushAscendingEmpties(View(), now);
      DeliverRemaining(pool, now);
      ViewBuffer();
      MarkProgress(now);
      StopTimer();
      FreeRing(pool);
    }


    method ClassifyUpdate(cfg: Config, pkt: Packet) returns (verdict: Verdict)
      modifies this`classifySeen, this`classifyLarge
      ensures (View(), verdict) == Classify(cfg, old(View()), pkt)
    {
      if cfg.forceNoDemotion {
        return Unchanged;
      }
      if classifySeen >= cfg.classifyWindow {
        return Unchanged;
      }
      classifySeen := classifySeen + 1;
      if InnerUdpPayloadLen(pkt) >= cfg.smallThreshold {
        classifyLarge := classifyLarge + 1;
      }
      if classifySeen == cfg.classifyWindow {
        if classifyLarge <= cfg.maxLarge {
          return Demote;
        }
      }
      return Unchanged;
    }

    /** Drop the current packet; `counted` is the statistics with the reason counted. */
    method Drop(s: nat, pkt: Packet, counted: Stats)
      requires |counted.residence| == LAT_BUCKETS
      modifies this`stats, this`dropped
      ensures View() == DropCurrent(old(View()), s, pkt, counted)
    {
      dropped := dropped + multiset{Tag(epoch, s, pkt)};
      stats := counted;
    }

    method DropForPool(s: nat, pkt: Packet)
      requires |stats.residence| == LAT_BUCKETS
      modifies this`stats, this`dropped
      ensures View() == DropPool(old(View()), s, pkt) && stats.residence == old(stats).residence
    {
      Drop(s, pkt, stats.(poolDrop := stats.poolDrop + 1));
    }

    method InsertCommitted(pool: Pool, s: nat, pkt: Packet, now: nat)
      requires Ready() && Charged(pool)
      requires expected < s < expected + buffer.cap && s !in buffer.contents
      modifies this, buffer, buffer.slots, pool
      ensures Ready() && Charged(pool) && Others(pool) == old(Others(pool))
      ensures buffer.slots == old(buffer.slots) || fresh(buffer.slots)
      ensures View() == Store(old(View()), s, pkt, now)
    {
      hide SlotRing.Valid, Arm;
      var wasEmpty := buffer.IsEmpty();
      buffer.Insert(s, pkt, expected, now);
      pool.used := pool.used + |pkt|;
      lastProgress := now;
      if wasEmpty {
        OpenPeriod(now);
      }
    }

    /** Deliver the current packet, which carries the expected number, and step past it. */
    method DeliverAndStep(s: nat, pkt: Packet, now: nat)
      requires Ready() && s == expected
      modifies this`stats, this`log, this`expected, this`lastProgress
      ensures Valid() && View() == DeliverCurrent(old(View()), s, pkt, now)
    {
      hide SlotRing.Valid, Record;
      DeliverPacket(s, pkt, now, now);
      expected := expected + 1;
      lastProgress := now;
    }

    method DeliverInSequence(pool: Pool, s: nat, pkt: Packet, now: nat)
      requires Ready() && Charged(pool) && s == expected
      modifies this, buffer, buffer.slots, pool
      ensures Ready() && Charged(pool) && Others(pool) == old(Others(pool))
      ensures buffer.slots == old(buffer.slots)
      ensures View() == DeliverInOrder(old(View()), s, pkt, now)
    {
      hide SlotRing.Valid, Drain, DeliverCurrent, CloseIfFilled;
      DeliverAndStep(s, pkt, now);
      DrainContiguous(pool, now);
      CloseFilledPeriod();
    }

    method CloseFilledPeriod()
      requires buffer.Valid()
      modifies this`armed, this`stats
      ensures View() == CloseIfFilled(old(View())) && stats.residence == old(stats).residence
    {
      hide SlotRing.Valid;
      var empty := buffer.IsEmpty();
      if empty && armed {
        armed := false;
        stats := stats.(filled := stats.filled + 1);
      }
    }

    method ReclassifyAfterFlush(pool: Pool, s: nat, pkt: Packet, now: nat) returns (out: Outcome)
      requires Ready() && Charged(pool)
      modifies this, buffer, buffer.slots, pool
      ensures Ready() && Charged(pool) && Others(pool) == old(Others(pool))
      ensures buffer.slots == old(buffer.slots)
      ensures (View(), out) == Reclassify(old(View()), s, pkt, now)
      ensures out == Buffered ==> expected < s < expected + buffer.cap && s !in buffer.contents
    {
      hide SlotRing.Valid, DeliverInOrder;
      if s < expected {
        Drop(s, pkt, stats.(late := stats.late + 1));
        return DroppedLate;
      }
      if s == expected {
        DeliverInSequence(pool, s, pkt, now);
        return Delivered;
      }
      if s - expected >= buffer.cap {
        Drop(s, pkt, stats.(farAhead := stats.farAhead + 1));
        return DroppedFarAhead;
      }
      var duplicate := buffer.Contains(s);
      if duplicate {
        Drop(s, pkt, stats.(duplicate := stats.duplicate + 1));
        return DroppedLimit;
      }
      return Buffered;
    }

    method FlushAndReclassify(pool: Pool, s: nat, pkt: Packet, now: nat) returns (out: Outcome)
      requires Ready() && Charged(pool) && buffer.contents != map[]
      modifies this, buffer, buffer.slots, pool
      ensures Ready() && Charged(pool) && Others(pool) == old(Others(pool))
      ensures buffer.slots == old(buffer.slots)
      ensures (View(), out) == Reclassify(OverflowFlush(old(View()), now), s, pkt, now)
      ensures out == Buffered ==> expected < s < expected + buffer.cap && s !in buffer.contents
    {
      hide SlotRing.Valid, OverflowFlush, Reclassify;
      FlushOverflow(pool, now);
      out := ReclassifyAfterFlush(pool, s, pkt, now);
    }

    method WouldExhaust(pool: Pool, cfg: Config, len: nat) returns (r: bool)
      requires buffer.Valid() && Charged(pool)
      ensures r <==> ExceedsPool(cfg, View(), Others(pool), len)
    {
      r := pool.used + len > cfg.maxPoolBytes;
    }

    /** The second half of admission: the packet is ahead, in the window, not buffered and within the flow's limits. */
    method AdmitWithinPool(pool: Pool, cfg: Config, s: nat, pkt: Packet, now: nat) returns (out: Outcome)
      requires Ready() && Charged(pool)
      requires expected < s < expected + buffer.cap && s !in buffer.contents
      modifies this, buffer, buffer.slots, pool
      ensures Ready() && Charged(pool) && Others(pool) == old(Others(pool))
      ensures buffer.slots == old(buffer.slots) || fresh(buffer.slots)
      ensures (View(), out) == AdmitToPool(cfg, old(View()), old(Others(pool)), s, pkt, now)
    {
      hide SlotRing.Valid, SlotRing.Covers, OverflowFlush, Reclassify, Store, DropPool, ExceedsPool, View;
      ViewBuffer();
      var exhausted := WouldExhaust(pool, cfg, |pkt|);
      var empty := buffer.IsEmpty();
      if exhausted && empty {
        DropForPool(s, pkt);
        return DroppedLimit;
      }
      if exhausted {
        out := FlushAndReclassify(pool, s, pkt, now);
        if out != Buffered {
          return;
        }
        exhausted := WouldExhaust(pool, cfg, |pkt|);
        if exhausted {
          DropForPool(s, pkt);
          return DroppedLimit;
        }
      }
      InsertCommitted(pool, s, pkt, now);
      return Buffered;
    }

    method WouldExceedFlowLimits(cfg: Config, len: nat) returns (r: bool)
      requires buffer.Valid()
      ensures r <==> ExceedsFlowLimits(cfg, View(), len)
    {
      if buffer.count >= buffer.cap {
        return true;
      }
      r := buffer.bytes + len > cfg.maxFlowBytes;
    }

    /** The current packet is ahead and inside the window. */
    method AdmitAhead(pool: Pool, cfg: Config, s: nat, pkt: Packet, now: nat) returns (out: Outcome)
      requires Ready() && Charged(pool)
      requires expected < s < expected + buffer.cap
      modifies this, buffer, buffer.slots, pool
      ensures Ready() && Charged(pool) && Others(pool) == old(Others(pool))
      ensures buffer.slots == old(buffer.slots) || fresh(buffer.slots)
      ensures (View(), out) == BufferAdmit(cfg, old(View()), old(Others(pool)), s, pkt, now)
    {
      hide SlotRing.Valid, OverflowFlush, Reclassify, AdmitToPool, ExceedsFlowLimits;
      var duplicate := buffer.Contains(s);
      if duplicate {
        Drop(s, pkt, stats.(duplicate := stats.duplicate + 1));
        return DroppedLimit;
      }
      var exceeds := WouldExceedFlowLimits(cfg, |pkt|);
      if exceeds {
        var empty := buffer.IsEmpty();
        if empty {
          Drop(s, pkt, stats.(flowLimit := stats.flowLimit + 1));
          return DroppedLimit;
        }
        out := FlushAndReclassify(pool, s, pkt, now);
        if out != Buffered {
          return;
        }
      }
      out := AdmitWithinPool(pool, cfg, s, pkt, now);
    }

    method ProcessPacket(pool: Pool, cfg: Config, s: nat, pkt: Packet, now: nat) returns (out: Outcome)
      requires Ready() && Charged(pool)
      requires !initialized ==> buffer.contents == map[]
      modifies this, buffer, buffer.slots, pool
      ensures Ready() && Charged(pool) && Others(pool) == old(Others(pool))
      ensures buffer.slots == old(buffer.slots) || fresh(buffer.slots)
      ensures (View(), out) == Process(cfg, old(View()), old(Others(pool)), s, pkt, now)
    {
      hide SlotRing.Valid, BufferAdmit, DeliverInOrder, DeliverCurrent;
      if !initialized {
        StartAt(s, pkt, now);
        return Delivered;
      }
      if s == expected {
        DeliverInSequence(pool, s, pkt, now);
        return Delivered;
      }
      if s < expected {
        Drop(s, pkt, stats.(late := stats.late + 1));
        return DroppedLate;
      }
      if s - expected >= buffer.cap {
        Drop(s, pkt, stats.(farAhead := stats.farAhead + 1));
        return DroppedFarAhead;
      }
      out := AdmitAhead(pool, cfg, s, pkt, now);
    }

    /** Begin a sequence space at the current packet. */
    method StartAt(s: nat, pkt: Packet, now: nat)
      requires buffer.Valid() && buffer.contents == map[] && |stats.residence| == LAT_BUCKETS
      modifies this`initialized, this`expected, this`stats, this`log, this`lastProgress
      ensures Ready() && View() == DeliverCurrent(old(View()).(initialized := true), s, pkt, now)
    {
      hide SlotRing.Valid, Record;
      initialized := true;
      expected := s;
      DeliverAndStep(s, pkt, now);
    }

    method ObserveAndDemote(pool: Pool, cfg: Config, out: Outcome, pkt: Packet, now: nat)
      requires Ready() && Charged(pool)
      modifies this, buffer, buffer.slots, pool
      ensures Ready() && Charged(pool) && Others(pool) == old(Others(pool))
      ensures buffer.slots == old(buffer.slots) || buffer.slots == null
      ensures View() == ObserveTraffic(cfg, old(View()), out, pkt, now)
    {
      hide SlotRing.Valid, SlotRing.Covers, DemoteFlush, Classify, View;
      ViewBuffer();
      if out == Delivered || out == Buffered || out == DroppedLate {
        ClassifyKeepsStats(cfg, View(), pkt);
        var verdict := ClassifyUpdate(cfg, pkt);
        if verdict == Demote {
          DemoteNow(pool, now);
        }
      }
    }

    method DemoteNow(pool: Pool, now: nat)
      requires Ready() && Charged(pool)
      modifies this, buffer, buffer.slots, pool
      ensures Ready() && Charged(pool) && Others(pool) == old(Others(pool)) && buffer.slots == null
      ensures var h := DemoteFlush(old(View()), now);
        View() == h.(passThrough := true, stats := h.stats.(demotions := h.stats.demotions + 1))
    {
      hide SlotRing.Valid, DemoteFlush;
      FlushBufferForDemote(pool, now);
      passThrough := true;
      stats := stats.(demotions := stats.demotions + 1);
    }

    /** Mode B: a demoted flow delivers at once, whatever the number. */
    method PassPacket(s: nat, pkt: Packet, now: nat)
      requires Ready()
      modifies this`stats, this`log, this`lastProgress, this`entered
      ensures Ready() && View() == Emit(Enter(old(View()), s, pkt), now, s, pkt, now).(lastProgress := now)
    {
      hide SlotRing.Valid, Record;
      entered := entered + multiset{Tag(epoch, s, pkt)};
      DeliverPacket(s, pkt, now, now);
      lastProgress := now;
    }

    /** Ordering, then classification. */
    method ReorderPacket(pool: Pool, cfg: Config, s: nat, pkt: Packet, now: nat)
      requires Ready() && Charged(pool)
      requires !initialized ==> buffer.contents == map[]
      modifies this, buffer, buffer.slots, pool
      ensures Ready() && Charged(pool) && Others(pool) == old(Others(pool))
      ensures buffer.slots == old(buffer.slots) || buffer.slots == null || fresh(buffer.slots)
      ensures var (h, out) := Process(cfg, Enter(old(View()), s, pkt), old(Others(pool)), s, pkt, now);
        View() == ObserveTraffic(cfg, h, out, pkt, now)
    {
      hide SlotRing.Valid, Process, ObserveTraffic;
      entered := entered + multiset{Tag(epoch, s, pkt)};
      assert View() == Enter(old(View()), s, pkt);
      var out := ProcessPacket(pool, cfg, s, pkt, now);
      ObserveAndDemote(pool, cfg, out, pkt, now);
    }

    method OnReorderedPacket(pool: Pool, cfg: Config, s: nat, flags: Byte, pkt: Packet, now: nat)
      requires Ready() && Charged(pool)
      requires !initialized ==> buffer.contents == map[]
      modifies this, buffer, buffer.slots, pool
      ensures Ready() && Charged(pool) && Others(pool) == old(Others(pool))
      ensures buffer.slots == old(buffer.slots) || buffer.slots == null || fresh(buffer.slots)
      ensures View() == OnReordered(cfg, old(View()), old(Others(pool)), s, HasReset(flags), pkt, now)
    {
      hide SlotRing.Valid, Process, ObserveTraffic, StartEpoch, Enter, Emit, HasReset;
      lastSeen := now;
      assert View() == old(View()).(lastSeen := now);
      var idle := now > lastProgress && now - lastProgress > cfg.resetGraceMs * 1000;
      if HasReset(flags) && (!initialized || idle) {
        BeginEpoch(pool, s, pkt, now);
      } else if passThrough {
        EnterKeepsPassThrough(View(), s, pkt);
        PassPacket(s, pkt, now);
      } else {
        EnterKeepsPassThrough(View(), s, pkt);
        ReorderPacket(pool, cfg, s, pkt, now);
      }
    }

    /** Honour FLOW_RESET: a new sequence space that starts at the current packet. */
    method BeginEpoch(pool: Pool, s: nat, pkt: Packet, now: nat)
      requires Ready() && Charged(pool)
      modifies this, buffer, buffer.slots, pool
      ensures Ready() && Charged(pool) && Others(pool) == old(Others(pool)) && buffer.slots == null
      ensures View() == StartEpoch(old(View()), s, pkt, now)
    {
      hide SlotRing.Valid, Reset, DeliverCurrent;
      ResetKeepsEpoch(View());
      ResetFlow(pool);
      epoch := epoch + 1;
      entered := entered + multiset{Tag(epoch, s, pkt)};
      assert View() == Enter(Reset(old(View())).(epoch := old(epoch) + 1), s, pkt);
      StartAt(s, pkt, now);
    }
  }

  lemma DrainUnfold(f: Flow, now: nat)
    requires |f.stats.residence| == LAT_BUCKETS
    ensures Drain(f, now) == if f.expected in f.buf then Drain(TakeNext(f, now), now) else f
  {
  }

  lemma DrainShrinks(f: Flow, now: nat)
    requires |f.stats.residence| == LAT_BUCKETS
    ensures |Drain(f, now).buf| <= |f.buf|
    ensures f.expected in f.buf ==> |Drain(f, now).buf| < |f.buf|
    decreases |f.buf|
  {
    if f.expected in f.buf {
      DrainShrinks(TakeNext(f, now), now);
    }
  }

  lemma FlushEmpty(f: Flow, now: nat)
    requires |f.stats.residence| == LAT_BUCKETS && f.buf == map[]
    ensures FlushAscending(f, now) == f
  {
  }

  /** Draining a whole run at a time delivers the same as taking the lowest packet one by one. */
  lemma FlushDrain(f: Flow, now: nat)
    requires |f.stats.residence| == LAT_BUCKETS && f.buf != map[]
    ensures FlushAscending(Drain(f.(expected := Lowest(f.buf)), now), now) == FlushAscending(f, now)
  {
    FlushAfterDrain(f.(expected := Lowest(f.buf)), now);
  }

  lemma {:induction false} FlushAfterDrain(f: Flow, now: nat)
    requires |f.stats.residence| == LAT_BUCKETS
    requires forall s :: s in f.buf ==> f.expected <= s
    ensures FlushAscending(Drain(f, now), now) == FlushAscending(f, now)
    decreases |f.buf|
  {
    if f.expected in f.buf {
      LowestUnique(f.buf, f.expected);
      assert f.(expected := Lowest(f.buf)) == f;
      FlushAfterDrain(TakeNext(f, now), now);
    }
  }

  lemma CountDiscardSize(st: Stats, n: nat, wasArmed: bool)
    ensures CountDiscard(st, n, wasArmed).residence == st.residence
  {
  }

  lemma ClassifyKeepsStats(cfg: Config, f: Flow, pkt: Packet)
    ensures Classify(cfg, f, pkt).0.stats == f.stats
  {
  }

  lemma EnterKeepsPassThrough(f: Flow, s: nat, pkt: Packet)
    ensures Enter(f, s, pkt).passThrough == f.passThrough && Enter(f, s, pkt).stats == f.stats
  {
  }

  lemma ResetKeepsEpoch(f: Flow)
    ensures Reset(f).epoch == f.epoch
  {
  }
}
