/** The modes of a flow: when an epoch starts, when reordering is given up, and what counts as progress. */
module FlowModes {
  import opened Bits
  import opened Totals
  import opened Ring
  import opened ReorderConfig
  import opened ReorderModel
  import opened FlowInvariants

  // ----- what one datagram leaves alone, and what it counts -----

  /** Packets turned away for being far ahead, repeated, or over a limit. */
  function Refusals(st: Stats): nat {
    st.farAhead + st.duplicate + st.flowLimit + st.poolDrop
  }

  function Grown(f: Flow, g: Flow): bool {
    |g.log| > |f.log|
  }

  /** Mode, settings and the counters that only resets, timeouts and demotions touch. */
  ghost predicate SameMode(f: Flow, g: Flow) {
    && g.passThrough == f.passThrough && g.classifySeen == f.classifySeen && g.classifyLarge == f.classifyLarge
    && g.epoch == f.epoch
    && g.stats.demotions == f.stats.demotions && g.stats.timedOut == f.stats.timedOut
    && g.stats.demoteEnded == f.stats.demoteEnded && g.stats.resetEnded == f.stats.resetEnded
    && g.stats.resetDiscard == f.stats.resetDiscard
  }

  /** Packets are handed out, or periods ended, and nothing is refused. */
  ghost predicate Hands(f: Flow, g: Flow) {
    && SameMode(f, g) && |f.log| <= |g.log| && g.buf.Keys <= f.buf.Keys
    && Refusals(g.stats) == Refusals(f.stats) && g.stats.late == f.stats.late && g.stats.poolDrop == f.stats.poolDrop
    && g.stats.overflowed >= f.stats.overflowed
  }

  lemma EmitHands(f: Flow, now: nat, s: nat, pkt: Packet, enqueued: nat)
    requires |f.stats.residence| == LAT_BUCKETS
    ensures var g := Emit(f, now, s, pkt, enqueued);
      Hands(f, g) && g.lastProgress == f.lastProgress && |g.stats.residence| == LAT_BUCKETS && |g.log| == |f.log| + 1
      && g.buf == f.buf && g.expected == f.expected && g.stats.filled == f.stats.filled
      && g.stats.overflowed == f.stats.overflowed
  {
  }

  lemma {:induction false} DrainHands(f: Flow, now: nat)
    requires |f.stats.residence| == LAT_BUCKETS
    ensures var g := Drain(f, now);
      Hands(f, g) && g.lastProgress == f.lastProgress && (Grown(f, g) <==> f.expected in f.buf) && g.expected >= f.expected
      && g.expected !in g.buf && g.stats.filled == f.stats.filled && g.stats.overflowed == f.stats.overflowed
    decreases |f.buf|
  {
    hide Emit;
    if f.expected in f.buf {
      var item := f.buf[f.expected];
      EmitHands(f, now, f.expected, item.pkt, item.enqueued);
      DrainHands(TakeNext(f, now), now);
    }
  }

  lemma FlushHands(f: Flow, now: nat)
    requires |f.stats.residence| == LAT_BUCKETS && f.buf != map[]
    ensures var g := OverflowFlush(f, now);
      Hands(f, g) && Grown(f, g) && g.lastProgress == now && g.expected !in g.buf && g.stats.filled == f.stats.filled
  {
    hide Drain, Lowest;
    DrainHands(f.(expected := Lowest(f.buf)), now);
  }

  lemma InOrderHands(f: Flow, s: nat, pkt: Packet, now: nat)
    requires |f.stats.residence| == LAT_BUCKETS
    ensures var g := DeliverInOrder(f, s, pkt, now);
      Hands(f, g) && Grown(f, g) && g.lastProgress == now && g.expected > s && g.stats.overflowed == f.stats.overflowed
      && (g.stats.filled > f.stats.filled ==> g.buf == map[])
  {
    hide Drain, Emit;
    EmitHands(f, now, s, pkt, now);
    DrainHands(DeliverCurrent(f, s, pkt, now), now);
  }

  predicate Refused(out: Outcome) {
    out == DroppedFarAhead || out == DroppedLimit
  }

  /** What handling a packet amounts to. */
  ghost predicate Handles(cfg: Config, f: Flow, g: Flow, others: nat, s: nat, len: nat, out: Outcome, now: nat) {
    && SameMode(f, g)
    && Refusals(g.stats) == Refusals(f.stats) + (if Refused(out) then 1 else 0)
    && g.stats.late == f.stats.late + (if out == DroppedLate then 1 else 0)
    && (out == Delivered ==> Grown(f, g) && s < g.expected)
    && (out == DroppedLate ==> s < g.expected)
    && (g.stats.filled > f.stats.filled ==> out == Delivered && g.buf == map[])
    && (g.stats.overflowed > f.stats.overflowed ==> f.buf != map[] && Grown(f, g))
    && (if out == Buffered then s !in f.buf && s in g.buf && g.buf[s].enqueued == now else g.buf.Keys <= f.buf.Keys)
    && g.lastProgress == (if Grown(f, g) || out == Buffered then now else f.lastProgress)
    && (g.stats.poolDrop == f.stats.poolDrop ||
        (g.stats.poolDrop == f.stats.poolDrop + 1 && out == DroppedLimit
         && s > g.expected && s !in g.buf && others + BufferedBytes(g) + len > cfg.maxPoolBytes))
  }

  lemma HandsThenHandles(cfg: Config, f: Flow, g: Flow, h: Flow, others: nat, s: nat, len: nat, out: Outcome, now: nat)
    requires Hands(f, g) && Grown(f, g) && g.lastProgress == now && Handles(cfg, g, h, others, s, len, out, now)
    requires |g.log| <= |h.log| && s !in f.buf && g.stats.filled == f.stats.filled && f.buf != map[]
    ensures Handles(cfg, f, h, others, s, len, out, now)
  {
    hide BufferedBytes;
  }

  lemma ReclassifyHandles(cfg: Config, f: Flow, others: nat, s: nat, pkt: Packet, now: nat)
    requires |f.stats.residence| == LAT_BUCKETS
    ensures var (g, out) := Reclassify(f, s, pkt, now);
      && |f.log| <= |g.log|
      && if out == Buffered then g == f && s > f.expected && s !in f.buf else Handles(cfg, f, g, others, s, |pkt|, out, now)
  {
    hide DeliverInOrder, BufferedBytes;
    InOrderHands(f, s, pkt, now);
  }

  lemma StoreHandles(cfg: Config, f: Flow, others: nat, s: nat, pkt: Packet, now: nat)
    requires s !in f.buf
    ensures Handles(cfg, f, Store(f, s, pkt, now), others, s, |pkt|, Buffered, now)
  {
    hide BufferedBytes;
  }

  lemma PoolHandles(cfg: Config, f: Flow, others: nat, s: nat, pkt: Packet, now: nat)
    requires s > f.expected && s !in f.buf && ExceedsPool(cfg, f, others, |pkt|)
    ensures Handles(cfg, f, DropPool(f, s, pkt), others, s, |pkt|, DroppedLimit, now)
  {
    hide Total;
  }

  /** A packet that passed the flow's limits, or finds the buffer too full for them no more. */
  lemma AdmitHandles(cfg: Config, f: Flow, others: nat, s: nat, pkt: Packet, now: nat)
    requires |f.stats.residence| == LAT_BUCKETS && s > f.expected && s !in f.buf
    ensures var (g, out) := AdmitToPool(cfg, f, others, s, pkt, now);
      |f.log| <= |g.log| && Handles(cfg, f, g, others, s, |pkt|, out, now)
  {
    hide OverflowFlush, Reclassify, ExceedsPool, Handles, Hands, Grown, Store, DropPool;
    StoreHandles(cfg, f, others, s, pkt, now);
    StoreGrows(f, s, pkt, now);
    if ExceedsPool(cfg, f, others, |pkt|) {
      if f.buf == map[] {
        PoolHandles(cfg, f, others, s, pkt, now);
      } else {
        var g := OverflowFlush(f, now);
        FlushHands(f, now);
        ReclassifyHandles(cfg, g, others, s, pkt, now);
        StoreGrows(g, s, pkt, now);
        var (h, out) := AdmitToPool(cfg, f, others, s, pkt, now);
        if Reclassify(g, s, pkt, now).1 == Buffered {
          StoreHandles(cfg, g, others, s, pkt, now);
          if ExceedsPool(cfg, g, others, |pkt|) {
            PoolHandles(cfg, g, others, s, pkt, now);
          }
        }
        HandsThenHandles(cfg, f, g, h, others, s, |pkt|, out, now);
        HandsGrow(f, g);
      }
    }
  }

  lemma StoreGrows(f: Flow, s: nat, pkt: Packet, now: nat)
    ensures |Store(f, s, pkt, now).log| == |f.log| && |DropPool(f, s, pkt).log| == |f.log|
  {
  }

  lemma BufferHandles(cfg: Config, f: Flow, others: nat, s: nat, pkt: Packet, now: nat)
    requires |f.stats.residence| == LAT_BUCKETS && s > f.expected
    ensures var (g, out) := BufferAdmit(cfg, f, others, s, pkt, now);
      |f.log| <= |g.log| && Handles(cfg, f, g, others, s, |pkt|, out, now)
  {
    hide OverflowFlush, Reclassify, AdmitToPool, ExceedsFlowLimits, BufferedBytes, Handles, Hands, Grown;
    if s in f.buf {
      RefusalHandles(cfg, f, others, s, pkt, now);
    } else if !ExceedsFlowLimits(cfg, f, |pkt|) {
      AdmitHandles(cfg, f, others, s, pkt, now);
    } else if f.buf == map[] {
      RefusalHandles(cfg, f, others, s, pkt, now);
    } else {
      var g := OverflowFlush(f, now);
      FlushHands(f, now);
      ReclassifyHandles(cfg, g, others, s, pkt, now);
      var (k, first) := Reclassify(g, s, pkt, now);
      if first == Buffered {
        AdmitHandles(cfg, k, others, s, pkt, now);
      }
      var (h, out) := BufferAdmit(cfg, f, others, s, pkt, now);
      HandsThenHandles(cfg, f, g, h, others, s, |pkt|, out, now);
      HandsGrow(f, g);
    }
  }

  lemma HandsGrow(f: Flow, g: Flow)
    requires Hands(f, g)
    ensures |f.log| <= |g.log|
  {
  }

  lemma RefusalHandles(cfg: Config, f: Flow, others: nat, s: nat, pkt: Packet, now: nat)
    ensures Handles(cfg, f, DropDuplicate(f, s, pkt), others, s, |pkt|, DroppedLimit, now)
    ensures Handles(cfg, f, DropFlowLimit(f, s, pkt), others, s, |pkt|, DroppedLimit, now)
    ensures Handles(cfg, f, DropFarAhead(f, s, pkt), others, s, |pkt|, DroppedFarAhead, now)
    ensures s < f.expected ==> Handles(cfg, f, DropLate(f, s, pkt), others, s, |pkt|, DroppedLate, now)
  {
    hide BufferedBytes;
  }

  lemma ProcessHandles(cfg: Config, f: Flow, others: nat, s: nat, pkt: Packet, now: nat)
    requires |f.stats.residence| == LAT_BUCKETS
    ensures var (g, out) := Process(cfg, f, others, s, pkt, now);
      |f.log| <= |g.log| && Handles(cfg, f, g, others, s, |pkt|, out, now)
  {
    hide BufferAdmit, DeliverInOrder, BufferedBytes, Emit;
    if !f.initialized {
      EmitHands(f.(initialized := true), now, s, pkt, now);
    } else if s == f.expected {
      InOrderHands(f, s, pkt, now);
    } else if s < f.expected || s - f.expected >= f.cap {
      RefusalHandles(cfg, f, others, s, pkt, now);
    } else {
      BufferHandles(cfg, f, others, s, pkt, now);
    }
  }

  // ----- FLOW_RESET -----

  lemma ResetBit(flags: Byte)
    ensures HasReset(flags) <==> flags % 2 == 1
  {
    assert And(flags / 2, 0) == 0;
  }

  /** A reset mark starts an epoch: on a new flow, or after more than the grace period without progress. */
  predicate StartsEpoch(cfg: Config, f: Flow, reset: bool, now: nat) {
    reset && (!f.initialized || now > f.lastProgress + cfg.resetGraceMs * 1000)
  }

  /** The packet that starts an epoch is delivered at once, whatever its number and whatever the flow held, expected or had
      become: the old buffer is dropped and counted, and ordering and classification begin anew behind it. */
  lemma ResetStartsEpoch(cfg: Config, f: Flow, others: nat, s: nat, reset: bool, pkt: Packet, now: nat)
    requires FlowInv(f) && StartsEpoch(cfg, f, reset, now)
    ensures |f.stats.residence| == LAT_BUCKETS
    ensures Restarted(f, OnReordered(cfg, f, others, s, reset, pkt, now), s, pkt, now)
  {
    hide FlowInv, StartEpoch, Restarted;
    InvSize(f);
    StartEpochRestarts(f, s, pkt, now);
  }

  ghost predicate Restarted(f: Flow, r: Flow, s: nat, pkt: Packet, now: nat) {
    && r.log == f.log + [Delivery(Tag(f.epoch + 1, s, pkt), true)] && r.epoch == f.epoch + 1
    && r.initialized && r.expected == s + 1 && r.lastProgress == now
    && r.buf == map[] && !r.armed
    && !r.passThrough && r.classifySeen == 0 && r.classifyLarge == 0
    && r.stats.resetDiscard == f.stats.resetDiscard + |f.buf|
    && r.stats.resetEnded == f.stats.resetEnded + (if f.armed then 1 else 0)
    && r.stats.demotions == f.stats.demotions && r.stats.timedOut == f.stats.timedOut
    && r.stats.gaps == f.stats.gaps && r.stats.filled == f.stats.filled && r.stats.overflowed == f.stats.overflowed
    && r.stats.demoteEnded == f.stats.demoteEnded && r.cap == f.cap && r.waitMs == f.waitMs
    && Refusals(r.stats) == Refusals(f.stats) && r.stats.late == f.stats.late
  }

  lemma StartEpochRestarts(f: Flow, s: nat, pkt: Packet, now: nat)
    requires |f.stats.residence| == LAT_BUCKETS
    ensures Restarted(f, StartEpoch(f.(lastSeen := now), s, pkt, now), s, pkt, now)
  {
    hide HeldTags, BucketFrom, Emit;
    var g := Enter(Reset(f.(lastSeen := now)).(epoch := f.epoch + 1), s, pkt).(initialized := true);
    EmitRecords(g, now, s, pkt, now);
  }

  lemma EmitRecords(f: Flow, now: nat, s: nat, pkt: Packet, enqueued: nat)
    requires |f.stats.residence| == LAT_BUCKETS
    ensures var g := Emit(f, now, s, pkt, enqueued);
      g == f.(log := f.log + [Delivery(Tag(f.epoch, s, pkt), !f.passThrough)],
              stats := f.stats.(delivered := g.stats.delivered, residence := g.stats.residence,
                                maxResidence := g.stats.maxResidence))
  {
  }

  /** Any other reset mark means nothing: within the grace period, or while the clock is behind the last progress, the
      datagram is treated as if it had none, and the epoch stays. */
  lemma ResetIgnored(cfg: Config, f: Flow, others: nat, s: nat, reset: bool, pkt: Packet, now: nat)
    requires FlowInv(f) && !StartsEpoch(cfg, f, reset, now)
    ensures |f.stats.residence| == LAT_BUCKETS
    ensures var r := OnReordered(cfg, f, others, s, reset, pkt, now);
      r == OnReordered(cfg, f, others, s, false, pkt, now) && r.epoch == f.epoch
  {
    hide FlowInv, Process, ObserveTraffic;
    InvSize(f);
    OnReorderedKeeps(cfg, f, others, s, reset, pkt, now);
  }

  // ----- demotion -----

  lemma {:induction false} AscendingHands(f: Flow, now: nat)
    requires |f.stats.residence| == LAT_BUCKETS
    ensures var g := FlushAscending(f, now);
      Hands(f, g) && g.stats.filled == f.stats.filled && g.stats.overflowed == f.stats.overflowed
    decreases |f.buf|
  {
    hide Emit;
    if f.buf != map[] {
      var s := Lowest(f.buf);
      EmitHands(f.(expected := s), now, s, f.buf[s].pkt, f.buf[s].enqueued);
      AscendingHands(TakeNext(f.(expected := s), now), now);
    }
  }

  /** The packet closes the classification window, and at most the allowed number of packets in it were large. */
  predicate Judged(cfg: Config, f: Flow, pkt: Packet) {
    && !cfg.forceNoDemotion && f.classifySeen + 1 == cfg.classifyWindow
    && f.classifyLarge + (if InnerUdpPayloadLen(pkt) >= cfg.smallThreshold then 1 else 0) <= cfg.maxLarge
  }

  /** What the classifier is left with after being shown the packet. */
  ghost predicate Looks(cfg: Config, f: Flow, g: Flow, pkt: Packet) {
    if cfg.forceNoDemotion || f.classifySeen >= cfg.classifyWindow
    then g.classifySeen == f.classifySeen && g.classifyLarge == f.classifyLarge
    else g.classifySeen == f.classifySeen + 1
         && g.classifyLarge == f.classifyLarge + (if InnerUdpPayloadLen(pkt) >= cfg.smallThreshold then 1 else 0)
  }

  lemma ClassifyShows(cfg: Config, f: Flow, pkt: Packet)
    ensures var (g, verdict) := Classify(cfg, f, pkt);
      && g == f.(classifySeen := g.classifySeen, classifyLarge := g.classifyLarge) && Looks(cfg, f, g, pkt)
      && (verdict == Demote <==> Judged(cfg, f, pkt))
  {
    hide InnerUdpPayloadLen;
  }

  lemma DemoteFlushModes(f: Flow, now: nat)
    requires |f.stats.residence| == LAT_BUCKETS
    ensures var r := DemoteFlush(f, now);
      && r.buf == map[] && !r.armed && r.lastProgress == now && |f.log| <= |r.log|
      && r.stats.demoteEnded == f.stats.demoteEnded + (if f.armed then 1 else 0)
      && SameMode(f.(stats := f.stats.(demoteEnded := r.stats.demoteEnded)), r)
      && r.stats.filled == f.stats.filled && r.stats.overflowed == f.stats.overflowed
      && Refusals(r.stats) == Refusals(f.stats) && r.stats.late == f.stats.late && r.stats.poolDrop == f.stats.poolDrop
  {
    hide FlushAscending;
    var k := if f.armed then f.(stats := f.stats.(demoteEnded := f.stats.demoteEnded + 1)) else f;
    AscendingHands(k, now);
    FlushAscendingEmpties(k, now);
  }

  lemma ObserveModes(cfg: Config, f: Flow, out: Outcome, pkt: Packet, now: nat)
    requires |f.stats.residence| == LAT_BUCKETS && !f.passThrough
    ensures var r := ObserveTraffic(cfg, f, out, pkt, now); var demoted := !Refused(out) && Judged(cfg, f, pkt);
      && r.passThrough == demoted && r.stats.demotions == f.stats.demotions + (if demoted then 1 else 0)
      && r.stats.demoteEnded == f.stats.demoteEnded + (if demoted && f.armed then 1 else 0)
      && (if demoted then r.buf == map[] && !r.armed && r.lastProgress == now
          else r.buf == f.buf && r.log == f.log && r.lastProgress == f.lastProgress && r.expected == f.expected)
      && (if Refused(out) then r == f else Looks(cfg, f, r, pkt))
      && |f.log| <= |r.log|
      && Refusals(r.stats) == Refusals(f.stats) && r.stats.late == f.stats.late && r.stats.poolDrop == f.stats.poolDrop
      && r.stats.timedOut == f.stats.timedOut && r.stats.resetEnded == f.stats.resetEnded
      && r.stats.resetDiscard == f.stats.resetDiscard
      && r.stats.filled == f.stats.filled && r.stats.overflowed == f.stats.overflowed
  {
    hide DemoteFlush, Classify, Judged, InnerUdpPayloadLen;
    ClassifyShows(cfg, f, pkt);
    DemoteFlushModes(Classify(cfg, f, pkt).0, now);
  }

  /** A flow that is not passed through, and a datagram that starts no epoch. It is demoted exactly if the packet was not
      refused and closes the window of a flow judged small; then it is passed through from now on, holds nothing back and
      waits for nothing. The classifier is shown exactly the packets that were not refused. Progress is what is handed out,
      taken into the buffer, or a demotion. A datagram ends no period by timeout or reset, and a packet is charged to the
      pool only where it would exceed it even then. */
  lemma OrdinaryModes(cfg: Config, f: Flow, others: nat, s: nat, reset: bool, pkt: Packet, now: nat)
    requires FlowInv(f) && !StartsEpoch(cfg, f, reset, now) && !f.passThrough
    ensures |f.stats.residence| == LAT_BUCKETS
    ensures var r := OnReordered(cfg, f, others, s, reset, pkt, now);
      var refused := Refusals(r.stats) > Refusals(f.stats); var demoted := r.stats.demotions > f.stats.demotions;
      && (demoted <==> !refused && Judged(cfg, f, pkt))
      && (r.passThrough <==> demoted)
      && r.stats.demotions <= f.stats.demotions + 1
      && (demoted ==> r.buf == map[] && !r.armed)
      && (if refused then r.classifySeen == f.classifySeen && r.classifyLarge == f.classifyLarge else Looks(cfg, f, r, pkt))
      && r.lastProgress == (if Grown(f, r) || (s in r.buf && s !in f.buf) || demoted then now else f.lastProgress)
      && r.stats.timedOut == f.stats.timedOut && r.stats.resetEnded == f.stats.resetEnded
      && r.stats.resetDiscard == f.stats.resetDiscard
      && (r.stats.late > f.stats.late ==> s < r.expected || demoted)
      && (r.stats.filled > f.stats.filled ==> !refused && r.stats.late == f.stats.late && Grown(f, r) && r.buf == map[])
      && (r.stats.overflowed > f.stats.overflowed ==> f.buf != map[] && Grown(f, r))
      && (r.stats.demoteEnded > f.stats.demoteEnded ==> demoted)
      && (r.stats.poolDrop > f.stats.poolDrop ==>
            s > r.expected && s !in r.buf && others + BufferedBytes(r) + |pkt| > cfg.maxPoolBytes)
  {
    hide StepInv, Process, ObserveTraffic, BufferedBytes, Judged, Looks;
    InvSize(f);
    var g := Enter(f.(lastSeen := now), s, pkt);
    ProcessHandles(cfg, g, others, s, pkt, now);
    var (h, out) := Process(cfg, g, others, s, pkt, now);
    SameJudgment(cfg, f, g, h, pkt);
    ObserveModes(cfg, h, out, pkt, now);
  }

  lemma SameJudgment(cfg: Config, f: Flow, g: Flow, h: Flow, pkt: Packet)
    requires g.classifySeen == f.classifySeen && g.classifyLarge == f.classifyLarge
    requires h.classifySeen == f.classifySeen && h.classifyLarge == f.classifyLarge
    ensures Judged(cfg, h, pkt) == Judged(cfg, f, pkt)
    ensures forall r :: Looks(cfg, h, r, pkt) == Looks(cfg, f, r, pkt)
  {
  }

  // ----- pass-through -----

  /** A flow passed through: any datagram that starts no epoch is handed out at once, itself and nothing else, whatever its
      number, and the flow remains so. */
  lemma PassedThrough(cfg: Config, f: Flow, others: nat, s: nat, reset: bool, pkt: Packet, now: nat)
    requires FlowInv(f) && !StartsEpoch(cfg, f, reset, now) && f.passThrough
    ensures |f.stats.residence| == LAT_BUCKETS
    ensures var r := OnReordered(cfg, f, others, s, reset, pkt, now);
      && r.log == f.log + [Delivery(Tag(f.epoch, s, pkt), false)] && r.epoch == f.epoch && r.lastProgress == now
      && r.passThrough && r.initialized && r.buf == map[] && !r.armed && r.stats.demotions == f.stats.demotions
      && Refusals(r.stats) == Refusals(f.stats) && r.stats.late == f.stats.late
  {
    hide StepInv, Emit;
    InvSize(f);
    EmitRecords(Enter(f.(lastSeen := now), s, pkt), now, s, pkt, now);
  }

  /** The event would start an epoch, in a flow that has last made progress at that time. */
  predicate StartsAfter(lastProgress: nat, ev: FlowEvent) {
    ev.Arrive? && ev.reset && ev.now > lastProgress + ev.cfg.resetGraceMs * 1000
  }

  /** No event starts an epoch. This is read off the events alone: while a flow is passed through, each datagram is
      progress. */
  predicate NoneStarts(lastProgress: nat, evs: seq<FlowEvent>)
    decreases |evs|
  {
    evs == [] ||
      (!StartsAfter(lastProgress, evs[0]) && NoneStarts(if evs[0].Arrive? then evs[0].now else lastProgress, evs[1..]))
  }

  /** The packet of a datagram, as it came. */
  function PassedBy(epoch: nat, ev: FlowEvent): seq<Delivery> {
    if ev.Arrive? then [Delivery(Tag(epoch, ev.seqNo, ev.pkt), false)] else []
  }

  function PassedOn(epoch: nat, evs: seq<FlowEvent>): seq<Delivery>
    decreases |evs|
  {
    if evs == [] then [] else PassedBy(epoch, evs[0]) + PassedOn(epoch, evs[1..])
  }

  lemma StepPassesOn(f: Flow, ev: FlowEvent)
    requires FlowInv(f) && f.passThrough && !StartsAfter(f.lastProgress, ev)
    ensures |f.stats.residence| == LAT_BUCKETS
    ensures var r := Step(f, ev);
      && FlowInv(r) && r.log == f.log + PassedBy(f.epoch, ev) && r.epoch == f.epoch && r.passThrough
      && r.lastProgress == (if ev.Arrive? then ev.now else f.lastProgress) && r.stats.demotions == f.stats.demotions
  {
    hide OnReordered, StepInv;
    InvSize(f);
    StepKeeps(f, ev);
    match ev
    case Arrive(cfg, others, s, reset, pkt, now) => PassedThrough(cfg, f, others, s, reset, pkt, now);
    case Tick(now) =>
  }

  lemma PassingIsQuiet(f: Flow)
    requires FlowInv(f) && f.passThrough
    ensures |f.stats.residence| == LAT_BUCKETS && f.buf == map[] && !f.armed
  {
  }

  /** So once a flow has been demoted, and until an epoch starts, exactly what arrives is handed out, in the order of arrival,
      repeats and late packets included; nothing is held back or waited for, and the flow is never judged again. */
  lemma {:induction false} DemotedRunPassesOn(f: Flow, evs: seq<FlowEvent>)
    requires FlowInv(f) && f.passThrough && NoneStarts(f.lastProgress, evs)
    ensures |f.stats.residence| == LAT_BUCKETS
    ensures var r := Run(f, evs);
      && r.log == f.log + PassedOn(f.epoch, evs) && r.epoch == f.epoch
      && r.passThrough && r.buf == map[] && !r.armed && r.stats.demotions == f.stats.demotions
    decreases |evs|
  {
    hide FlowInv, Step, StartsAfter, PassedBy;
    PassingIsQuiet(f);
    if evs != [] {
      StepPassesOn(f, evs[0]);
      DemotedRunPassesOn(Step(f, evs[0]), evs[1..]);
    }
  }

  // ----- ticks -----

  lemma {:induction false} DrainRecords(f: Flow, now: nat)
    requires |f.stats.residence| == LAT_BUCKETS
    ensures var g := Drain(f, now);
      g == f.(log := g.log, buf := g.buf, expected := g.expected,
              stats := f.stats.(delivered := g.stats.delivered, residence := g.stats.residence,
                                maxResidence := g.stats.maxResidence))
    decreases |f.buf|
  {
    hide Emit;
    if f.expected in f.buf {
      var item := f.buf[f.expected];
      EmitRecords(f, now, f.expected, item.pkt, item.enqueued);
      EmitHands(f, now, f.expected, item.pkt, item.enqueued);
      DrainRecords(TakeNext(f, now), now);
    }
  }

  /** A tick counts a timeout exactly for a flow whose deadline has come, which is progress, and ends no period in any other
      way; mode and classifier are left alone. */
  lemma TickModes(f: Flow, now: nat)
    requires FlowInv(f)
    ensures |f.stats.residence| == LAT_BUCKETS
    ensures var r := TickFlow(f, now); var due := f.armed && f.deadline <= now;
      && r.lastProgress == (if due then now else f.lastProgress)
      && r.stats.timedOut == f.stats.timedOut + (if due then 1 else 0)
      && r.stats.filled == f.stats.filled && r.stats.overflowed == f.stats.overflowed
      && r.stats.demoteEnded == f.stats.demoteEnded && r.stats.resetEnded == f.stats.resetEnded
      && r.passThrough == f.passThrough && r.classifySeen == f.classifySeen && r.classifyLarge == f.classifyLarge
      && r.stats.demotions == f.stats.demotions && Refusals(r.stats) == Refusals(f.stats) && r.stats.late == f.stats.late
      && r.initialized == f.initialized && r.epoch == f.epoch
  {
    hide StepInv, Drain, Lowest;
    InvSize(f);
    if f.buf != map[] {
      DrainRecords(f.(stats := f.stats.(timedOut := f.stats.timedOut + 1), expected := Lowest(f.buf)), now);
    }
  }

  // ----- whole runs -----

  /** In every run of a new flow each epoch sees at most one demotion, and after it the flow is passed through. */
  lemma {:induction false} DemotedOncePerEpoch(f: Flow, evs: seq<FlowEvent>)
    requires FlowInv(f) && f.stats.demotions <= f.epoch + (if f.passThrough then 1 else 0)
    ensures |f.stats.residence| == LAT_BUCKETS
    ensures var r := Run(f, evs); r.stats.demotions <= r.epoch + (if r.passThrough then 1 else 0)
    decreases |evs|
  {
    hide FlowInv, OnReordered, TickFlow, Judged, Looks, Refusals, Grown, BufferedBytes, StartsEpoch;
    InvSize(f);
    if evs != [] {
      StepKeeps(f, evs[0]);
      match evs[0] {
        case Arrive(cfg, others, s, reset, pkt, now) =>
          if StartsEpoch(cfg, f, reset, now) {
            ResetStartsEpoch(cfg, f, others, s, reset, pkt, now);
          } else {
            ResetIgnored(cfg, f, others, s, reset, pkt, now);
            if f.passThrough {
              PassedThrough(cfg, f, others, s, reset, pkt, now);
            } else {
              OrdinaryModes(cfg, f, others, s, reset, pkt, now);
            }
          }
        case Tick(now) => TickModes(f, now);
      }
      DemotedOncePerEpoch(Step(f, evs[0]), evs[1..]);
    }
  }
}
