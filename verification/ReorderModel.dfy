/** The meaning of one reorder flow: its state as a value and what each receive-side operation does to it. */
module ReorderModel {
  import opened Bits
  import opened Totals
  import opened Ring
  import opened ReorderConfig

  /** A packet of a flow, with the FLOW_RESET epoch in which it was processed. */
  datatype Tag = Tag(epoch: nat, seqNo: nat, pkt: Packet)

  /** A delivered packet; `ordered` is false for pass-through deliveries after demotion. */
  datatype Delivery = Delivery(tag: Tag, ordered: bool)

  datatype Stats = Stats(
    delivered: nat, late: nat, farAhead: nat, duplicate: nat, flowLimit: nat, poolDrop: nat, resetDiscard: nat,
    gaps: nat, filled: nat, timedOut: nat, overflowed: nat, demoteEnded: nat, resetEnded: nat,
    demotions: nat,
    residence: seq<nat>, maxResidence: nat)

  const LAT_BUCKETS: nat := 12
  const LAT_BOUNDS: seq<nat> := [0, 1000, 2000, 4000, 8000, 16000, 32000, 64000, 128000, 256000, 512000]

  const ZERO_STATS := Stats(0, 0, 0, 0, 0, 0, 0, 0, 0, 0, 0, 0, 0, 0, [0, 0, 0, 0, 0, 0, 0, 0, 0, 0, 0, 0], 0)

  /** State of a flow. The last four fields are history: they record the run and never influence it. */
  datatype Flow = Flow(
    initialized: bool, expected: nat, cap: nat, buf: map<nat, Item>,
    armed: bool, deadline: nat, armedAt: nat, waitMs: nat,
    lastSeen: nat, lastProgress: nat,
    passThrough: bool, classifySeen: nat, classifyLarge: nat,
    stats: Stats,
    epoch: nat, log: seq<Delivery>, entered: multiset<Tag>, dropped: multiset<Tag>)

  datatype Outcome = Delivered | Buffered | DroppedLate | DroppedFarAhead | DroppedLimit

  function NewFlow(cap: nat, waitMs: nat): Flow {
    Flow(false, 0, cap, map[], false, 0, 0, waitMs, 0, 0, false, 0, 0, ZERO_STATS, 0, [], multiset{}, multiset{})
  }

  // ----- statistics -----

  /** The first bucket, from `i` on, whose bound is not below the residence. */
  function BucketFrom(residence: nat, i: nat): (r: nat)
    requires i < LAT_BUCKETS
    requires i > 0 ==> residence > LAT_BOUNDS[i - 1]
    ensures r < LAT_BUCKETS
    ensures r < LAT_BUCKETS - 1 ==> residence <= LAT_BOUNDS[r]
    ensures r > 0 ==> residence > LAT_BOUNDS[r - 1]
    decreases LAT_BUCKETS - i
  {
    if i < LAT_BUCKETS - 1 && residence > LAT_BOUNDS[i] then BucketFrom(residence, i + 1) else i
  }

  /** A clock that stepped backwards counts as no residence. */
  function Residence(now: nat, enqueued: nat): nat {
    if now > enqueued then now - enqueued else 0
  }

  function Record(st: Stats, now: nat, enqueued: nat): Stats
    requires |st.residence| == LAT_BUCKETS
  {
    var r := Residence(now, enqueued);
    var i := BucketFrom(r, 0);
    st.(residence := st.residence[i := st.residence[i] + 1],
        maxResidence := if r > st.maxResidence then r else st.maxResidence)
  }

  // ----- delivery -----

  function Emit(f: Flow, now: nat, s: nat, pkt: Packet, enqueued: nat): Flow
    requires |f.stats.residence| == LAT_BUCKETS
  {
    f.(log := f.log + [Delivery(Tag(f.epoch, s, pkt), !f.passThrough)],
       stats := Record(f.stats.(delivered := f.stats.delivered + 1), now, enqueued))
  }

  /** Deliver the buffered packet at `expected` and step past it. */
  function TakeNext(f: Flow, now: nat): Flow
    requires f.expected in f.buf && |f.stats.residence| == LAT_BUCKETS
  {
    var item := f.buf[f.expected];
    Emit(f, now, f.expected, item.pkt, item.enqueued).(buf := f.buf - {f.expected}, expected := f.expected + 1)
  }

  /** Deliver the contiguous run that starts at `expected`. */
  function Drain(f: Flow, now: nat): (r: Flow)
    requires |f.stats.residence| == LAT_BUCKETS
    ensures |r.stats.residence| == LAT_BUCKETS
    decreases |f.buf|
  {
    if f.expected in f.buf then Drain(TakeNext(f, now), now) else f
  }

  ghost predicate IsLowest(buf: map<nat, Item>, s: nat) {
    s in buf && forall t :: t in buf ==> s <= t
  }

  /** The least buffered sequence number. */
  ghost function Lowest(buf: map<nat, Item>): (s: nat)
    requires buf != map[]
    ensures IsLowest(buf, s)
    decreases |buf|
  {
    var p := Pick(buf);
    var rest := buf - {p};
    assert forall t :: t in buf ==> t == p || t in rest;
    if rest == map[] then p
    else
      var q := Lowest(rest);
      if p < q then p else q
  }

  lemma LowestUnique(buf: map<nat, Item>, s: nat)
    requires IsLowest(buf, s)
    ensures buf != map[] && Lowest(buf) == s
  {
  }

  // ----- gap timer -----

  function Arm(f: Flow, now: nat): Flow {
    f.(armed := true, armedAt := now, deadline := now + f.waitMs * 1000, stats := f.stats.(gaps := f.stats.gaps + 1))
  }

  /** After in-order progress: an armed period whose buffer has emptied has been filled. */
  function CloseIfFilled(f: Flow): Flow {
    if f.buf == map[] && f.armed then f.(armed := false, stats := f.stats.(filled := f.stats.filled + 1)) else f
  }

  /** Jump over the missing numbers and deliver the run behind them. */
  ghost function SkipAndDrain(f: Flow, now: nat): (r: Flow)
    requires f.buf != map[] && |f.stats.residence| == LAT_BUCKETS
    ensures |r.stats.residence| == LAT_BUCKETS
  {
    Drain(f.(expected := Lowest(f.buf)), now).(lastProgress := now)
  }

  ghost function GapTimeout(f: Flow, now: nat): (r: Flow)
    requires |f.stats.residence| == LAT_BUCKETS
    ensures |r.stats.residence| == LAT_BUCKETS
  {
    if f.buf == map[] then f.(armed := false)
    else
      var g := SkipAndDrain(f.(stats := f.stats.(timedOut := f.stats.timedOut + 1)), now);
      if g.buf == map[] then g.(armed := false) else Arm(g, now)
  }

  /** A flush ends the armed period only when it empties the buffer. */
  ghost function OverflowFlush(f: Flow, now: nat): (r: Flow)
    requires f.buf != map[] && |f.stats.residence| == LAT_BUCKETS
    ensures |r.stats.residence| == LAT_BUCKETS
  {
    var g := SkipAndDrain(f, now);
    if g.buf != map[] then g
    else if f.armed then g.(armed := false, stats := g.stats.(overflowed := g.stats.overflowed + 1))
    else g.(armed := false)
  }

  // ----- reset -----

  /** The buffered packets, as history tags of the current epoch. */
  ghost function HeldTags(buf: map<nat, Item>, epoch: nat): (r: set<Tag>)
    ensures forall t :: t in r <==> t.epoch == epoch && t.seqNo in buf && t.pkt == buf[t.seqNo].pkt
  {
    assert forall t: Tag :: t.epoch == epoch && t.seqNo in buf && t.pkt == buf[t.seqNo].pkt ==>
      t == Tag(epoch, t.seqNo, buf[t.seqNo].pkt);
    set s | s in buf :: Tag(epoch, s, buf[s].pkt)
  }

  function CountDiscard(st: Stats, n: nat, wasArmed: bool): Stats {
    st.(resetDiscard := st.resetDiscard + n, resetEnded := st.resetEnded + if wasArmed then 1 else 0)
  }

  /** FLOW_RESET: the old buffer is discarded, never delivered. */
  ghost function Discard(f: Flow): Flow {
    f.(stats := CountDiscard(f.stats, |f.buf|, f.armed),
       dropped := f.dropped + multiset(HeldTags(f.buf, f.epoch)),
       buf := map[], armed := false)
  }

  /** A reset also un-demotes the flow and starts classification over. */
  ghost function Reset(f: Flow): Flow {
    Discard(f).(passThrough := false, classifySeen := 0, classifyLarge := 0)
  }

  // ----- demotion -----

  /** Inner UDP payload length, with the fixed 40-byte header assumed for IPv6. */
  function InnerUdpPayloadLen(pkt: Packet): nat {
    if |pkt| < 1 then 0
    else
      var version := pkt[0] / 16;
      if version == 4 && |pkt| < 20 then 0
      else if version != 4 && version != 6 then 0
      else
        var l4 := (if version == 4 then (pkt[0] % 16) * 4 else 40) + 8;
        if |pkt| <= l4 then 0 else |pkt| - l4
  }

  datatype Verdict = Unchanged | Demote

  function Classify(cfg: Config, f: Flow, pkt: Packet): (Flow, Verdict) {
    if cfg.forceNoDemotion || f.classifySeen >= cfg.classifyWindow then (f, Unchanged)
    else
      var large := f.classifyLarge + if InnerUdpPayloadLen(pkt) >= cfg.smallThreshold then 1 else 0;
      var g := f.(classifySeen := f.classifySeen + 1, classifyLarge := large);
      (g, if g.classifySeen == cfg.classifyWindow && large <= cfg.maxLarge then Demote else Unchanged)
  }

  /** Deliver everything buffered, lowest number first. */
  ghost function FlushAscending(f: Flow, now: nat): (r: Flow)
    requires |f.stats.residence| == LAT_BUCKETS
    ensures |r.stats.residence| == LAT_BUCKETS
    decreases |f.buf|
  {
    if f.buf == map[] then f else FlushAscending(TakeNext(f.(expected := Lowest(f.buf)), now), now)
  }

  lemma {:induction false} FlushAscendingEmpties(f: Flow, now: nat)
    requires |f.stats.residence| == LAT_BUCKETS
    ensures FlushAscending(f, now).buf == map[]
    decreases |f.buf|
  {
    if f.buf != map[] {
      FlushAscendingEmpties(TakeNext(f.(expected := Lowest(f.buf)), now), now);
    }
  }

  ghost function DemoteFlush(f: Flow, now: nat): (r: Flow)
    requires |f.stats.residence| == LAT_BUCKETS
    ensures |r.stats.residence| == LAT_BUCKETS
  {
    var g := if f.armed then f.(stats := f.stats.(demoteEnded := f.stats.demoteEnded + 1)) else f;
    FlushAscending(g, now).(lastProgress := now, armed := false)
  }

  // ----- admission -----

  ghost function BufferedBytes(f: Flow): nat {
    Total(f.buf, Length)
  }

  function DropCurrent(f: Flow, s: nat, pkt: Packet, stats: Stats): Flow {
    f.(dropped := f.dropped + multiset{Tag(f.epoch, s, pkt)}, stats := stats)
  }

  function DropLate(f: Flow, s: nat, pkt: Packet): Flow {
    DropCurrent(f, s, pkt, f.stats.(late := f.stats.late + 1))
  }

  function DropFarAhead(f: Flow, s: nat, pkt: Packet): Flow {
    DropCurrent(f, s, pkt, f.stats.(farAhead := f.stats.farAhead + 1))
  }

  function DropDuplicate(f: Flow, s: nat, pkt: Packet): Flow {
    DropCurrent(f, s, pkt, f.stats.(duplicate := f.stats.duplicate + 1))
  }

  function DropFlowLimit(f: Flow, s: nat, pkt: Packet): Flow {
    DropCurrent(f, s, pkt, f.stats.(flowLimit := f.stats.flowLimit + 1))
  }

  function DropPool(f: Flow, s: nat, pkt: Packet): Flow {
    DropCurrent(f, s, pkt, f.stats.(poolDrop := f.stats.poolDrop + 1))
  }

  /** Deliver the current packet and step past it. */
  function DeliverCurrent(f: Flow, s: nat, pkt: Packet, now: nat): Flow
    requires |f.stats.residence| == LAT_BUCKETS
  {
    Emit(f, now, s, pkt, now).(expected := s + 1, lastProgress := now)
  }

  function DeliverInOrder(f: Flow, s: nat, pkt: Packet, now: nat): (r: Flow)
    requires |f.stats.residence| == LAT_BUCKETS
    ensures |r.stats.residence| == LAT_BUCKETS
  {
    CloseIfFilled(Drain(DeliverCurrent(f, s, pkt, now), now))
  }

  ghost predicate ExceedsFlowLimits(cfg: Config, f: Flow, len: nat) {
    |f.buf| >= f.cap || BufferedBytes(f) + len > cfg.maxFlowBytes
  }

  /** `others` is what the other flows hold in the shared pool. */
  ghost predicate ExceedsPool(cfg: Config, f: Flow, others: nat, len: nat) {
    others + BufferedBytes(f) + len > cfg.maxPoolBytes
  }

  /** Buffer the current packet; the first packet in an empty buffer opens a gap period. */
  function Store(f: Flow, s: nat, pkt: Packet, now: nat): Flow {
    var g := f.(buf := f.buf[s := Item(pkt, now)], lastProgress := now);
    if f.buf == map[] then Arm(g, now) else g
  }

  /** Where the current packet stands once a flush has moved `expected`; Buffered means still to be admitted. */
  function Reclassify(f: Flow, s: nat, pkt: Packet, now: nat): (r: (Flow, Outcome))
    requires |f.stats.residence| == LAT_BUCKETS
    ensures |r.0.stats.residence| == LAT_BUCKETS
  {
    if s < f.expected then (DropLate(f, s, pkt), DroppedLate)
    else if s == f.expected then (DeliverInOrder(f, s, pkt, now), Delivered)
    else if s - f.expected >= f.cap then (DropFarAhead(f, s, pkt), DroppedFarAhead)
    else if s in f.buf then (DropDuplicate(f, s, pkt), DroppedLimit)
    else (f, Buffered)
  }

  ghost function AdmitToPool(cfg: Config, f: Flow, others: nat, s: nat, pkt: Packet, now: nat): (r: (Flow, Outcome))
    requires |f.stats.residence| == LAT_BUCKETS
    ensures |r.0.stats.residence| == LAT_BUCKETS
  {
    if !ExceedsPool(cfg, f, others, |pkt|) then (Store(f, s, pkt, now), Buffered)
    else if f.buf == map[] then (DropPool(f, s, pkt), DroppedLimit)
    else
      var (g, out) := Reclassify(OverflowFlush(f, now), s, pkt, now);
      if out != Buffered then (g, out)
      else if ExceedsPool(cfg, g, others, |pkt|) then (DropPool(g, s, pkt), DroppedLimit)
      else (Store(g, s, pkt, now), Buffered)
  }

  ghost function BufferAdmit(cfg: Config, f: Flow, others: nat, s: nat, pkt: Packet, now: nat): (r: (Flow, Outcome))
    requires |f.stats.residence| == LAT_BUCKETS
    ensures |r.0.stats.residence| == LAT_BUCKETS
  {
    if s in f.buf then (DropDuplicate(f, s, pkt), DroppedLimit)
    else if !ExceedsFlowLimits(cfg, f, |pkt|) then AdmitToPool(cfg, f, others, s, pkt, now)
    else if f.buf == map[] then (DropFlowLimit(f, s, pkt), DroppedLimit)
    else
      var (g, out) := Reclassify(OverflowFlush(f, now), s, pkt, now);
      if out != Buffered then (g, out) else AdmitToPool(cfg, g, others, s, pkt, now)
  }

  ghost function Process(cfg: Config, f: Flow, others: nat, s: nat, pkt: Packet, now: nat): (r: (Flow, Outcome))
    requires |f.stats.residence| == LAT_BUCKETS
    ensures |r.0.stats.residence| == LAT_BUCKETS
  {
    if !f.initialized then (DeliverCurrent(f.(initialized := true), s, pkt, now), Delivered)
    else if s == f.expected then (DeliverInOrder(f, s, pkt, now), Delivered)
    else if s < f.expected then (DropLate(f, s, pkt), DroppedLate)
    else if s - f.expected >= f.cap then (DropFarAhead(f, s, pkt), DroppedFarAhead)
    else BufferAdmit(cfg, f, others, s, pkt, now)
  }

  // ----- one datagram -----

  /** FLOW_RESET is bit 0 of the header flags. */
  predicate HasReset(flags: Byte) {
    And(flags, 1) != 0
  }

  function Enter(f: Flow, s: nat, pkt: Packet): Flow {
    f.(entered := f.entered + multiset{Tag(f.epoch, s, pkt)})
  }

  /** FLOW_RESET is honoured on a fresh flow, or after more than the grace period without progress. */
  predicate HonoursReset(cfg: Config, f: Flow, now: nat) {
    !f.initialized || (now > f.lastProgress && now - f.lastProgress > cfg.resetGraceMs * 1000)
  }

  ghost function StartEpoch(f: Flow, s: nat, pkt: Packet, now: nat): (r: Flow)
    requires |f.stats.residence| == LAT_BUCKETS
    ensures |r.stats.residence| == LAT_BUCKETS
  {
    DeliverCurrent(Enter(Reset(f).(epoch := f.epoch + 1), s, pkt).(initialized := true), s, pkt, now)
  }

  /** Real traffic (delivered, buffered or late) feeds the classifier; a demotion flushes what is left. */
  ghost function ObserveTraffic(cfg: Config, f: Flow, out: Outcome, pkt: Packet, now: nat): (r: Flow)
    requires |f.stats.residence| == LAT_BUCKETS
    ensures |r.stats.residence| == LAT_BUCKETS
  {
    if out == DroppedFarAhead || out == DroppedLimit then f
    else
      var (g, verdict) := Classify(cfg, f, pkt);
      if verdict == Unchanged then g
      else
        var h := DemoteFlush(g, now);
        h.(passThrough := true, stats := h.stats.(demotions := h.stats.demotions + 1))
  }

  ghost function OnReordered(cfg: Config, f: Flow, others: nat, s: nat, reset: bool, pkt: Packet, now: nat): (r: Flow)
    requires |f.stats.residence| == LAT_BUCKETS
    ensures |r.stats.residence| == LAT_BUCKETS
  {
    var seen := f.(lastSeen := now);
    if reset && HonoursReset(cfg, seen, now) then StartEpoch(seen, s, pkt, now)
    else
      var g := Enter(seen, s, pkt);
      if g.passThrough then Emit(g, now, s, pkt, now).(lastProgress := now)
      else
        var (h, out) := Process(cfg, g, others, s, pkt, now);
        ObserveTraffic(cfg, h, out, pkt, now)
  }

  /** The part of a tick that concerns one flow's gap timer. */
  ghost predicate Due(f: Flow, now: nat) {
    f.armed && f.deadline <= now
  }

  ghost function TickFlow(f: Flow, now: nat): (r: Flow)
    requires |f.stats.residence| == LAT_BUCKETS
    ensures |r.stats.residence| == LAT_BUCKETS
  {
    if Due(f, now) then GapTimeout(f, now) else f
  }
}
