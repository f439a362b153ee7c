/** The promise of the shim: a contiguous run of packets, arriving in any order and with repeats, comes out as sent. */
module FlowRestoration {
  import opened Totals
  import opened Ring
  import opened ReorderConfig
  import opened ReorderModel
  import opened FlowInvariants
  import opened FlowLimits
  import opened FlowModes
  import opened Demotion

  /** The arrival of packet `index` of the run. */
  datatype Arrival = Arrival(index: nat, reset: bool, others: nat, now: nat)

  /** The first m packets of the run, delivered in order. */
  ghost function Emitted(epoch: nat, base: nat, sent: seq<Packet>, m: nat): seq<Delivery>
    requires m <= |sent|
  {
    seq(m, i requires 0 <= i < m => Delivery(Tag(epoch, base + i, sent[i]), true))
  }

  /** What the flow had handed out, and its counters, when the run began. */
  datatype Before = Before(log: seq<Delivery>, stats: Stats)

  /** What has arrived is either delivered in order or waiting in the buffer, unaltered. */
  ghost predicate Tracks(f: Flow, past: Before, base: nat, sent: seq<Packet>, got: set<nat>) {
    && |f.stats.residence| == LAT_BUCKETS
    && f.initialized && !f.passThrough
    && base <= f.expected <= base + |sent|
    && f.log == past.log + Emitted(f.epoch, base, sent, f.expected - base)
    && (forall i :: i in got ==> i < |sent|)
    && (forall i :: 0 <= i < |sent| ==> (i in got <==> base + i < f.expected || base + i in f.buf))
    && (forall s :: s in f.buf ==> f.expected <= s < base + |sent| && f.buf[s].pkt == sent[s - base])
  }

  /** Since then no gap period has ended in any way but by being filled. */
  ghost predicate OnlyFilled(was: Stats, st: Stats) {
    && st.timedOut == was.timedOut && st.overflowed == was.overflowed
    && st.demoteEnded == was.demoteEnded && st.resetEnded == was.resetEnded
  }

  lemma EmittedNext(epoch: nat, base: nat, sent: seq<Packet>, m: nat)
    requires m < |sent|
    ensures Emitted(epoch, base, sent, m) + [Delivery(Tag(epoch, base + m, sent[m]), true)] ==
            Emitted(epoch, base, sent, m + 1)
  {
  }

  lemma TakeNextTracks(f: Flow, past: Before, base: nat, sent: seq<Packet>, got: set<nat>, now: nat)
    requires Tracks(f, past, base, sent, got) && f.expected in f.buf
    ensures Tracks(TakeNext(f, now), past, base, sent, got)
  {
    hide Emitted, Record;
    assert |TakeNext(f, now).stats.residence| == LAT_BUCKETS by {
      RecordSize(f.stats.(delivered := f.stats.delivered + 1), now, f.buf[f.expected].enqueued);
    }
    EmittedNext(f.epoch, base, sent, f.expected - base);
  }

  lemma RecordSize(st: Stats, now: nat, enqueued: nat)
    requires |st.residence| == LAT_BUCKETS
    ensures |Record(st, now, enqueued).residence| == LAT_BUCKETS
  {
  }

  lemma {:induction false} DrainTracks(f: Flow, past: Before, base: nat, sent: seq<Packet>, got: set<nat>, now: nat)
    requires Tracks(f, past, base, sent, got)
    ensures var r := Drain(f, now);
      && Tracks(r, past, base, sent, got) && r.expected !in r.buf
      && r.stats == f.stats.(delivered := r.stats.delivered, residence := r.stats.residence, maxResidence := r.stats.maxResidence)
      && SameSettings(f, r) && r.lastProgress == f.lastProgress
    decreases |f.buf|
  {
    if f.expected in f.buf {
      TakeNextTracks(f, past, base, sent, got, now);
      hide Tracks;
      DrainTracks(TakeNext(f, now), past, base, sent, got, now);
    }
  }

  ghost predicate SameSettings(f: Flow, g: Flow) {
    g.classifySeen == f.classifySeen && g.classifyLarge == f.classifyLarge && g.cap == f.cap && g.epoch == f.epoch
  }

  ghost predicate Progressed(f: Flow, g: Flow, now: nat) {
    g.lastProgress == f.lastProgress || g.lastProgress == now
  }

  /** The classifier has looked at the packet, or it has not been shown it. */
  ghost predicate Looked(cfg: Config, f: Flow, g: Flow, pkt: Packet, shown: bool) {
    var h := if shown then Classify(cfg, f, pkt).0 else f;
    g.classifySeen == h.classifySeen && g.classifyLarge == h.classifyLarge
  }

  lemma DeliverCurrentTracks(f: Flow, past: Before, base: nat, sent: seq<Packet>, got: set<nat>, i: nat, now: nat)
    requires Tracks(f, past, base, sent, got) && i < |sent| && base + i == f.expected && f.expected !in f.buf
    ensures |f.stats.residence| == LAT_BUCKETS
    ensures var g := DeliverCurrent(f, base + i, sent[i], now);
      && Tracks(g, past, base, sent, got + {i}) && SameSettings(f, g) && g.lastProgress == now
      && (OnlyFilled(past.stats, f.stats) ==> OnlyFilled(past.stats, g.stats))
  {
    hide Emitted, Record;
    RecordSize(f.stats.(delivered := f.stats.delivered + 1), now, now);
    if OnlyFilled(past.stats, f.stats) {
      RecordPeriods(past.stats, f.stats.(delivered := f.stats.delivered + 1), now, now);
    }
    EmittedNext(f.epoch, base, sent, i);
  }

  /** The arrival that fills the gap. */
  lemma InOrderTracks(f: Flow, past: Before, base: nat, sent: seq<Packet>, got: set<nat>, i: nat, now: nat)
    requires Tracks(f, past, base, sent, got) && i < |sent| && base + i == f.expected && f.expected !in f.buf
    ensures |f.stats.residence| == LAT_BUCKETS
    ensures var r := DeliverInOrder(f, base + i, sent[i], now);
      && Tracks(r, past, base, sent, got + {i}) && r.expected !in r.buf
      && (OnlyFilled(past.stats, f.stats) ==> OnlyFilled(past.stats, r.stats)) && SameSettings(f, r) && r.lastProgress == now
  {
    hide Emitted, Record, Drain, DeliverCurrent;
    DeliverCurrentTracks(f, past, base, sent, got, i, now);
    DrainTracks(DeliverCurrent(f, base + i, sent[i], now), past, base, sent, got + {i}, now);
  }

  /** An arrival behind the gap. */
  lemma StoreTracks(f: Flow, past: Before, base: nat, sent: seq<Packet>, got: set<nat>, i: nat, now: nat)
    requires Tracks(f, past, base, sent, got) && i < |sent| && base + i > f.expected && base + i !in f.buf
    ensures var r := Store(f, base + i, sent[i], now);
      && Tracks(r, past, base, sent, got + {i}) && (OnlyFilled(past.stats, f.stats) ==> OnlyFilled(past.stats, r.stats))
      && SameSettings(f, r) && r.lastProgress == now
  {
    hide Emitted;
  }

  // ----- one arrival -----

  /** The conditions under which the shim promises restoration, as they stand when the packet arrives:
      a reset mark falls inside the grace, the number is inside the window, an early packet fits the
      flow's limits and the pool, and the classifier, unless it is not shown a repeat, does not demote the flow. */
  ghost predicate Calm(cfg: Config, f: Flow, s: nat, pkt: Packet, a: Arrival) {
    && !(a.reset && HonoursReset(cfg, f, a.now))
    && s < f.expected + f.cap
    && (s > f.expected && s !in f.buf ==> !ExceedsFlowLimits(cfg, f, |pkt|) && !ExceedsPool(cfg, f, a.others, |pkt|))
    && (s !in f.buf ==> Classify(cfg, f, pkt).1 == Unchanged)
  }

  ghost predicate Restoring(f: Flow, past: Before, base: nat, sent: seq<Packet>, got: set<nat>) {
    && Tracks(f, past, base, sent, got)
    && f.expected !in f.buf
    && OnlyFilled(past.stats, f.stats)
  }

  lemma ProcessRestores(cfg: Config, f: Flow, past: Before, base: nat, sent: seq<Packet>, got: set<nat>, a: Arrival)
    requires Restoring(f, past, base, sent, got) && a.index < |sent|
    requires Calm(cfg, f, base + a.index, sent[a.index], a)
    ensures var (r, out) := Process(cfg, f, a.others, base + a.index, sent[a.index], a.now);
      && Restoring(r, past, base, sent, got + {a.index}) && SameSettings(f, r) && Progressed(f, r, a.now)
      && out != DroppedFarAhead && (out == DroppedLimit <==> base + a.index in f.buf)
  {
    hide Tracks, DeliverInOrder, OverflowFlush, Reclassify, ExceedsPool, ExceedsFlowLimits;
    var s, pkt := base + a.index, sent[a.index];
    TracksBasics(f, past, base, sent, got, a.index);
    if s == f.expected {
      InOrderTracks(f, past, base, sent, got, a.index, a.now);
    } else if s < f.expected || s in f.buf {
      assert got + {a.index} == got;
      RepeatTracks(f, past, base, sent, got, if s < f.expected then DropLate(f, s, pkt) else DropDuplicate(f, s, pkt));
    } else {
      StoreTracks(f, past, base, sent, got, a.index, a.now);
    }
  }

  lemma TracksBasics(f: Flow, past: Before, base: nat, sent: seq<Packet>, got: set<nat>, i: nat)
    requires Tracks(f, past, base, sent, got) && i < |sent|
    ensures |f.stats.residence| == LAT_BUCKETS && f.initialized && !f.passThrough
    ensures i in got <==> base + i < f.expected || base + i in f.buf
    ensures base + i in f.buf ==> f.expected <= base + i
  {
  }

  lemma RepeatTracks(f: Flow, past: Before, base: nat, sent: seq<Packet>, got: set<nat>, g: Flow)
    requires Tracks(f, past, base, sent, got)
    requires g == f.(stats := g.stats, dropped := g.dropped) && |g.stats.residence| == LAT_BUCKETS
    ensures Tracks(g, past, base, sent, got)
  {
    hide Emitted;
  }

  lemma EnterRestoring(cfg: Config, f: Flow, past: Before, base: nat, sent: seq<Packet>, got: set<nat>, a: Arrival)
    requires Restoring(f, past, base, sent, got) && a.index < |sent|
    requires Calm(cfg, f, base + a.index, sent[a.index], a)
    ensures var g := Enter(f.(lastSeen := a.now), base + a.index, sent[a.index]);
      && Restoring(g, past, base, sent, got) && Calm(cfg, g, base + a.index, sent[a.index], a)
      && SameSettings(f, g) && g.lastProgress == f.lastProgress && !g.passThrough && !f.passThrough && f.initialized
      && |f.stats.residence| == LAT_BUCKETS && g.buf == f.buf
      && (base + a.index !in f.buf ==> Classify(cfg, f, sent[a.index]).1 == Unchanged)
      && !(a.reset && HonoursReset(cfg, f.(lastSeen := a.now), a.now))
  {
    hide Emitted, Total;
  }

  lemma ArrivalRestores(cfg: Config, f: Flow, past: Before, base: nat, sent: seq<Packet>, got: set<nat>, a: Arrival)
    requires Restoring(f, past, base, sent, got) && a.index < |sent|
    requires Calm(cfg, f, base + a.index, sent[a.index], a)
    ensures |f.stats.residence| == LAT_BUCKETS
    ensures var r := OnReordered(cfg, f, a.others, base + a.index, a.reset, sent[a.index], a.now);
      && Restoring(r, past, base, sent, got + {a.index}) && r.epoch == f.epoch && r.cap == f.cap
      && Progressed(f, r, a.now) && Looked(cfg, f, r, sent[a.index], base + a.index !in f.buf)
  {
    hide Restoring, Looked, Process, Calm, HonoursReset, Classify, Enter, ObserveTraffic;
    EnterRestoring(cfg, f, past, base, sent, got, a);
    var g := Enter(f.(lastSeen := a.now), base + a.index, sent[a.index]);
    ProcessRestores(cfg, g, past, base, sent, got, a);
    RestoringSize(g, past, base, sent, got);
    var (h, out) := Process(cfg, g, a.others, base + a.index, sent[a.index], a.now);
    ClassifyCalm(cfg, f, g, h, out, past, base, sent, got + {a.index}, sent[a.index], a);
  }

  lemma RestoringSize(f: Flow, past: Before, base: nat, sent: seq<Packet>, got: set<nat>)
    requires Restoring(f, past, base, sent, got)
    ensures |f.stats.residence| == LAT_BUCKETS
  {
  }

  lemma ClassifyCalm(cfg: Config, f: Flow, g: Flow, h: Flow, out: Outcome, past: Before, base: nat,
                     sent: seq<Packet>, got: set<nat>, pkt: Packet, a: Arrival)
    requires SameSettings(f, g) && SameSettings(g, h) && out != DroppedFarAhead
    requires Restoring(h, past, base, sent, got) && (out != DroppedLimit ==> Classify(cfg, f, pkt).1 == Unchanged)
    ensures |h.stats.residence| == LAT_BUCKETS
    ensures var r := ObserveTraffic(cfg, h, out, pkt, a.now);
      && Restoring(r, past, base, sent, got) && r.epoch == f.epoch && r.cap == f.cap
      && r.lastProgress == h.lastProgress && Looked(cfg, f, r, pkt, out != DroppedLimit)
  {
    hide Emitted, InnerUdpPayloadLen;
  }

  // ----- the whole run -----

  ghost function Feed(cfg: Config, f: Flow, base: nat, sent: seq<Packet>, arrivals: seq<Arrival>): (r: Flow)
    requires |f.stats.residence| == LAT_BUCKETS
    requires forall a :: a in arrivals ==> a.index < |sent|
    ensures |r.stats.residence| == LAT_BUCKETS
    decreases |arrivals|
  {
    if arrivals == [] then f
    else
      var a := arrivals[0];
      Feed(cfg, OnReordered(cfg, f, a.others, base + a.index, a.reset, sent[a.index], a.now), base, sent, arrivals[1..])
  }

  ghost predicate CalmRun(cfg: Config, f: Flow, base: nat, sent: seq<Packet>, arrivals: seq<Arrival>)
    requires |f.stats.residence| == LAT_BUCKETS
    requires forall a :: a in arrivals ==> a.index < |sent|
    decreases |arrivals|
  {
    arrivals != [] ==>
      var a := arrivals[0];
      && Calm(cfg, f, base + a.index, sent[a.index], a)
      && CalmRun(cfg, OnReordered(cfg, f, a.others, base + a.index, a.reset, sent[a.index], a.now),
                 base, sent, arrivals[1..])
  }

  function Indices(arrivals: seq<Arrival>): set<nat> {
    set a | a in arrivals :: a.index
  }

  lemma {:induction false} FeedRestores(cfg: Config, f: Flow, past: Before, base: nat, sent: seq<Packet>, got: set<nat>,
                                        arrivals: seq<Arrival>)
    requires Restoring(f, past, base, sent, got)
    requires |f.stats.residence| == LAT_BUCKETS
    requires forall a :: a in arrivals ==> a.index < |sent|
    requires CalmRun(cfg, f, base, sent, arrivals)
    ensures var r := Feed(cfg, f, base, sent, arrivals);
      Restoring(r, past, base, sent, got + Indices(arrivals)) && r.epoch == f.epoch
    decreases |arrivals|
  {
    hide Restoring, OnReordered, Calm;
    if arrivals == [] {
      assert got + Indices(arrivals) == got;
    } else {
      var a := arrivals[0];
      ArrivalRestores(cfg, f, past, base, sent, got, a);
      var g := OnReordered(cfg, f, a.others, base + a.index, a.reset, sent[a.index], a.now);
      FeedRestores(cfg, g, past, base, sent, got + {a.index}, arrivals[1..]);
      IndicesSplit(arrivals);
      assert got + {a.index} + Indices(arrivals[1..]) == got + Indices(arrivals);
    }
  }

  lemma IndicesSplit(arrivals: seq<Arrival>)
    requires arrivals != []
    ensures Indices(arrivals) == {arrivals[0].index} + Indices(arrivals[1..])
  {
    assert arrivals == [arrivals[0]] + arrivals[1..];
  }

  /** The flow as the first arrival of the run finds it: new, or one that has had an incarnation before and made no progress
      for longer than the grace period, the arrival carrying a reset mark. */
  ghost predicate Begins(cfg: Config, f: Flow, a: Arrival) {
    if f.initialized then StartsEpoch(cfg, f, a.reset, a.now) else a.reset || (f.classifySeen == 0 && f.classifyLarge == 0)
  }

  /** What counts as past for the run: a reset also counts what it drops. */
  function PastOf(f: Flow, reset: bool): Before {
    Before(f.log, if reset then CountDiscard(f.stats, |f.buf|, f.armed) else f.stats)
  }

  /** The first arrival starts the run, whether or not it carries a reset mark, and whatever the flow was before. */
  lemma FirstArrival(cfg: Config, f: Flow, base: nat, sent: seq<Packet>, a: Arrival)
    requires FlowInv(f) && Begins(cfg, f, a) && |sent| > 0 && a.index == 0
    requires a.reset || Classify(cfg, f, sent[0]).1 == Unchanged
    ensures |f.stats.residence| == LAT_BUCKETS
    ensures var r := OnReordered(cfg, f, a.others, base, a.reset, sent[0], a.now);
      && Restoring(r, PastOf(f, a.reset), base, sent, {0}) && r.cap == f.cap
      && r.epoch == f.epoch + (if a.reset then 1 else 0) && r.lastProgress == a.now
      && if a.reset then r.classifySeen == 0 && r.classifyLarge == 0 else Looked(cfg, f, r, sent[0], true)
  {
    hide StepInv, DeliverCurrent, ObserveTraffic, HeldTags, Restoring, Classify, OnReordered, Restarted;
    InvSize(f);
    if a.reset {
      ResetStartsEpoch(cfg, f, a.others, base, a.reset, sent[0], a.now);
      RestartedRestores(f, OnReordered(cfg, f, a.others, base, a.reset, sent[0], a.now), base, sent, a.now);
    } else {
      UnmarkedArrival(cfg, f, base, sent, a);
    }
  }

  lemma RestartedRestores(f: Flow, r: Flow, base: nat, sent: seq<Packet>, now: nat)
    requires |sent| > 0 && Restarted(f, r, base, sent[0], now) && |r.stats.residence| == LAT_BUCKETS
    ensures Restoring(r, PastOf(f, true), base, sent, {0}) && r.cap == f.cap && r.epoch == f.epoch + 1
    ensures r.lastProgress == now && r.classifySeen == 0 && r.classifyLarge == 0
  {
    assert Emitted(r.epoch, base, sent, 1) == [Delivery(Tag(r.epoch, base, sent[0]), true)];
  }

  lemma UnmarkedArrival(cfg: Config, f: Flow, base: nat, sent: seq<Packet>, a: Arrival)
    requires FlowInv(f) && !f.initialized && |sent| > 0 && a.index == 0 && !a.reset
    requires |f.stats.residence| == LAT_BUCKETS && Classify(cfg, f, sent[0]).1 == Unchanged
    ensures var r := OnReordered(cfg, f, a.others, base, a.reset, sent[0], a.now);
      && Restoring(r, PastOf(f, a.reset), base, sent, {0}) && r.cap == f.cap
      && r.epoch == f.epoch && r.lastProgress == a.now && Looked(cfg, f, r, sent[0], true)
  {
    hide StepInv, DeliverCurrent, ObserveTraffic, Restoring, Classify, Looked;
    var g := Enter(f.(lastSeen := a.now), base, sent[0]);
    FirstDelivery(g, PastOf(f, false), base, sent, a.now);
    ClassifyCalm(cfg, f, g, DeliverCurrent(g.(initialized := true), base, sent[0], a.now), Delivered,
                 PastOf(f, false), base, sent, {0}, sent[0], a);
  }

  lemma FirstDelivery(f: Flow, past: Before, base: nat, sent: seq<Packet>, now: nat)
    requires |sent| > 0 && f.buf == map[] && f.log == past.log && !f.passThrough
    requires |f.stats.residence| == LAT_BUCKETS && OnlyFilled(past.stats, f.stats)
    ensures var g := f.(initialized := true); var r := DeliverCurrent(g, base, sent[0], now);
      Restoring(r, past, base, sent, {0}) && SameSettings(f, r) && |r.stats.residence| == LAT_BUCKETS && r.lastProgress == now
  {
    hide Record;
    RecordSize(f.stats.(delivered := f.stats.delivered + 1), now, now);
    RecordPeriods(past.stats, f.stats.(delivered := f.stats.delivered + 1), now, now);
    assert Emitted(f.epoch, base, sent, 1) == [Delivery(Tag(f.epoch, base, sent[0]), true)];
  }

  lemma RecordPeriods(was: Stats, st: Stats, now: nat, enqueued: nat)
    requires |st.residence| == LAT_BUCKETS && OnlyFilled(was, st)
    ensures OnlyFilled(was, Record(st, now, enqueued))
  {
  }

  /** The run has come out once, in order and unaltered, behind what the flow had handed out before; nothing is left
      behind, and every gap period opened since has been filled. */
  ghost predicate Complete(f: Flow, r: Flow, reset: bool, base: nat, sent: seq<Packet>) {
    && r.epoch == f.epoch + (if reset then 1 else 0)
    && r.log == f.log + Emitted(r.epoch, base, sent, |sent|)
    && r.buf == map[] && !r.armed
    && r.stats.gaps - f.stats.gaps == r.stats.filled - f.stats.filled
  }

  /** Restoration, for the first incarnation of a flow and for every later one. */
  lemma Restoration(cfg: Config, f: Flow, base: nat, sent: seq<Packet>, arrivals: seq<Arrival>)
    requires FlowInv(f)
    requires arrivals != [] && arrivals[0].index == 0 && Begins(cfg, f, arrivals[0])
    requires forall i :: 0 <= i < |sent| ==> i in Indices(arrivals)
    requires forall a :: a in arrivals ==> a.index < |sent|
    requires arrivals[0].reset || Classify(cfg, f, sent[0]).1 == Unchanged
    requires |f.stats.residence| == LAT_BUCKETS
    requires var first := OnReordered(cfg, f, arrivals[0].others, base, arrivals[0].reset, sent[0], arrivals[0].now);
      CalmRun(cfg, first, base, sent, arrivals[1..])
    ensures Complete(f, Feed(cfg, f, base, sent, arrivals), arrivals[0].reset, base, sent)
  {
    hide FlowInv, Emitted, OnReordered, Restoring, Begins, Complete, Classify;
    var a := arrivals[0];
    var past := PastOf(f, a.reset);
    FirstArrival(cfg, f, base, sent, a);
    var first := OnReordered(cfg, f, a.others, base, a.reset, sent[0], a.now);
    FeedRestores(cfg, first, past, base, sent, {0}, arrivals[1..]);
    IndicesSplit(arrivals);
    var r := Feed(cfg, f, base, sent, arrivals);
    assert Restoring(r, past, base, sent, Indices(arrivals));
    FeedKeeps(cfg, f, base, sent, arrivals);
    if !a.reset {
      UnmarkedIsNew(cfg, f, a);
    }
    RestoredCompletely(f, r, a.reset, base, sent, Indices(arrivals));
  }

  lemma {:induction false} FeedKeeps(cfg: Config, f: Flow, base: nat, sent: seq<Packet>, arrivals: seq<Arrival>)
    requires FlowInv(f) && |f.stats.residence| == LAT_BUCKETS
    requires forall a :: a in arrivals ==> a.index < |sent|
    ensures FlowInv(Feed(cfg, f, base, sent, arrivals))
    decreases |arrivals|
  {
    hide FlowInv, OnReordered;
    if arrivals != [] {
      var a := arrivals[0];
      OnReorderedKeeps(cfg, f, a.others, base + a.index, a.reset, sent[a.index], a.now);
      FeedKeeps(cfg, OnReordered(cfg, f, a.others, base + a.index, a.reset, sent[a.index], a.now), base, sent, arrivals[1..]);
    }
  }

  lemma RestoredCompletely(f: Flow, r: Flow, reset: bool, base: nat, sent: seq<Packet>, got: set<nat>)
    requires FlowInv(f) && FlowInv(r) && (reset || !f.initialized) && r.epoch == f.epoch + (if reset then 1 else 0)
    requires Restoring(r, PastOf(f, reset), base, sent, got) && forall i :: 0 <= i < |sent| ==> i in got
    ensures Complete(f, r, reset, base, sent)
  {
    hide StepInv, Emitted;
    var m := r.expected - base;
    assert m == |sent| || m in got;
    assert forall s :: s in r.buf ==> r.expected <= s < base + |sent|;
  }

  // ----- conditions on the inputs alone -----

  /** The first index, from i on, that has not arrived. */
  function MissingFrom(got: set<nat>, i: nat, n: nat): (m: nat)
    requires i <= n
    ensures i <= m <= n && (m < n ==> m !in got)
    ensures forall j :: i <= j < m ==> j in got
    decreases n - i
  {
    if i == n || i !in got then i else MissingFrom(got, i + 1, n)
  }

  /** The number of bytes that have arrived, from index i on. */
  function WaitingFrom(sent: seq<Packet>, got: set<nat>, i: nat): nat
    requires i <= |sent|
    decreases |sent| - i
  {
    if i == |sent| then 0 else (if i in got then |sent[i]| else 0) + WaitingFrom(sent, got, i + 1)
  }

  /** The cursor stands at the first packet still missing. */
  lemma CursorIsMissing(f: Flow, past: Before, base: nat, sent: seq<Packet>, got: set<nat>)
    requires Restoring(f, past, base, sent, got)
    ensures f.expected == base + MissingFrom(got, 0, |sent|)
  {
    hide Emitted;
    var m := MissingFrom(got, 0, |sent|);
    assert base + m < f.expected ==> m in got;
    assert f.expected < base + m ==> f.expected - base in got;
  }

  /** What is buffered is what waits behind it. */
  lemma {:induction false} BufferedIsWaiting(buf: map<nat, Item>, base: nat, sent: seq<Packet>, got: set<nat>, i: nat)
    requires i <= |sent|
    requires forall s :: s in buf ==> base + i <= s < base + |sent| && buf[s].pkt == sent[s - base]
    requires forall j :: i <= j < |sent| ==> (j in got <==> base + j in buf)
    ensures Total(buf, Length) == WaitingFrom(sent, got, i)
    decreases |sent| - i
  {
    hide Total;
    if i == |sent| {
      assert buf == map[];
      TotalEmpty(buf, Length);
    } else {
      var s: nat := base + i;
      if i in got {
        TotalRemove(buf, Length, s);
      }
      BufferedIsWaiting(buf - {s}, base, sent, got, i + 1);
      assert i !in got ==> buf - {s} == buf;
    }
  }

  lemma RestoringWaits(f: Flow, past: Before, base: nat, sent: seq<Packet>, got: set<nat>)
    requires Restoring(f, past, base, sent, got)
    ensures BufferedBytes(f) == WaitingFrom(sent, got, MissingFrom(got, 0, |sent|))
  {
    hide Emitted, Total;
    CursorIsMissing(f, past, base, sent, got);
    BufferedIsWaiting(f.buf, base, sent, got, MissingFrom(got, 0, |sent|));
  }

  /** The packets the classifier is shown: all but repeats of what still waits. */
  ghost function Shown(sent: seq<Packet>, got: set<nat>, arrivals: seq<Arrival>): seq<Packet>
    decreases |arrivals|
  {
    if arrivals == [] then []
    else
      var i := arrivals[0].index;
      (if i >= |sent| || (i in got && i > MissingFrom(got, 0, |sent|)) then [] else [sent[i]])
      + Shown(sent, got + {i}, arrivals[1..])
  }

  /** The same for a run from its first arrival on; a first packet with a reset mark is not shown. */
  ghost function ShownInRun(sent: seq<Packet>, arrivals: seq<Arrival>): seq<Packet>
    requires |sent| > 0 && arrivals != []
  {
    (if arrivals[0].reset then [] else [sent[0]]) + Shown(sent, {0}, arrivals[1..])
  }

  /** The classifier, shown these packets, does not demote: it is switched off, does not get to the end of its window,
      or finds enough large packets in it. */
  ghost predicate Undemotable(cfg: Config, shown: seq<Packet>) {
    || cfg.forceNoDemotion || cfg.classifyWindow == 0 || |shown| < cfg.classifyWindow
    || LargeCount(cfg, shown[..cfg.classifyWindow]) > cfg.maxLarge
  }

  /** The packet lies less than a window ahead of the first one missing; if it is early, it fits the byte budgets beside
      what already waits; and a reset mark arrives inside the grace, counted from the first arrival at `start`. */
  ghost predicate Fits(cfg: Config, cap: nat, sent: seq<Packet>, got: set<nat>, start: nat, a: Arrival) {
    && a.index < |sent|
    && (var missing := MissingFrom(got, 0, |sent|);
        && a.index < missing + cap
        && (a.index > missing && a.index !in got ==>
              && WaitingFrom(sent, got, missing) + |sent[a.index]| <= cfg.maxFlowBytes
              && a.others + WaitingFrom(sent, got, missing) + |sent[a.index]| <= cfg.maxPoolBytes))
    && start <= a.now && (a.reset ==> a.now - start <= cfg.resetGraceMs * 1000)
  }

  /** Every arrival fits, given those before it. */
  ghost predicate Roomy(cfg: Config, cap: nat, sent: seq<Packet>, got: set<nat>, start: nat, arrivals: seq<Arrival>)
    decreases |arrivals|
  {
    arrivals != [] ==>
      Fits(cfg, cap, sent, got, start, arrivals[0]) &&
      Roomy(cfg, cap, sent, got + {arrivals[0].index}, start, arrivals[1..])
  }

  function Cut(shown: seq<Packet>, n: nat): seq<Packet> {
    if |shown| <= n then shown else shown[..n]
  }

  /** The clock of the flow has not fallen behind the start, and its classifier has counted what it was shown. */
  ghost predicate Paced(cfg: Config, f: Flow, start: nat, shown: seq<Packet>) {
    && f.lastProgress >= start
    && (cfg.forceNoDemotion ||
        (f.classifySeen == |Cut(shown, cfg.classifyWindow)| &&
         f.classifyLarge == LargeCount(cfg, Cut(shown, cfg.classifyWindow))))
  }

  /** One more packet shown, of a list that does not demote. */
  lemma ShownNext(cfg: Config, f: Flow, shown: seq<Packet>, pkt: Packet, more: seq<Packet>)
    requires Undemotable(cfg, shown + [pkt] + more)
    requires cfg.forceNoDemotion ||
             (f.classifySeen == |Cut(shown, cfg.classifyWindow)| &&
              f.classifyLarge == LargeCount(cfg, Cut(shown, cfg.classifyWindow)))
    ensures var (g, verdict) := Classify(cfg, f, pkt); var next := Cut(shown + [pkt], cfg.classifyWindow);
      verdict == Unchanged && (cfg.forceNoDemotion || (g.classifySeen == |next| && g.classifyLarge == LargeCount(cfg, next)))
  {
    hide InnerUdpPayloadLen;
    if |shown| < cfg.classifyWindow {
      var next := shown + [pkt];
      assert next[..|next| - 1] == shown;
      assert |next| == cfg.classifyWindow ==> (shown + [pkt] + more)[..cfg.classifyWindow] == next;
    } else {
      assert Cut(shown + [pkt], cfg.classifyWindow) == Cut(shown, cfg.classifyWindow);
    }
  }

  lemma FitsIsCalm(cfg: Config, f: Flow, past: Before, base: nat, sent: seq<Packet>, got: set<nat>, start: nat, a: Arrival)
    requires Restoring(f, past, base, sent, got) && FlowInv(f) && f.lastProgress >= start
    requires Fits(cfg, f.cap, sent, got, start, a)
    requires base + a.index !in f.buf ==> Classify(cfg, f, sent[a.index]).1 == Unchanged
    ensures Calm(cfg, f, base + a.index, sent[a.index], a)
  {
    hide StepInv, Emitted, BufferedBytes, Classify, WaitingFrom, MissingFrom;
    CursorIsMissing(f, past, base, sent, got);
    RestoringWaits(f, past, base, sent, got);
    SettledWindowed(f, multiset{});
    CountBelowCap(f);
  }

  /** Whether the classifier is shown an arrival depends on the arrivals alone. */
  lemma ShownIff(f: Flow, past: Before, base: nat, sent: seq<Packet>, got: set<nat>, i: nat)
    requires Restoring(f, past, base, sent, got) && i < |sent|
    ensures base + i in f.buf <==> i in got && i > MissingFrom(got, 0, |sent|)
  {
    hide Emitted;
    CursorIsMissing(f, past, base, sent, got);
  }

  lemma {:induction false} RoomyIndices(cfg: Config, cap: nat, sent: seq<Packet>, got: set<nat>, start: nat,
                                        arrivals: seq<Arrival>)
    requires Roomy(cfg, cap, sent, got, start, arrivals)
    ensures forall a :: a in arrivals ==> a.index < |sent|
    decreases |arrivals|
  {
    hide MissingFrom, WaitingFrom;
    if arrivals != [] {
      RoomyIndices(cfg, cap, sent, got + {arrivals[0].index}, start, arrivals[1..]);
      assert arrivals == [arrivals[0]] + arrivals[1..];
    }
  }

  lemma {:induction false} RoomyRunIsCalm(cfg: Config, f: Flow, past: Before, base: nat, sent: seq<Packet>, got: set<nat>,
                                          start: nat, shown: seq<Packet>, arrivals: seq<Arrival>)
    requires Restoring(f, past, base, sent, got) && FlowInv(f) && |f.stats.residence| == LAT_BUCKETS
    requires Paced(cfg, f, start, shown) && Roomy(cfg, f.cap, sent, got, start, arrivals)
    requires Undemotable(cfg, shown + Shown(sent, got, arrivals))
    ensures forall a :: a in arrivals ==> a.index < |sent|
    ensures CalmRun(cfg, f, base, sent, arrivals)
    decreases |arrivals|
  {
    hide Restoring, FlowInv, OnReordered, Calm, Undemotable, Progressed, MissingFrom, WaitingFrom, Classify, Cut, LargeCount;
    RoomyIndices(cfg, f.cap, sent, got, start, arrivals);
    if arrivals != [] {
      var a := arrivals[0];
      var next, more := got + {a.index}, Shown(sent, got + {a.index}, arrivals[1..]);
      var isShown := base + a.index !in f.buf;
      ShownIff(f, past, base, sent, got, a.index);
      var now := if isShown then shown + [sent[a.index]] else shown;
      assert shown + Shown(sent, got, arrivals) == now + more;
      if isShown {
        ShownNext(cfg, f, shown, sent[a.index], more);
      }
      FitsIsCalm(cfg, f, past, base, sent, got, start, a);
      ArrivalRestores(cfg, f, past, base, sent, got, a);
      OnReorderedKeeps(cfg, f, a.others, base + a.index, a.reset, sent[a.index], a.now);
      var g := OnReordered(cfg, f, a.others, base + a.index, a.reset, sent[a.index], a.now);
      ProgressLater(f, g, start, a.now);
      RoomyRunIsCalm(cfg, g, past, base, sent, next, start, now, arrivals[1..]);
    }
  }

  lemma ProgressLater(f: Flow, g: Flow, start: nat, now: nat)
    requires f.lastProgress >= start && now >= start && Progressed(f, g, now)
    ensures g.lastProgress >= start
  {
  }

  /** Restoration from conditions on the inputs alone, for runs of any length, in whatever incarnation of the flow. */
  lemma RestorationOfRoomyRun(cfg: Config, f: Flow, base: nat, sent: seq<Packet>, arrivals: seq<Arrival>)
    requires FlowInv(f)
    requires arrivals != [] && arrivals[0].index == 0 && |sent| > 0 && Begins(cfg, f, arrivals[0])
    requires forall i :: 0 <= i < |sent| ==> i in Indices(arrivals)
    requires Undemotable(cfg, ShownInRun(sent, arrivals)) && Roomy(cfg, f.cap, sent, {0}, arrivals[0].now, arrivals[1..])
    ensures |f.stats.residence| == LAT_BUCKETS && (forall a :: a in arrivals ==> a.index < |sent|)
    ensures Complete(f, Feed(cfg, f, base, sent, arrivals), arrivals[0].reset, base, sent)
  {
    hide FlowInv, Emitted, OnReordered, Restoring, Roomy, Undemotable, Classify, Cut, LargeCount, Shown, StartsEpoch, Complete;
    var a := arrivals[0];
    InvSize(f);
    assert arrivals == [a] + arrivals[1..];
    RoomyIndices(cfg, f.cap, sent, {0}, a.now, arrivals[1..]);
    var shown, more := if a.reset then [] else [sent[0]], Shown(sent, {0}, arrivals[1..]);
    NothingShown(cfg);
    if !a.reset {
      UnmarkedIsNew(cfg, f, a);
      assert [] + [sent[0]] + more == ShownInRun(sent, arrivals);
      assert [] + [sent[0]] == [sent[0]];
      ShownNext(cfg, f, [], sent[0], more);
    }
    FirstArrival(cfg, f, base, sent, a);
    OnReorderedKeeps(cfg, f, a.others, base, a.reset, sent[0], a.now);
    var first := OnReordered(cfg, f, a.others, base, a.reset, sent[0], a.now);
    RoomyRunIsCalm(cfg, first, PastOf(f, a.reset), base, sent, {0}, a.now, shown, arrivals[1..]);
    Restoration(cfg, f, base, sent, arrivals);
  }

  lemma UnmarkedIsNew(cfg: Config, f: Flow, a: Arrival)
    requires Begins(cfg, f, a) && !a.reset
    ensures !f.initialized && f.classifySeen == 0 && f.classifyLarge == 0
  {
  }

  lemma NothingShown(cfg: Config)
    ensures |Cut([], cfg.classifyWindow)| == 0 && LargeCount(cfg, Cut([], cfg.classifyWindow)) == 0
  {
  }
}
