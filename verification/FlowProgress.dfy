/** Delivery order and progress: what is buffered comes out in ascending order, however the gap is closed. */
module FlowProgress {
  import opened Ring
  import opened ReorderModel
  import opened FlowInvariants

  /** The deliveries that would result from handing out the buffer, lowest number first. */
  ghost function Ascending(buf: map<nat, Item>, epoch: nat): seq<Delivery>
    decreases |buf|
  {
    if buf == map[] then []
    else
      var s := Lowest(buf);
      [Delivery(Tag(epoch, s, buf[s].pkt), true)] + Ascending(buf - {s}, epoch)
  }

  /** It is strictly ascending, and holds exactly the buffered packets. */
  lemma {:induction false} AscendingIsSorted(buf: map<nat, Item>, epoch: nat)
    ensures var a := Ascending(buf, epoch);
      && |a| == |buf|
      && (forall d :: d in a ==> d.ordered && d.tag in HeldTags(buf, epoch))
      && (forall t :: t in HeldTags(buf, epoch) ==> Delivery(t, true) in a)
      && (forall i, j :: 0 <= i < j < |a| ==> a[i].tag.seqNo < a[j].tag.seqNo)
    decreases |buf|
  {
    if buf != map[] {
      AscendingIsSorted(buf - {Lowest(buf)}, epoch);
    }
  }

  /** Everything delivered so far, followed by everything still buffered. */
  ghost function Output(f: Flow): seq<Delivery> {
    f.log + Ascending(f.buf, f.epoch)
  }

  ghost predicate Ahead(f: Flow) {
    !f.passThrough && |f.stats.residence| == LAT_BUCKETS && forall s :: s in f.buf ==> f.expected <= s
  }

  /** Handing out the lowest packet moves it from the end of the output's future to its past. */
  lemma TakeLowestOutput(f: Flow, now: nat)
    requires Ahead(f) && IsLowest(f.buf, f.expected)
    ensures var g := TakeNext(f, now); Ahead(g) && Output(g) == Output(f) && g.epoch == f.epoch && |g.buf| < |f.buf|
  {
    LowestUnique(f.buf, f.expected);
    var g := TakeNext(f, now);
    var d := Delivery(Tag(f.epoch, f.expected, f.buf[f.expected].pkt), true);
    assert f.log + ([d] + Ascending(g.buf, f.epoch)) == (f.log + [d]) + Ascending(g.buf, f.epoch);
  }

  lemma {:induction false} DrainOutput(f: Flow, now: nat)
    requires Ahead(f)
    ensures var r := Drain(f, now); Ahead(r) && Output(r) == Output(f) && r.epoch == f.epoch
    decreases |f.buf|
  {
    hide Output, Lowest;
    if f.expected in f.buf {
      TakeLowestOutput(f, now);
      DrainOutput(TakeNext(f, now), now);
    }
  }

  lemma SkipAndDrainOutput(f: Flow, now: nat)
    requires Ahead(f) && f.buf != map[]
    ensures var r := SkipAndDrain(f, now); Ahead(r) && Output(r) == Output(f) && r.epoch == f.epoch
  {
    hide Drain, Lowest, Ascending;
    DrainOutput(f.(expected := Lowest(f.buf)), now);
  }

  /** Neither a timeout nor an overflow flush reorders, loses or duplicates anything. */
  lemma GapTimeoutOutput(f: Flow, now: nat)
    requires Ahead(f)
    ensures Output(GapTimeout(f, now)) == Output(f)
  {
    hide SkipAndDrain, Ascending;
    if f.buf != map[] {
      SkipAndDrainOutput(f.(stats := f.stats.(timedOut := f.stats.timedOut + 1)), now);
    }
  }

  lemma OverflowFlushOutput(f: Flow, now: nat)
    requires Ahead(f) && f.buf != map[]
    ensures Output(OverflowFlush(f, now)) == Output(f)
  {
    hide SkipAndDrain, Ascending;
    SkipAndDrainOutput(f, now);
  }

  lemma OutputOfEmpty(f: Flow)
    requires f.buf == map[]
    ensures Output(f) == f.log
  {
  }

  lemma OutputIgnoresCursor(f: Flow, e: nat)
    ensures Output(f.(expected := e)) == Output(f)
  {
  }

  lemma {:induction false} FlushAscendingOutput(f: Flow, now: nat)
    requires Ahead(f)
    ensures var r := FlushAscending(f, now); r.log == Output(f) && r.buf == map[]
    decreases |f.buf|
  {
    hide Output, Lowest;
    if f.buf == map[] {
      OutputOfEmpty(f);
    } else {
      var g := f.(expected := Lowest(f.buf));
      OutputIgnoresCursor(f, g.expected);
      TakeLowestOutput(g, now);
      FlushAscendingOutput(TakeNext(g, now), now);
    }
  }

  /** A demotion hands out the whole buffer in ascending order. */
  lemma DemoteFlushOutput(f: Flow, now: nat)
    requires Ahead(f)
    ensures DemoteFlush(f, now).log == Output(f) && DemoteFlush(f, now).buf == map[]
  {
    hide FlushAscending, Ascending;
    FlushAscendingOutput(if f.armed then f.(stats := f.stats.(demoteEnded := f.stats.demoteEnded + 1)) else f, now);
  }

  // ----- no new arrivals -----

  ghost function Ticks(f: Flow, times: seq<nat>): (r: Flow)
    requires |f.stats.residence| == LAT_BUCKETS
    decreases |times|
  {
    if times == [] then f else Ticks(TickFlow(f, times[0]), times[1..])
  }

  /** Every tick comes after the deadline then armed, if any. */
  ghost predicate AllExpire(f: Flow, times: seq<nat>)
    requires |f.stats.residence| == LAT_BUCKETS
    decreases |times|
  {
    times != [] ==> (f.armed ==> f.deadline <= times[0]) && AllExpire(TickFlow(f, times[0]), times[1..])
  }

  /** With no new arrivals, as many expired periods as there are buffered packets deliver them all, in ascending order. */
  lemma {:induction false} TimeoutsDeliverAll(f: Flow, times: seq<nat>)
    requires FlowInv(f) && f.initialized && !f.passThrough
    requires |f.stats.residence| == LAT_BUCKETS && AllExpire(f, times) && |times| >= |f.buf|
    ensures var r := Ticks(f, times); r.log == Output(f) && r.buf == map[] && !r.armed
    decreases |times|
  {
    if times != [] {
      var g := TickFlow(f, times[0]);
      TickFlowKeeps(f, times[0]);
      TickFlowStays(f, times[0]);
      TimeoutsDeliverAll(g, times[1..]);
    }
  }

  lemma TickFlowStays(f: Flow, now: nat)
    requires FlowInv(f) && f.initialized && !f.passThrough
    ensures |f.stats.residence| == LAT_BUCKETS
    ensures var r := TickFlow(f, now); Output(r) == Output(f) && r.initialized && !r.passThrough
  {
    hide Conserved, Counted, Orderly, GapTimeout, Ascending;
    StepSize(f, multiset{});
    if Due(f, now) {
      GapTimeoutKeeps(f, now);
      GapTimeoutOutput(f, now);
    }
  }
}
