/** What every receive-side operation keeps, and what it never loses, for one reorder flow. */
module FlowInvariants {
  import opened Totals
  import opened Ring
  import opened ReorderConfig
  import opened ReorderModel

  // ----- the invariant -----

  function Logged(log: seq<Delivery>): multiset<Tag> {
    if log == [] then multiset{} else Logged(log[..|log| - 1]) + multiset{log[|log| - 1].tag}
  }

  function Sum(s: seq<nat>): nat {
    if s == [] then 0 else Sum(s[..|s| - 1]) + s[|s| - 1]
  }

  /** Every packet that entered was delivered, or was dropped, or is still buffered - once, intact,
      in its epoch - except for `owed`, the packet being processed. */
  ghost predicate Conserved(entered: multiset<Tag>, log: seq<Delivery>, dropped: multiset<Tag>,
                            buf: map<nat, Item>, epoch: nat, owed: multiset<Tag>) {
    entered == Logged(log) + dropped + multiset(HeldTags(buf, epoch)) + owed
  }

  function DropCount(st: Stats): nat {
    st.late + st.farAhead + st.duplicate + st.flowLimit + st.poolDrop + st.resetDiscard
  }

  /** The counters tell the truth about the history. */
  ghost predicate Counted(delivered: nat, drops: nat, residence: seq<nat>, log: seq<Delivery>, dropped: multiset<Tag>) {
    && delivered == |log|
    && drops == |dropped|
    && |residence| == LAT_BUCKETS
    && Sum(residence) == delivered
  }

  /** Epochs never go back in the log; within one, ordered deliveries come first and strictly increase,
      and those of the current epoch are below `expected`. */
  ghost predicate Orderly(log: seq<Delivery>, epoch: nat, expected: nat, passThrough: bool) {
    && (forall i :: 0 <= i < |log| ==> log[i].tag.epoch <= epoch)
    && (forall i :: 0 <= i < |log| && log[i].tag.epoch == epoch ==>
          (log[i].ordered ==> log[i].tag.seqNo < expected) && (!passThrough ==> log[i].ordered))
    && (forall i, j :: 0 <= i < j < |log| ==> log[i].tag.epoch <= log[j].tag.epoch)
    && (forall i, j :: 0 <= i < j < |log| && log[i].tag.epoch == log[j].tag.epoch && log[j].ordered ==>
          log[i].ordered && log[i].tag.seqNo < log[j].tag.seqNo)
  }

  /** Buffered numbers lie in the window, `expected` itself included while a run is being delivered. */
  ghost predicate InWindow(buf: map<nat, Item>, expected: nat, cap: nat) {
    forall s :: s in buf ==> expected <= s < expected + cap
  }

  ghost predicate StepInv(f: Flow, owed: multiset<Tag>) {
    && InWindow(f.buf, f.expected, f.cap)
    && Conserved(f.entered, f.log, f.dropped, f.buf, f.epoch, owed)
    && Counted(f.stats.delivered, DropCount(f.stats), f.stats.residence, f.log, f.dropped)
    && Orderly(f.log, f.epoch, f.expected, f.passThrough)
  }

  function PeriodsEnded(st: Stats): nat {
    st.filled + st.timedOut + st.overflowed + st.demoteEnded + st.resetEnded
  }

  /** Every gap period opened has ended in exactly one way, or is the one open now. */
  ghost predicate GapsBalanced(f: Flow) {
    f.stats.gaps == PeriodsEnded(f.stats) + if f.armed then 1 else 0
  }

  /** Nothing deliverable is left behind, and the timer runs exactly while something is buffered. */
  ghost predicate Settled(f: Flow, owed: multiset<Tag>) {
    && StepInv(f, owed)
    && f.expected !in f.buf
    && (f.armed <==> f.buf != map[])
    && GapsBalanced(f)
    && f.cap > 0 && f.waitMs > 0
  }

  ghost predicate FlowInv(f: Flow) {
    && Settled(f, multiset{})
    && (f.passThrough ==> f.buf == map[])
    && (!f.initialized ==> f.buf == map[] && f.expected == 0 && !f.passThrough)
  }

  // ----- what a step never loses -----

  /** The log only grows, by deliveries of the present epoch or later ones, and within an epoch
      a buffered packet stays as it is until it is delivered. */
  ghost predicate Kept(log: seq<Delivery>, buf: map<nat, Item>, epoch: nat,
                       laterLog: seq<Delivery>, laterBuf: map<nat, Item>, laterEpoch: nat) {
    && log <= laterLog
    && epoch <= laterEpoch
    && (forall i :: |log| <= i < |laterLog| ==> epoch <= laterLog[i].tag.epoch)
    && (epoch == laterEpoch ==>
          forall s :: s in buf ==>
            (s in laterBuf && laterBuf[s] == buf[s]) || Delivery(Tag(epoch, s, buf[s].pkt), true) in laterLog)
  }

  ghost predicate Follows(f: Flow, g: Flow) {
    && Kept(f.log, f.buf, f.epoch, g.log, g.buf, g.epoch)
    && (f.initialized ==> g.initialized)
    && (f.initialized && f.epoch == g.epoch ==> f.expected <= g.expected)
    && g.cap == f.cap && g.waitMs == f.waitMs
  }

  lemma KeptTransitive(l0: seq<Delivery>, b0: map<nat, Item>, e0: nat, l1: seq<Delivery>, b1: map<nat, Item>, e1: nat,
                       l2: seq<Delivery>, b2: map<nat, Item>, e2: nat)
    requires Kept(l0, b0, e0, l1, b1, e1) && Kept(l1, b1, e1, l2, b2, e2)
    ensures Kept(l0, b0, e0, l2, b2, e2) && e0 <= e1 <= e2
  {
    if e0 == e2 {
      forall s | s in b0
        ensures (s in b2 && b2[s] == b0[s]) || Delivery(Tag(e0, s, b0[s].pkt), true) in l2
      {
        if !(s in b1 && b1[s] == b0[s]) {
          assert Delivery(Tag(e0, s, b0[s].pkt), true) in l1;
        }
      }
    }
  }

  lemma KeptReflexive(log: seq<Delivery>, buf: map<nat, Item>, epoch: nat)
    ensures Kept(log, buf, epoch, log, buf, epoch)
  {
  }

  lemma FollowsTransitive(f: Flow, g: Flow, h: Flow)
    requires Follows(f, g) && Follows(g, h)
    ensures Follows(f, h)
  {
    hide Kept;
    KeptTransitive(f.log, f.buf, f.epoch, g.log, g.buf, g.epoch, h.log, h.buf, h.epoch);
  }

  // ----- history algebra -----

  lemma LoggedAppend(log: seq<Delivery>, d: Delivery)
    ensures Logged(log + [d]) == Logged(log) + multiset{d.tag}
  {
    assert (log + [d])[..|log|] == log;
  }

  lemma MultisetOfUnion<T>(s: set<T>, x: T)
    requires x !in s
    ensures multiset(s + {x}) == multiset(s) + multiset{x}
  {
  }

  lemma HeldRemove(buf: map<nat, Item>, epoch: nat, s: nat)
    requires s in buf
    ensures multiset(HeldTags(buf, epoch)) ==
            multiset(HeldTags(buf - {s}, epoch)) + multiset{Tag(epoch, s, buf[s].pkt)}
  {
    var t := Tag(epoch, s, buf[s].pkt);
    var rest := HeldTags(buf - {s}, epoch);
    assert HeldTags(buf, epoch) == rest + {t};
    MultisetOfUnion(rest, t);
  }

  lemma {:induction false} HeldSize(buf: map<nat, Item>, epoch: nat)
    ensures |multiset(HeldTags(buf, epoch))| == |buf|
    decreases |buf|
  {
    if buf != map[] {
      var s := Pick(buf);
      HeldRemove(buf, epoch, s);
      HeldSize(buf - {s}, epoch);
    }
  }

  lemma ConservedDeliverHeld(entered: multiset<Tag>, log: seq<Delivery>, dropped: multiset<Tag>,
                             buf: map<nat, Item>, epoch: nat, owed: multiset<Tag>, s: nat, ordered: bool)
    requires Conserved(entered, log, dropped, buf, epoch, owed) && s in buf
    ensures Conserved(entered, log + [Delivery(Tag(epoch, s, buf[s].pkt), ordered)], dropped, buf - {s}, epoch, owed)
  {
    LoggedAppend(log, Delivery(Tag(epoch, s, buf[s].pkt), ordered));
    HeldRemove(buf, epoch, s);
  }

  lemma ConservedDeliverOwed(entered: multiset<Tag>, log: seq<Delivery>, dropped: multiset<Tag>,
                             buf: map<nat, Item>, epoch: nat, t: Tag, ordered: bool)
    requires Conserved(entered, log, dropped, buf, epoch, multiset{t})
    ensures Conserved(entered, log + [Delivery(t, ordered)], dropped, buf, epoch, multiset{})
  {
    LoggedAppend(log, Delivery(t, ordered));
  }

  lemma ConservedDropOwed(entered: multiset<Tag>, log: seq<Delivery>, dropped: multiset<Tag>,
                          buf: map<nat, Item>, epoch: nat, t: Tag)
    requires Conserved(entered, log, dropped, buf, epoch, multiset{t})
    ensures Conserved(entered, log, dropped + multiset{t}, buf, epoch, multiset{})
  {
  }

  lemma ConservedStoreOwed(entered: multiset<Tag>, log: seq<Delivery>, dropped: multiset<Tag>,
                           buf: map<nat, Item>, epoch: nat, s: nat, item: Item)
    requires s !in buf
    requires Conserved(entered, log, dropped, buf, epoch, multiset{Tag(epoch, s, item.pkt)})
    ensures Conserved(entered, log, dropped, buf[s := item], epoch, multiset{})
  {
    HeldRemove(buf[s := item], epoch, s);
    assert buf[s := item] - {s} == buf;
  }

  lemma ConservedDiscard(entered: multiset<Tag>, log: seq<Delivery>, dropped: multiset<Tag>,
                         buf: map<nat, Item>, epoch: nat, later: nat)
    requires Conserved(entered, log, dropped, buf, epoch, multiset{})
    ensures Conserved(entered, log, dropped + multiset(HeldTags(buf, epoch)), map[], later, multiset{})
  {
    assert HeldTags(map[], later) == {};
  }

  lemma ConservedEnter(entered: multiset<Tag>, log: seq<Delivery>, dropped: multiset<Tag>,
                       buf: map<nat, Item>, epoch: nat, t: Tag)
    requires Conserved(entered, log, dropped, buf, epoch, multiset{})
    ensures Conserved(entered + multiset{t}, log, dropped, buf, epoch, multiset{t})
  {
  }

  lemma {:induction false} SumBump(s: seq<nat>, i: nat)
    requires i < |s|
    ensures Sum(s[i := s[i] + 1]) == Sum(s) + 1
  {
    var n := |s| - 1;
    if i == n {
      assert s[i := s[i] + 1][..n] == s[..n];
    } else {
      SumBump(s[..n], i);
      assert s[i := s[i] + 1][..n] == s[..n][i := s[i] + 1];
    }
  }

  lemma CountedEmit(f: Flow, now: nat, s: nat, pkt: Packet, enqueued: nat)
    requires Counted(f.stats.delivered, DropCount(f.stats), f.stats.residence, f.log, f.dropped)
    ensures var g := Emit(f, now, s, pkt, enqueued);
      Counted(g.stats.delivered, DropCount(g.stats), g.stats.residence, g.log, g.dropped)
  {
    SumBump(f.stats.residence, BucketFrom(Residence(now, enqueued), 0));
  }

  lemma CountedDrop(delivered: nat, drops: nat, residence: seq<nat>, log: seq<Delivery>, dropped: multiset<Tag>, t: Tag)
    requires Counted(delivered, drops, residence, log, dropped)
    ensures Counted(delivered, drops + 1, residence, log, dropped + multiset{t})
  {
  }

  lemma CountedDiscard(delivered: nat, drops: nat, residence: seq<nat>, log: seq<Delivery>, dropped: multiset<Tag>,
                       buf: map<nat, Item>, epoch: nat)
    requires Counted(delivered, drops, residence, log, dropped)
    ensures Counted(delivered, drops + |buf|, residence, log, dropped + multiset(HeldTags(buf, epoch)))
  {
    HeldSize(buf, epoch);
  }

  lemma CountedSize(f: Flow)
    requires Counted(f.stats.delivered, DropCount(f.stats), f.stats.residence, f.log, f.dropped)
    ensures |f.stats.residence| == LAT_BUCKETS
  {
  }

  lemma StepSize(f: Flow, owed: multiset<Tag>)
    requires StepInv(f, owed)
    ensures |f.stats.residence| == LAT_BUCKETS
  {
  }

  /** Logging an ordered delivery at or above `expected`, and stepping past it, keeps the order. */
  lemma OrderlyAppend(log: seq<Delivery>, epoch: nat, expected: nat, s: nat, pkt: Packet)
    requires Orderly(log, epoch, expected, false) && expected <= s
    ensures Orderly(log + [Delivery(Tag(epoch, s, pkt), true)], epoch, s + 1, false)
  {
  }

  lemma OrderlySkip(log: seq<Delivery>, epoch: nat, expected: nat, later: nat, passThrough: bool)
    requires Orderly(log, epoch, expected, passThrough) && expected <= later
    ensures Orderly(log, epoch, later, passThrough)
  {
  }

  lemma OrderlyDemote(log: seq<Delivery>, epoch: nat, expected: nat)
    requires Orderly(log, epoch, expected, false)
    ensures Orderly(log, epoch, expected, true)
  {
  }

  /** A new epoch has no deliveries yet, so it may start anywhere. */
  lemma OrderlyNewEpoch(log: seq<Delivery>, epoch: nat, expected: nat, passThrough: bool, s: nat)
    requires Orderly(log, epoch, expected, passThrough)
    ensures Orderly(log, epoch + 1, s, false)
  {
  }

  lemma OrderlyPassThrough(log: seq<Delivery>, epoch: nat, expected: nat, d: Delivery)
    requires Orderly(log, epoch, expected, true) && d.tag.epoch == epoch && !d.ordered
    ensures Orderly(log + [d], epoch, expected, true)
  {
  }

  // ----- delivering from the buffer -----

  lemma TakeNextKeeps(f: Flow, now: nat, owed: multiset<Tag>)
    requires StepInv(f, owed) && !f.passThrough && f.expected in f.buf
    ensures |f.stats.residence| == LAT_BUCKETS
    ensures StepInv(TakeNext(f, now), owed) && Follows(f, TakeNext(f, now))
  {
    hide Conserved, Orderly;
    var item := f.buf[f.expected];
    CountedEmit(f, now, f.expected, item.pkt, item.enqueued);
    hide Counted;
    ConservedDeliverHeld(f.entered, f.log, f.dropped, f.buf, f.epoch, owed, f.expected, true);
    OrderlyAppend(f.log, f.epoch, f.expected, f.expected, item.pkt);
    assert TakeNext(f, now).log[|f.log|] == Delivery(Tag(f.epoch, f.expected, item.pkt), true);
  }

  /** A drain touches neither the timer nor the period counters, and only ever removes from the buffer. */
  ghost predicate OnlyDelivers(f: Flow, g: Flow) {
    && g.initialized == f.initialized && g.cap == f.cap && g.waitMs == f.waitMs
    && g.armed == f.armed && g.deadline == f.deadline
    && g.passThrough == f.passThrough && g.epoch == f.epoch
    && g.stats.gaps == f.stats.gaps && PeriodsEnded(g.stats) == PeriodsEnded(f.stats)
    && |g.buf| <= |f.buf| && f.expected <= g.expected
    && (f.expected in f.buf ==> f.expected < g.expected && |g.buf| < |f.buf|)
  }

  lemma TakeNextOnlyDelivers(f: Flow, now: nat)
    requires f.expected in f.buf && |f.stats.residence| == LAT_BUCKETS
    ensures OnlyDelivers(f, TakeNext(f, now)) && |TakeNext(f, now).buf| < |f.buf|
  {
  }

  lemma OnlyDeliversTransitive(f: Flow, g: Flow, h: Flow)
    requires OnlyDelivers(f, g) && OnlyDelivers(g, h)
    ensures OnlyDelivers(f, h)
  {
  }

  lemma {:induction false} DrainKeeps(f: Flow, now: nat, owed: multiset<Tag>)
    requires StepInv(f, owed) && !f.passThrough
    ensures |f.stats.residence| == LAT_BUCKETS
    ensures var r := Drain(f, now);
      StepInv(r, owed) && r.expected !in r.buf && Follows(f, r) && OnlyDelivers(f, r)
    decreases |f.buf|
  {
    CountedSize(f);
    hide Conserved, Counted, Orderly, Kept;
    if f.expected in f.buf {
      TakeNextKeeps(f, now, owed);
      TakeNextOnlyDelivers(f, now);
      var g := TakeNext(f, now);
      DrainKeeps(g, now, owed);
      hide StepInv;
      FollowsTransitive(f, g, Drain(g, now));
      OnlyDeliversTransitive(f, g, Drain(g, now));
    } else {
      KeptReflexive(f.log, f.buf, f.epoch);
    }
  }

  lemma SkipKeeps(f: Flow, e: nat, owed: multiset<Tag>)
    requires StepInv(f, owed) && f.initialized && !f.passThrough && f.expected <= e && forall s :: s in f.buf ==> e <= s
    ensures StepInv(f.(expected := e), owed) && Follows(f, f.(expected := e))
  {
    hide Conserved, Counted, Orderly, Kept;
    OrderlySkip(f.log, f.epoch, f.expected, e, false);
    KeptReflexive(f.log, f.buf, f.epoch);
  }

  /** Timer, timestamps, classifier and period counters are no part of the packet history. */
  ghost predicate SameHistory(f: Flow, g: Flow) {
    && g.initialized == f.initialized && g.expected == f.expected && g.cap == f.cap && g.waitMs == f.waitMs
    && g.buf == f.buf && g.passThrough == f.passThrough && g.epoch == f.epoch && g.log == f.log
    && g.entered == f.entered && g.dropped == f.dropped
    && g.stats.delivered == f.stats.delivered && DropCount(g.stats) == DropCount(f.stats)
    && g.stats.residence == f.stats.residence
  }

  lemma SameHistoryKeeps(f: Flow, g: Flow, owed: multiset<Tag>)
    requires StepInv(f, owed) && SameHistory(f, g)
    ensures StepInv(g, owed) && Follows(f, g)
  {
    hide Conserved, Counted, Orderly, Kept, InWindow;
    KeptReflexive(f.log, f.buf, f.epoch);
  }

  lemma SkipAndDrainDelivers(f: Flow, now: nat)
    requires f.buf != map[] && |f.stats.residence| == LAT_BUCKETS && Lowest(f.buf) >= f.expected
    requires var g := f.(expected := Lowest(f.buf)); OnlyDelivers(g, Drain(g, now))
    ensures SameHistory(Drain(f.(expected := Lowest(f.buf)), now), SkipAndDrain(f, now))
    ensures OnlyDelivers(f, SkipAndDrain(f, now))
    ensures |SkipAndDrain(f, now).buf| < |f.buf| && SkipAndDrain(f, now).expected > Lowest(f.buf)
  {
    hide Drain, Lowest;
  }

  /** Jumping over missing numbers loses nothing, and makes progress. */
  lemma SkipAndDrainKeeps(f: Flow, now: nat, owed: multiset<Tag>)
    requires StepInv(f, owed) && f.initialized && !f.passThrough && f.buf != map[]
    ensures |f.stats.residence| == LAT_BUCKETS
    ensures var r := SkipAndDrain(f, now);
      && StepInv(r, owed) && r.expected !in r.buf && Follows(f, r)
      && OnlyDelivers(f, r)
      && |r.buf| < |f.buf| && r.expected > Lowest(f.buf) >= f.expected
  {
    CountedSize(f);
    assert Lowest(f.buf) >= f.expected;
    hide StepInv, Follows, OnlyDelivers, SameHistory, Drain, Lowest;
    var g := f.(expected := Lowest(f.buf));
    SkipKeeps(f, Lowest(f.buf), owed);
    DrainKeeps(g, now, owed);
    FollowsTransitive(f, g, Drain(g, now));
    SkipAndDrainDelivers(f, now);
    SameHistoryKeeps(Drain(g, now), SkipAndDrain(f, now), owed);
    FollowsTransitive(f, Drain(g, now), SkipAndDrain(f, now));
  }

  ghost predicate Live(f: Flow, owed: multiset<Tag>) {
    Settled(f, owed) && f.initialized && !f.passThrough
  }

  lemma TimedOutHistory(f: Flow)
    ensures SameHistory(f, f.(stats := f.stats.(timedOut := f.stats.timedOut + 1)))
  {
  }

  lemma GapTimeoutPeriods(f: Flow, now: nat)
    requires |f.stats.residence| == LAT_BUCKETS && f.buf != map[] && f.armed && GapsBalanced(f)
    requires var g := f.(stats := f.stats.(timedOut := f.stats.timedOut + 1)); OnlyDelivers(g, SkipAndDrain(g, now))
    ensures var g := f.(stats := f.stats.(timedOut := f.stats.timedOut + 1));
      var h, r := SkipAndDrain(g, now), GapTimeout(f, now);
      && SameHistory(h, r)
      && r.expected == h.expected && r.buf == h.buf && r.cap == f.cap && r.waitMs == f.waitMs
      && GapsBalanced(r) && (r.armed <==> r.buf != map[])
      && r.initialized == f.initialized && r.passThrough == f.passThrough && r.epoch == f.epoch
      && (r.armed ==> r.deadline == now + r.waitMs * 1000)
  {
    hide SkipAndDrain, Lowest;
  }

  /** A timeout makes progress, and if it arms a new period the deadline lies one full wait ahead. */
  lemma GapTimeoutKeeps(f: Flow, now: nat)
    requires Live(f, multiset{}) && f.buf != map[]
    ensures |f.stats.residence| == LAT_BUCKETS
    ensures var r := GapTimeout(f, now);
      && Live(r, multiset{}) && Follows(f, r) && r.epoch == f.epoch
      && r.expected > f.expected && |r.buf| < |f.buf|
      && (r.armed ==> r.deadline == now + r.waitMs * 1000)
  {
    hide StepInv, Follows, OnlyDelivers, SameHistory, SkipAndDrain, Lowest;
    StepSize(f, multiset{});
    var g := f.(stats := f.stats.(timedOut := f.stats.timedOut + 1));
    TimedOutHistory(f);
    SameHistoryKeeps(f, g, multiset{});
    SkipAndDrainKeeps(g, now, multiset{});
    var h, r := SkipAndDrain(g, now), GapTimeout(f, now);
    GapTimeoutPeriods(f, now);
    SameHistoryKeeps(h, r, multiset{});
    FollowsTransitive(f, g, h);
    FollowsTransitive(f, h, r);
  }

  lemma OverflowFlushPeriods(f: Flow, now: nat)
    requires |f.stats.residence| == LAT_BUCKETS && f.buf != map[] && f.armed && GapsBalanced(f)
    requires OnlyDelivers(f, SkipAndDrain(f, now))
    ensures var h, r := SkipAndDrain(f, now), OverflowFlush(f, now);
      && SameHistory(h, r)
      && r.expected == h.expected && r.buf == h.buf && r.cap == f.cap && r.waitMs == f.waitMs
      && GapsBalanced(r) && (r.armed <==> r.buf != map[])
      && r.initialized == f.initialized && r.passThrough == f.passThrough && r.epoch == f.epoch
  {
    hide SkipAndDrain;
  }

  lemma OverflowFlushKeeps(f: Flow, now: nat, owed: multiset<Tag>)
    requires Live(f, owed) && f.buf != map[]
    ensures |f.stats.residence| == LAT_BUCKETS
    ensures var r := OverflowFlush(f, now);
      && Live(r, owed) && Follows(f, r) && r.epoch == f.epoch
      && r.expected > f.expected && |r.buf| < |f.buf|
  {
    hide StepInv, Follows, OnlyDelivers, SameHistory, SkipAndDrain, Lowest;
    StepSize(f, owed);
    SkipAndDrainKeeps(f, now, owed);
    OverflowFlushPeriods(f, now);
    SameHistoryKeeps(SkipAndDrain(f, now), OverflowFlush(f, now), owed);
    FollowsTransitive(f, SkipAndDrain(f, now), OverflowFlush(f, now));
  }

  // ----- the current packet -----

  lemma DeliverCurrentKeeps(f: Flow, s: nat, pkt: Packet, now: nat)
    requires StepInv(f, multiset{Tag(f.epoch, s, pkt)}) && !f.passThrough
    requires f.expected <= s && forall k :: k in f.buf ==> s < k
    ensures |f.stats.residence| == LAT_BUCKETS
    ensures StepInv(DeliverCurrent(f, s, pkt, now), multiset{}) && Follows(f, DeliverCurrent(f, s, pkt, now))
  {
    hide Conserved, Counted, Orderly, Record;
    StepSize(f, multiset{Tag(f.epoch, s, pkt)});
    CountedEmit(f, now, s, pkt, now);
    ConservedDeliverOwed(f.entered, f.log, f.dropped, f.buf, f.epoch, Tag(f.epoch, s, pkt), true);
    OrderlyAppend(f.log, f.epoch, f.expected, s, pkt);
  }

  lemma DeliverInOrderPeriods(f: Flow, s: nat, pkt: Packet, now: nat)
    requires |f.stats.residence| == LAT_BUCKETS && (f.armed <==> f.buf != map[]) && GapsBalanced(f)
    requires var g := DeliverCurrent(f, s, pkt, now); OnlyDelivers(g, Drain(g, now))
    ensures var r := DeliverInOrder(f, s, pkt, now);
      && SameHistory(Drain(DeliverCurrent(f, s, pkt, now), now), r)
      && GapsBalanced(r) && (r.armed <==> r.buf != map[])
      && r.initialized == f.initialized && r.passThrough == f.passThrough && r.epoch == f.epoch
  {
    hide Drain;
    var g := DeliverCurrent(f, s, pkt, now);
    assert |g.buf| == 0 ==> |Drain(g, now).buf| == 0;
  }

  lemma DeliverInOrderKeeps(f: Flow, s: nat, pkt: Packet, now: nat)
    requires Live(f, multiset{Tag(f.epoch, s, pkt)}) && s == f.expected
    ensures |f.stats.residence| == LAT_BUCKETS
    ensures var r := DeliverInOrder(f, s, pkt, now);
      Live(r, multiset{}) && Follows(f, r) && r.epoch == f.epoch
  {
    DeliverCurrentKeeps(f, s, pkt, now);
    hide StepInv, Follows, OnlyDelivers, SameHistory, Drain;
    var g := DeliverCurrent(f, s, pkt, now);
    DrainKeeps(g, now, multiset{});
    DeliverInOrderPeriods(f, s, pkt, now);
    var h, r := Drain(g, now), DeliverInOrder(f, s, pkt, now);
    SameHistoryKeeps(h, r, multiset{});
    FollowsTransitive(f, g, h);
    FollowsTransitive(f, h, r);
  }

  lemma DropKeeps(f: Flow, g: Flow, s: nat, pkt: Packet)
    requires Live(f, multiset{Tag(f.epoch, s, pkt)})
    requires g == f.(stats := g.stats, dropped := f.dropped + multiset{Tag(f.epoch, s, pkt)})
    requires DropCount(g.stats) == DropCount(f.stats) + 1
    requires g.stats.delivered == f.stats.delivered && g.stats.residence == f.stats.residence
    requires g.stats.gaps == f.stats.gaps && PeriodsEnded(g.stats) == PeriodsEnded(f.stats)
    ensures Live(g, multiset{}) && Follows(f, g) && g.epoch == f.epoch
  {
    hide Conserved, Counted, Orderly, Kept;
    CountedDrop(f.stats.delivered, DropCount(f.stats), f.stats.residence, f.log, f.dropped, Tag(f.epoch, s, pkt));
    ConservedDropOwed(f.entered, f.log, f.dropped, f.buf, f.epoch, Tag(f.epoch, s, pkt));
    KeptReflexive(f.log, f.buf, f.epoch);
  }

  lemma StoreKeeps(f: Flow, s: nat, pkt: Packet, now: nat)
    requires Live(f, multiset{Tag(f.epoch, s, pkt)})
    requires f.expected < s < f.expected + f.cap && s !in f.buf
    ensures var r := Store(f, s, pkt, now);
      Live(r, multiset{}) && Follows(f, r) && r.epoch == f.epoch
  {
    hide Conserved, Counted, Orderly;
    ConservedStoreOwed(f.entered, f.log, f.dropped, f.buf, f.epoch, s, Item(pkt, now));
  }

  lemma ReclassifyKeeps(f: Flow, s: nat, pkt: Packet, now: nat)
    requires Live(f, multiset{Tag(f.epoch, s, pkt)})
    ensures |f.stats.residence| == LAT_BUCKETS
    ensures var (g, out) := Reclassify(f, s, pkt, now);
      && Follows(f, g) && g.epoch == f.epoch
      && (out != Buffered ==> Live(g, multiset{}))
      && (out == Buffered ==> g == f && f.expected < s < f.expected + f.cap && s !in f.buf)
  {
    CountedSize(f);
    hide Conserved, Counted, Orderly, Kept;
    KeptReflexive(f.log, f.buf, f.epoch);
    var g := Reclassify(f, s, pkt, now).0;
    if s == f.expected {
      DeliverInOrderKeeps(f, s, pkt, now);
    } else if g != f {
      DropKeeps(f, g, s, pkt);
    }
  }

  lemma AdmitToPoolKeeps(cfg: Config, f: Flow, others: nat, s: nat, pkt: Packet, now: nat)
    requires Live(f, multiset{Tag(f.epoch, s, pkt)})
    requires f.expected < s < f.expected + f.cap && s !in f.buf
    ensures |f.stats.residence| == LAT_BUCKETS
    ensures var r := AdmitToPool(cfg, f, others, s, pkt, now).0;
      Live(r, multiset{}) && Follows(f, r) && r.epoch == f.epoch
  {
    hide StepInv, Kept;
    StepSize(f, multiset{Tag(f.epoch, s, pkt)});
    if !ExceedsPool(cfg, f, others, |pkt|) {
      StoreKeeps(f, s, pkt, now);
    } else if f.buf == map[] {
      DropKeeps(f, DropPool(f, s, pkt), s, pkt);
    } else {
      var g := OverflowFlush(f, now);
      OverflowFlushKeeps(f, now, multiset{Tag(f.epoch, s, pkt)});
      hide OverflowFlush;
      var (h, out) := Reclassify(g, s, pkt, now);
      ReclassifyKeeps(g, s, pkt, now);
      hide Reclassify;
      if out == Buffered {
        if ExceedsPool(cfg, g, others, |pkt|) {
          DropKeeps(g, DropPool(g, s, pkt), s, pkt);
          FollowsTransitive(f, g, DropPool(g, s, pkt));
        } else {
          StoreKeeps(g, s, pkt, now);
          FollowsTransitive(f, g, Store(g, s, pkt, now));
        }
      } else {
        FollowsTransitive(f, g, h);
      }
    }
  }

  lemma BufferAdmitKeeps(cfg: Config, f: Flow, others: nat, s: nat, pkt: Packet, now: nat)
    requires Live(f, multiset{Tag(f.epoch, s, pkt)})
    requires f.expected < s < f.expected + f.cap
    ensures |f.stats.residence| == LAT_BUCKETS
    ensures var r := BufferAdmit(cfg, f, others, s, pkt, now).0;
      Live(r, multiset{}) && Follows(f, r) && r.epoch == f.epoch
  {
    hide StepInv, Kept, AdmitToPool;
    StepSize(f, multiset{Tag(f.epoch, s, pkt)});
    if s in f.buf {
      DropKeeps(f, DropDuplicate(f, s, pkt), s, pkt);
    } else if !ExceedsFlowLimits(cfg, f, |pkt|) {
      AdmitToPoolKeeps(cfg, f, others, s, pkt, now);
    } else if f.buf == map[] {
      DropKeeps(f, DropFlowLimit(f, s, pkt), s, pkt);
    } else {
      var g := OverflowFlush(f, now);
      OverflowFlushKeeps(f, now, multiset{Tag(f.epoch, s, pkt)});
      hide OverflowFlush;
      var (h, out) := Reclassify(g, s, pkt, now);
      ReclassifyKeeps(g, s, pkt, now);
      hide Reclassify;
      if out == Buffered {
        AdmitToPoolKeeps(cfg, g, others, s, pkt, now);
        FollowsTransitive(f, g, AdmitToPool(cfg, g, others, s, pkt, now).0);
      } else {
        FollowsTransitive(f, g, h);
      }
    }
  }

  lemma ProcessKeeps(cfg: Config, f: Flow, others: nat, s: nat, pkt: Packet, now: nat)
    requires Settled(f, multiset{Tag(f.epoch, s, pkt)}) && !f.passThrough
    requires !f.initialized ==> f.buf == map[] && f.expected == 0
    ensures |f.stats.residence| == LAT_BUCKETS
    ensures var r := Process(cfg, f, others, s, pkt, now).0;
      Live(r, multiset{}) && Follows(f, r) && r.epoch == f.epoch
  {
    hide StepInv, Follows, SameHistory, BufferAdmit, Drain;
    StepSize(f, multiset{Tag(f.epoch, s, pkt)});
    if !f.initialized {
      var g := f.(initialized := true);
      assert StepInv(g, multiset{Tag(f.epoch, s, pkt)}) && Follows(f, g) by {
        InitializeKeeps(f, multiset{Tag(f.epoch, s, pkt)});
      }
      DeliverCurrentKeeps(g, s, pkt, now);
      FollowsTransitive(f, g, DeliverCurrent(g, s, pkt, now));
    } else if s == f.expected {
      DeliverInOrderKeeps(f, s, pkt, now);
    } else if s < f.expected {
      DropKeeps(f, DropLate(f, s, pkt), s, pkt);
    } else if s - f.expected >= f.cap {
      DropKeeps(f, DropFarAhead(f, s, pkt), s, pkt);
    } else {
      BufferAdmitKeeps(cfg, f, others, s, pkt, now);
    }
  }

  lemma InitializeKeeps(f: Flow, owed: multiset<Tag>)
    requires StepInv(f, owed) && !f.initialized
    ensures StepInv(f.(initialized := true), owed) && Follows(f, f.(initialized := true))
  {
    hide Conserved, Counted, Orderly, Kept, InWindow;
    KeptReflexive(f.log, f.buf, f.epoch);
  }

  // ----- demotion, reset, one datagram -----

  lemma {:induction false} FlushAscendingKeeps(f: Flow, now: nat)
    requires StepInv(f, multiset{}) && f.initialized && !f.passThrough
    ensures |f.stats.residence| == LAT_BUCKETS
    ensures var r := FlushAscending(f, now);
      StepInv(r, multiset{}) && r.buf == map[] && Follows(f, r) && OnlyDelivers(f, r)
    decreases |f.buf|
  {
    CountedSize(f);
    if f.buf == map[] {
      KeptReflexive(f.log, f.buf, f.epoch);
    } else {
      var e := Lowest(f.buf);
      assert f.expected <= e;
      hide StepInv, Follows, OnlyDelivers, Lowest;
      var g := f.(expected := e);
      var h := TakeNext(g, now);
      var r := FlushAscending(h, now);
      SkipKeeps(f, e, multiset{});
      TakeNextKeeps(g, now, multiset{});
      SkipTakeOnlyDelivers(f, e, now);
      FlushAscendingKeeps(h, now);
      hide FlushAscending;
      FollowsTransitive(f, g, h);
      FollowsTransitive(f, h, r);
      OnlyDeliversTransitive(f, h, r);
    }
  }

  lemma SkipTakeOnlyDelivers(f: Flow, e: nat, now: nat)
    requires e in f.buf && |f.stats.residence| == LAT_BUCKETS && f.expected <= e
    ensures var h := TakeNext(f.(expected := e), now);
      OnlyDelivers(f, h) && |h.buf| < |f.buf| && h.initialized == f.initialized && h.passThrough == f.passThrough
  {
  }

  lemma DemoteEndedHistory(f: Flow)
    ensures SameHistory(f, f.(stats := f.stats.(demoteEnded := f.stats.demoteEnded + 1))) && SameHistory(f, f)
  {
  }

  lemma DemoteFlushPeriods(f: Flow, g: Flow, now: nat)
    requires |f.stats.residence| == LAT_BUCKETS && GapsBalanced(f)
    requires g == if f.armed then f.(stats := f.stats.(demoteEnded := f.stats.demoteEnded + 1)) else f
    requires OnlyDelivers(g, FlushAscending(g, now))
    ensures var h, r := FlushAscending(g, now), DemoteFlush(f, now);
      && SameHistory(h, r)
      && r.expected == h.expected && r.buf == h.buf && r.cap == f.cap && r.waitMs == f.waitMs
      && GapsBalanced(r) && !r.armed && r.epoch == f.epoch && r.initialized == f.initialized && r.passThrough == f.passThrough
  {
    hide FlushAscending;
  }

  lemma DemoteFlushKeeps(f: Flow, now: nat)
    requires Live(f, multiset{})
    ensures |f.stats.residence| == LAT_BUCKETS
    ensures var r := DemoteFlush(f, now);
      Live(r, multiset{}) && r.buf == map[] && Follows(f, r) && r.epoch == f.epoch
  {
    hide StepInv, Follows, OnlyDelivers, SameHistory, FlushAscending;
    StepSize(f, multiset{});
    var g := if f.armed then f.(stats := f.stats.(demoteEnded := f.stats.demoteEnded + 1)) else f;
    var h, r := FlushAscending(g, now), DemoteFlush(f, now);
    DemoteEndedHistory(f);
    SameHistoryKeeps(f, g, multiset{});
    FlushAscendingKeeps(g, now);
    DemoteFlushPeriods(f, g, now);
    SameHistoryKeeps(h, r, multiset{});
    FollowsTransitive(f, g, h);
    FollowsTransitive(f, h, r);
  }

  /** The flow just after an honoured reset, before its first packet is delivered. */
  ghost function FreshEpoch(f: Flow, s: nat, pkt: Packet): Flow {
    Enter(Reset(f).(epoch := f.epoch + 1), s, pkt).(initialized := true, expected := s)
  }

  lemma FreshEpochKeeps(f: Flow, s: nat, pkt: Packet)
    requires StepInv(f, multiset{})
    ensures StepInv(FreshEpoch(f, s, pkt), multiset{Tag(f.epoch + 1, s, pkt)})
  {
    hide Conserved, Counted, Orderly;
    var t := Tag(f.epoch + 1, s, pkt);
    ConservedDiscard(f.entered, f.log, f.dropped, f.buf, f.epoch, f.epoch + 1);
    ConservedEnter(f.entered, f.log, Reset(f).dropped, map[], f.epoch + 1, t);
    CountedDiscard(f.stats.delivered, DropCount(f.stats), f.stats.residence, f.log, f.dropped, f.buf, f.epoch);
    OrderlyNewEpoch(f.log, f.epoch, f.expected, f.passThrough, s);
  }

  lemma StartEpochShape(f: Flow, s: nat, pkt: Packet, now: nat)
    requires |f.stats.residence| == LAT_BUCKETS && GapsBalanced(f)
    ensures var g, r := FreshEpoch(f, s, pkt), StartEpoch(f, s, pkt, now);
      && |g.stats.residence| == LAT_BUCKETS && r == DeliverCurrent(g, s, pkt, now)
      && GapsBalanced(r) && !r.armed && r.buf == map[] && r.initialized && !r.passThrough
      && r.cap == f.cap && r.waitMs == f.waitMs && r.epoch == f.epoch + 1
      && g.log == f.log && g.initialized && !g.passThrough && g.cap == f.cap && g.waitMs == f.waitMs
      && g.epoch == f.epoch + 1 && g.buf == map[] && g.expected == s
  {
  }

  /** An honoured FLOW_RESET discards the old epoch and starts a new one at the packet that carried it. */
  lemma StartEpochKeeps(f: Flow, s: nat, pkt: Packet, now: nat)
    requires FlowInv(f)
    ensures |f.stats.residence| == LAT_BUCKETS
    ensures var r := StartEpoch(f, s, pkt, now);
      FlowInv(r) && Follows(f, r) && r.epoch == f.epoch + 1 && r.buf == map[]
  {
    hide StepInv, Follows, StartEpoch, FreshEpoch, DeliverCurrent;
    StepSize(f, multiset{});
    var g, r := FreshEpoch(f, s, pkt), StartEpoch(f, s, pkt, now);
    FreshEpochKeeps(f, s, pkt);
    StartEpochShape(f, s, pkt, now);
    DeliverCurrentKeeps(g, s, pkt, now);
    NewEpochFollows(f, g);
    FollowsTransitive(f, g, r);
  }

  lemma NewEpochFollows(f: Flow, g: Flow)
    requires f.epoch < g.epoch && g.log == f.log && g.initialized && g.cap == f.cap && g.waitMs == f.waitMs
    ensures Follows(f, g)
  {
  }

  lemma ObserveTrafficKeeps(cfg: Config, f: Flow, out: Outcome, pkt: Packet, now: nat)
    requires Live(f, multiset{})
    ensures |f.stats.residence| == LAT_BUCKETS
    ensures var r := ObserveTraffic(cfg, f, out, pkt, now);
      FlowInv(r) && Follows(f, r) && r.epoch == f.epoch && r.initialized
  {
    hide StepInv, Follows, DemoteFlush;
    StepSize(f, multiset{});
    var g := if out == DroppedFarAhead || out == DroppedLimit then f else Classify(cfg, f, pkt).0;
    SameHistoryKeeps(f, g, multiset{});
    DemoteFlushKeeps(g, now);
    var h := DemoteFlush(g, now);
    DemoteKeeps(h);
    FollowsTransitive(f, g, h);
    FollowsTransitive(f, h, h.(passThrough := true, stats := h.stats.(demotions := h.stats.demotions + 1)));
  }

  lemma DemoteKeeps(f: Flow)
    requires Live(f, multiset{}) && f.buf == map[]
    ensures var r := f.(passThrough := true, stats := f.stats.(demotions := f.stats.demotions + 1));
      FlowInv(r) && Follows(f, r)
  {
    hide Conserved, Counted, Orderly, Kept;
    OrderlyDemote(f.log, f.epoch, f.expected);
    KeptReflexive(f.log, f.buf, f.epoch);
  }

  lemma PassThroughKeeps(f: Flow, s: nat, pkt: Packet, now: nat)
    requires FlowInv(f) && f.passThrough
    ensures |f.stats.residence| == LAT_BUCKETS
    ensures var r := Emit(Enter(f, s, pkt), now, s, pkt, now).(lastProgress := now);
      FlowInv(r) && Follows(f, r) && r.epoch == f.epoch
  {
    CountedEmit(Enter(f, s, pkt), now, s, pkt, now);
    hide Conserved, Counted, Orderly;
    var t := Tag(f.epoch, s, pkt);
    ConservedEnter(f.entered, f.log, f.dropped, f.buf, f.epoch, t);
    ConservedDeliverOwed(f.entered + multiset{t}, f.log, f.dropped, f.buf, f.epoch, t, false);
    OrderlyPassThrough(f.log, f.epoch, f.expected, Delivery(t, false));
  }

  lemma EnterKeeps(f: Flow, s: nat, pkt: Packet)
    requires StepInv(f, multiset{})
    ensures StepInv(Enter(f, s, pkt), multiset{Tag(f.epoch, s, pkt)}) && Follows(f, Enter(f, s, pkt))
  {
    hide Conserved, Counted, Orderly, Kept, InWindow;
    ConservedEnter(f.entered, f.log, f.dropped, f.buf, f.epoch, Tag(f.epoch, s, pkt));
    KeptReflexive(f.log, f.buf, f.epoch);
  }

  /** One datagram keeps the whole invariant, whatever its number, flags, payload and time,
      and whatever the other flows hold in the pool. */
  lemma OnReorderedKeeps(cfg: Config, f: Flow, others: nat, s: nat, reset: bool, pkt: Packet, now: nat)
    requires FlowInv(f)
    ensures |f.stats.residence| == LAT_BUCKETS
    ensures var r := OnReordered(cfg, f, others, s, reset, pkt, now);
      && FlowInv(r) && Follows(f, r)
      && r.epoch == f.epoch + if reset && HonoursReset(cfg, f, now) then 1 else 0
  {
    hide StepInv, Follows, Process, ObserveTraffic, StartEpoch;
    StepSize(f, multiset{});
    var seen := f.(lastSeen := now);
    SameHistoryKeeps(f, seen, multiset{});
    if reset && HonoursReset(cfg, seen, now) {
      StartEpochKeeps(seen, s, pkt, now);
      FollowsTransitive(f, seen, StartEpoch(seen, s, pkt, now));
    } else if seen.passThrough {
      PassThroughKeeps(seen, s, pkt, now);
      FollowsTransitive(f, seen, Emit(Enter(seen, s, pkt), now, s, pkt, now).(lastProgress := now));
    } else {
      var g := Enter(seen, s, pkt);
      EnterKeeps(seen, s, pkt);
      ProcessKeeps(cfg, g, others, s, pkt, now);
      var (h, out) := Process(cfg, g, others, s, pkt, now);
      ObserveTrafficKeeps(cfg, h, out, pkt, now);
      FollowsTransitive(f, seen, g);
      FollowsTransitive(f, g, h);
      FollowsTransitive(f, h, ObserveTraffic(cfg, h, out, pkt, now));
    }
  }

  /** After a tick no armed deadline lies in the past, and a gap that timed out has made progress. */
  lemma TickFlowKeeps(f: Flow, now: nat)
    requires FlowInv(f)
    ensures |f.stats.residence| == LAT_BUCKETS
    ensures var r := TickFlow(f, now);
      && FlowInv(r) && Follows(f, r) && r.epoch == f.epoch
      && (r.armed ==> r.deadline > now)
      && (Due(f, now) ==> r.expected > f.expected && |r.buf| < |f.buf|)
  {
    hide StepInv, Kept, GapTimeout;
    StepSize(f, multiset{});
    if Due(f, now) {
      GapTimeoutKeeps(f, now);
    } else {
      KeptReflexive(f.log, f.buf, f.epoch);
    }
  }

  // ----- whole runs -----

  /** What can happen to a live flow. The configuration and the pool load of the other flows may differ each time. */
  datatype FlowEvent =
    | Arrive(cfg: Config, others: nat, seqNo: nat, reset: bool, pkt: Packet, now: nat)
    | Tick(now: nat)

  ghost function Step(f: Flow, ev: FlowEvent): (r: Flow)
    requires |f.stats.residence| == LAT_BUCKETS
    ensures |r.stats.residence| == LAT_BUCKETS
  {
    match ev
    case Arrive(cfg, others, s, reset, pkt, now) => OnReordered(cfg, f, others, s, reset, pkt, now)
    case Tick(now) => TickFlow(f, now)
  }

  ghost function Run(f: Flow, evs: seq<FlowEvent>): (r: Flow)
    requires |f.stats.residence| == LAT_BUCKETS
    ensures |r.stats.residence| == LAT_BUCKETS
    decreases |evs|
  {
    if evs == [] then f else Run(Step(f, evs[0]), evs[1..])
  }

  lemma StepKeeps(f: Flow, ev: FlowEvent)
    requires FlowInv(f)
    ensures |f.stats.residence| == LAT_BUCKETS
    ensures FlowInv(Step(f, ev)) && Follows(f, Step(f, ev))
  {
    hide FlowInv, Follows, OnReordered, TickFlow;
    match ev
    case Arrive(cfg, others, s, reset, pkt, now) => OnReorderedKeeps(cfg, f, others, s, reset, pkt, now);
    case Tick(now) => TickFlowKeeps(f, now);
  }

  lemma FollowsReflexive(f: Flow)
    ensures Follows(f, f)
  {
  }

  lemma InvSize(f: Flow)
    requires FlowInv(f)
    ensures |f.stats.residence| == LAT_BUCKETS
  {
  }

  /** Every run keeps the invariant, and what was true of a flow's history stays true. */
  lemma {:induction false} RunKeeps(f: Flow, evs: seq<FlowEvent>)
    requires FlowInv(f)
    ensures |f.stats.residence| == LAT_BUCKETS
    ensures FlowInv(Run(f, evs)) && Follows(f, Run(f, evs))
    decreases |evs|
  {
    hide FlowInv, Follows, Step;
    InvSize(f);
    if evs == [] {
      FollowsReflexive(f);
    } else {
      StepKeeps(f, evs[0]);
      RunKeeps(Step(f, evs[0]), evs[1..]);
      FollowsTransitive(f, Step(f, evs[0]), Run(f, evs));
    }
  }

  lemma NewFlowInv(cap: nat, waitMs: nat)
    requires cap > 0 && waitMs > 0
    ensures FlowInv(NewFlow(cap, waitMs))
  {
    hide StepInv;
    NewFlowStepInv(cap, waitMs);
  }

  lemma NewFlowStepInv(cap: nat, waitMs: nat)
    ensures StepInv(NewFlow(cap, waitMs), multiset{})
  {
    hide Conserved, Counted, Orderly, InWindow, Sum;
    NewFlowConserved();
    NewFlowCounted();
    NewFlowOrderly(cap);
  }

  lemma NewFlowOrderly(cap: nat)
    ensures Orderly([], 0, 0, false) && InWindow(map[], 0, cap)
  {
  }

  lemma NewFlowConserved()
    ensures Conserved(multiset{}, [], multiset{}, map[], 0, multiset{})
  {
    assert HeldTags(map[], 0) == {};
  }

  lemma NewFlowCounted()
    ensures Counted(0, 0, ZERO_STATS.residence, [], multiset{})
  {
    SumOfZeros(ZERO_STATS.residence);
  }

  lemma {:induction false} SumOfZeros(s: seq<nat>)
    requires forall i :: 0 <= i < |s| ==> s[i] == 0
    ensures Sum(s) == 0
  {
    if s != [] {
      SumOfZeros(s[..|s| - 1]);
    }
  }
}
