/** Admission of an early packet: which outcomes can occur, and when a flow oversteps its byte budget. */
module FlowBudget {
  import opened Totals
  import opened Ring
  import opened ReorderConfig
  import opened ReorderModel
  import opened FlowInvariants
  import opened FlowLimits

  // ----- what a flush leaves, read off the buffer -----

  /** The first number from `lo` on that is not buffered. */
  ghost function FirstGap(buf: map<nat, Item>, lo: nat): (e: nat)
    ensures e >= lo && e !in buf
    ensures forall s :: lo <= s < e ==> s in buf
    decreases |buf|
  {
    if lo !in buf then lo
    else
      var e := FirstGap(buf - {lo}, lo + 1);
      assert forall s :: lo <= s < e ==> s in buf by {
        forall s | lo <= s < e
          ensures s in buf
        {
          assert s == lo || s in buf - {lo};
        }
      }
      e
  }

  ghost function Above(buf: map<nat, Item>, e: nat): map<nat, Item> {
    map s | s in buf && s > e :: buf[s]
  }

  /** The first number missing above the lowest one buffered. */
  ghost function RunEnd(buf: map<nat, Item>): nat
    requires buf != map[]
  {
    FirstGap(buf, Lowest(buf))
  }

  /** The packets behind that gap. */
  ghost function Rest(buf: map<nat, Item>): map<nat, Item>
    requires buf != map[]
  {
    Above(buf, RunEnd(buf))
  }

  ghost function Bytes(buf: map<nat, Item>): nat {
    Total(buf, Length)
  }

  /** Classifier, capacity, what has come in and the counters of refused packets are the same. */
  ghost predicate SameRefusals(f: Flow, g: Flow) {
    && g.entered == f.entered && g.cap == f.cap && g.classifySeen == f.classifySeen && g.classifyLarge == f.classifyLarge
    && g.stats.farAhead == f.stats.farAhead && g.stats.duplicate == f.stats.duplicate
    && g.stats.flowLimit == f.stats.flowLimit
  }

  lemma RecordRefusals(st: Stats, now: nat, enqueued: nat)
    requires |st.residence| == LAT_BUCKETS
    ensures var r := Record(st, now, enqueued);
      |r.residence| == LAT_BUCKETS && r.farAhead == st.farAhead && r.duplicate == st.duplicate && r.flowLimit == st.flowLimit
  {
  }

  lemma TakeNextRefusals(f: Flow, now: nat)
    requires |f.stats.residence| == LAT_BUCKETS && f.expected in f.buf
    ensures var g := TakeNext(f, now);
      && g.buf == f.buf - {f.expected} && g.expected == f.expected + 1
      && SameRefusals(f, g) && |g.stats.residence| == LAT_BUCKETS
  {
    hide Record;
    RecordRefusals(f.stats.(delivered := f.stats.delivered + 1), now, f.buf[f.expected].enqueued);
  }

  lemma GapNext(buf: map<nat, Item>, lo: nat)
    requires lo in buf
    ensures var e := FirstGap(buf, lo); FirstGap(buf - {lo}, lo + 1) == e && Above(buf - {lo}, e) == Above(buf, e)
  {
  }

  /** A drain delivers exactly up to the first gap. */
  lemma {:induction false} DrainReaches(f: Flow, now: nat)
    requires |f.stats.residence| == LAT_BUCKETS && forall s :: s in f.buf ==> f.expected <= s
    ensures var r, e := Drain(f, now), FirstGap(f.buf, f.expected);
      r.expected == e && r.buf == Above(f.buf, e) && SameRefusals(f, r)
    decreases |f.buf|
  {
    hide TakeNext, Above, FirstGap;
    if f.expected in f.buf {
      TakeNextRefusals(f, now);
      GapNext(f.buf, f.expected);
      DrainReaches(TakeNext(f, now), now);
    } else {
      GapHere(f.buf, f.expected);
    }
  }

  lemma GapHere(buf: map<nat, Item>, lo: nat)
    requires lo !in buf && forall s :: s in buf ==> lo <= s
    ensures FirstGap(buf, lo) == lo && Above(buf, lo) == buf
  {
  }

  /** An overflow flush moves the cursor to the first number missing above the lowest one buffered, and keeps the packets
      behind it. */
  lemma FlushReaches(f: Flow, now: nat)
    requires Windowed(f) && f.buf != map[]
    ensures var g := OverflowFlush(f, now);
      && g.expected == RunEnd(f.buf) && g.buf == Rest(f.buf) && SameRefusals(f, g) && Windowed(g)
      && g.expected > f.expected && Bytes(g.buf) <= Bytes(f.buf)
  {
    hide Drain, Lowest, Total, FirstGap;
    DrainReaches(f.(expected := Lowest(f.buf)), now);
    TotalSubmap(Rest(f.buf), f.buf, Length);
  }

  // ----- admission -----

  /** A packet ahead of the cursor, inside the window and not buffered. */
  ghost predicate Early(f: Flow, s: nat) {
    f.expected < s < f.expected + f.cap && s !in f.buf
  }

  /** After a flush such a packet can only be late, in order or still ahead: the far-ahead and the duplicate arm of
      reclassification are dead. */
  lemma ReclassifyDeadArms(f: Flow, s: nat, pkt: Packet, now: nat)
    requires Windowed(f) && f.buf != map[] && Early(f, s)
    ensures var g := OverflowFlush(f, now); var (h, out) := Reclassify(g, s, pkt, now);
      && (out == DroppedLate <==> s < RunEnd(f.buf)) && (out == Delivered <==> s == RunEnd(f.buf))
      && (out == Buffered <==> s > RunEnd(f.buf)) && (out == Buffered ==> h == g && Early(g, s))
      && SameRefusals(f, h) && Bytes(h.buf) <= Bytes(f.buf)
  {
    FlushReaches(f, now);
    hide OverflowFlush, RunEnd, Rest, Total;
    var g := OverflowFlush(f, now);
    if s == g.expected {
      InOrderShrinks(g, s, pkt, now);
    }
  }

  lemma InOrderShrinks(f: Flow, s: nat, pkt: Packet, now: nat)
    requires Windowed(f) && s == f.expected
    ensures var r := DeliverInOrder(f, s, pkt, now); SameRefusals(f, r) && Bytes(r.buf) <= Bytes(f.buf)
  {
    var g := DeliverCurrent(f, s, pkt, now);
    RecordRefusals(f.stats.(delivered := f.stats.delivered + 1), now, now);
    hide Record, Drain, Total, FirstGap;
    DrainReaches(g, now);
    TotalSubmap(Above(f.buf, FirstGap(f.buf, g.expected)), f.buf, Length);
  }

  /** The case that is not checked: with its budget exceeded the flow delivers the run at the head of its buffer, the
      packet is still ahead, the pool has room for it beside what is left - at once, or after delivering one more run -
      and what is left is still too much. */
  ghost predicate Oversteps(cfg: Config, buf: map<nat, Item>, others: nat, s: nat, len: nat) {
    && buf != map[] && s !in buf && Bytes(buf) + len > cfg.maxFlowBytes
    && s > RunEnd(buf)
    && var rest := Rest(buf);
       if others + Bytes(rest) + len <= cfg.maxPoolBytes then Bytes(rest) + len > cfg.maxFlowBytes
       else
         && rest != map[] && s > RunEnd(rest)
         && others + Bytes(Rest(rest)) + len <= cfg.maxPoolBytes && Bytes(Rest(rest)) + len > cfg.maxFlowBytes
  }

  lemma StoreIn(f: Flow, s: nat, pkt: Packet, now: nat)
    requires s !in f.buf
    ensures Bytes(Store(f, s, pkt, now).buf) == Bytes(f.buf) + |pkt| && SameRefusals(f, Store(f, s, pkt, now))
  {
    hide Total;
    TotalInsert(f.buf, Length, s, Item(pkt, now));
  }

  /** What the pool stage leaves. */
  lemma AdmitToPoolBytes(cfg: Config, f: Flow, others: nat, s: nat, pkt: Packet, now: nat)
    requires Windowed(f) && Early(f, s)
    ensures var (r, out) := AdmitToPool(cfg, f, others, s, pkt, now); var len := |pkt|;
      && SameRefusals(f, r)
      && (if others + Bytes(f.buf) + len <= cfg.maxPoolBytes then out == Buffered && Bytes(r.buf) == Bytes(f.buf) + len
          else if f.buf != map[] && s > RunEnd(f.buf) && others + Bytes(Rest(f.buf)) + len <= cfg.maxPoolBytes
          then out == Buffered && Bytes(r.buf) == Bytes(Rest(f.buf)) + len
          else out != Buffered && Bytes(r.buf) <= Bytes(f.buf))
  {
    hide Total, OverflowFlush, Reclassify, Store, RunEnd, Rest;
    if others + Bytes(f.buf) + |pkt| <= cfg.maxPoolBytes {
      StoreIn(f, s, pkt, now);
    } else if f.buf != map[] {
      FlushReaches(f, now);
      ReclassifyDeadArms(f, s, pkt, now);
      StoreIn(OverflowFlush(f, now), s, pkt, now);
    }
  }

  lemma RestSmaller(buf: map<nat, Item>)
    requires buf != map[]
    ensures Bytes(Rest(buf)) <= Bytes(buf)
  {
    hide Total, FirstGap;
    TotalSubmap(Rest(buf), buf, Length);
  }

  /** Admission of an early packet keeps the flow within its byte budget exactly when the unchecked case does not arise;
      and when it does, the packet is buffered. Far-ahead and duplicate are never counted, the flow limit only for a
      packet that is too large by itself. */
  lemma FlowBudgetKeptIff(cfg: Config, f: Flow, others: nat, s: nat, pkt: Packet, now: nat)
    requires Windowed(f) && Early(f, s)
    ensures var (r, out) := BufferAdmit(cfg, f, others, s, pkt, now);
      && (Bytes(f.buf) <= cfg.maxFlowBytes ==>
            (Bytes(r.buf) <= cfg.maxFlowBytes <==> !Oversteps(cfg, f.buf, others, s, |pkt|)))
      && (Oversteps(cfg, f.buf, others, s, |pkt|) ==> out == Buffered)
      && SameRefusals(f, r.(stats := r.stats.(flowLimit := f.stats.flowLimit)))
      && r.stats.flowLimit == f.stats.flowLimit + if f.buf == map[] && |pkt| > cfg.maxFlowBytes then 1 else 0
  {
    hide Total, OverflowFlush, Reclassify, AdmitToPool, RunEnd, Rest;
    CountBelowCap(f);
    NoBytes();
    if f.buf != map[] {
      RestSmaller(f.buf);
    }
    if Bytes(f.buf) + |pkt| <= cfg.maxFlowBytes {
      AdmitToPoolBytes(cfg, f, others, s, pkt, now);
    } else if f.buf != map[] {
      FlushReaches(f, now);
      ReclassifyDeadArms(f, s, pkt, now);
      var g := OverflowFlush(f, now);
      if s > g.expected {
        AdmitToPoolBytes(cfg, g, others, s, pkt, now);
      }
    }
  }

  lemma NoBytes()
    ensures Bytes(map[]) == 0
  {
    TotalEmpty<nat, Item>(map[], Length);
  }

  // ----- a datagram, and a whole run -----

  /** The datagram goes through ordering: its reset mark is not honoured, the flow has started and is not demoted. */
  ghost predicate Ordinary(cfg: Config, f: Flow, reset: bool, now: nat) {
    f.initialized && !f.passThrough && !(reset && HonoursReset(cfg, f, now))
  }

  /** The counters of refused packets grew by exactly what the packet deserved on arrival. */
  ghost predicate RefusedExactly(cfg: Config, f: Flow, r: Flow, s: nat, len: nat, usual: bool) {
    && r.stats.farAhead == f.stats.farAhead + (if usual && s >= f.expected + f.cap then 1 else 0)
    && r.stats.duplicate == f.stats.duplicate + (if usual && s in f.buf then 1 else 0)
    && r.stats.flowLimit == f.stats.flowLimit +
         (if usual && f.buf == map[] && Early(f, s) && len > cfg.maxFlowBytes then 1 else 0)
  }

  /** The datagram takes the flow over its byte budget: the unchecked case arises, and the packet does not at the same
      time complete the classifier's window in favour of demotion, which would empty the buffer. */
  ghost predicate BreaksBudget(cfg: Config, f: Flow, others: nat, s: nat, reset: bool, pkt: Packet, now: nat) {
    && Ordinary(cfg, f, reset, now) && Early(f, s)
    && Oversteps(cfg, f.buf, others, s, |pkt|)
    && Classify(cfg, f, pkt).1 == Unchanged
  }

  lemma ProcessBudget(cfg: Config, f: Flow, others: nat, s: nat, pkt: Packet, now: nat)
    requires Windowed(f) && (!f.initialized ==> f.buf == map[])
    ensures var (r, out) := Process(cfg, f, others, s, pkt, now);
      var bad := f.initialized && Early(f, s) && Oversteps(cfg, f.buf, others, s, |pkt|);
      && (Bytes(f.buf) <= cfg.maxFlowBytes ==> (Bytes(r.buf) <= cfg.maxFlowBytes <==> !bad)) && (bad ==> out == Buffered)
      && r.entered == f.entered && r.classifySeen == f.classifySeen && r.classifyLarge == f.classifyLarge
      && r.stats.farAhead == f.stats.farAhead + (if f.initialized && s >= f.expected + f.cap then 1 else 0)
      && r.stats.duplicate == f.stats.duplicate + (if f.initialized && s in f.buf then 1 else 0)
      && r.stats.flowLimit == f.stats.flowLimit +
           (if f.initialized && f.buf == map[] && Early(f, s) && |pkt| > cfg.maxFlowBytes then 1 else 0)
  {
    hide Total, Oversteps, Record, Drain, DeliverInOrder;
    if !f.initialized {
      RecordRefusals(f.stats.(delivered := f.stats.delivered + 1), now, now);
    } else if s == f.expected {
      InOrderShrinks(f, s, pkt, now);
    } else if Early(f, s) {
      hide BufferAdmit;
      FlowBudgetKeptIff(cfg, f, others, s, pkt, now);
    }
  }

  lemma DemoteFlushRefusals(f: Flow, now: nat)
    requires |f.stats.residence| == LAT_BUCKETS
    ensures var r := DemoteFlush(f, now);
      && r.buf == map[] && r.entered == f.entered && r.stats.farAhead == f.stats.farAhead
      && r.stats.duplicate == f.stats.duplicate && r.stats.flowLimit == f.stats.flowLimit
  {
    hide FlushAscending;
    var h := if f.armed then f.(stats := f.stats.(demoteEnded := f.stats.demoteEnded + 1)) else f;
    FlushAscendingEmpties(h, now);
    FlushRefusals(h, now);
  }

  lemma ClassifyOnlyCounts(cfg: Config, f: Flow, pkt: Packet)
    ensures var g := Classify(cfg, f, pkt).0; g.stats == f.stats && g.buf == f.buf && g.entered == f.entered
  {
  }

  lemma ObserveBudget(cfg: Config, f: Flow, out: Outcome, pkt: Packet, now: nat)
    requires |f.stats.residence| == LAT_BUCKETS
    ensures var r := ObserveTraffic(cfg, f, out, pkt, now);
      && r.entered == f.entered && r.stats.farAhead == f.stats.farAhead && r.stats.duplicate == f.stats.duplicate
      && r.stats.flowLimit == f.stats.flowLimit
      && r.buf == if (out == Delivered || out == Buffered || out == DroppedLate) && Classify(cfg, f, pkt).1 == Demote
                  then map[] else f.buf
  {
    hide DemoteFlush, Classify;
    ClassifyOnlyCounts(cfg, f, pkt);
    DemoteFlushRefusals(Classify(cfg, f, pkt).0, now);
  }

  lemma {:induction false} FlushRefusals(f: Flow, now: nat)
    requires |f.stats.residence| == LAT_BUCKETS
    ensures SameRefusals(f, FlushAscending(f, now))
    decreases |f.buf|
  {
    if f.buf != map[] {
      var g := f.(expected := Lowest(f.buf));
      assert SameRefusals(g, TakeNext(g, now)) && |TakeNext(g, now).stats.residence| == LAT_BUCKETS by {
        hide Record;
        RecordRefusals(g.stats.(delivered := g.stats.delivered + 1), now, g.buf[g.expected].enqueued);
      }
      hide Record;
      FlushRefusals(TakeNext(g, now), now);
    }
  }

  /** What ordering and classification make of an ordinary datagram. */
  lemma OrdinaryBudget(cfg: Config, f: Flow, others: nat, s: nat, reset: bool, pkt: Packet, now: nat)
    requires Windowed(f) && (!f.initialized ==> f.buf == map[])
    requires !f.passThrough && !(reset && HonoursReset(cfg, f, now))
    ensures var r := OnReordered(cfg, f, others, s, reset, pkt, now);
      var bad := f.initialized && Early(f, s) && Oversteps(cfg, f.buf, others, s, |pkt|);
      && (Bytes(f.buf) <= cfg.maxFlowBytes ==>
            (Bytes(r.buf) <= cfg.maxFlowBytes <==> !(bad && Classify(cfg, f, pkt).1 == Unchanged)))
      && |r.entered| == |f.entered| + 1
      && r.stats.farAhead == f.stats.farAhead + (if f.initialized && s >= f.expected + f.cap then 1 else 0)
      && r.stats.duplicate == f.stats.duplicate + (if f.initialized && s in f.buf then 1 else 0)
      && r.stats.flowLimit == f.stats.flowLimit +
           (if f.initialized && f.buf == map[] && Early(f, s) && |pkt| > cfg.maxFlowBytes then 1 else 0)
  {
    hide Total, Oversteps, Process, ObserveTraffic, InnerUdpPayloadLen, StartEpoch;
    var g := Enter(f.(lastSeen := now), s, pkt);
    NoBytes();
    ProcessBudget(cfg, g, others, s, pkt, now);
    var (h, out) := Process(cfg, g, others, s, pkt, now);
    ObserveBudget(cfg, h, out, pkt, now);
  }

  lemma PassBudget(f: Flow, s: nat, pkt: Packet, now: nat)
    requires |f.stats.residence| == LAT_BUCKETS
    ensures var r := Emit(Enter(f.(lastSeen := now), s, pkt), now, s, pkt, now).(lastProgress := now);
      && r.buf == f.buf && |r.entered| == |f.entered| + 1 && r.stats.farAhead == f.stats.farAhead
      && r.stats.duplicate == f.stats.duplicate && r.stats.flowLimit == f.stats.flowLimit
  {
    hide Record;
    RecordRefusals(f.stats.(delivered := f.stats.delivered + 1), now, now);
  }

  lemma DatagramAdmission(cfg: Config, f: Flow, others: nat, s: nat, reset: bool, pkt: Packet, now: nat)
    requires FlowInv(f)
    ensures |f.stats.residence| == LAT_BUCKETS
    ensures var r := OnReordered(cfg, f, others, s, reset, pkt, now); var usual := Ordinary(cfg, f, reset, now);
      && (Bytes(f.buf) <= cfg.maxFlowBytes ==>
            (Bytes(r.buf) <= cfg.maxFlowBytes <==> !BreaksBudget(cfg, f, others, s, reset, pkt, now)))
      && RefusedExactly(cfg, f, r, s, |pkt|, usual)
      && |r.entered| == |f.entered| + 1
  {
    hide StepInv, Total, Oversteps, Process, ObserveTraffic, Windowed, Early, Classify, StartEpoch, Emit, Enter;
    SettledWindowed(f, multiset{});
    InvSize(f);
    NoBytes();
    if reset && HonoursReset(cfg, f, now) {
      ResetRefusals(f, s, pkt, now);
    } else if f.passThrough {
      EnterStays(f.(lastSeen := now), s, pkt);
      PassBudget(f, s, pkt, now);
    } else {
      OrdinaryBudget(cfg, f, others, s, reset, pkt, now);
    }
  }

  /** Whatever arrives in any state of a run, and whatever flushes it causes: far-ahead is counted exactly for a packet
      beyond the window it met, duplicate exactly for a number it found buffered - so the two arms behind a flush never
      fire - and the flow limit exactly for an early packet too large for an empty buffer. */
  lemma RefusalsInRun(start: Flow, evs: seq<FlowEvent>, cfg: Config, others: nat, s: nat, reset: bool, pkt: Packet, now: nat)
    requires FlowInv(start)
    ensures var f := Run(start, evs);
      && |f.stats.residence| == LAT_BUCKETS
      && RefusedExactly(cfg, f, OnReordered(cfg, f, others, s, reset, pkt, now), s, |pkt|, Ordinary(cfg, f, reset, now))
  {
    hide FlowInv, OnReordered, Run, RefusedExactly, Ordinary;
    RunKeeps(start, evs);
    DatagramAdmission(cfg, Run(start, evs), others, s, reset, pkt, now);
  }

  /** Whatever arrives, the flow stays within its byte budget exactly when the unchecked case does not arise. */
  lemma DatagramKeepsBudgetIff(cfg: Config, f: Flow, others: nat, s: nat, reset: bool, pkt: Packet, now: nat)
    requires FlowInv(f) && Bytes(f.buf) <= cfg.maxFlowBytes
    ensures |f.stats.residence| == LAT_BUCKETS
    ensures Bytes(OnReordered(cfg, f, others, s, reset, pkt, now).buf) <= cfg.maxFlowBytes <==>
            !BreaksBudget(cfg, f, others, s, reset, pkt, now)
  {
    hide FlowInv, OnReordered, BreaksBudget, Bytes, RefusedExactly, Ordinary;
    DatagramAdmission(cfg, f, others, s, reset, pkt, now);
  }

  lemma EnterStays(f: Flow, s: nat, pkt: Packet)
    ensures Enter(f, s, pkt).passThrough == f.passThrough && Enter(f, s, pkt).stats == f.stats
  {
  }

  lemma ResetRefusals(f: Flow, s: nat, pkt: Packet, now: nat)
    requires |f.stats.residence| == LAT_BUCKETS
    ensures var r := StartEpoch(f.(lastSeen := now), s, pkt, now);
      && r.buf == map[] && |r.entered| == |f.entered| + 1 && r.stats.farAhead == f.stats.farAhead
      && r.stats.duplicate == f.stats.duplicate && r.stats.flowLimit == f.stats.flowLimit
  {
    hide Record, HeldTags;
    var st := CountDiscard(f.stats, |f.buf|, f.armed);
    RecordRefusals(st.(delivered := st.delivered + 1), now, now);
  }

  /** Nothing comes in but by datagrams. */
  lemma TickEntersNothing(f: Flow, now: nat)
    requires FlowInv(f)
    ensures |f.stats.residence| == LAT_BUCKETS && TickFlow(f, now).entered == f.entered
  {
    hide StepInv, Drain, Lowest, FirstGap;
    SettledWindowed(f, multiset{});
    if f.buf != map[] {
      DrainReaches(f.(stats := f.stats.(timedOut := f.stats.timedOut + 1), expected := Lowest(f.buf)), now);
    }
  }

  // ----- a whole run -----

  ghost predicate Breaks(f: Flow, ev: FlowEvent) {
    ev.Arrive? && BreaksBudget(ev.cfg, f, ev.others, ev.seqNo, ev.reset, ev.pkt, ev.now)
  }

  ghost predicate NeverBreaks(f: Flow, evs: seq<FlowEvent>)
    requires FlowInv(f)
    decreases |evs|
  {
    evs != [] ==>
      (StepKeeps(f, evs[0]); !Breaks(f, evs[0]) && NeverBreaks(Step(f, evs[0]), evs[1..]))
  }

  ghost predicate AlwaysWithin(f: Flow, evs: seq<FlowEvent>, limit: nat)
    requires FlowInv(f)
    decreases |evs|
  {
    && Bytes(f.buf) <= limit
    && (evs != [] ==> (StepKeeps(f, evs[0]); AlwaysWithin(Step(f, evs[0]), evs[1..], limit)))
  }

  /** In any run from a state within the budget, the budget is kept at every moment exactly if the unchecked case never
      arises. */
  lemma {:induction false} RunKeepsBudgetIff(f: Flow, evs: seq<FlowEvent>, limit: nat)
    requires FlowInv(f) && Bytes(f.buf) <= limit
    requires forall i :: 0 <= i < |evs| && evs[i].Arrive? ==> evs[i].cfg.maxFlowBytes == limit
    ensures AlwaysWithin(f, evs, limit) <==> NeverBreaks(f, evs)
    decreases |evs|
  {
    hide FlowInv, BreaksBudget, Step, Total;
    if evs != [] {
      StepKeeps(f, evs[0]);
      StepBudget(f, evs[0], limit);
      var g := Step(f, evs[0]);
      if Bytes(g.buf) <= limit {
        RunKeepsBudgetIff(g, evs[1..], limit);
      }
    }
  }

  lemma StepBudget(f: Flow, ev: FlowEvent, limit: nat)
    requires FlowInv(f) && Bytes(f.buf) <= limit && (ev.Arrive? ==> ev.cfg.maxFlowBytes == limit)
    ensures |f.stats.residence| == LAT_BUCKETS && (Bytes(Step(f, ev).buf) <= limit <==> !Breaks(f, ev))
  {
    hide FlowInv, BreaksBudget, OnReordered, TickFlow, Total;
    InvSize(f);
    match ev
    case Arrive(cfg, others, s, reset, pkt, now) =>
      DatagramKeepsBudgetIff(cfg, f, others, s, reset, pkt, now);
    case Tick(now) =>
      TickFlowShrinks(f, now);
  }

  // ----- an instance -----

  /** Ordinary traffic of a flow that is never demoted. */
  ghost predicate Steady(cfg: Config, f: Flow) {
    cfg.forceNoDemotion && Windowed(f) && f.initialized && !f.passThrough
  }

  lemma StoredStep(cfg: Config, f: Flow, s: nat, pkt: Packet, now: nat)
    requires Steady(cfg, f) && Early(f, s)
    requires Bytes(f.buf) + |pkt| <= cfg.maxFlowBytes && Bytes(f.buf) + |pkt| <= cfg.maxPoolBytes
    ensures var r := OnReordered(cfg, f, 0, s, false, pkt, now);
      && Steady(cfg, r) && r.expected == f.expected && r.cap == f.cap
      && r.buf == f.buf[s := Item(pkt, now)] && Bytes(r.buf) == Bytes(f.buf) + |pkt|
  {
    hide Total, OverflowFlush, Reclassify;
    CountBelowCap(f);
    StoreIn(f, s, pkt, now);
  }

  lemma FlushedStep(cfg: Config, f: Flow, s: nat, pkt: Packet, now: nat)
    requires Steady(cfg, f) && Early(f, s) && f.buf != map[] && s > RunEnd(f.buf)
    requires Bytes(f.buf) + |pkt| > cfg.maxFlowBytes && Bytes(Rest(f.buf)) + |pkt| <= cfg.maxPoolBytes
    ensures Bytes(OnReordered(cfg, f, 0, s, false, pkt, now).buf) == Bytes(Rest(f.buf)) + |pkt|
  {
    hide Total, OverflowFlush, Reclassify, AdmitToPool, RunEnd, Rest;
    var g := Enter(f.(lastSeen := now), s, pkt);
    CountBelowCap(g);
    FlushReaches(g, now);
    ReclassifyDeadArms(g, s, pkt, now);
    AdmitToPoolBytes(cfg, OverflowFlush(g, now), 0, s, pkt, now);
  }

  lemma StartedStep(cfg: Config, cap: nat, waitMs: nat, s: nat, pkt: Packet, now: nat)
    requires cfg.forceNoDemotion && cap > 0
    ensures |NewFlow(cap, waitMs).stats.residence| == LAT_BUCKETS
    ensures var r := OnReordered(cfg, NewFlow(cap, waitMs), 0, s, false, pkt, now);
      Steady(cfg, r) && r.expected == s + 1 && r.cap == cap && r.buf == map[]
  {
    hide Record;
    RecordRefusals(ZERO_STATS.(delivered := 1), now, now);
  }

  /** It does happen: a new flow with a limit of 100 bytes receives 0, then 2 (10 bytes), 4 (90 bytes) and 6 (60 bytes).
      The last one makes it deliver 2 only, and it ends up holding 150 bytes. */
  lemma FlowBudgetOverstepped(cfg: Config, z: Packet, a: Packet, b: Packet, c: Packet)
    requires cfg.forceNoDemotion && cfg.maxFlowBytes == 100 && cfg.maxPoolBytes >= 1000
    requires |a| == 10 && |b| == 90 && |c| == 60
    ensures var f1 := OnReordered(cfg, NewFlow(8, 30), 0, 0, false, z, 0);
      var f2 := OnReordered(cfg, f1, 0, 2, false, a, 1);
      var f3 := OnReordered(cfg, f2, 0, 4, false, b, 2);
      Bytes(f3.buf) == 100 && Bytes(OnReordered(cfg, f3, 0, 6, false, c, 3).buf) == 150
  {
    hide OnReordered, Steady, Windowed, Early, Total, Bytes, RunEnd, Rest, FirstGap, NewFlow;
    StartedStep(cfg, 8, 30, 0, z, 0);
    var f1 := OnReordered(cfg, NewFlow(8, 30), 0, 0, false, z, 0);
    NoBytes();
    SteadyEarly(cfg, f1, 2);
    StoredStep(cfg, f1, 2, a, 1);
    var f2 := OnReordered(cfg, f1, 0, 2, false, a, 1);
    SteadyEarly(cfg, f2, 4);
    StoredStep(cfg, f2, 4, b, 2);
    var f3 := OnReordered(cfg, f2, 0, 4, false, b, 2);
    SteadyEarly(cfg, f3, 6);
    TwoApart(f3.buf, 2, 4);
    OneHeld(4, Item(b, 2));
    FlushedStep(cfg, f3, 6, c, 3);
  }

  lemma OneHeld(s: nat, item: Item)
    ensures Bytes(map[s := item]) == |item.pkt|
  {
    var none: map<nat, Item> := map[];
    TotalEmpty(none, Length);
    TotalInsert(none, Length, s, item);
    assert none[s := item] == map[s := item];
  }

  lemma SteadyEarly(cfg: Config, f: Flow, s: nat)
    requires Steady(cfg, f)
    ensures |f.stats.residence| == LAT_BUCKETS
    ensures f.expected < s < f.expected + f.cap && s !in f.buf ==> Early(f, s)
  {
  }

  lemma TwoApart(buf: map<nat, Item>, a: nat, b: nat)
    requires a + 1 < b && buf.Keys == {a, b}
    ensures RunEnd(buf) == a + 1 && Rest(buf) == map[b := buf[b]]
  {
    assert IsLowest(buf, a);
    LowestUnique(buf, a);
    assert FirstGap(buf - {a}, a + 1) == a + 1;
  }
}
