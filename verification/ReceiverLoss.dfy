/** Which events free packets that were still waiting, and when none can. */
module ReceiverLoss {
  import opened Bits
  import opened Totals
  import opened Wrappers
  import opened ReorderConfig
  import opened ReorderModel
  import opened FlowInvariants
  import opened FlowTiming
  import opened FlowModes
  import opened ReceiverModel

  /** A datagram for which a flow is destroyed that still has packets waiting, or a tick after whose timeouts a flow is
      idle and still has some. */
  ghost predicate Loses(rx: Rx, ev: RxEvent) {
    RxSized(rx) &&
    match ev
    case Datagram(bytes, now, victim) => victim.Some? && victim.value in rx.flows && rx.flows[victim.value].buf != map[]
    case TimerTick(now) =>
      exists k :: k in rx.flows && Idle(rx.cfg, TickFlow(rx.flows[k], now), now) && TickFlow(rx.flows[k], now).buf != map[]
    case ForceNoDemotion(on) => false
  }

  lemma {:induction false} TotalIsZeroIff(flows: map<FlowKey, Flow>, w: Flow -> nat)
    ensures Total(flows, w) == 0 <==> forall k :: k in flows ==> w(flows[k]) == 0
    decreases |flows|
  {
    if flows != map[] {
      var k := Pick(flows);
      TotalIsZeroIff(flows - {k}, w);
      assert forall j :: j in flows ==> j == k || j in flows - {k};
    }
  }

  lemma ArmedIffWaiting(f: Flow)
    requires FlowInv(f)
    ensures ArmedOne(f) == 0 <==> Waiting(f) == 0
    ensures Waiting(f) == 0 <==> f.buf == map[]
  {
    hide StepInv;
  }

  lemma DatagramLosesIff(rx: Rx, bytes: seq<Byte>, now: nat, victim: Option<FlowKey>)
    requires RxInv(rx) && RxSized(rx) && FitsTable(rx, bytes, victim)
    ensures var after := OnDatagram(rx, bytes, now, victim);
      && after.lost >= rx.lost && (after.lost == rx.lost <==> !Loses(rx, Datagram(bytes, now, victim)))
      && (after.armedWhenEvicted == rx.armedWhenEvicted <==> after.lost == rx.lost)
  {
    hide FlowInv, LedgerBalanced, Accounted, PoolUsed, DispatchDatagram, OnReordered, NewFlow, Accumulate, ArmedOne, Waiting;
    if victim.Some? && victim.value in rx.flows {
      ArmedIffWaiting(rx.flows[victim.value]);
    }
  }

  lemma TickLosesIff(rx: Rx, now: nat)
    requires RxInv(rx) && RxSized(rx)
    ensures var after := OnTick(rx, now);
      && after.lost >= rx.lost && (after.lost == rx.lost <==> !Loses(rx, TimerTick(now)))
      && (after.armedWhenEvicted == rx.armedWhenEvicted <==> after.lost == rx.lost)
  {
    hide FlowInv, LedgerBalanced, Accounted, PoolUsed, AccumulateAll, TickFlow, Total, Idle, ArmedOne, Waiting;
    FireKeepsInv(rx, now);
    var idle := IdleFlows(rx.cfg, Fire(rx.flows, now), now);
    TotalIsZeroIff(idle, Waiting);
    TotalIsZeroIff(idle, ArmedOne);
    forall k | k in rx.flows && Idle(rx.cfg, TickFlow(rx.flows[k], now), now)
      ensures k in idle && idle[k] == TickFlow(rx.flows[k], now)
    {
    }
    forall k | k in idle
      ensures ArmedOne(idle[k]) == 0 <==> Waiting(idle[k]) == 0
      ensures Waiting(idle[k]) == 0 <==> idle[k].buf == map[]
    {
      ArmedIffWaiting(idle[k]);
    }
  }

  lemma StepLosesIff(rx: Rx, ev: RxEvent)
    requires RxInv(rx) && Possible(rx, ev)
    ensures var after := RxStep(rx, ev);
      && after.lost >= rx.lost && (after.lost == rx.lost <==> !Loses(rx, ev))
      && after.armedWhenEvicted >= rx.armedWhenEvicted
      && (after.armedWhenEvicted == rx.armedWhenEvicted <==> !Loses(rx, ev))
  {
    hide RxInv, OnDatagram, OnTick, FitsTable, Loses;
    match ev
    case Datagram(bytes, now, victim) =>
      DatagramLosesIff(rx, bytes, now, victim);
      DatagramArmedGrows(rx, bytes, now, victim);
    case TimerTick(now) =>
      TickLosesIff(rx, now);
      TickArmedGrows(rx, now);
    case ForceNoDemotion(on) =>
      ForceLosesNothing(rx, on);
  }

  lemma ForceLosesNothing(rx: Rx, on: bool)
    requires RxSized(rx)
    ensures !Loses(rx, ForceNoDemotion(on))
  {
  }

  lemma DatagramArmedGrows(rx: Rx, bytes: seq<Byte>, now: nat, victim: Option<FlowKey>)
    requires RxSized(rx) && FitsTable(rx, bytes, victim)
    ensures OnDatagram(rx, bytes, now, victim).armedWhenEvicted >= rx.armedWhenEvicted
  {
    hide DispatchDatagram, OnReordered, NewFlow, Accumulate;
  }

  lemma TickArmedGrows(rx: Rx, now: nat)
    requires RxSized(rx)
    ensures OnTick(rx, now).armedWhenEvicted >= rx.armedWhenEvicted
  {
    hide AccumulateAll, TickFlow;
  }

  /** In every run of a new receiver: no packet has been freed uncounted, and no flow destroyed inside a gap period, exactly
      if no event was one of those. */
  lemma {:induction false} RunLosesIff(states: seq<Rx>, evs: seq<RxEvent>, cfg: Config, n: nat)
    requires IsRun(states, evs) && Finalized(cfg) && states[0] == Fresh(cfg) && n < |states|
    ensures states[n].lost == 0 <==> NothingLost(states, evs, n)
    ensures states[n].armedWhenEvicted == 0 <==> states[n].lost == 0
  {
    hide RxInv, RxStep, Possible, Loses, Finalized;
    if n > 0 {
      RunLosesIff(states, evs, cfg, n - 1);
      RunKeepsRxInv(states, evs, cfg, n - 1);
      StepLosesIff(states[n - 1], evs[n - 1]);
    }
  }

  /** None of the first n events loses packets. */
  ghost predicate NothingLost(states: seq<Rx>, evs: seq<RxEvent>, n: nat)
    requires n <= |states| && n <= |evs|
  {
    forall i :: 0 <= i < n ==> !Loses(states[i], evs[i])
  }

  /** Hence both plain identities, conservation by the counters and gap periods by their endings, can be read off the events
      and the timers: the first holds exactly if no event lost anything, the second if moreover no period is open. */
  lemma CountersSufficeIff(states: seq<Rx>, evs: seq<RxEvent>, cfg: Config, n: nat)
    requires IsRun(states, evs) && Finalized(cfg) && states[0] == Fresh(cfg) && n < |states|
    ensures RxSized(states[n])
    ensures var rx, kept := states[n], NothingLost(states, evs, n);
      && (rx.admitted == Disposed(Snapshot(rx)) + Total(rx.flows, Waiting) <==> kept)
      && (Snapshot(rx).gaps == PeriodsEnded(Snapshot(rx)) <==> kept && forall k :: k in rx.flows ==> !rx.flows[k].armed)
  {
    hide RxInv, NothingLost, Disposed, PeriodsEnded, AccumulateAll, RxStep, Possible;
    RunKeepsRxInv(states, evs, cfg, n);
    RunLosesIff(states, evs, cfg, n);
    ReceiverConserves(states[n]);
    SnapshotBalanced(states[n]);
  }

  // ----- which flows survive -----

  /** A flow survives a tick exactly if its gap timer fires, which is progress, or it has made some within the idle limit,
      or the clock is behind that; whatever state it is in. */
  lemma SurvivesTickIff(rx: Rx, now: nat, k: FlowKey)
    requires RxInv(rx) && RxSized(rx)
    ensures k in OnTick(rx, now).flows <==>
            && k in rx.flows
            && var f := rx.flows[k];
               (f.armed && f.deadline <= now) || now <= f.lastProgress + rx.cfg.ingressIdleSec * 1000000
  {
    hide FlowInv, TickFlow, LedgerBalanced, Accounted, PoolUsed, AccumulateAll;
    if k in rx.flows {
      TickModes(rx.flows[k], now);
    }
  }

  /** A datagram takes the place of a flow only in a full table, and then of one that has gone longest without progress. */
  lemma SurvivesDatagram(rx: Rx, bytes: seq<Byte>, now: nat, victim: Option<FlowKey>, k: FlowKey)
    requires RxSized(rx) && FitsTable(rx, bytes, victim) && k in rx.flows
    ensures k !in OnDatagram(rx, bytes, now, victim).flows ==>
              && 0 < rx.cfg.maxFlows <= |rx.flows|
              && forall j :: j in rx.flows ==> rx.flows[k].lastProgress <= rx.flows[j].lastProgress
  {
    hide DispatchDatagram, OnReordered, NewFlow, Accumulate;
  }

  // ----- a clock that does not step back -----

  /** The time of the latest of the first n events. */
  function Clock(evs: seq<RxEvent>, n: nat): nat
    requires n <= |evs|
  {
    if n == 0 then 0
    else if evs[n - 1].ForceNoDemotion? then Clock(evs, n - 1)
    else evs[n - 1].now
  }

  predicate Forward(evs: seq<RxEvent>, n: nat)
    requires n <= |evs|
  {
    forall i :: 0 <= i < n ==> evs[i].ForceNoDemotion? || Clock(evs, i) <= evs[i].now
  }

  /** No flow waits for a gap longer than for being destroyed. */
  predicate ShortWaits(cfg: Config) {
    && cfg.maxWaitMs <= 1000 * cfg.ingressIdleSec
    && forall r :: r in cfg.rules ==> r.resolvedWaitMs <= 1000 * cfg.ingressIdleSec
  }

  ghost predicate AllTimely(rx: Rx, clock: nat) {
    ShortWaits(rx.cfg) &&
    forall k :: k in rx.flows ==> Timely(rx.flows[k], clock) && rx.flows[k].waitMs <= 1000 * rx.cfg.ingressIdleSec
  }

  lemma ShortFlowWait(cfg: Config, key: FlowKey)
    requires ShortWaits(cfg)
    ensures FlowWaitMs(cfg, key) <= 1000 * cfg.ingressIdleSec
  {
    var i := MatchIndex(cfg.rules, key);
    assert i < |cfg.rules| ==> cfg.rules[i] in cfg.rules;
  }

  lemma DatagramTimely(rx: Rx, bytes: seq<Byte>, now: nat, victim: Option<FlowKey>, clock: nat)
    requires RxSized(rx) && FitsTable(rx, bytes, victim) && AllTimely(rx, clock) && clock <= now
    ensures AllTimely(OnDatagram(rx, bytes, now, victim), now)
  {
    hide DispatchDatagram, OnReordered, Accumulate, FlowWaitMs, FlowCap, OthersUsed, HasReset, ShortWaits, LeastRecent;
    match DispatchDatagram(rx.cfg, bytes) {
      case Ignore =>
      case Direct(inner) =>
      case Reorder(key, header, inner) =>
        ShortFlowWait(rx.cfg, key);
        var room := WithFlow(rx, key, victim);
        assert Timely(room.flows[key], now);
        OnReorderedTimely(room.cfg, room.flows[key], OthersUsed(room.flows, key), header.seqNo, HasReset(header.flags),
                          inner, now);
    }
  }

  lemma TickAllTimely(rx: Rx, now: nat, clock: nat)
    requires RxSized(rx) && AllTimely(rx, clock) && clock <= now
    ensures AllTimely(OnTick(rx, now), now)
  {
    hide TickFlow, AccumulateAll, Total, Idle, Timely, ShortWaits;
    forall k | k in rx.flows
      ensures Timely(TickFlow(rx.flows[k], now), now) && TickFlow(rx.flows[k], now).waitMs == rx.flows[k].waitMs
    {
      TimelyLater(rx.flows[k], clock, now);
      TickTimely(rx.flows[k], now);
    }
  }

  /** Such a tick loses nothing: a flow idle after the timeouts has an empty buffer. */
  lemma TickLosesNothing(rx: Rx, now: nat, clock: nat)
    requires RxInv(rx) && RxSized(rx) && AllTimely(rx, clock) && clock <= now
    ensures !Loses(rx, TimerTick(now))
  {
    hide FlowInv, TickFlow, LedgerBalanced, Accounted, PoolUsed, Timely, ShortWaits;
    forall k | k in rx.flows && Idle(rx.cfg, TickFlow(rx.flows[k], now), now)
      ensures TickFlow(rx.flows[k], now).buf == map[]
    {
      TimelyLater(rx.flows[k], clock, now);
      TickTimely(rx.flows[k], now);
      IdleIsEmpty(rx.flows[k], now);
    }
  }

  lemma StepTimely(rx: Rx, ev: RxEvent, clock: nat)
    requires RxInv(rx) && Possible(rx, ev) && AllTimely(rx, clock) && (ev.ForceNoDemotion? || clock <= ev.now)
    ensures AllTimely(RxStep(rx, ev), if ev.ForceNoDemotion? then clock else ev.now)
    ensures RxStep(rx, ev).cfg.maxFlows == rx.cfg.maxFlows
    ensures Loses(rx, ev) ==> ev.Datagram? && rx.cfg.maxFlows > 0
  {
    hide RxInv, AllTimely, OnDatagram, OnTick, FitsTable, Loses;
    match ev
    case Datagram(bytes, now, victim) =>
      DatagramTimely(rx, bytes, now, victim, clock);
      KeepsMaxFlows(rx, bytes, now, victim);
      OnlyFullEvicts(rx, bytes, now, victim);
    case TimerTick(now) =>
      TickAllTimely(rx, now, clock);
      TickLosesNothing(rx, now, clock);
      TickKeepsCfg(rx, now);
    case ForceNoDemotion(on) =>
      ForceTimely(rx, on, clock);
      ForceLosesNothing(rx, on);
  }

  lemma ForceTimely(rx: Rx, on: bool, clock: nat)
    requires AllTimely(rx, clock)
    ensures AllTimely(rx.(cfg := rx.cfg.(forceNoDemotion := on)), clock)
  {
  }

  lemma TickKeepsCfg(rx: Rx, now: nat)
    requires RxSized(rx)
    ensures OnTick(rx, now).cfg == rx.cfg
  {
    hide AccumulateAll, TickFlow;
  }

  lemma OnlyFullEvicts(rx: Rx, bytes: seq<Byte>, now: nat, victim: Option<FlowKey>)
    requires RxSized(rx) && FitsTable(rx, bytes, victim)
    ensures Loses(rx, Datagram(bytes, now, victim)) ==> rx.cfg.maxFlows > 0
  {
    hide DispatchDatagram;
  }

  lemma FreshTimely(cfg: Config)
    requires ShortWaits(cfg)
    ensures AllTimely(Fresh(cfg), 0)
  {
  }

  lemma KeepsMaxFlows(rx: Rx, bytes: seq<Byte>, now: nat, victim: Option<FlowKey>)
    requires RxSized(rx) && FitsTable(rx, bytes, victim)
    ensures OnDatagram(rx, bytes, now, victim).cfg == rx.cfg
  {
    hide DispatchDatagram, OnReordered, NewFlow, Accumulate;
  }

  /** From inputs alone: if the clock does not step back and no flow waits for a gap longer than it may be idle, ticks never
      lose anything, only datagrams for a full table can; and without a limit on flows nothing is ever lost. */
  lemma {:induction false} OnlyFullTablesLose(states: seq<Rx>, evs: seq<RxEvent>, cfg: Config, n: nat)
    requires IsRun(states, evs) && Finalized(cfg) && states[0] == Fresh(cfg) && n < |states|
    requires ShortWaits(cfg) && Forward(evs, n)
    ensures AllTimely(states[n], Clock(evs, n)) && states[n].cfg.maxFlows == cfg.maxFlows
    ensures forall i :: 0 <= i < n && Loses(states[i], evs[i]) ==> evs[i].Datagram? && cfg.maxFlows > 0
    ensures cfg.maxFlows == 0 ==> states[n].lost == 0 && states[n].armedWhenEvicted == 0
  {
    hide RxInv, RxStep, Possible, Loses, ShortWaits, AllTimely, Finalized;
    FreshTimely(cfg);
    if n > 0 {
      OnlyFullTablesLose(states, evs, cfg, n - 1);
      RunKeepsRxInv(states, evs, cfg, n - 1);
      StepTimely(states[n - 1], evs[n - 1], Clock(evs, n - 1));
    }
    RunLosesIff(states, evs, cfg, n);
  }
}
