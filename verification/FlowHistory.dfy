/** What the invariants mean for a whole run of one flow, from its creation on. */
module FlowHistory {
  import opened ReorderModel
  import opened FlowInvariants
  import opened FlowLimits

  lemma {:induction false} LoggedMember(log: seq<Delivery>, i: nat)
    requires i < |log|
    ensures log[i].tag in Logged(log)
  {
    if i < |log| - 1 {
      LoggedMember(log[..|log| - 1], i);
    }
  }

  lemma {:induction false} LoggedSize(log: seq<Delivery>)
    ensures |Logged(log)| == |log|
  {
    if log != [] {
      LoggedSize(log[..|log| - 1]);
    }
  }

  /** Packets in are packets out: delivered, dropped for one counted reason, or still buffered. */
  lemma RunConservesPackets(cap: nat, waitMs: nat, evs: seq<FlowEvent>)
    requires cap > 0 && waitMs > 0
    ensures var r := Run(NewFlow(cap, waitMs), evs);
      && |r.entered| == r.stats.delivered + r.stats.late + r.stats.farAhead + r.stats.duplicate + r.stats.flowLimit
                        + r.stats.poolDrop + r.stats.resetDiscard + |r.buf|
      && r.entered == Logged(r.log) + r.dropped + multiset(HeldTags(r.buf, r.epoch))
      && |r.buf| < cap
  {
    hide Orderly, Run, NewFlow;
    NewFlowInv(cap, waitMs);
    RunKeeps(NewFlow(cap, waitMs), evs);
    var r := Run(NewFlow(cap, waitMs), evs);
    LoggedSize(r.log);
    HeldSize(r.buf, r.epoch);
    SettledWindowed(r, multiset{});
    CountBelowCap(r);
    NewFlowCap(cap, waitMs);
  }

  lemma NewFlowCap(cap: nat, waitMs: nat)
    ensures NewFlow(cap, waitMs).cap == cap
  {
  }

  /** Every gap period ends in exactly one way, save the one that may be open, and the timer runs
      exactly while something is buffered. */
  lemma RunBalancesGaps(cap: nat, waitMs: nat, evs: seq<FlowEvent>)
    requires cap > 0 && waitMs > 0
    ensures var r := Run(NewFlow(cap, waitMs), evs);
      && r.stats.gaps == r.stats.filled + r.stats.timedOut + r.stats.overflowed + r.stats.demoteEnded + r.stats.resetEnded
                         + (if r.buf != map[] then 1 else 0)
      && (r.armed <==> r.buf != map[])
      && Sum(r.stats.residence) == r.stats.delivered == |r.log|
  {
    hide Orderly, Conserved, Sum, Run, NewFlow;
    NewFlowInv(cap, waitMs);
    RunKeeps(NewFlow(cap, waitMs), evs);
  }

  /** Up to its demotion an epoch is delivered in strictly increasing order, so no number twice;
      and whatever is delivered in an epoch came in during that epoch with that payload. */
  lemma RunDeliversInOrder(cap: nat, waitMs: nat, evs: seq<FlowEvent>, i: nat, j: nat)
    requires cap > 0 && waitMs > 0
    requires i < j < |Run(NewFlow(cap, waitMs), evs).log|
    ensures var r := Run(NewFlow(cap, waitMs), evs);
      && r.log[i].tag.epoch <= r.log[j].tag.epoch
      && (r.log[i].tag.epoch == r.log[j].tag.epoch && r.log[j].ordered ==>
            r.log[i].ordered && r.log[i].tag.seqNo < r.log[j].tag.seqNo)
      && r.log[i].tag in r.entered && r.log[j].tag in r.entered
  {
    hide Counted, Run, NewFlow;
    NewFlowInv(cap, waitMs);
    RunKeeps(NewFlow(cap, waitMs), evs);
    var r := Run(NewFlow(cap, waitMs), evs);
    LoggedMember(r.log, i);
    LoggedMember(r.log, j);
  }

  /** Between any two moments of a run: within the epoch `expected` never falls and a buffered packet is either
      still buffered, unaltered, or has been delivered; across a reset no packet of the old epoch is delivered any more. */
  lemma RunNeverLoses(cap: nat, waitMs: nat, before: seq<FlowEvent>, after: seq<FlowEvent>)
    requires cap > 0 && waitMs > 0
    ensures var f := Run(NewFlow(cap, waitMs), before); var g := Run(f, after);
      && f.log <= g.log && f.epoch <= g.epoch
      && (f.initialized && f.epoch == g.epoch ==> f.expected <= g.expected)
      && (f.epoch == g.epoch ==>
            forall s :: s in f.buf ==>
              (s in g.buf && g.buf[s] == f.buf[s]) || Delivery(Tag(f.epoch, s, f.buf[s].pkt), true) in g.log)
      && (forall k :: |f.log| <= k < |g.log| ==> f.epoch <= g.log[k].tag.epoch)
  {
    hide FlowInv, Run, NewFlow;
    NewFlowInv(cap, waitMs);
    RunKeeps(NewFlow(cap, waitMs), before);
    RunKeeps(Run(NewFlow(cap, waitMs), before), after);
  }
}
