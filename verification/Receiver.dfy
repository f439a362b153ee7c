/** The receiver with its hash table of flow objects, updated in place and proved against ReceiverModel. */
module Receiver {
  import opened Bits
  import opened Totals
  import opened Wrappers
  import opened Ring
  import opened ReorderConfig
  import opened ReorderModel
  import opened FlowInvariants
  import opened FlowObject
  import opened FlowTable
  import opened Wire
  import opened ReceiverModel

  const N_BUCKETS: nat := 1024

  type Flows = map<FlowKey, FlowState>

  /** Each flow object has its own ring. */
  ghost predicate Apart(flows: Flows)
    reads set k | k in flows :: flows[k].buffer
  {
    && (forall k :: k in flows ==> flows[k].key == k)
    && (forall j, k :: j in flows && k in flows && j != k ==>
          && flows[j].buffer != flows[k].buffer
          && (flows[j].buffer.slots == null || flows[j].buffer.slots != flows[k].buffer.slots))
  }

  /** A flow outside the table shares nothing with the flows in it. */
  ghost predicate Clear(f: FlowState, flows: Flows)
    reads f.buffer, set k | k in flows :: flows[k].buffer
  {
    forall j :: j in flows ==>
      flows[j].buffer != f.buffer && (f.buffer.slots == null || flows[j].buffer.slots != f.buffer.slots)
  }

  ghost predicate AllReady(flows: Flows)
    reads set k | k in flows :: flows[k]
    reads set k | k in flows :: flows[k].buffer
    reads set k | k in flows :: flows[k].buffer.slots
  {
    forall k :: k in flows ==> flows[k].Ready()
  }

  ghost function Views(flows: Flows): (r: map<FlowKey, Flow>)
    reads set k | k in flows :: flows[k]
    reads set k | k in flows :: flows[k].buffer
  {
    map k | k in flows :: flows[k].View()
  }

  /** The flow objects, their rings and the rings' slots. */
  ghost function Objects(flows: Flows): set<object>
    reads set k | k in flows :: flows[k].buffer
  {
    (set k | k in flows :: flows[k])
    + (set k | k in flows :: flows[k].buffer)
    + (set k | k in flows && flows[k].buffer.slots != null :: flows[k].buffer.slots)
  }

  lemma ObjectsOf(flows: Flows, k: FlowKey)
    requires k in flows
    ensures flows[k] in Objects(flows) && flows[k].buffer in Objects(flows)
    ensures flows[k].buffer.slots != null ==> flows[k].buffer.slots in Objects(flows)
    ensures Objects(flows - {k}) <= Objects(flows)
  {
  }

  /** The flows are apart, each is ready, and the pool counter is the sum of what they hold. */
  ghost predicate Charged(flows: Flows, pool: Pool)
    reads pool
    reads set k | k in flows :: flows[k]
    reads set k | k in flows :: flows[k].buffer
    reads set k | k in flows :: flows[k].buffer.slots
  {
    Apart(flows) && AllReady(flows) && pool.used == PoolUsed(Views(flows))
  }

  lemma ChargedOne(flows: Flows, pool: Pool, k: FlowKey)
    requires Charged(flows, pool) && k in flows
    ensures flows[k].Ready() && flows[k].View() == Views(flows)[k]
    ensures flows[k].Charged(pool) && flows[k].Others(pool) == OthersUsed(Views(flows), k)
    ensures BufferedBytes(flows[k].View()) == flows[k].buffer.bytes
  {
    hide Represents, IsPow2;
    TotalRemove(Views(flows), BufferedBytes, k);
    BytesCounted(flows[k]);
  }

  lemma BytesCounted(f: FlowState)
    requires f.Ready()
    ensures BufferedBytes(f.View()) == f.buffer.bytes
  {
    hide Represents, IsPow2;
  }

  /** Replacing the views of one flow keeps the pool counter exact when what the others hold is unchanged. */
  lemma PoolFollows(before: map<FlowKey, Flow>, k: FlowKey, g: Flow, used: nat)
    requires k in before && used == OthersUsed(before, k) + BufferedBytes(g)
    ensures used == PoolUsed(before[k := g])
  {
    TotalRemove(before[k := g], BufferedBytes, k);
    assert before[k := g] - {k} == before - {k};
  }

  /** The gap timer of one flow fires: the others keep what they have. */
  method TimeOut(f: FlowState, pool: Pool, now: nat, ghost flows: Flows)
    requires Charged(flows, pool) && f.key in flows && flows[f.key] == f
    modifies f, f.buffer, f.buffer.slots, pool
    ensures Charged(flows, pool) && Objects(flows) == old(Objects(flows))
    ensures Views(flows) == old(Views(flows))[f.key := GapTimeout(old(f.View()), now)]
  {
    hide PoolUsed, OthersUsed, GapTimeout, BufferedBytes, SlotRing.Valid, FlowState.Valid, FlowState.Ready, FlowState.View;
    ChargedOne(flows, pool, f.key);
    f.OnGapTimeout(pool, now);
    assert AllReady(flows) by {
      forall k | k in flows && k != f.key
        ensures flows[k].Ready() && flows[k].View() == old(flows[k].View())
      {
        assert old(flows[k].Ready());
      }
    }
    assert Views(flows) == old(Views(flows))[f.key := f.View()];
    BytesCounted(f);
    PoolFollows(old(Views(flows)), f.key, f.View(), pool.used);
  }

  /** Fire the gap timer of one flow, if it is due. */
  method FireIfDue(f: FlowState, pool: Pool, now: nat, ghost flows: Flows)
    requires Charged(flows, pool) && f.key in flows && flows[f.key] == f
    modifies f, f.buffer, f.buffer.slots, pool
    ensures Charged(flows, pool) && Objects(flows) == old(Objects(flows))
    ensures Views(flows) == old(Views(flows))[f.key := TickFlow(old(f.View()), now)]
  {
    hide Charged, GapTimeout;
    if f.armed && f.deadline <= now {
      TimeOut(f, pool, now, flows);
    }
  }

  /** Hand a packet to its flow: the other flows keep what they have. */
  method CallFlow(f: FlowState, pool: Pool, cfg: Config, header: Header, inner: Packet, now: nat, ghost flows: Flows)
    requires Apart(flows) && AllReady(flows) && f.key in flows && flows[f.key] == f
    requires f.Charged(pool) && (!f.initialized ==> f.buffer.contents == map[])
    modifies f, f.buffer, f.buffer.slots, pool
    ensures f.Ready() && f.Others(pool) == old(f.Others(pool))
    ensures f.buffer.slots == null || f.buffer.slots == old(f.buffer.slots) || fresh(f.buffer.slots)
    ensures f.View() == OnReordered(cfg, old(f.View()), old(f.Others(pool)), header.seqNo, HasReset(header.flags), inner, now)
    ensures forall k :: k in flows && k != f.key ==>
              && flows[k].Ready() && flows[k].View() == old(flows[k].View())
              && flows[k].buffer != f.buffer && flows[k].buffer.slots == old(flows[k].buffer.slots)
  {
    hide OnReordered, SlotRing.Valid, FlowState.Valid, FlowState.Ready, FlowState.View, FlowState.Others, FlowState.Charged;
    hide HasReset;
    f.OnReorderedPacket(pool, cfg, header.seqNo, header.flags, inner, now);
    forall k | k in flows && k != f.key
      ensures flows[k].Ready() && flows[k].View() == old(flows[k].View())
    {
      assert old(flows[k].Ready());
    }
  }

  /** The flows stay apart, and their objects are those they had, but for the slots of that flow. */
  method PassToFlow(f: FlowState, pool: Pool, cfg: Config, header: Header, inner: Packet, now: nat, ghost flows: Flows)
    requires Apart(flows) && AllReady(flows) && f.key in flows && flows[f.key] == f
    requires f.Charged(pool) && (!f.initialized ==> f.buffer.contents == map[])
    modifies f, f.buffer, f.buffer.slots, pool
    ensures Apart(flows) && AllReady(flows) && f.Others(pool) == old(f.Others(pool))
    ensures f.buffer.slots == null || f.buffer.slots == old(f.buffer.slots) || fresh(f.buffer.slots)
    ensures Objects(flows) <= old(Objects(flows)) + SlotsOf(f)
    ensures f.View() == OnReordered(cfg, old(f.View()), old(f.Others(pool)), header.seqNo, HasReset(header.flags), inner, now)
    ensures Views(flows) == old(Views(flows))[f.key := f.View()]
  {
    hide OnReordered, FlowState.Ready, FlowState.View, FlowState.Others, FlowState.Charged, HasReset;
    CallFlow(f, pool, cfg, header, inner, now, flows);
    assert Apart(flows);
    assert Views(flows) == old(Views(flows))[f.key := f.View()];
  }

  /** Reorder a packet in its flow. */
  method InjectPacket(f: FlowState, pool: Pool, cfg: Config, header: Header, inner: Packet, now: nat, ghost flows: Flows)
    requires Charged(flows, pool) && f.key in flows && flows[f.key] == f && FlowInv(f.View())
    modifies f, f.buffer, f.buffer.slots, pool
    ensures Charged(flows, pool)
    ensures f.buffer.slots == null || f.buffer.slots == old(f.buffer.slots) || fresh(f.buffer.slots)
    ensures Objects(flows) <= old(Objects(flows)) + SlotsOf(f)
    ensures Views(flows) == old(Views(flows))[f.key := OnReordered(cfg, old(f.View()), OthersUsed(old(Views(flows)), f.key),
                                                                   header.seqNo, HasReset(header.flags), inner, now)]
  {
    hide PoolUsed, OthersUsed, OnReordered, BufferedBytes, SlotRing.Valid, FlowState.Ready, FlowState.View, HasReset;
    hide Apart, AllReady, Views, Objects, FlowInv;
    ChargedOne(flows, pool, f.key);
    UninitializedIsEmpty(f);
    ViewsKeys(flows);
    PassToFlow(f, pool, cfg, header, inner, now, flows);
    FlowIsReady(flows, f.key);
    BytesCounted(f);
    PoolFollows(old(Views(flows)), f.key, f.View(), pool.used);
  }

  lemma FlowIsReady(flows: Flows, k: FlowKey)
    requires AllReady(flows) && k in flows
    ensures flows[k].Ready()
  {
  }

  ghost function SlotsOf(f: FlowState): set<object>
    reads f.buffer
  {
    if f.buffer.slots == null then {} else {f.buffer.slots}
  }

  /** Half-way through a walk over the table, the flows met so far have had their timers looked at. */
  ghost predicate PartlyFired(before: map<FlowKey, Flow>, after: map<FlowKey, Flow>, done: set<FlowKey>, now: nat)
    requires AllSized(before)
  {
    && after.Keys == before.Keys
    && forall k :: k in before ==> after[k] == if k in done then TickFlow(before[k], now) else before[k]
  }

  lemma PartlyFiredEnds(before: map<FlowKey, Flow>, now: nat)
    requires AllSized(before)
    ensures PartlyFired(before, before, {}, now)
    ensures forall after :: PartlyFired(before, after, before.Keys, now) ==> after == Fire(before, now)
  {
  }

  lemma PartlyFiredNext(before: map<FlowKey, Flow>, after: map<FlowKey, Flow>, done: set<FlowKey>, k: FlowKey, now: nat)
    requires AllSized(before) && PartlyFired(before, after, done, now) && k in before && k !in done
    ensures AllSized(after) && k in after
    ensures PartlyFired(before, after[k := TickFlow(after[k], now)], done + {k}, now)
  {
    hide TickFlow;
  }

  lemma UninitializedIsEmpty(f: FlowState)
    requires FlowInv(f.View())
    ensures !f.initialized ==> f.buffer.contents == map[]
  {
    hide Conserved, Counted, Orderly;
  }

  /** Add the counters of a flow to a total. */
  method AddStats(a: Stats, b: Stats) returns (r: Stats)
    requires |a.residence| == LAT_BUCKETS && |b.residence| == LAT_BUCKETS
    ensures r == Accumulate(a, b)
  {
    r := a.(delivered := a.delivered + b.delivered, late := a.late + b.late, farAhead := a.farAhead + b.farAhead,
            duplicate := a.duplicate + b.duplicate, flowLimit := a.flowLimit + b.flowLimit,
            poolDrop := a.poolDrop + b.poolDrop, resetDiscard := a.resetDiscard + b.resetDiscard,
            gaps := a.gaps + b.gaps, filled := a.filled + b.filled, timedOut := a.timedOut + b.timedOut,
            overflowed := a.overflowed + b.overflowed, demoteEnded := a.demoteEnded + b.demoteEnded,
            resetEnded := a.resetEnded + b.resetEnded, demotions := a.demotions + b.demotions);
    var residence := a.residence;
    for i := 0 to LAT_BUCKETS
      invariant |residence| == LAT_BUCKETS
      invariant forall j :: 0 <= j < i ==> residence[j] == a.residence[j] + b.residence[j]
      invariant forall j :: i <= j < LAT_BUCKETS ==> residence[j] == a.residence[j]
    {
      residence := residence[i := residence[i] + b.residence[i]];
    }
    r := r.(residence := residence);
    if b.maxResidence > r.maxResidence {
      r := r.(maxResidence := b.maxResidence);
    }
  }

  lemma NothingCharged(flows: Flows, pool: Pool)
    requires flows == map[] && pool.used == 0
    ensures Views(flows) == map[] && Charged(flows, pool)
  {
  }

  method ResolveAll(cfg: Config) returns (r: Config)
    ensures r == cfg.(rules := ResolvedRules(cfg))
  {
    hide Resolve;
    var rules := new Rule[|cfg.rules|](i requires 0 <= i < |cfg.rules| => cfg.rules[i]);
    assert rules[..] == cfg.rules;
    Finalize(cfg, rules);
    r := cfg.(rules := rules[..]);
  }

  class ReorderRx {
    var cfg: Config
    const table: ChainTable<FlowState>
    const pool: Pool
    var evicted: Stats

    // History: flows destroyed inside a gap period, packets that entered a flow, packets freed with their flow, and
    // packets delivered without flow state.
    ghost var armedWhenEvicted: nat
    ghost var admitted: nat
    ghost var lost: nat
    ghost var direct: seq<Packet>

    ghost function Model(): Rx
      reads this, table, set k | k in table.entries :: table.entries[k]
      reads set k | k in table.entries :: table.entries[k].buffer
    {
      Rx(cfg, Views(table.entries), evicted, armedWhenEvicted, admitted, lost, direct)
    }

    /** Every object of the receiver. */
    ghost function Repr(): set<object>
      reads this, table, set k | k in table.entries :: table.entries[k].buffer
    {
      {this, table, table.buckets, pool} + Objects(table.entries)
    }

    /** The table and its flows are well-formed. */
    ghost predicate Healthy()
      reads this, table, table.buckets, pool
      reads set k | k in table.entries :: table.entries[k]
      reads set k | k in table.entries :: table.entries[k].buffer
      reads set k | k in table.entries :: table.entries[k].buffer.slots
    {
      && table.Valid()
      && Charged(table.entries, pool)
      && |evicted.residence| == LAT_BUCKETS
    }

    ghost predicate Valid()
      reads this, table, table.buckets, pool
      reads set k | k in table.entries :: table.entries[k]
      reads set k | k in table.entries :: table.entries[k].buffer
      reads set k | k in table.entries :: table.entries[k].buffer.slots
    {
      Healthy() && RxInv(Model())
    }

    /** Resolve the rules of a validated configuration and start with no flows. */
    constructor (cfg: Config, hash: FlowKey -> nat)
      requires Validate(cfg)
      ensures Valid() && table.hash == hash && fresh(table) && fresh(table.buckets) && fresh(pool)
      ensures Model() == Fresh(cfg.(rules := ResolvedRules(cfg)))
    {
      hide RxInv, Chained, Total, ResolvedRules, Validate, Finalized;
      FinalizeSound(cfg);
      FreshInv(cfg.(rules := ResolvedRules(cfg)));
      var resolved := ResolveAll(cfg);
      this.cfg := resolved;
      table := new ChainTable(hash, N_BUCKETS);
      pool := new Pool();
      evicted, armedWhenEvicted, admitted, lost, direct := ZERO_STATS, 0, 0, 0, [];
      new;
      NothingCharged(table.entries, pool);
    }

    /** A configuration that does not validate gives no receiver. */
    static method New(cfg: Config, hash: FlowKey -> nat) returns (r: ReorderRx?)
      ensures r != null <==> Validate(cfg)
      ensures r != null ==> fresh(r) && r.Valid() && r.Model() == Fresh(cfg.(rules := ResolvedRules(cfg)))
    {
      if !Validate(cfg) {
        return null;
      }
      r := new ReorderRx(cfg, hash);
    }

    /** Fold an unlinked flow's counters into the total and give its buffered bytes back. */
    method Destroy(f: FlowState)
      requires f.Ready() && f.Charged(pool) && |evicted.residence| == LAT_BUCKETS && |f.View().stats.residence| == LAT_BUCKETS
      modifies this`evicted, this`armedWhenEvicted, this`lost, f.buffer, f.buffer.slots, pool
      ensures pool.used == old(f.Others(pool))
      ensures evicted == Accumulate(old(evicted), old(f.View()).stats)
      ensures armedWhenEvicted == old(armedWhenEvicted) + ArmedOne(old(f.View()))
      ensures lost == old(lost) + Waiting(old(f.View()))
    {
      hide Accumulate, SlotRing.Valid;
      var n := f.DropBuffered(pool);
      evicted := AddStats(evicted, f.stats);
      armedWhenEvicted := armedWhenEvicted + if f.armed then 1 else 0;
      lost := lost + n;
    }

    /** Take the flow at a place in the table out of its chain; its bytes are still charged. */
    method UnlinkFlow(b: nat, i: nat) returns (f: FlowState)
      requires Healthy() && b < table.buckets.Length && i < |table.buckets[b]|
      modifies table, table.buckets
      ensures table.Valid() && Apart(table.entries) && AllReady(table.entries)
      ensures f == old(table.buckets[b][i].flow) && f.Ready() && f.Charged(pool) && Clear(f, table.entries)
      ensures table.entries == old(table.entries) - {old(table.buckets[b][i].key)}
      ensures unchanged(f) && unchanged(f.buffer)
      ensures f.buffer in old(Objects(table.entries))
      ensures f.buffer.slots != null ==> f.buffer.slots in old(Objects(table.entries))
      ensures Objects(table.entries) <= old(Objects(table.entries))
      ensures old(table.buckets[b][i].key) in old(table.entries)
      ensures old(f.View()) == old(Views(table.entries))[old(table.buckets[b][i].key)]
      ensures Views(table.entries) == old(Views(table.entries)) - {old(table.buckets[b][i].key)}
      ensures f.Others(pool) == PoolUsed(Views(table.entries))
      ensures table.buckets[..] == old(table.buckets[..])[b := Without(old(table.buckets[b]), i)]
    {
      hide Chained, SlotRing.Valid, FlowState.Ready, FlowState.View, PoolUsed, BufferedBytes, Apart, AllReady, Clear, Views, Objects;
      ghost var k := table.buckets[b][i].key;
      PlaceHolds(b, i);
      ChargedOne(table.entries, pool, k);
      ChargedWithout(table.entries, k);
      ObjectsOf(table.entries, k);
      f := table.buckets[b][i].flow;
      table.Unlink(b, i);
    }

    /** Unlink the flow at a place in the table, and destroy it. */
    method UnlinkAndDestroy(b: nat, i: nat)
      requires Healthy() && b < table.buckets.Length && i < |table.buckets[b]|
      modifies this`evicted, this`armedWhenEvicted, this`lost, table, table.buckets, pool, Objects(table.entries)
      ensures table.Valid() && Charged(table.entries, pool) && Objects(table.entries) <= old(Objects(table.entries))
      ensures cfg == old(cfg) && admitted == old(admitted) && direct == old(direct)
      ensures var k := old(table.buckets[b][i].key);
        && k in old(Views(table.entries)) && |old(Views(table.entries))[k].stats.residence| == LAT_BUCKETS
        && table.entries == old(table.entries) - {k} && Views(table.entries) == old(Views(table.entries)) - {k}
        && evicted == Accumulate(old(evicted), old(Views(table.entries))[k].stats)
        && armedWhenEvicted == old(armedWhenEvicted) + ArmedOne(old(Views(table.entries))[k])
        && lost == old(lost) + Waiting(old(Views(table.entries))[k])
      ensures table.buckets[..] == old(table.buckets[..])[b := Without(old(table.buckets[b]), i)]
    {
      hide Accumulate, ChainTable.Valid, SlotRing.Valid, FlowState.Ready, FlowState.View, PoolUsed, Apart, AllReady;
      hide BufferedBytes, Clear, Views, Objects, FlowState.Charged, FlowState.Others, Without, ArmedOne, Waiting;
      ViewsKeys(table.entries);
      var f := UnlinkFlow(b, i);
      ReadySized(f);
      DestroyUnlinked(f, table.entries);
    }

    /** The same, as a step of the model. */
    method EvictAt(b: nat, i: nat)
      requires Healthy() && b < table.buckets.Length && i < |table.buckets[b]|
      modifies Repr()
      ensures cfg == old(cfg) && table.entries.Keys <= old(table.entries.Keys)
      ensures Healthy() && Repr() <= old(Repr()) && old(table.buckets[b][i].key) in old(table.entries)
      ensures Model() == Evict(old(Model()), old(table.buckets[b][i].key))
      ensures table.buckets[..] == old(table.buckets[..])[b := Without(old(table.buckets[b]), i)]
    {
      hide Accumulate, ChainTable.Valid, Charged, Views, Objects, Without, ArmedOne, Waiting;
      ViewsKeys(table.entries);
      UnlinkAndDestroy(b, i);
    }

    /** Destroying an unlinked flow leaves the flows in the table alone. */
    method DestroyUnlinked(f: FlowState, ghost rest: Flows)
      requires f.Ready() && f.Charged(pool) && |evicted.residence| == LAT_BUCKETS && |f.View().stats.residence| == LAT_BUCKETS
      requires Apart(rest) && AllReady(rest)
      requires Clear(f, rest)
      modifies this`evicted, this`armedWhenEvicted, this`lost, f.buffer, f.buffer.slots, pool
      ensures Apart(rest) && AllReady(rest) && Views(rest) == old(Views(rest))
      ensures Objects(rest) == old(Objects(rest))
      ensures pool.used == old(f.Others(pool))
      ensures evicted == Accumulate(old(evicted), old(f.View()).stats)
      ensures armedWhenEvicted == old(armedWhenEvicted) + ArmedOne(old(f.View()))
      ensures lost == old(lost) + Waiting(old(f.View()))
    {
      hide Accumulate, SlotRing.Valid, FlowState.Ready, FlowState.View;
      Destroy(f);
      forall k | k in rest
        ensures rest[k].Ready() && rest[k].View() == old(rest[k].View())
      {
        assert old(rest[k].Ready());
      }
    }

    /** The place of a flow that has gone longest without progress, if there is any flow. */
    method FindLeastRecent() returns (place: Option<(nat, nat)>)
      requires Healthy()
      ensures table.entries == map[] ==> place == None
      ensures table.entries != map[] ==> place.Some?
      ensures place.Some? ==> place.value.0 < table.buckets.Length && place.value.1 < |table.buckets[place.value.0]|
      ensures place.Some? ==> LeastRecent(Views(table.entries), table.buckets[place.value.0][place.value.1].key)
    {
      hide Healthy, Oldest, Before, LeastRecent, Views;
      place := None;
      var oldest := 0;
      ghost var chains := table.buckets[..];
      BeforeEnds();
      OldestOfNone(oldest);
      for b := 0 to table.buckets.Length
        invariant Oldest(place, oldest, Before(chains, b, 0))
      {
        for i := 0 to |table.buckets[b]|
          invariant Oldest(place, oldest, Before(chains, b, i))
        {
          var f := table.buckets[b][i].flow;
          VisitNext(b, i);
          OldestNext(place, oldest, Before(chains, b, i), b, i);
          if place.None? || f.lastProgress <= oldest {
            oldest := f.lastProgress;
            place := Some((b, i));
          }
        }
        BeforeRow(chains, b);
      }
      OldestOfAll(place, oldest);
    }

    /** What the scan for the least recent flow knows once it has seen some keys. */
    ghost predicate Oldest(place: Option<(nat, nat)>, oldest: nat, seen: set<FlowKey>)
      reads table, table.buckets, set k | k in table.entries :: table.entries[k]
    {
      && seen <= table.entries.Keys
      && (place.None? ==> seen == {})
      && (place.Some? ==>
            && place.value.0 < table.buckets.Length && place.value.1 < |table.buckets[place.value.0]|
            && var key := table.buckets[place.value.0][place.value.1].key;
               key in table.entries && table.entries[key].lastProgress == oldest)
      && (forall k :: k in seen ==> oldest <= table.entries[k].lastProgress)
    }

    lemma OldestOfNone(oldest: nat)
      ensures Oldest(None, oldest, {})
    {
    }

    lemma OldestNext(place: Option<(nat, nat)>, oldest: nat, seen: set<FlowKey>, b: nat, i: nat)
      requires Oldest(place, oldest, seen) && b < table.buckets.Length && i < |table.buckets[b]|
      requires var e := table.buckets[b][i]; e.key in table.entries && table.entries[e.key] == e.flow
      ensures var e := table.buckets[b][i];
        if place.None? || e.flow.lastProgress <= oldest
        then Oldest(Some((b, i)), e.flow.lastProgress, seen + {e.key}) else Oldest(place, oldest, seen + {e.key})
    {
    }

    lemma OldestOfAll(place: Option<(nat, nat)>, oldest: nat)
      requires Oldest(place, oldest, table.entries.Keys)
      ensures place.None? <==> table.entries == map[]
      ensures place.Some? ==> place.value.0 < table.buckets.Length && place.value.1 < |table.buckets[place.value.0]|
      ensures place.Some? ==> LeastRecent(Views(table.entries), table.buckets[place.value.0][place.value.1].key)
    {
    }

    lemma VisitNext(b: nat, i: nat)
      requires Healthy() && b < table.buckets.Length && i < |table.buckets[b]|
      ensures var e := table.buckets[b][i];
        && e.key in table.entries && table.entries[e.key] == e.flow
        && e.key !in Before(table.buckets[..], b, i)
        && Before(table.buckets[..], b, i + 1) == Before(table.buckets[..], b, i) + {e.key}
    {
      hide Before;
      BeforeNext(table.buckets[..], table.entries, table.hash, b, i);
    }

    lemma BeforeEnds()
      requires Healthy()
      ensures Before(table.buckets[..], 0, 0) == {}
      ensures Before(table.buckets[..], table.buckets.Length, 0) == table.entries.Keys
    {
      hide Before;
      BeforeAll(table.buckets[..], table.entries, table.hash);
    }

    /** Make room by destroying a least recent flow. */
    method EvictLeastRecent() returns (ghost victim: Option<FlowKey>)
      requires Healthy() && AllSized(Views(table.entries))
      modifies Repr()
      ensures cfg == old(cfg) && table.entries.Keys <= old(table.entries.Keys)
      ensures Healthy() && Repr() <= old(Repr())
      ensures victim.None? <==> old(table.entries) == map[]
      ensures victim.None? ==> Model() == old(Model())
      ensures victim.Some? ==> LeastRecent(old(Views(table.entries)), victim.value)
      ensures victim.Some? ==> Model() == Evict(old(Model()), victim.value)
    {
      hide Chained, Charged, PoolUsed, Accumulate, Objects, Views, Evict;
      var place := FindLeastRecent();
      victim := None;
      if place.Some? {
        victim := Some(table.buckets[place.value.0][place.value.1].key);
        EvictAt(place.value.0, place.value.1);
      }
    }

    /** The state of a new flow, with the capacity and wait of its first matching rule. */
    method NewFlowState(key: FlowKey) returns (f: FlowState)
      requires Finalized(cfg)
      ensures f.key == key && f.Ready() && f.View() == NewFlow(FlowCap(cfg, key), FlowWaitMs(cfg, key))
      ensures fresh(f) && fresh(f.buffer) && f.buffer.slots == null
    {
      hide FlowState.Valid, FlowState.View, Finalized, IsPow2, NewFlow;
      FlowCapIsPow2(cfg, key);
      var i := MatchRule(cfg.rules, key);
      var cap := if i < |cfg.rules| then cfg.rules[i].resolvedCap else cfg.cap;
      var wait := if i < |cfg.rules| then cfg.rules[i].resolvedWaitMs else cfg.maxWaitMs;
      f := new FlowState(key, cap, wait);
      NewFlowReady(f, cap, wait);
    }

    /** Create a flow and put it at the head of its chain. */
    method AddFlow(key: FlowKey) returns (f: FlowState)
      requires Healthy() && Finalized(cfg) && key !in table.entries
      modifies table, table.buckets
      ensures Healthy() && f.key == key && table.entries == old(table.entries)[key := f]
      ensures Views(table.entries) == old(Views(table.entries))[key := NewFlow(FlowCap(cfg, key), FlowWaitMs(cfg, key))]
      ensures Objects(table.entries) == old(Objects(table.entries)) + {f, f.buffer}
      ensures fresh(f) && fresh(f.buffer) && f.buffer.slots == null
    {
      hide Chained, FlowState.Ready, FlowState.View, BufferedBytes, Finalized, NewFlow;
      hide Charged, Views, Objects, FlowCap, FlowWaitMs, BucketOf;
      f := NewFlowState(key);
      NewFlowBytes(FlowCap(cfg, key), FlowWaitMs(cfg, key));
      ChargedWith(table.entries, f, pool);
      table.Prepend(key, f);
    }

    /** A full table gives up a least recent flow. */
    method MakeRoom(ghost key: FlowKey) returns (ghost victim: Option<FlowKey>)
      requires Healthy() && AllSized(Views(table.entries)) && key !in table.entries
      modifies Repr()
      ensures cfg == old(cfg) && table.entries.Keys <= old(table.entries.Keys)
      ensures Healthy() && Repr() <= old(Repr())
      ensures VictimFor(old(Model()), key, victim)
      ensures Model() == if victim.Some? then Evict(old(Model()), victim.value) else old(Model())
    {
      hide Chained, Charged, PoolUsed, Accumulate, Objects, Evict, LeastRecent, Views, AllSized;
      victim := None;
      ViewsKeys(table.entries);
      assert |table.entries.Keys| == |Views(table.entries)|;
      if cfg.maxFlows > 0 && table.count >= cfg.maxFlows {
        victim := EvictLeastRecent();
      }
    }

    /** The state of a flow, created at need. */
    method FlowFor(key: FlowKey) returns (f: FlowState, ghost victim: Option<FlowKey>)
      requires Healthy() && Finalized(cfg) && AllSized(Views(table.entries))
      modifies Repr()
      ensures Healthy() && Repr() <= old(Repr()) + {f, f.buffer}
      ensures f in old(Repr()) || fresh(f)
      ensures f.buffer in old(Repr()) || fresh(f.buffer)
      ensures f.buffer.slots == null || f.buffer.slots in old(Repr())
      ensures key in table.entries && table.entries[key] == f && f.key == key
      ensures VictimFor(old(Model()), key, victim)
      ensures Model() == WithFlow(old(Model()), key, victim)
    {
      hide Chained, Charged, Accumulate, Objects, Evict, Finalized, NewFlow, Views, LeastRecent, AllSized;
      ViewsKeys(table.entries);
      var found := table.Lookup(key);
      assert Repr() == old(Repr()) && Model() == old(Model());
      if found.Some? {
        f, victim := found.value, None;
        KeyOf(key);
        ObjectsOf(table.entries, key);
      } else {
        victim := MakeRoom(key);
        f := AddFlow(key);
      }
    }

    /** What is to be done with a datagram. */
    method Route(datagram: seq<Byte>) returns (d: Dispatch)
      ensures d == DispatchDatagram(cfg, datagram)
    {
      hide ParseL3L4, MatchIndex, BigEndian;
      var header := Decode(datagram);
      if header.None? || header.value.kind != TYPE_V1 {
        return Ignore;
      }
      var inner := datagram[HDR_LEN..];
      if |inner| == 0 || |inner| > 0xffff {
        return Ignore;
      }
      if cfg.maxWaitMs == 0 && cfg.rules == [] {
        return Direct(inner);
      }
      var verdict := ParsePacket(inner);
      if !verdict.Udp? {
        return Ignore;
      }
      var i := MatchRule(cfg.rules, verdict.key);
      var wait := if i < |cfg.rules| then cfg.rules[i].resolvedWaitMs else cfg.maxWaitMs;
      if wait == 0 {
        return Direct(inner);
      }
      return Reorder(verdict.key, header.value, inner);
    }

    /** Hand a packet to its flow. */
    method Inject(f: FlowState, header: Header, inner: Packet, now: nat)
      requires Healthy() && f.key in table.entries && table.entries[f.key] == f
      requires AllSized(Views(table.entries)) && FlowInv(f.View()) && Views(table.entries)[f.key] == f.View()
      modifies this`admitted, f, f.buffer, f.buffer.slots, pool
      ensures Healthy() && Repr() <= old(Repr()) + SlotsOf(f)
      ensures f.buffer.slots == null || f.buffer.slots == old(f.buffer.slots) || fresh(f.buffer.slots)
      ensures Model() == InFlow(old(Model()), f.key, header, inner, now)
    {
      hide Chained, Charged, Views, Objects, OnReordered, OthersUsed, FlowState.View, FlowInv;
      InjectPacket(f, pool, cfg, header, inner, now, table.entries);
      admitted := admitted + 1;
    }

    /** A packet of a waiting flow. */
    method OnFlowPacket(key: FlowKey, header: Header, inner: Packet, now: nat)
      returns (ghost f: FlowState, ghost victim: Option<FlowKey>)
      requires Valid() && FlowWaitMs(cfg, key) > 0
      modifies Repr()
      ensures Healthy() && Repr() <= old(Repr()) + {f, f.buffer} + SlotsOf(f)
      ensures f in old(Repr()) || fresh(f)
      ensures f.buffer in old(Repr()) || fresh(f.buffer)
      ensures f.buffer.slots == null || f.buffer.slots in old(Repr()) || fresh(f.buffer.slots)
      ensures RxSized(old(Model())) && VictimFor(old(Model()), key, victim)
      ensures Model() == InFlow(WithFlow(old(Model()), key, victim), key, header, inner, now)
    {
      hide RxInv, Chained, Charged, Views, Objects, WithFlow, VictimFor, FlowWaitMs, InFlow, AllSized, FlowInv, FlowState.View;
      InvFacts();
      var flow;
      flow, victim := FlowFor(key);
      f := flow;
      WithFlowKeepsInv(old(Model()), key, victim);
      FlowFacts(key);
      InvSized(Model());
      Inject(flow, header, inner, now);
    }

    lemma InvFacts()
      requires Valid()
      ensures RxSized(Model()) && AllSized(Views(table.entries)) && Finalized(cfg)
    {
      InvSized(Model());
    }

    lemma FlowFacts(key: FlowKey)
      requires RxInv(Model()) && key in table.entries
      ensures FlowInv(table.entries[key].View()) && Views(table.entries)[key] == table.entries[key].View()
    {
      hide FlowInv;
    }

    /** A datagram arrives from the tunnel. */
    method OnPacket(datagram: seq<Byte>, now: nat) returns (ghost victim: Option<FlowKey>)
      requires Valid()
      modifies Repr()
      ensures Valid() && fresh(Repr() - old(Repr()))
      ensures RxSized(old(Model())) && FitsTable(old(Model()), datagram, victim)
      ensures Model() == OnDatagram(old(Model()), datagram, now, victim)
    {
      hide RxInv, Charged, Chained, Objects, Views, WithFlow, VictimFor, FlowWaitMs, InFlow, AllSized, DispatchDatagram;
      InvFacts();
      OnlyWaitingFlowsReorder(cfg, datagram);
      var d := Route(datagram);
      victim := None;
      match d {
      case Ignore =>
      case Direct(inner) =>
        direct := direct + [inner];
      case Reorder(key, header, inner) =>
        ghost var f;
        f, victim := OnFlowPacket(key, header, inner, now);
      }
      DatagramKeepsInv(old(Model()), datagram, now, victim);
    }

    /** Look at the gap timer of the flow at a place in the table. */
    method FireAt(b: nat, i: nat, now: nat)
      requires Healthy() && b < table.buckets.Length && i < |table.buckets[b]|
      modifies Repr()
      ensures Healthy() && Repr() == old(Repr()) && unchanged(this) && unchanged(table) && unchanged(table.buckets)
      ensures var k := table.buckets[b][i].key;
        && k in old(Views(table.entries)) && |old(Views(table.entries))[k].stats.residence| == LAT_BUCKETS
        && Views(table.entries) == old(Views(table.entries))[k := TickFlow(old(Views(table.entries))[k], now)]
    {
      hide Chained, Charged, Views, Objects, TickFlow, FlowState.View, FlowState.Ready;
      var f := table.buckets[b][i].flow;
      VisitNext(b, i);
      KeyOf(table.buckets[b][i].key);
      ChargedOne(table.entries, pool, f.key);
      ReadySized(f);
      ViewsKeys(table.entries);
      ObjectsOf(table.entries, f.key);
      FireIfDue(f, pool, now, table.entries);
    }

    /** Fire every gap timer that is due. */
    method FireTimers(now: nat)
      requires Healthy() && AllSized(Views(table.entries))
      modifies Repr()
      ensures Healthy() && Repr() == old(Repr()) && unchanged(this) && unchanged(table) && unchanged(table.buckets)
      ensures Views(table.entries) == Fire(old(Views(table.entries)), now)
    {
      hide Healthy, Views, Repr, TickFlow, AllSized, Before, PartlyFired, Fire;
      ghost var chains: seq<seq<Entry<FlowState>>> := table.buckets[..];
      ghost var before := Views(table.entries);
      BeforeEnds();
      PartlyFiredEnds(before, now);
      ViewsKeys(table.entries);
      for b := 0 to table.buckets.Length
        invariant Healthy() && Repr() == old(Repr()) && unchanged(this) && unchanged(table) && unchanged(table.buckets)
        invariant table.buckets[..] == chains && table.entries.Keys == before.Keys
        invariant PartlyFired(before, Views(table.entries), Before(chains, b, 0), now)
      {
        for i := 0 to |table.buckets[b]|
          invariant Healthy() && Repr() == old(Repr()) && unchanged(this) && unchanged(table) && unchanged(table.buckets)
          invariant table.buckets[..] == chains && table.entries.Keys == before.Keys
          invariant PartlyFired(before, Views(table.entries), Before(chains, b, i), now)
        {
          VisitNext(b, i);
          PartlyFiredNext(before, Views(table.entries), Before(chains, b, i), chains[b][i].key, now);
          FireAt(b, i, now);
        }
        BeforeRow(chains, b);
      }
    }

    /** The flows seen so far that are still there are not idle. */
    ghost predicate NoneIdle(rx: Rx, seen: set<FlowKey>, now: nat) {
      forall k :: k in seen && k in rx.flows ==> !Idle(rx.cfg, rx.flows[k], now)
    }

    lemma NoneIdleNext(rx: Rx, seen: set<FlowKey>, k: FlowKey, now: nat)
      requires NoneIdle(rx, seen, now) && k in rx.flows && RxSized(rx)
      ensures if Idle(rx.cfg, rx.flows[k], now) then NoneIdle(Evict(rx, k), seen, now) else NoneIdle(rx, seen + {k}, now)
    {
    }

    lemma NoneIdleEnds(rx: Rx, now: nat)
      requires RxSized(rx)
      ensures NoneIdle(rx, {}, now)
      ensures NoneIdle(rx, rx.flows.Keys, now) ==> Sweep(rx, now) == rx
    {
      if NoneIdle(rx, rx.flows.Keys, now) {
        SweepNothing(rx, now);
      }
    }

    /** Destroy every flow without progress for longer than the idle limit. */
    method SweepIdle(now: nat)
      requires Healthy() && RxSized(Model())
      modifies Repr()
      ensures Healthy() && Repr() <= old(Repr()) && RxSized(old(Model()))
      ensures Model() == Sweep(old(Model()), now)
    {
      hide Healthy, Model, Repr, RxSized, NoneIdle, Before, Sweep, Idle, Evict;
      BeforeEnds();
      NoneIdleEnds(Model(), now);
      for b := 0 to table.buckets.Length
        invariant Healthy() && Repr() <= old(Repr()) && RxSized(Model())
        invariant Sweep(Model(), now) == Sweep(old(Model()), now)
        invariant NoneIdle(Model(), Before(table.buckets[..], b, 0), now)
      {
        var i := 0;
        while i < |table.buckets[b]|
          invariant i <= |table.buckets[b]|
          invariant Healthy() && Repr() <= old(Repr()) && RxSized(Model())
          invariant Sweep(Model(), now) == Sweep(old(Model()), now)
          invariant NoneIdle(Model(), Before(table.buckets[..], b, i), now)
        {
          var f := table.buckets[b][i].flow;
          ghost var rx, k := Model(), table.buckets[b][i].key;
          VisitNext(b, i);
          ModelFlow(k);
          NoneIdleNext(rx, Before(table.buckets[..], b, i), k, now);
          IdleIs(f, now);
          if now > f.lastProgress && now - f.lastProgress > cfg.ingressIdleSec * 1000000 {
            BeforeUnlink(table.buckets[..], b, i);
            SweepStep(rx, k, now);
            EvictAt(b, i);
          } else {
            i := i + 1;
          }
        }
        BeforeRow(table.buckets[..], b);
      }
      BeforeEnds();
      ModelKeys();
      NoneIdleEnds(Model(), now);
    }

    lemma ModelFlow(k: FlowKey)
      requires k in table.entries
      ensures k in Model().flows && Model().flows[k] == table.entries[k].View() && Model().cfg == cfg
    {
    }

    lemma ModelKeys()
      ensures Model().flows.Keys == table.entries.Keys
    {
    }

    lemma IdleIs(f: FlowState, now: nat)
      ensures Idle(cfg, f.View(), now) <==>
              now > f.lastProgress && now - f.lastProgress > cfg.ingressIdleSec * 1000000
    {
    }

    /** The periodic tick: gap timeouts, then idle flows. */
    method Tick(now: nat)
      requires Valid()
      modifies Repr()
      ensures Valid() && Repr() <= old(Repr())
      ensures RxSized(old(Model())) && Model() == OnTick(old(Model()), now)
      ensures forall k :: k in Model().flows && Model().flows[k].armed ==> Model().flows[k].deadline > now
    {
      hide RxInv, Charged, Chained, Views, Objects, AllSized, Fire, Sweep;
      InvFacts();
      TickKeepsInv(Model(), now);
      FireTimers(now);
      SweepIdle(now);
    }

    /** Lifetime counters: flows destroyed and flows alive. */
    method GetStats() returns (total: Stats)
      requires Valid()
      ensures RxSized(Model()) && total == Snapshot(Model())
    {
      hide Healthy, Before, AccumulateAll, Accumulate, AllSized, Views, RxInv, FlowState.View;
      InvFacts();
      BeforeEnds();
      ViewsKeys(table.entries);
      ghost var chains: seq<seq<Entry<FlowState>>> := table.buckets[..];
      ghost var flows := Views(table.entries);
      total := evicted;
      ghost var rest := flows;
      for b := 0 to table.buckets.Length
        invariant |total.residence| == LAT_BUCKETS && AllSized(rest) && rest == flows - Before(chains, b, 0)
        invariant AccumulateAll(total, rest) == AccumulateAll(evicted, flows)
      {
        for i := 0 to |table.buckets[b]|
          invariant |total.residence| == LAT_BUCKETS && AllSized(rest) && rest == flows - Before(chains, b, i)
          invariant AccumulateAll(total, rest) == AccumulateAll(evicted, flows)
        {
          var f := table.buckets[b][i].flow;
          ghost var k := table.buckets[b][i].key;
          VisitNext(b, i);
          StatsIn(k);
          AccumulateNext(total, rest, k);
          total := AddStats(total, f.stats);
          rest := rest - {k};
        }
        BeforeRow(chains, b);
      }
      AccumulateNone(total, rest);
    }

    lemma StatsIn(k: FlowKey)
      requires k in table.entries
      ensures k in Views(table.entries) && Views(table.entries)[k].stats == table.entries[k].stats
    {
    }

    /** Evaluation runs can switch demotion off. */
    method SetForceNoDemotion(on: bool)
      requires Valid()
      modifies this`cfg
      ensures Valid() && Model() == RxStep(old(Model()), ForceNoDemotion(on))
    {
      hide FlowInv, Chained, Charged, LedgerBalanced, Views, PoolUsed;
      cfg := cfg.(forceNoDemotion := on);
    }

    lemma KeyOf(key: FlowKey)
      requires Healthy() && key in table.entries
      ensures table.entries[key].key == key
    {
    }

    lemma PlaceHolds(b: nat, i: nat)
      requires table.Valid() && b < table.buckets.Length && i < |table.buckets[b]|
      ensures table.buckets[b][i].key in table.entries
      ensures table.entries[table.buckets[b][i].key] == table.buckets[b][i].flow
    {
    }
  }

  lemma ReadySized(f: FlowState)
    requires f.Ready()
    ensures |f.View().stats.residence| == LAT_BUCKETS
  {
  }

  lemma NewFlowReady(f: FlowState, cap: nat, waitMs: nat)
    requires f.Valid() && f.View() == NewFlow(cap, waitMs)
    ensures f.Ready()
  {
  }

  lemma ChargedWith(flows: Flows, f: FlowState, pool: Pool)
    requires Charged(flows, pool) && f.key !in flows && f.Ready() && BufferedBytes(f.View()) == 0
    requires f.buffer.slots == null && forall k :: k in flows ==> flows[k].buffer != f.buffer
    ensures Charged(flows[f.key := f], pool)
    ensures Views(flows[f.key := f]) == Views(flows)[f.key := f.View()]
    ensures Objects(flows[f.key := f]) == Objects(flows) + {f, f.buffer}
  {
    hide FlowState.Ready, FlowState.View, BufferedBytes, Apart, Objects;
    ApartWith(flows, f);
    assert Views(flows[f.key := f]) == Views(flows)[f.key := f.View()];
    TotalInsert(Views(flows), BufferedBytes, f.key, f.View());
  }

  lemma ApartWith(flows: Flows, f: FlowState)
    requires Apart(flows) && f.key !in flows
    requires f.buffer.slots == null && forall k :: k in flows ==> flows[k].buffer != f.buffer
    ensures Apart(flows[f.key := f])
    ensures Objects(flows[f.key := f]) == Objects(flows) + {f, f.buffer}
  {
    ObjectsWith(flows, f);
    hide Objects;
  }

  lemma ObjectsWith(flows: Flows, f: FlowState)
    requires f.key !in flows && f.buffer.slots == null
    ensures Objects(flows[f.key := f]) == Objects(flows) + {f, f.buffer}
  {
    var more := flows[f.key := f];
    ObjectsOf(more, f.key);
    assert more - {f.key} == flows;
  }

  lemma ViewsKeys(flows: Flows)
    ensures Views(flows).Keys == flows.Keys
  {
  }

  /** The flows left when one is unlinked. */
  lemma ChargedWithout(flows: Flows, k: FlowKey)
    requires Apart(flows) && AllReady(flows) && k in flows
    ensures Apart(flows - {k}) && AllReady(flows - {k})
    ensures Views(flows - {k}) == Views(flows) - {k}
    ensures Clear(flows[k], flows - {k})
  {
  }
}
