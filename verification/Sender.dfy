/** The sender with its hash table of flow objects, updated in place and proved against SenderModel. */
module Sender {
  import opened Bits
  import opened Wrappers
  import opened Ring
  import opened ReorderConfig
  import opened FlowTable
  import opened Wire
  import opened SenderModel

  type SendFlows = map<FlowKey, SendState>

  class SendState {
    const key: FlowKey
    const eligible: bool
    const id: nat
    var nextSeq: nat
    var marksLeft: nat
    var lastActivity: nat

    constructor (key: FlowKey, eligible: bool, marks: nat, now: nat, id: nat)
      ensures this.key == key && View() == SendFlow(0, marks, eligible, now, id)
    {
      this.key, this.eligible, this.id := key, eligible, id;
      nextSeq, marksLeft, lastActivity := 0, marks, now;
    }

    /** A number has been consumed. */
    method StepPast(now: nat)
      modifies this
      ensures View() == Advance(old(View()), now)
    {
      nextSeq := nextSeq + 1;
      if marksLeft > 0 {
        marksLeft := marksLeft - 1;
      }
      lastActivity := now;
    }

    ghost function View(): SendFlow
      reads this
    {
      SendFlow(nextSeq, marksLeft, eligible, lastActivity, id)
    }
  }

  /** What a peek hands to the commit: the decision and the flow it is about. */
  datatype PeekResult = PeekRaw | PeekDropMtu(flow: SendState) | PeekStamp(flow: SendState, header: Header)

  ghost function Decision(p: PeekResult): Peeked {
    match p
    case PeekRaw => SendRaw
    case PeekDropMtu(f) => DropMtu(f.key)
    case PeekStamp(f, h) => Stamp(f.key, h)
  }

  ghost function SendViews(flows: SendFlows): map<FlowKey, SendFlow>
    reads set k | k in flows :: flows[k]
  {
    map k | k in flows :: flows[k].View()
  }

  ghost predicate Keyed(flows: SendFlows) {
    forall k :: k in flows ==> flows[k].key == k
  }

  /** The bucket count for a table of at most `maxFlows` flows. */
  method PickBuckets(maxFlows: nat) returns (n: nat)
    ensures IsPow2(n) && 16 <= n <= 0x10_0000
    ensures n >= maxFlows || n == 0x10_0000
    ensures n == 16 || n / 2 < maxFlows
  {
    hide Pow2, IsPow2;
    n := 16;
    BucketLimits();
    while n < maxFlows && n < 0x10_0000
      invariant 16 <= n <= 0x10_0000 && IsPow2(n)
      invariant n == 16 || n / 2 < maxFlows
      decreases 0x10_0000 - n
    {
      DoubleWithin(n, 0x10_0000);
      n := n * 2;
    }
  }

  lemma BucketLimits()
    ensures IsPow2(16) && IsPow2(0x10_0000)
  {
    assert Pow2(4) == 16;
    assert Pow2(5) == 32;
    assert Pow2(10) == 32 * Pow2(5);
    assert Pow2(15) == 32 * Pow2(10);
    assert Pow2(20) == 32 * Pow2(15);
  }

  ghost function States(flows: SendFlows): set<object> {
    set k | k in flows :: flows[k]
  }

  lemma ViewsWithout(flows: SendFlows, k: FlowKey)
    ensures SendViews(flows - {k}) == SendViews(flows) - {k} && States(flows - {k}) <= States(flows)
    ensures Keyed(flows) ==> Keyed(flows - {k})
  {
  }

  lemma ViewsWith(flows: SendFlows, f: SendState)
    requires f.key !in flows
    ensures SendViews(flows[f.key := f]) == SendViews(flows)[f.key := f.View()]
    ensures States(flows[f.key := f]) == States(flows) + {f}
    ensures Keyed(flows) ==> Keyed(flows[f.key := f])
  {
    var more := flows[f.key := f];
    assert more[f.key] in States(more);
    forall k | k in flows ensures flows[k] in States(more) { assert more[k] == flows[k]; }
  }

  lemma StateOf(flows: SendFlows, k: FlowKey)
    requires Keyed(flows) && k in flows
    ensures flows[k].key == k && flows[k] in States(flows)
  {
  }

  class ReorderTx {
    const cfg: Config
    const table: ChainTable<SendState>
    var stats: TxStats

    // History: the stamped packets that were sent.
    ghost var wire: seq<Sent>

    ghost function Model(): Tx
      reads this, table, set k | k in table.entries :: table.entries[k]
    {
      Tx(cfg, SendViews(table.entries), stats, wire)
    }

    ghost predicate Valid()
      reads this, table, table.buckets, set k | k in table.entries :: table.entries[k]
    {
      table.Valid() && Keyed(table.entries)
    }

    ghost function Repr(): set<object>
      reads this, table
    {
      {this, table, table.buckets} + States(table.entries)
    }

    constructor (cfg: Config, hash: FlowKey -> nat)
      ensures Valid() && Model() == FreshTx(cfg) && TxInv(Model()) && fresh(Repr()) && table.hash == hash
    {
      hide TxInv, Chained;
      FreshTxInv(cfg);
      this.cfg := cfg;
      var n := PickBuckets(if cfg.maxFlows != 0 then cfg.maxFlows else 16);
      table := new ChainTable(hash, n);
      stats, wire := TxStats(0, 0, 0, 0), [];
    }

    /** The place of an oldest flow that is idle beyond the limit, if there is one. */
    method FindOldestIdle(now: nat) returns (place: Option<(nat, nat)>)
      requires table.Valid()
      ensures place.Some? <==> SomeIdle(cfg, SendViews(table.entries), now)
      ensures place.Some? ==> place.value.0 < table.buckets.Length && place.value.1 < |table.buckets[place.value.0]|
      ensures place.Some? ==>
                OldestIdle(cfg, SendViews(table.entries), table.buckets[place.value.0][place.value.1].key, now)
    {
      hide Chained, Before, Oldest, OldestIdle, SomeIdle, SendViews;
      place := None;
      var oldest := 0;
      ghost var chains: seq<seq<Entry<SendState>>> := table.buckets[..];
      Ends(oldest, now);
      for b := 0 to table.buckets.Length
        invariant Oldest(place, oldest, Before(chains, b, 0), now)
      {
        for i := 0 to |table.buckets[b]|
          invariant Oldest(place, oldest, Before(chains, b, i), now)
        {
          var f := table.buckets[b][i].flow;
          OldestNext(place, oldest, Before(chains, b, i), b, i, now);
          BeforeNext(chains, table.entries, table.hash, b, i);
          if now > f.lastActivity && now - f.lastActivity > cfg.egressIdleSec * 1000000 {
            if place.None? || f.lastActivity < oldest {
              oldest := f.lastActivity;
              place := Some((b, i));
            }
          }
        }
        BeforeRow(chains, b);
      }
      OldestOfAll(place, oldest, now);
    }

    /** What the scan knows once it has seen some keys. */
    ghost predicate Oldest(place: Option<(nat, nat)>, oldest: nat, seen: set<FlowKey>, now: nat)
      reads this, table, table.buckets, set k | k in table.entries :: table.entries[k]
    {
      && seen <= table.entries.Keys
      && (place.Some? ==>
            && place.value.0 < table.buckets.Length && place.value.1 < |table.buckets[place.value.0]|
            && var key := table.buckets[place.value.0][place.value.1].key;
               key in table.entries && table.entries[key].lastActivity == oldest
               && IdleSender(cfg, table.entries[key].View(), now))
      && (forall k :: k in seen && IdleSender(cfg, table.entries[k].View(), now) ==>
            place.Some? && oldest <= table.entries[k].lastActivity)
    }

    lemma Ends(oldest: nat, now: nat)
      requires table.Valid()
      ensures Oldest(None, oldest, {}, now)
      ensures Before(table.buckets[..], 0, 0) == {}
      ensures Before(table.buckets[..], table.buckets.Length, 0) == table.entries.Keys
    {
      hide Before;
      BeforeAll(table.buckets[..], table.entries, table.hash);
    }

    lemma OldestNext(place: Option<(nat, nat)>, oldest: nat, seen: set<FlowKey>, b: nat, i: nat, now: nat)
      requires table.Valid() && Oldest(place, oldest, seen, now) && b < table.buckets.Length && i < |table.buckets[b]|
      ensures table.buckets[b][i].key in table.entries
      ensures var e := table.buckets[b][i];
        if IdleSender(cfg, e.flow.View(), now) && (place.None? || e.flow.lastActivity < oldest)
        then Oldest(Some((b, i)), e.flow.lastActivity, seen + {e.key}, now)
        else Oldest(place, oldest, seen + {e.key}, now)
    {
    }

    lemma OldestOfAll(place: Option<(nat, nat)>, oldest: nat, now: nat)
      requires Oldest(place, oldest, table.entries.Keys, now)
      ensures place.Some? <==> SomeIdle(cfg, SendViews(table.entries), now)
      ensures place.Some? ==> place.value.0 < table.buckets.Length && place.value.1 < |table.buckets[place.value.0]|
      ensures place.Some? ==>
                OldestIdle(cfg, SendViews(table.entries), table.buckets[place.value.0][place.value.1].key, now)
    {
    }

    /** Take the flow at a place in the table out of its chain. */
    method Detach(b: nat, i: nat)
      requires table.Valid() && Keyed(table.entries) && b < table.buckets.Length && i < |table.buckets[b]|
      modifies table, table.buckets
      ensures table.Valid() && Keyed(table.entries) && States(table.entries) <= old(States(table.entries))
      ensures table.entries == old(table.entries) - {old(table.buckets[b][i].key)}
      ensures SendViews(table.entries) == old(SendViews(table.entries)) - {old(table.buckets[b][i].key)}
    {
      hide Chained, SendViews, Keyed, States, Without;
      ViewsWithout(table.entries, table.buckets[b][i].key);
      table.Unlink(b, i);
    }

    /** Unlink the idle flow at a place in the table. */
    method UnlinkIdle(b: nat, i: nat)
      requires table.Valid() && Keyed(table.entries) && b < table.buckets.Length && i < |table.buckets[b]|
      modifies this`stats, table, table.buckets
      ensures table.Valid() && Keyed(table.entries) && Repr() <= old(Repr()) && table.entries.Keys <= old(table.entries.Keys)
      ensures Model() == EvictIdle(old(Model()), old(table.buckets[b][i].key))
    {
      hide ChainTable.Valid, SendViews, Keyed, States;
      Detach(b, i);
      stats := stats.(idleEvicted := stats.idleEvicted + 1);
    }

    /** Free the place of an oldest idle flow; false when every flow is active. */
    method EvictOneIdle(now: nat) returns (freed: bool, ghost victim: Option<FlowKey>)
      requires table.Valid() && Keyed(table.entries)
      modifies this`stats, table, table.buckets
      ensures table.Valid() && Keyed(table.entries) && Repr() <= old(Repr()) && table.entries.Keys <= old(table.entries.Keys)
      ensures freed <==> victim.Some?
      ensures freed <==> SomeIdle(cfg, old(SendViews(table.entries)), now)
      ensures freed ==> OldestIdle(cfg, old(SendViews(table.entries)), victim.value, now)
      ensures Model() == if freed then EvictIdle(old(Model()), victim.value) else old(Model())
    {
      hide Chained, OldestIdle, SomeIdle, SendViews, Keyed, States, Model, EvictIdle;
      victim := None;
      var place := FindOldestIdle(now);
      if place.None? {
        return false, None;
      }
      victim := Some(table.buckets[place.value.0][place.value.1].key);
      UnlinkIdle(place.value.0, place.value.1);
      return true, victim;
    }

    method ComputeEligible(key: FlowKey) returns (r: bool)
      ensures r == Eligible(cfg, key)
    {
      var i := MatchRule(cfg.rules, key);
      if i == |cfg.rules| {
        return cfg.rules == [] && cfg.enabled;
      }
      return ProfilePreset(cfg.rules[i].profile).Preset?;
    }

    /** Create a flow and put it at the head of its chain. */
    method AddFlow(key: FlowKey, now: nat) returns (f: SendState)
      requires table.Valid() && Keyed(table.entries) && key !in table.entries
      modifies this`stats, table, table.buckets
      ensures table.Valid() && Keyed(table.entries) && fresh(f) && Repr() == old(Repr()) + {f}
      ensures f.key == key && key in table.entries && table.entries[key] == f
      ensures Model() == Create(old(Model()), key, now)
    {
      hide Chained, BucketOf, MatchIndex, SendViews, Keyed, States;
      var eligible := ComputeEligible(key);
      f := new SendState(key, eligible, cfg.resetMarks, now, stats.created);
      ViewsWith(table.entries, f);
      table.Prepend(key, f);
      stats := stats.(created := stats.created + 1);
    }

    /** See to it that there is a place for a new flow; false when the table is full of active flows. */
    method MakePlace(ghost key: FlowKey, now: nat) returns (ok: bool, ghost victim: Option<FlowKey>)
      requires table.Valid() && Keyed(table.entries) && key !in table.entries
      modifies this`stats, table, table.buckets
      ensures table.Valid() && Keyed(table.entries) && Repr() <= old(Repr()) && key !in table.entries
      ensures SendVictim(old(Model()), key, now, victim)
      ensures ok <==> victim.Some? || !Full(old(Model()))
      ensures Model() == if ok then (if victim.Some? then EvictIdle(old(Model()), victim.value) else old(Model()))
                         else Admit(old(Model()), key, now, victim)
    {
      hide Chained, OldestIdle, SomeIdle, EvictIdle, Keyed, States, SendViews;
      victim := None;
      ModelKeys();
      if cfg.maxFlows != 0 && table.count >= cfg.maxFlows {
        ok, victim := EvictOneIdle(now);
        if !ok {
          stats := stats.(tableFullRaw := stats.tableFullRaw + 1);
        }
        return;
      }
      ok := true;
    }

    lemma ModelKeys()
      requires table.Valid()
      ensures Model().flows.Keys == table.entries.Keys && |Model().flows| == table.count
    {
      assert SendViews(table.entries).Keys == table.entries.Keys;
      assert |SendViews(table.entries)| == |SendViews(table.entries).Keys|;
    }

    method GetOrCreate(key: FlowKey, now: nat) returns (f: SendState?, ghost victim: Option<FlowKey>)
      requires table.Valid() && Keyed(table.entries)
      modifies this`stats, table, table.buckets
      ensures table.Valid() && Keyed(table.entries)
      ensures f != null ==> f.key == key && key in table.entries && table.entries[key] == f
      ensures f == null ==> key !in table.entries
      ensures Repr() <= old(Repr()) + (if f == null then {} else {f}) && (f == null || f in old(Repr()) || fresh(f))
      ensures SendVictim(old(Model()), key, now, victim)
      ensures Model() == Admit(old(Model()), key, now, victim)
    {
      hide Chained, BucketOf, OldestIdle, SomeIdle, Create, EvictIdle, Keyed, States, Model, Full;
      ModelKeys();
      var found := table.Lookup(key);
      if found.Some? {
        StateOf(table.entries, key);
        return found.value, None;
      }
      var ok;
      ok, victim := MakePlace(key, now);
      if !ok {
        return null, victim;
      }
      f := AddFlow(key, now);
    }

    /** Decide what to do with a packet, and stamp it if it is to be stamped; no number is consumed. */
    method PeekPacket(pkt: Packet, now: nat, budget: nat) returns (p: PeekResult, ghost victim: Option<FlowKey>)
      requires Valid()
      modifies Repr()
      ensures Valid() && fresh(Repr() - old(Repr()))
      ensures old(TxInv(Model())) ==> TxInv(Model())
      ensures PeekVictim(old(Model()), pkt, now, victim)
      ensures (Model(), Decision(p)) == Peek(old(Model()), pkt, now, budget, victim)
      ensures p.PeekStamp? ==> p.flow.key in table.entries && table.entries[p.flow.key] == p.flow
    {
      hide TxInv, Chained, BucketOf, ParseL3L4, SendVictim, Admit;
      victim := None;
      if !cfg.enabled {
        return PeekRaw, None;
      }
      var l4 := ParsePacket(pkt);
      if !l4.Udp? {
        return PeekRaw, None;
      }
      var f;
      f, victim := GetOrCreate(l4.key, now);
      if TxInv(old(Model())) {
        PeekKeepsInv(old(Model()), pkt, now, budget, victim);
      }
      if f == null || !f.eligible {
        return PeekRaw, victim;
      }
      if HDR_LEN + |pkt| > budget {
        return PeekDropMtu(f), victim;
      }
      var flags: Byte := 0;
      if f.marksLeft > 0 {
        flags := FLAG_RESET;
      }
      return PeekStamp(f, Header(TYPE_V1, flags, f.nextSeq)), victim;
    }

    /** Step the flow past a number. */
    method Consume(flow: SendState, ghost header: Header, ghost inner: Packet, now: nat)
      requires Valid() && flow.key in table.entries && table.entries[flow.key] == flow
      modifies this`wire, flow
      ensures Valid() && Repr() == old(Repr())
      ensures Model() == Commit(old(Model()), flow.key, header, inner, now)
    {
      hide TxInv, ChainTable.Valid, SendState.View, Advance, States;
      IdOf(flow);
      flow.StepPast(now);
      wire := wire + [Sent(flow.id, flow.key, header, inner)];
      assert SendViews(table.entries) == old(SendViews(table.entries))[flow.key := flow.View()];
    }

    lemma IdOf(flow: SendState)
      ensures flow.View().id == flow.id
    {
    }

    lemma ModelFlow(key: FlowKey)
      requires key in table.entries
      ensures key in Model().flows && Model().flows[key] == table.entries[key].View()
    {
    }

    /** The stamped packet was sent: consume a number. `inner` is what went out behind the header. The numbering is kept
        exactly if the stamp was still the flow's next one. */
    method CommitPeek(p: PeekResult, ghost inner: Packet, now: nat)
      requires Valid()
      requires p.PeekStamp? ==> p.flow.key in table.entries && table.entries[p.flow.key] == p.flow
      modifies this`wire, if p.PeekStamp? then {p.flow} else {}
      ensures Valid() && Repr() == old(Repr())
      ensures Model() == if p.PeekStamp? then Commit(old(Model()), p.flow.key, p.header, inner, now) else old(Model())
      ensures old(TxInv(Model())) && p.PeekStamp? ==> (TxInv(Model()) <==> p.header == StampOf(old(p.flow.View())))
    {
      hide TxInv, Commit, Model, Valid, StampOf, States, SendState.View;
      if !p.PeekStamp? {
        return;
      }
      ModelFlow(p.flow.key);
      if TxInv(Model()) {
        CommitKeepsInvIff(Model(), p.flow.key, p.header, inner, now);
      }
      Consume(p.flow, p.header, inner, now);
    }
  }
}
