/** The sender as a value: peek decides and stamps, commit consumes the number. */
module SenderModel {
  import opened Wrappers
  import opened Ring
  import opened ReorderConfig
  import opened Wire

  /** Sender state of a flow; `id` is history: the creation number of this incarnation. */
  datatype SendFlow = SendFlow(nextSeq: nat, marksLeft: nat, eligible: bool, lastActivity: nat, id: nat)

  /** `forced` counts evictions of active flows. */
  datatype TxStats = TxStats(created: nat, idleEvicted: nat, tableFullRaw: nat, forced: nat)

  /** A stamped packet that was sent. */
  datatype Sent = Sent(id: nat, key: FlowKey, header: Header, inner: Packet)

  /** `wire` is history: every stamped packet whose send was committed. */
  datatype Tx = Tx(cfg: Config, flows: map<FlowKey, SendFlow>, stats: TxStats, wire: seq<Sent>)

  datatype Peeked = SendRaw | DropMtu(key: FlowKey) | Stamp(key: FlowKey, header: Header)

  // ----- gating and eviction -----

  /** The first matching rule must carry a preset; without rules every flow is eligible. */
  function Eligible(cfg: Config, key: FlowKey): bool {
    var i := MatchIndex(cfg.rules, key);
    if i == |cfg.rules| then cfg.rules == [] && cfg.enabled else ProfilePreset(cfg.rules[i].profile).Preset?
  }

  predicate IdleSender(cfg: Config, f: SendFlow, now: nat) {
    now > f.lastActivity && now - f.lastActivity > cfg.egressIdleSec * 1000000
  }

  ghost predicate OldestIdle(cfg: Config, flows: map<FlowKey, SendFlow>, k: FlowKey, now: nat) {
    && k in flows && IdleSender(cfg, flows[k], now)
    && forall j :: j in flows && IdleSender(cfg, flows[j], now) ==> flows[k].lastActivity <= flows[j].lastActivity
  }

  ghost predicate SomeIdle(cfg: Config, flows: map<FlowKey, SendFlow>, now: nat) {
    exists k :: k in flows && IdleSender(cfg, flows[k], now)
  }

  predicate Full(tx: Tx) {
    tx.cfg.maxFlows > 0 && |tx.flows| >= tx.cfg.maxFlows
  }

  /** A flow gives way exactly when a new one needs its place and some flow is idle; it is an oldest idle one. */
  ghost predicate SendVictim(tx: Tx, key: FlowKey, now: nat, victim: Option<FlowKey>) {
    if key !in tx.flows && Full(tx) && SomeIdle(tx.cfg, tx.flows, now)
    then victim.Some? && OldestIdle(tx.cfg, tx.flows, victim.value, now)
    else victim == None
  }

  function EvictIdle(tx: Tx, k: FlowKey): Tx {
    tx.(flows := tx.flows - {k}, stats := tx.stats.(idleEvicted := tx.stats.idleEvicted + 1))
  }

  function NewSendFlow(cfg: Config, key: FlowKey, now: nat, id: nat): SendFlow {
    SendFlow(0, cfg.resetMarks, Eligible(cfg, key), now, id)
  }

  function Create(tx: Tx, key: FlowKey, now: nat): Tx {
    tx.(flows := tx.flows[key := NewSendFlow(tx.cfg, key, now, tx.stats.created)],
        stats := tx.stats.(created := tx.stats.created + 1))
  }

  /** Find or create the flow; a full table of active flows refuses. */
  function Admit(tx: Tx, key: FlowKey, now: nat, victim: Option<FlowKey>): (r: Tx)
    ensures r.cfg == tx.cfg && r.wire == tx.wire
  {
    if key in tx.flows then tx
    else if victim.Some? then Create(EvictIdle(tx, victim.value), key, now)
    else if Full(tx) then tx.(stats := tx.stats.(tableFullRaw := tx.stats.tableFullRaw + 1))
    else Create(tx, key, now)
  }

  // ----- peek and commit -----

  function StampOf(f: SendFlow): Header {
    Header(TYPE_V1, if f.marksLeft > 0 then FLAG_RESET else 0, f.nextSeq)
  }

  ghost predicate PeekVictim(tx: Tx, pkt: Packet, now: nat, victim: Option<FlowKey>) {
    if tx.cfg.enabled && ParseL3L4(pkt).Udp? then SendVictim(tx, ParseL3L4(pkt).key, now, victim) else victim == None
  }

  function Verdict(tx: Tx, key: FlowKey, len: nat, budget: nat): Peeked {
    if key !in tx.flows || !tx.flows[key].eligible then SendRaw
    else if HDR_LEN + len > budget then DropMtu(key)
    else Stamp(key, StampOf(tx.flows[key]))
  }

  function Peek(tx: Tx, pkt: Packet, now: nat, budget: nat, victim: Option<FlowKey>): (r: (Tx, Peeked))
    ensures r.1.Stamp? ==> r.1.key in r.0.flows
  {
    if !tx.cfg.enabled then (tx, SendRaw)
    else
      match ParseL3L4(pkt)
      case Udp(key) =>
        var room := Admit(tx, key, now, victim);
        (room, Verdict(room, key, |pkt|, budget))
      case _ => (tx, SendRaw)
  }

  function Advance(f: SendFlow, now: nat): SendFlow {
    f.(nextSeq := f.nextSeq + 1, marksLeft := if f.marksLeft > 0 then f.marksLeft - 1 else 0, lastActivity := now)
  }

  /** The send succeeded: `inner` is what went out behind the header. */
  function Commit(tx: Tx, key: FlowKey, header: Header, inner: Packet, now: nat): Tx
    requires key in tx.flows
  {
    tx.(flows := tx.flows[key := Advance(tx.flows[key], now)],
        wire := tx.wire + [Sent(tx.flows[key].id, key, header, inner)])
  }

  // ----- what is decided, and what a peek costs -----

  lemma EligibleIff(cfg: Config, key: FlowKey)
    requires cfg.enabled
    ensures Eligible(cfg, key) <==> ToReorder(cfg, key)
  {
    hide MatchIndex;
    DecidesOrNone(cfg.rules, key);
    forall i: nat | Decides(cfg.rules, key, i)
      ensures i == MatchIndex(cfg.rules, key)
    {
      DecidesIs(cfg.rules, key, i);
    }
  }

  /** The flow has a place in the table, or gets one: the table has no limit or is not full, or some flow has sent nothing
      for longer than the limit. */
  ghost predicate HasPlace(tx: Tx, key: FlowKey, now: nat) {
    || key in tx.flows || tx.cfg.maxFlows == 0 || |tx.flows| < tx.cfg.maxFlows
    || exists k :: k in tx.flows && now > tx.flows[k].lastActivity + tx.cfg.egressIdleSec * 1000000
  }

  /** The sender stamps a packet exactly when the gate is on, it is a UDP packet of a flow to reorder that has a place,
      and header and packet fit; it asks for a smaller one exactly if only the last is missing; and else leaves it alone.
      The stamp carries the next number of the flow. */
  lemma StampsIff(tx: Tx, pkt: Packet, now: nat, budget: nat, victim: Option<FlowKey>)
    requires PeekVictim(tx, pkt, now, victim) && TxInv(tx)
    ensures var (after, p) := Peek(tx, pkt, now, budget, victim); var l4 := ParseL3L4(pkt);
      var wanted := tx.cfg.enabled && l4.Udp? && ToReorder(tx.cfg, l4.key) && HasPlace(tx, l4.key, now);
      && (p.Stamp? <==> wanted && 8 + |pkt| <= budget)
      && (p.DropMtu? <==> wanted && 8 + |pkt| > budget)
      && (p != SendRaw ==> p.key == l4.key)
      && (p.Stamp? ==> p.header.kind == TYPE_V1)
      && (p.Stamp? ==> p.header.seqNo == if l4.key in tx.flows then tx.flows[l4.key].nextSeq else 0)
  {
    hide ParseL3L4, Eligible, Numbered, SentBy, ToReorder;
    if tx.cfg.enabled && ParseL3L4(pkt).Udp? {
      var key := ParseL3L4(pkt).key;
      EligibleIff(tx.cfg, key);
      SomeIdleIff(tx.cfg, tx.flows, now);
    }
  }

  lemma SomeIdleIff(cfg: Config, flows: map<FlowKey, SendFlow>, now: nat)
    ensures SomeIdle(cfg, flows, now) <==>
            exists k :: k in flows && now > flows[k].lastActivity + cfg.egressIdleSec * 1000000
  {
    forall k | k in flows
      ensures IdleSender(cfg, flows[k], now) <==> now > flows[k].lastActivity + cfg.egressIdleSec * 1000000
    {
    }
  }

  /** A peek consumes nothing: flows it leaves in place are untouched, nothing is sent, and asking again gives the same stamp. */
  lemma PeekConsumesNothing(tx: Tx, pkt: Packet, now: nat, budget: nat, victim: Option<FlowKey>)
    requires PeekVictim(tx, pkt, now, victim)
    ensures var (after, p) := Peek(tx, pkt, now, budget, victim);
      && after.wire == tx.wire
      && (forall k :: k in tx.flows && k in after.flows ==> after.flows[k] == tx.flows[k])
      && (p != SendRaw ==> PeekVictim(after, pkt, now, None) && Peek(after, pkt, now, budget, None) == (after, p))
  {
    hide ParseL3L4, Eligible;
  }

  /** Only a flow that has sent nothing for longer than the limit, and an oldest such, ever loses its place. */
  lemma OnlyIdleGiveWay(tx: Tx, pkt: Packet, now: nat, budget: nat, victim: Option<FlowKey>, k: FlowKey)
    requires PeekVictim(tx, pkt, now, victim) && k in tx.flows
    ensures k !in Peek(tx, pkt, now, budget, victim).0.flows ==>
              && tx.cfg.maxFlows > 0 && |tx.flows| >= tx.cfg.maxFlows
              && now > tx.flows[k].lastActivity + tx.cfg.egressIdleSec * 1000000
              && forall j :: j in tx.flows ==> tx.flows[k].lastActivity <= tx.flows[j].lastActivity
  {
    hide ParseL3L4, Eligible;
  }

  // ----- numbering -----

  /** What was sent for one incarnation, in order. */
  function SentBy(wire: seq<Sent>, id: nat): (r: seq<Sent>)
    ensures |r| <= |wire|
  {
    if wire == [] then []
    else
      var n := |wire| - 1;
      SentBy(wire[..n], id) + if wire[n].id == id then [wire[n]] else []
  }

  /** The i-th packet carries number i, and FLOW_RESET exactly when i is below the number of reset marks. */
  predicate Numbered(sent: seq<Sent>, marks: nat) {
    forall i :: 0 <= i < |sent| ==> sent[i].header == Header(TYPE_V1, if i < marks then FLAG_RESET else 0, i)
  }

  ghost predicate FlowNumbered(tx: Tx, key: FlowKey, f: SendFlow) {
    && f.eligible == Eligible(tx.cfg, key)
    && f.id < tx.stats.created
    && f.nextSeq == |SentBy(tx.wire, f.id)|
    && f.marksLeft == if f.nextSeq < tx.cfg.resetMarks then tx.cfg.resetMarks - f.nextSeq else 0
  }

  ghost predicate TxInv(tx: Tx) {
    && (forall id :: Numbered(SentBy(tx.wire, id), tx.cfg.resetMarks))
    && (forall i :: 0 <= i < |tx.wire| ==> tx.wire[i].id < tx.stats.created)
    && (forall k :: k in tx.flows ==> FlowNumbered(tx, k, tx.flows[k]))
    && (forall j, k :: j in tx.flows && k in tx.flows && j != k ==> tx.flows[j].id != tx.flows[k].id)
    && (tx.cfg.maxFlows > 0 ==> |tx.flows| <= tx.cfg.maxFlows)
    && tx.stats.created == |tx.flows| + tx.stats.idleEvicted
    && tx.stats.forced == 0
  }

  lemma {:induction false} SentByNone(wire: seq<Sent>, id: nat)
    requires forall i :: 0 <= i < |wire| ==> wire[i].id != id
    ensures SentBy(wire, id) == []
  {
    if wire != [] {
      SentByNone(wire[..|wire| - 1], id);
    }
  }

  lemma SentByAppend(wire: seq<Sent>, s: Sent, id: nat)
    ensures SentBy(wire + [s], id) == SentBy(wire, id) + if s.id == id then [s] else []
  {
    assert (wire + [s])[..|wire|] == wire;
  }

  lemma CreateKeepsInv(tx: Tx, key: FlowKey, now: nat)
    requires TxInv(tx) && key !in tx.flows && !Full(tx)
    ensures TxInv(Create(tx, key, now))
  {
    hide Numbered, Eligible;
    SentByNone(tx.wire, tx.stats.created);
  }

  lemma EvictIdleKeepsInv(tx: Tx, k: FlowKey)
    requires TxInv(tx) && k in tx.flows
    ensures TxInv(EvictIdle(tx, k)) && |EvictIdle(tx, k).flows| == |tx.flows| - 1
  {
    hide Numbered, Eligible, SentBy;
  }

  lemma PeekKeepsInv(tx: Tx, pkt: Packet, now: nat, budget: nat, victim: Option<FlowKey>)
    requires TxInv(tx) && PeekVictim(tx, pkt, now, victim)
    ensures TxInv(Peek(tx, pkt, now, budget, victim).0)
  {
    hide ParseL3L4, Numbered, Eligible, SentBy, Create, EvictIdle;
    if tx.cfg.enabled && ParseL3L4(pkt).Udp? {
      var key := ParseL3L4(pkt).key;
      if key !in tx.flows {
        if victim.Some? {
          EvictIdleKeepsInv(tx, victim.value);
          RoomAfterEvict(tx, key, victim.value);
          CreateKeepsInv(EvictIdle(tx, victim.value), key, now);
        } else if !Full(tx) {
          CreateKeepsInv(tx, key, now);
        }
      }
    }
  }

  lemma RoomAfterEvict(tx: Tx, key: FlowKey, k: FlowKey)
    requires TxInv(tx) && k in tx.flows && key !in tx.flows
    ensures key !in EvictIdle(tx, k).flows && !Full(EvictIdle(tx, k))
  {
    hide Numbered, Eligible, SentBy;
  }

  /** A commit extends what its own incarnation has sent, by the next number, and nothing else. */
  lemma CommitExtends(tx: Tx, key: FlowKey, inner: Packet, now: nat, id: nat)
    requires TxInv(tx) && key in tx.flows
    ensures var f := tx.flows[key]; var s := Sent(f.id, key, StampOf(f), inner);
      var after := SentBy(Commit(tx, key, StampOf(f), inner, now).wire, id);
      && after == SentBy(tx.wire, id) + (if f.id == id then [s] else [])
      && Numbered(after, tx.cfg.resetMarks)
  {
    hide Eligible, SentBy;
    var f := tx.flows[key];
    SentByAppend(tx.wire, Sent(f.id, key, StampOf(f), inner), id);
    assert Numbered(SentBy(tx.wire, id), tx.cfg.resetMarks);
    assert FlowNumbered(tx, key, f);
  }

  lemma CommitKeepsInv(tx: Tx, key: FlowKey, inner: Packet, now: nat)
    requires TxInv(tx) && key in tx.flows
    ensures TxInv(Commit(tx, key, StampOf(tx.flows[key]), inner, now))
  {
    hide Eligible, SentBy, Numbered, StampOf;
    var after := Commit(tx, key, StampOf(tx.flows[key]), inner, now);
    forall id
      ensures Numbered(SentBy(after.wire, id), tx.cfg.resetMarks)
    {
      CommitExtends(tx, key, inner, now, id);
    }
    forall k | k in tx.flows
      ensures FlowNumbered(after, k, after.flows[k])
    {
      CommitExtends(tx, key, inner, now, tx.flows[k].id);
    }
  }

  /** A commit keeps the numbering exactly if what it commits is the stamp the flow would give now. */
  lemma CommitKeepsInvIff(tx: Tx, key: FlowKey, header: Header, inner: Packet, now: nat)
    requires TxInv(tx) && key in tx.flows
    ensures TxInv(Commit(tx, key, header, inner, now)) <==> header == StampOf(tx.flows[key])
  {
    hide Eligible, SentBy, TxInv;
    var f := tx.flows[key];
    if header == StampOf(f) {
      CommitKeepsInv(tx, key, inner, now);
    } else {
      var after := Commit(tx, key, header, inner, now);
      SentByAppend(tx.wire, Sent(f.id, key, header, inner), f.id);
      InvFlow(tx, key);
      assert SentBy(after.wire, f.id)[|SentBy(tx.wire, f.id)|].header == header;
      if TxInv(after) {
        InvFlow(after, key);
      }
    }
  }

  lemma InvFlow(tx: Tx, key: FlowKey)
    requires TxInv(tx) && key in tx.flows
    ensures FlowNumbered(tx, key, tx.flows[key]) && Numbered(SentBy(tx.wire, tx.flows[key].id), tx.cfg.resetMarks)
  {
  }

  /** So a second peek must wait for the commit of the first: two peeks give the same stamp, and committing both
      puts one number on the wire twice. */
  lemma TwoPeeksRepeat(tx: Tx, key: FlowKey, inner: Packet, now: nat)
    requires TxInv(tx) && key in tx.flows
    ensures var h := StampOf(tx.flows[key]);
      !TxInv(Commit(Commit(tx, key, h, inner, now), key, h, inner, now))
  {
    hide TxInv;
    var h := StampOf(tx.flows[key]);
    CommitKeepsInvIff(tx, key, h, inner, now);
    CommitKeepsInvIff(Commit(tx, key, h, inner, now), key, h, inner, now);
  }

  // ----- whole runs -----

  /** One packet from the TUN device: peek, then commit if it was stamped and the send succeeded. */
  datatype TxEvent = TunPacket(pkt: Packet, now: nat, budget: nat, victim: Option<FlowKey>,
                               sent: bool, inner: Packet, sentAt: nat)

  function TxStep(tx: Tx, ev: TxEvent): Tx {
    var (after, p) := Peek(tx, ev.pkt, ev.now, ev.budget, ev.victim);
    if p.Stamp? && ev.sent then Commit(after, p.key, p.header, ev.inner, ev.sentAt) else after
  }

  ghost predicate IsTxRun(states: seq<Tx>, evs: seq<TxEvent>) {
    && |states| == |evs| + 1
    && forall i :: 0 <= i < |evs| ==>
         && PeekVictim(states[i], evs[i].pkt, evs[i].now, evs[i].victim)
         && states[i + 1] == TxStep(states[i], evs[i])
  }

  function FreshTx(cfg: Config): Tx {
    Tx(cfg, map[], TxStats(0, 0, 0, 0), [])
  }

  lemma PeekStampOf(tx: Tx, pkt: Packet, now: nat, budget: nat, victim: Option<FlowKey>)
    ensures var (after, p) := Peek(tx, pkt, now, budget, victim);
      after.cfg == tx.cfg && (p.Stamp? ==> p.key in after.flows && p.header == StampOf(after.flows[p.key]))
  {
    hide ParseL3L4, Admit;
  }

  /** In every state of every run - any interleaving of flows, failed sends and evictions - each incarnation has
      sent exactly the numbers 0, 1, 2, ... in order, reset marks on the first ones only; the table respects
      max_flows, no active flow was ever evicted, and every flow created is in the table or was evicted idle. */
  lemma {:induction false} RunKeepsTxInv(states: seq<Tx>, evs: seq<TxEvent>, cfg: Config, n: nat)
    requires IsTxRun(states, evs) && states[0] == FreshTx(cfg) && n < |states|
    ensures TxInv(states[n]) && states[n].cfg == cfg
  {
    hide TxInv, Peek, Commit, PeekVictim;
    if n == 0 {
      FreshTxInv(cfg);
    } else {
      RunKeepsTxInv(states, evs, cfg, n - 1);
      var tx, ev := states[n - 1], evs[n - 1];
      PeekKeepsInv(tx, ev.pkt, ev.now, ev.budget, ev.victim);
      PeekStampOf(tx, ev.pkt, ev.now, ev.budget, ev.victim);
      var (after, p) := Peek(tx, ev.pkt, ev.now, ev.budget, ev.victim);
      if p.Stamp? && ev.sent {
        CommitKeepsInv(after, p.key, ev.inner, ev.sentAt);
        CommitKeepsCfg(after, p.key, p.header, ev.inner, ev.sentAt);
      }
    }
  }

  lemma CommitKeepsCfg(tx: Tx, key: FlowKey, header: Header, inner: Packet, now: nat)
    requires key in tx.flows
    ensures Commit(tx, key, header, inner, now).cfg == tx.cfg
  {
  }

  lemma FreshTxInv(cfg: Config)
    ensures TxInv(FreshTx(cfg))
  {
  }

  // ----- activity -----

  /** In this step the flow sends a stamped packet. */
  predicate Sends(tx: Tx, ev: TxEvent, key: FlowKey) {
    var p := Peek(tx, ev.pkt, ev.now, ev.budget, ev.victim).1;
    p.Stamp? && p.key == key && ev.sent
  }

  /** A flow was last active when it last sent, or, before that, when it was created. */
  lemma ActivityIs(tx: Tx, ev: TxEvent, key: FlowKey)
    requires PeekVictim(tx, ev.pkt, ev.now, ev.victim) && key in TxStep(tx, ev).flows
    ensures TxStep(tx, ev).flows[key].lastActivity ==
            if Sends(tx, ev, key) then ev.sentAt else if key in tx.flows then tx.flows[key].lastActivity else ev.now
  {
    hide ParseL3L4, Eligible;
  }

  lemma KeepsPlace(tx: Tx, ev: TxEvent, key: FlowKey)
    requires PeekVictim(tx, ev.pkt, ev.now, ev.victim) && key in tx.flows
    requires ev.now <= tx.flows[key].lastActivity + tx.cfg.egressIdleSec * 1000000
    ensures key in TxStep(tx, ev).flows && TxStep(tx, ev).flows[key].id == tx.flows[key].id
  {
    hide ParseL3L4, Eligible;
  }

  lemma SendersHavePlace(tx: Tx, ev: TxEvent, key: FlowKey)
    requires Sends(tx, ev, key)
    ensures key in TxStep(tx, ev).flows
  {
    hide ParseL3L4, Admit;
  }

  /** In any run: a flow that has sent keeps its place, and so its numbering, until it has been silent for longer than the
      limit, whatever other flows come and go. */
  lemma {:induction false} ActiveKeepsPlace(states: seq<Tx>, evs: seq<TxEvent>, cfg: Config, key: FlowKey, m: nat, n: nat)
    requires IsTxRun(states, evs) && states[0] == FreshTx(cfg) && m < n < |states| && Sends(states[m], evs[m], key)
    requires forall j :: m < j < n ==>
               evs[j].now <= evs[m].sentAt + cfg.egressIdleSec * 1000000 && evs[m].sentAt <= evs[j].sentAt
    ensures key in states[m + 1].flows && key in states[n].flows
    ensures states[n].flows[key].id == states[m + 1].flows[key].id && states[n].flows[key].lastActivity >= evs[m].sentAt
    decreases n
  {
    hide TxStep, TxInv, PeekVictim, Sends;
    SendersHavePlace(states[m], evs[m], key);
    if n == m + 1 {
      ActivityIs(states[m], evs[m], key);
    } else {
      ActiveKeepsPlace(states, evs, cfg, key, m, n - 1);
      RunKeepsTxInv(states, evs, cfg, n - 1);
      KeepsPlace(states[n - 1], evs[n - 1], key);
      ActivityIs(states[n - 1], evs[n - 1], key);
    }
  }
}
