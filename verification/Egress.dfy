/** The server's way out for a packet from its TUN device: peek, decrement the TTL, stamp, send, commit. */
module Egress {
  import opened Bits
  import opened Wrappers
  import opened ReorderConfig
  import opened Wire
  import opened SenderModel
  import opened Sender
  import opened EndToEnd
  import opened Checksum
  import opened ReceiverModel

  const PACKET_BUF: nat := 0x1_0000

  /** TooBig carries the path MTU that is told to the packet's source. */
  datatype Outcome = TooBig(mtu: nat) | TooLong | Expired | Frame(bytes: seq<Byte>)

  predicate HasHeader(pkt: seq<Byte>) {
    |pkt| >= 1 && ((pkt[0] / 16 == 4 && |pkt| >= 20) || (pkt[0] / 16 == 6 && |pkt| >= 40))
  }

  /** `budget` is the room in a datagram, or zero when it is not known. */
  function OutcomeOf(p: Peeked, pkt: seq<Byte>, budget: nat): Outcome
    requires HasHeader(pkt)
  {
    if p.DropMtu? then TooBig(if budget > HDR_LEN then budget - HDR_LEN else 0)
    else if p.SendRaw? && 0 < budget < |pkt| then TooBig(budget)
    else if |pkt| > PACKET_BUF then TooLong
    else
      match Forwarded(pkt)
      case None => Expired
      case Some(fwd) => Frame(if p.Stamp? then Stamped(p.header, fwd) else fwd)
  }

  /** A packet from the TUN device; `supported` tells whether the peer takes stamped datagrams, `accepted` whether the
      transport takes this one. */
  datatype TunEvent = Tun(supported: bool, pkt: seq<Byte>, now: nat, budget: nat, victim: Option<FlowKey>,
                          accepted: bool, sentAt: nat)

  /** Stamping is considered at all. */
  predicate Gated(e: TunEvent) {
    e.supported && e.budget > 0
  }

  /** Only what is stamped, fits the buffer, has hops left and is accepted by the transport consumes a number. */
  function EventOf(e: TunEvent): TxEvent
    requires HasHeader(e.pkt)
  {
    var fwd := Forwarded(e.pkt);
    TunPacket(e.pkt, e.now, e.budget, e.victim, e.accepted && |e.pkt| <= PACKET_BUF && fwd.Some?,
              if fwd.Some? then fwd.value else e.pkt, e.sentAt)
  }

  function TunStep(tx: Tx, e: TunEvent): Tx
    requires HasHeader(e.pkt)
  {
    if Gated(e) then TxStep(tx, EventOf(e)) else tx
  }

  method OnTunPacket(tx: ReorderTx, supported: bool, pkt: seq<Byte>, now: nat, budget: nat, accepted: bool, sentAt: nat)
    returns (out: Outcome, ghost p: Peeked, ghost e: TunEvent)
    requires tx.Valid() && HasHeader(pkt)
    modifies tx.Repr()
    ensures tx.Valid() && (old(TxInv(tx.Model())) ==> TxInv(tx.Model()))
    ensures e == Tun(supported, pkt, now, budget, e.victim, accepted, sentAt)
    ensures if Gated(e) then PeekVictim(old(tx.Model()), pkt, now, e.victim) else e.victim == None
    ensures p == if Gated(e) then Peek(old(tx.Model()), pkt, now, budget, e.victim).1 else SendRaw
    ensures out == OutcomeOf(p, pkt, budget)
    ensures tx.Model() == TunStep(old(tx.Model()), e)
  {
    hide ParseL3L4, Forwarded, Peek, PeekVictim, ReorderTx.Valid, Stamped, TxInv, Commit;
    var peek := PeekRaw;
    ghost var victim := None;
    if supported && budget > 0 {
      peek, victim := tx.PeekPacket(pkt, now, budget);
      PeekStampOf(old(tx.Model()), pkt, now, budget, victim);
    }
    p := Decision(peek);
    e := Tun(supported, pkt, now, budget, victim, accepted, sentAt);
    if peek.PeekDropMtu? {
      return TooBig(if budget > HDR_LEN then budget - HDR_LEN else 0), p, e;
    }
    if !peek.PeekStamp? && budget > 0 && |pkt| > budget {
      return TooBig(budget), p, e;
    }
    if |pkt| > PACKET_BUF {
      return TooLong, p, e;
    }
    var fwd := new Byte[|pkt|](i requires 0 <= i < |pkt| => pkt[i]);
    assert fwd[..] == pkt;
    var alive := ForwardInPlace(fwd);
    if !alive {
      return Expired, p, e;
    }
    out := Frame(if peek.PeekStamp? then Stamped(peek.header, fwd[..]) else fwd[..]);
    if accepted && peek.PeekStamp? {
      tx.CommitPeek(peek, fwd[..], sentAt);
    }
  }

  /** Whatever goes out fits the datagram. */
  lemma FrameFits(tx: Tx, pkt: seq<Byte>, now: nat, budget: nat, victim: Option<FlowKey>)
    requires HasHeader(pkt) && budget > 0
    ensures var p := Peek(tx, pkt, now, budget, victim).1; var out := OutcomeOf(p, pkt, budget);
      out.Frame? ==> |out.bytes| <= budget
  {
    hide ParseL3L4, Admit;
    if Forwarded(pkt).Some? {
      ParseIgnoresForwarding(pkt);
    }
  }

  /** The packet is to be stamped, room permitting. */
  ghost predicate Wanted(tx: Tx, e: TunEvent) {
    && e.supported && e.budget > 0 && tx.cfg.enabled
    && var l4 := ParseL3L4(e.pkt); l4.Udp? && ToReorder(tx.cfg, l4.key) && HasPlace(tx, l4.key, e.now)
  }

  /** The longest packet that goes out: the stamp takes eight octets of the datagram. */
  ghost function Limit(tx: Tx, e: TunEvent): nat {
    if !Wanted(tx, e) then e.budget else if e.budget > 8 then e.budget - 8 else 0
  }

  function HopsLeft(pkt: seq<Byte>): nat
    requires HasHeader(pkt)
  {
    if pkt[0] / 16 == 4 then pkt[8] else pkt[7]
  }

  /** A packet goes out exactly if it is no longer than what is told to the source of a longer one, which is the limit for
      just this flow, fits the buffer, and has hops left; it goes out stamped exactly if that is wanted. */
  lemma OutcomeIff(tx: Tx, e: TunEvent)
    requires TxInv(tx) && HasHeader(e.pkt) && (Gated(e) ==> PeekVictim(tx, e.pkt, e.now, e.victim))
    ensures var p := if Gated(e) then Peek(tx, e.pkt, e.now, e.budget, e.victim).1 else SendRaw;
      var out := OutcomeOf(p, e.pkt, e.budget); var limit := Limit(tx, e);
      && (out.TooBig? <==> e.budget > 0 && |e.pkt| > limit)
      && (out.TooBig? ==> out.mtu == limit)
      && (out.Frame? <==> (e.budget == 0 || |e.pkt| <= limit) && |e.pkt| <= 0x1_0000 && HopsLeft(e.pkt) > 1)
      && (out.Expired? <==> (e.budget == 0 || |e.pkt| <= limit) && |e.pkt| <= 0x1_0000 && HopsLeft(e.pkt) <= 1)
      && (out.Frame? ==> |out.bytes| == |e.pkt| + (if Wanted(tx, e) then 8 else 0))
  {
    hide ParseL3L4, TxInv, PeekVictim, Peek, ToReorder, HasPlace, Encode;
    if Gated(e) {
      StampsIff(tx, e.pkt, e.now, e.budget, e.victim);
    }
    EncodedLength();
  }

  /** A number is consumed exactly by a packet that goes out stamped and that the transport takes. */
  lemma ConsumesIff(tx: Tx, e: TunEvent)
    requires TxInv(tx) && HasHeader(e.pkt) && (Gated(e) ==> PeekVictim(tx, e.pkt, e.now, e.victim))
    ensures TunStep(tx, e).wire != tx.wire <==>
            e.accepted && Wanted(tx, e) && |e.pkt| <= Limit(tx, e) && |e.pkt| <= 0x1_0000 && HopsLeft(e.pkt) > 1
  {
    hide ParseL3L4, TxInv, PeekVictim, ToReorder, HasPlace, Admit;
    if Gated(e) {
      StampsIff(tx, e.pkt, e.now, e.budget, e.victim);
    }
  }

  lemma EncodedLength()
    ensures forall h: Header :: |Encode(h)| == 8
  {
  }

  // ----- runs of the server's sending side -----

  ghost predicate IsTunRun(states: seq<Tx>, evs: seq<TunEvent>) {
    && |states| == |evs| + 1
    && forall i :: 0 <= i < |evs| ==>
         && HasHeader(evs[i].pkt) && evs[i].budget <= DATAGRAM_LIMIT
         && (Gated(evs[i]) ==> PeekVictim(states[i], evs[i].pkt, evs[i].now, evs[i].victim))
         && states[i + 1] == TunStep(states[i], evs[i])
  }

  /** A packet that is not considered for stamping is nothing to the sender, as an unreadable one is. */
  function AsSend(e: TunEvent): TxEvent
    requires HasHeader(e.pkt)
  {
    if Gated(e) then EventOf(e) else TunPacket([], e.now, 0, None, false, [], e.sentAt)
  }

  lemma SendIsFaithful(tx: Tx, e: TunEvent)
    requires HasHeader(e.pkt) && e.budget <= DATAGRAM_LIMIT
    requires Gated(e) ==> PeekVictim(tx, e.pkt, e.now, e.victim)
    ensures Faithful(AsSend(e)) && PeekVictim(tx, AsSend(e).pkt, AsSend(e).now, AsSend(e).victim)
    ensures TunStep(tx, e) == TxStep(tx, AsSend(e))
  {
    hide Commit, Admit, SendVictim;
    if Gated(e) && Forwarded(e.pkt).Some? {
      ForwardedIsFaithful(EventOf(e));
    }
  }

  /** So the run is a run of the sender, and everything it sends parses as what came in. */
  lemma TunRunSends(states: seq<Tx>, evs: seq<TunEvent>)
    requires IsTunRun(states, evs)
    ensures var sends := seq(|evs|, i requires 0 <= i < |evs| => AsSend(evs[i]));
      IsTxRun(states, sends) && forall i :: 0 <= i < |evs| ==> Faithful(sends[i])
  {
    hide HasHeader, Faithful, TunStep, TxStep, PeekVictim, AsSend;
    forall i | 0 <= i < |evs|
      ensures Faithful(AsSend(evs[i])) && PeekVictim(states[i], AsSend(evs[i]).pkt, AsSend(evs[i]).now, AsSend(evs[i]).victim)
      ensures states[i + 1] == TxStep(states[i], AsSend(evs[i]))
    {
      SendIsFaithful(states[i], evs[i]);
    }
  }

  /** End-to-end delivery from the server's TUN device on: for any run of packets through peek, TTL decrement, stamp and
      commit, whichever sends fail. */
  lemma ServerDelivery(txStates: seq<Tx>, tunEvs: seq<TunEvent>, txCfg: Config, m: nat, id: nat, key: FlowKey,
                       rxStates: seq<Rx>, rxEvs: seq<RxEvent>, rxCfg: Config)
    requires IsTunRun(txStates, tunEvs) && txStates[0] == FreshTx(txCfg) && m < |txStates|
    requires var sent := SentBy(txStates[m].wire, id);
      && 0 < |sent| <= SEQ_LIMIT && sent[0].key == key
      && Reached(rxStates, rxEvs, rxCfg, key, sent)
    ensures |rxStates| == |rxEvs| + 1 && Restored(rxStates[0], rxStates[|rxEvs|], key, SentBy(txStates[m].wire, id))
  {
    hide IsTxRun, SentBy, Reached, Restored, Faithful, AsSend;
    TunRunSends(txStates, tunEvs);
    var sends := seq(|tunEvs|, i requires 0 <= i < |tunEvs| => AsSend(tunEvs[i]));
    EndToEndDelivery(txStates, sends, txCfg, m, id, key, rxStates, rxEvs, rxCfg);
  }
}
