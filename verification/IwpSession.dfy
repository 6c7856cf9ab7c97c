/**
 * The IWP session object, on octets: it parses what its peer sent, updates its tables in
 * place and queues packets for encryption. Every method refines one action of the network
 * model: the octets it queues parse to exactly the packets the action sends, each once.
 */
module IwpSession {
  import opened Bytes
  import opened IwpMessage
  import opened IwpProtocol
  import opened IwpNetwork
  import opened IwpWire

  ghost predicate Distinct(s: seq<Packet>) {
    forall i, j :: 0 <= i < j < |s| ==> s[i] != s[j]
  }

  /** A list holds exactly the packets of a set, each once. */
  ghost predicate Lists(s: seq<Packet>, sent: set<Packet>) {
    (forall p :: p in s <==> p in sent) && Distinct(s)
  }

  /** The queue grew by exactly the packets of a set, each once. */
  ghost predicate Grew(before: seq<Packet>, after: seq<Packet>, sent: set<Packet>) {
    before <= after && Lists(after[|before|..], sent)
  }

  lemma GrewBy(before: seq<Packet>, list: seq<Packet>, sent: set<Packet>)
    requires Lists(list, sent)
    ensures Grew(before, before + list, sent)
  {
    assert (before + list)[|before|..] == list;
  }

  /** Fragments of messages that fit the eight acknowledgement bits. */
  ghost predicate Bits(acks: set<nat>) {
    forall k :: k in acks ==> k < 8
  }

  ghost predicate OutboundOk(m: Outbound, id: nat) {
    m.id == id < Range(8) && |m.data| <= MAX_LINK_MSG_SIZE && |m.digest| == DIGEST_SIZE
  }

  ghost predicate InboundOk(m: Inbound, id: nat) {
    m.id == id < Range(8) && Bits(m.acks)
  }

  ghost predicate HashOk(h: HashFn) {
    forall x {:trigger h(x)} :: |h(x)| == DIGEST_SIZE
  }

  ghost predicate OutboundsOk(msgs: map<nat, Outbound>) {
    forall id :: id in msgs ==> OutboundOk(msgs[id], id)
  }

  ghost predicate InboundsOk(msgs: map<nat, Inbound>) {
    forall id :: id in msgs ==> InboundOk(msgs[id], id)
  }

  ghost predicate IdsOk(ids: set<nat>) {
    forall id :: id in ids ==> id < Range(8)
  }

  /** The octets in a queue carry the given packets. */
  ghost predicate Carries(octets: seq<seq<Byte>>, packets: seq<Packet>) {
    && |packets| == |octets|
    && forall i :: 0 <= i < |packets| ==> Readable(octets[i]) && Parse(octets[i]) == Some(packets[i])
  }

  /** A decrypted packet the handlers can read: long enough for its command octet. */
  ghost predicate Readable(pkt: seq<Byte>) {
    |pkt| >= PACKET_OVERHEAD + COMMAND_OVERHEAD && InBounds(pkt)
  }

  /** Handling the packet throws: it is a fragment that overruns the acknowledgement bits. */
  ghost predicate Throws(r: Rx, pkt: seq<Byte>, now: nat)
    requires Readable(pkt)
  {
    match Parse(pkt)
    case Some(Data(id, offset, bytes)) => id in r.msgs && Overruns(r.msgs[id], offset, bytes, now)
    case _ => false
  }

  lemma FinishMoreAt(t: Tx, ids: set<nat>, id: nat, success: bool, now: nat, x: nat)
    requires id !in ids
    ensures var one := Finish(Finish(t, ids, success, now), {id}, success, now);
      var two := Finish(t, ids + {id}, success, now);
      (x in one.outcomes <==> x in two.outcomes) && Of(one.outcomes, x) == Of(two.outcomes, x)
  {
  }

  lemma FinishMore(t: Tx, ids: set<nat>, id: nat, success: bool, now: nat)
    requires id !in ids
    ensures Finish(Finish(t, ids, success, now), {id}, success, now) == Finish(t, ids + {id}, success, now)
  {
    var one, two := Finish(Finish(t, ids, success, now), {id}, success, now), Finish(t, ids + {id}, success, now);
    assert t.msgs - ids - {id} == t.msgs - (ids + {id});
    forall x
      ensures (x in one.outcomes <==> x in two.outcomes) && Of(one.outcomes, x) == Of(two.outcomes, x)
    {
      FinishMoreAt(t, ids, id, success, now, x);
    }
    SameHistories(one.outcomes, two.outcomes);
  }

  lemma SameHistories<T>(a: map<nat, seq<T>>, b: map<nat, seq<T>>)
    requires forall x :: (x in a <==> x in b) && Of(a, x) == Of(b, x)
    ensures a == b
  {
    forall x | x in a
      ensures a[x] == b[x]
    {
      assert Of(a, x) == Of(b, x);
    }
  }

  lemma FinishIs(t: Tx, id: nat, success: bool, now: nat)
    requires id in t.msgs
    ensures Finish(t, {id}, success, now) == t.(
      msgs := t.msgs - {id},
      outcomes := if t.msgs[id].handler then Append(t.outcomes, id, Outcome(success, now)) else t.outcomes)
  {
    var r := if t.msgs[id].handler then Append(t.outcomes, id, Outcome(success, now)) else t.outcomes;
    SameHistories(Finish(t, {id}, success, now).outcomes, r);
  }

  lemma GiveUpIs(r: Rx, id: nat, now: nat)
    ensures GiveUp(r, {id}, now) == r.(
      msgs := r.msgs - {id},
      replay := if id in r.replay then r.replay else r.replay[id := now],
      ended := Append(r.ended, id, GivenUp(now)))
  {
    SameHistories(GiveUp(r, {id}, now).ended, Append(r.ended, id, GivenUp(now)));
    assert GiveUp(r, {id}, now).replay == if id in r.replay then r.replay else r.replay[id := now];
  }

  lemma FinishNone(t: Tx, ids: set<nat>, success: bool, now: nat)
    requires ids !! t.msgs.Keys
    ensures Finish(t, ids, success, now) == t
  {
    var r := Finish(t, ids, success, now);
    assert r.msgs == t.msgs;
    assert r.outcomes == t.outcomes;
  }

  method RandomBytes(n: nat) returns (b: seq<Byte>)
    ensures |b| == n
  {
    assert |Zeros(n)| == n;
    b :| |b| == n;
  }

  /** The default padding of CreatePacket: 16 octets and up to 15 more. */
  method RandomPad() returns (pad: seq<Byte>)
    ensures 16 <= |pad| < 32
  {
    var extra: nat :| extra < 16;
    pad := RandomBytes(16 + extra);
  }

  class Session {
    const hash: HashFn
    var isOpen: bool
    var txId: nat
    var txMsgs: map<nat, Outbound>
    var rxMsgs: map<nat, Inbound>
    var replayFilter: map<nat, nat>
    var sendMacks: set<nat>
    var encryptQueue: seq<seq<Byte>>

    // what the model records besides: the histories, and the packets the queued octets carry
    ghost var started: map<nat, Started>
    ghost var outcomes: map<nat, seq<Outcome>>
    ghost var ended: map<nat, seq<Ending>>
    ghost var queue: seq<Packet>

    ghost function TxView(): (t: Tx)
      reads this
    {
      Tx(txId, txMsgs, started, outcomes)
    }

    ghost function RxView(): (r: Rx)
      reads this
    {
      Rx(rxMsgs, replayFilter, sendMacks, ended)
    }

    ghost predicate Valid()
      reads this
    {
      && HashOk(hash) && OutboundsOk(txMsgs) && InboundsOk(rxMsgs) && IdsOk(sendMacks)
      && Carries(encryptQueue, queue)
    }

    constructor (hash: HashFn)
      requires HashOk(hash)
      ensures Valid() && TxView() == EMPTY_TX && RxView() == EMPTY_RX && isOpen
      ensures queue == [] && this.hash == hash
    {
      this.hash := hash;
      isOpen, txId, txMsgs, rxMsgs, replayFilter, sendMacks := true, 0, map[], map[], map[], {};
      encryptQueue := [];
      started, outcomes, ended, queue := map[], map[], map[], [];
    }

    /** EncryptAndSend: append a packet to the queue of the encryption worker. */
    method EncryptAndSend(pkt: seq<Byte>, ghost p: Packet)
      requires Valid() && Readable(pkt) && Parse(pkt) == Some(p)
      modifies this`encryptQueue, this`queue
      ensures Valid() && queue == old(queue) + [p] && encryptQueue == old(encryptQueue) + [pkt]
    {
      encryptQueue := encryptQueue + [pkt];
      queue := queue + [p];
    }

    method SendXmit(m: Outbound, ghost id: nat)
      requires Valid() && OutboundOk(m, id)
      modifies this`encryptQueue, this`queue
      ensures Valid() && queue == old(queue) + [XmitOf(m)]
    {
      var head := RandomBytes(PACKET_OVERHEAD);
      XmitRoundTrip(head, m);
      EncryptAndSend(BuildXmit(head, m), XmitOf(m));
    }

    method SendMessageBuffer(data: seq<Byte>, handler: bool, now: nat) returns (ok: bool)
      requires Valid() && |data| <= MAX_LINK_MSG_SIZE && txId + 1 < Range(8)
      modifies this`txId, this`txMsgs, this`started, this`encryptQueue, this`queue
      ensures Valid() && TxView() == Send(hash, old(TxView()), data, handler, now).t
      ensures ok <==> |old(txMsgs)| < 1024
      ensures queue == old(queue) + if ok then [XmitOf(NewOutbound(hash, old(txId), data, handler, now))] else []
    {
      if |txMsgs| >= MAX_SEND_QUEUE {
        return false;
      }
      var m := NewOutbound(hash, txId, data, handler, now);
      started := started[txId := Started(data, handler, now)];
      txMsgs, txId := txMsgs[txId := m], txId + 1;
      SendXmit(m, m.id);
      return true;
    }

    // ------------------------------------------------------------ completions

    /** Completed and InformTimeout: fire the handler, if there is one, and drop the message. */
    method Complete(id: nat, success: bool, now: nat)
      requires Valid() && id in txMsgs
      modifies this`txMsgs, this`outcomes
      ensures Valid() && TxView() == Finish(old(TxView()), {id}, success, now)
    {
      if txMsgs[id].handler {
        outcomes := Append(outcomes, id, Outcome(success, now));
      }
      txMsgs := txMsgs - {id};
      FinishIs(old(TxView()), id, success, now);
    }

    /** One entry of a multi-acknowledgement; unknown ids are ignored. */
    method AckOne(acked: nat, now: nat, ghost t: Tx, ghost done: set<nat>)
      requires Valid() && TxView() == Finish(t, done, true, now)
      modifies this`txMsgs, this`outcomes
      ensures Valid() && TxView() == Finish(t, done + {acked}, true, now)
    {
      if acked in txMsgs {
        FinishMore(t, done, acked, true, now);
        Complete(acked, true, now);
      } else {
        FinishAbsent(t, done, acked, true, now);
      }
    }

    method HandleMACK(pkt: seq<Byte>, now: nat)
      requires Valid()
      modifies this`txMsgs, this`outcomes
      ensures Valid()
      ensures TxView() == match ParseMack(pkt)
        case None => old(TxView())
        case Some(p) => GotMack(old(TxView()), p.ids, now).t
    {
      if |pkt| < 3 + PACKET_OVERHEAD {
        return;
      }
      var count: nat := pkt[PACKET_OVERHEAD + COMMAND_OVERHEAD];
      if |pkt| < 1 + COMMAND_OVERHEAD + PACKET_OVERHEAD + 8 * count {
        return;
      }
      AckAll(pkt, count, ReadWords(pkt, 67, count), now);
    }

    /** The loop over the ids of a multi-acknowledgement. */
    method AckAll(pkt: seq<Byte>, count: nat, ghost ids: seq<nat>, now: nat)
      requires Valid() && 67 + 8 * count <= |pkt| && ids == ReadWords(pkt, 67, count)
      modifies this`txMsgs, this`outcomes
      ensures Valid() && TxView() == Finish(old(TxView()), IdSet(ids), true, now)
    {
      ghost var t, done: set<nat> := TxView(), {};
      FinishNone(t, {}, true, now);
      for i := 0 to count
        invariant Valid() && done == IdSet(ids[..i]) && TxView() == Finish(t, done, true, now)
      {
        var acked := Word(pkt, 67 + 8 * i, 8);
        ReadWordsAt(pkt, 67, count, i);
        NextId(ids, i);
        AckOne(acked, now, t, done);
        done := done + {acked};
      }
      assert ids[..count] == ids;
    }

    // ------------------------------------------------------------ retransmission

    /** Queue the DATA packets of one flush, in order. */
    method SendFragments(frags: seq<Packet>)
      requires Valid()
      requires forall i :: 0 <= i < |frags| ==> frags[i].Data? && frags[i].id < Range(8) && frags[i].offset < Range(2)
      modifies this`encryptQueue, this`queue
      ensures Valid() && queue == old(queue) + frags
    {
      var i := 0;
      while i < |frags|
        invariant 0 <= i <= |frags| && Valid()
        invariant queue == old(queue) + frags[..i]
      {
        var p := frags[i];
        var head := RandomBytes(PACKET_OVERHEAD);
        DataRoundTrip(head, p.id, p.offset, p.bytes);
        EncryptAndSend(BuildData(head, p.id, p.offset, p.bytes), p);
        assert frags[..i + 1] == frags[..i] + [p];
        i := i + 1;
      }
      assert frags[..i] == frags;
    }

    /** FlushUnAcked on the entry of one message. */
    method FlushMessage(id: nat, m: Outbound, now: nat)
      requires Valid() && OutboundOk(m, id)
      modifies this`txMsgs, this`encryptQueue, this`queue
      ensures Valid() && txMsgs == old(txMsgs)[id := m.(lastFlush := now)]
      ensures Grew(old(queue), queue, Unacked(m))
    {
      var m', frags := FlushUnAcked(m, now);
      FragmentsFit(m, id, frags);
      txMsgs := txMsgs[id := m'];
      SendFragments(frags);
      GrewBy(old(queue), frags, Unacked(m));
    }

    method HandleACKS(pkt: seq<Byte>, now: nat)
      requires Valid()
      modifies this`txMsgs, this`outcomes, this`encryptQueue, this`queue
      ensures Valid()
      ensures match ParseAcks(pkt)
        case None => TxView() == old(TxView()) && queue == old(queue)
        case Some(p) => var e := GotAcks(old(TxView()), p.id, p.mask, now);
          TxView() == e.t && Grew(old(queue), queue, e.sent)
    {
      if |pkt| < 11 + PACKET_OVERHEAD {
        return;
      }
      var txid, mask := Word(pkt, 2 + PACKET_OVERHEAD, 8), MaskOf(pkt[10 + PACKET_OVERHEAD]);
      if txid !in txMsgs {
        return;
      }
      var m := txMsgs[txid].(acks := mask);
      var _, transmitted := AllAcked(m.acks, |m.data|);
      if transmitted {
        Complete(txid, true, now);
      } else {
        FlushMessage(txid, m, now);
      }
    }

    method HandleNACK(pkt: seq<Byte>)
      requires Valid()
      modifies this`encryptQueue, this`queue
      ensures Valid()
      ensures match ParseNack(pkt)
        case None => queue == old(queue)
        case Some(p) => Grew(old(queue), queue, GotNack(TxView(), p.id).sent)
    {
      if |pkt| < COMMAND_OVERHEAD + 8 + PACKET_OVERHEAD {
        return;
      }
      var txid := Word(pkt, COMMAND_OVERHEAD + PACKET_OVERHEAD, 8);
      if txid in txMsgs {
        SendXmit(txMsgs[txid], txid);
        GrewBy(old(queue), [XmitOf(txMsgs[txid])], {XmitOf(txMsgs[txid])});
      }
    }

    // ------------------------------------------------------------ receiving

    method Deliver(id: nat, data: seq<Byte>, now: nat)
      requires Valid() && id < Range(8)
      modifies this`rxMsgs, this`replayFilter, this`sendMacks, this`ended
      ensures Valid() && RxView() == HandUp(old(RxView()), id, data, now)
    {
      ended := Append(ended, id, HandedUp(data, now));
      replayFilter := replayFilter[id := now];
      sendMacks := sendMacks + {id};
      rxMsgs := rxMsgs - {id};
    }

    /** A new message whose first fragment came with its announcement. */
    method StartInline(rxid: nat, size: nat, digest: Digest, bytes: seq<Byte>, now: nat)
      requires Valid() && rxid < Range(8) && rxid !in replayFilter && rxid !in rxMsgs
      modifies this`rxMsgs, this`replayFilter, this`sendMacks, this`ended
      ensures Valid() && RxView() == GotXmit(hash, old(RxView()), rxid, size, digest, Some(bytes), now).r
    {
      var m := HandleData(NewInbound(rxid, size, digest, now), 0, bytes, now);
      rxMsgs := rxMsgs[rxid := m];
      assert 1 * FRAGMENT_SIZE < MAX_LINK_MSG_SIZE && 1 !in m.acks;
      var _, completed := AllAcked(m.acks, |m.data|);
      if completed && Verify(hash, m) {
        Deliver(rxid, m.data, now);
        assert old(rxMsgs)[rxid := m] - {rxid} == old(rxMsgs) - {rxid};
      }
    }

    /** A fragment of a message in reassembly: copy it, note it, and see whether the message is complete. */
    method AddFragment(rxid: nat, offset: nat, bytes: seq<Byte>, now: nat) returns (thrown: bool)
      requires Valid() && rxid in rxMsgs
      modifies this`rxMsgs, this`replayFilter, this`sendMacks, this`ended
      ensures Valid() && thrown == Overruns(old(rxMsgs)[rxid], offset, bytes, now)
      ensures RxView() == if thrown
        then old(RxView()).(msgs := old(rxMsgs)[rxid := Overrun(old(rxMsgs)[rxid], offset, bytes, now)])
        else GotData(hash, old(RxView()), rxid, offset, bytes, now).r
    {
      var m := rxMsgs[rxid];
      if SetThrows(m, offset, bytes) {
        rxMsgs := rxMsgs[rxid := Overrun(m, offset, bytes, now)];
        return true;
      }
      m := HandleData(m, offset, bytes, now);
      rxMsgs := rxMsgs[rxid := m];
      var completed;
      thrown, completed := AllAcked(m.acks, |m.data|);
      if !thrown && completed {
        Settle(rxid, m, now);
        assert old(rxMsgs)[rxid := m] - {rxid} == old(rxMsgs) - {rxid};
      }
    }

    /** A complete message is handed up if its digest is right, and forgotten. */
    method Settle(rxid: nat, m: Inbound, now: nat)
      requires Valid() && rxid < Range(8)
      modifies this`rxMsgs, this`replayFilter, this`sendMacks, this`ended
      ensures Valid()
      ensures RxView() == if Verify(hash, m) then HandUp(old(RxView()), rxid, m.data, now)
        else old(RxView()).(msgs := old(rxMsgs) - {rxid})
    {
      if Verify(hash, m) {
        Deliver(rxid, m.data, now);
      } else {
        rxMsgs := rxMsgs - {rxid};
      }
    }

    method HandleXMIT(pkt: seq<Byte>, now: nat)
      requires Valid() && InBounds(pkt) && (|pkt| == 108 ==> pkt[65] == XMIT)
      modifies this`rxMsgs, this`replayFilter, this`sendMacks, this`ended
      ensures Valid()
      ensures RxView() == match ParseXmit(pkt)
        case None => old(RxView())
        case Some(p) => GotXmit(hash, old(RxView()), p.id, p.size, p.digest, p.inline, now).r
    {
      if |pkt| < 108 {
        return;
      }
      var size, rxid, digest := Word(pkt, 66, 2), Word(pkt, 68, 8), pkt[76..108];
      WordRange(pkt, 68, 8);
      if rxid in replayFilter {
        sendMacks := sendMacks + {rxid};
        return;
      }
      if rxid in rxMsgs {
        return;
      }
      if |pkt| != 108 {
        rxMsgs := rxMsgs[rxid := NewInbound(rxid, size, digest, now)];
        return;
      }
      StartInline(rxid, size, digest, pkt[|pkt| - Min(size, FRAGMENT_SIZE)..], now);
    }

    method HandleDATA(pkt: seq<Byte>, now: nat) returns (thrown: bool)
      requires Valid()
      modifies this`rxMsgs, this`replayFilter, this`sendMacks, this`ended, this`encryptQueue, this`queue
      ensures Valid()
      ensures match ParseData(pkt)
        case None => !thrown && RxView() == old(RxView()) && queue == old(queue)
        case Some(p) =>
          && (thrown <==> p.id in old(rxMsgs) && Overruns(old(rxMsgs)[p.id], p.offset, p.bytes, now))
          && (thrown ==> queue == old(queue) && RxView() == old(RxView()).(
                msgs := old(rxMsgs)[p.id := Overrun(old(rxMsgs)[p.id], p.offset, p.bytes, now)]))
          && var e := GotData(hash, old(RxView()), p.id, p.offset, p.bytes, now);
             !thrown ==> RxView() == e.r && Grew(old(queue), queue, e.sent)
    {
      if |pkt| < COMMAND_OVERHEAD + 2 + 8 + PACKET_OVERHEAD {
        return false;
      }
      var offset, rxid := Word(pkt, 66, 2), Word(pkt, 68, 8);
      WordRange(pkt, 68, 8);
      if rxid !in rxMsgs {
        if rxid in replayFilter {
          sendMacks := sendMacks + {rxid};
        } else {
          SendNack(rxid);
        }
        return false;
      }
      thrown := AddFragment(rxid, offset, pkt[PACKET_OVERHEAD + 12..], now);
      GrewNothing(queue);
    }

    method SendNack(id: nat)
      requires Valid() && id < Range(8)
      modifies this`encryptQueue, this`queue
      ensures Valid() && Grew(old(queue), queue, {Nack(id)})
    {
      var head := RandomBytes(PACKET_OVERHEAD);
      var pad := RandomPad();
      NackRoundTrip(head, id, pad);
      EncryptAndSend(BuildNack(head, id, pad), Nack(id));
      GrewBy(old(queue), [Nack(id)], {Nack(id)});
    }

    // ------------------------------------------------------------ multi-acknowledgements

    /** Take up to 128 ids out of the set of pending acknowledgements. */
    method TakeMacks() returns (ids: seq<nat>)
      requires Valid() && sendMacks != {}
      modifies this`sendMacks
      ensures Valid() && 0 < |ids| <= MAX_ACKS_IN_MACK
      ensures |sendMacks| + |ids| == |old(sendMacks)|
      ensures sendMacks <= old(sendMacks) && IdSet(ids) == old(sendMacks) - sendMacks
    {
      var n := Min(|sendMacks|, MAX_ACKS_IN_MACK);
      ids := [];
      while |ids| < n
        invariant |ids| <= n && Valid()
        invariant |sendMacks| + |ids| == |old(sendMacks)|
        invariant sendMacks <= old(sendMacks) && IdSet(ids) == old(sendMacks) - sendMacks
      {
        var id :| id in sendMacks;
        sendMacks := sendMacks - {id};
        assert IdSet(ids + [id]) == IdSet(ids) + {id};
        ids := ids + [id];
      }
    }

    /** One round of the loop of SendMACK. */
    method SendOneMack() returns (ids: seq<nat>)
      requires Valid() && sendMacks != {}
      modifies this`sendMacks, this`encryptQueue, this`queue
      ensures Valid() && 0 < |ids| <= MAX_ACKS_IN_MACK
      ensures |sendMacks| + |ids| == |old(sendMacks)|
      ensures sendMacks <= old(sendMacks) && IdSet(ids) == old(sendMacks) - sendMacks
      ensures queue == old(queue) + [Mack(ids)]
    {
      ids := TakeMacks();
      var head := RandomBytes(PACKET_OVERHEAD);
      var pad := RandomPad();
      forall i | 0 <= i < |ids|
        ensures ids[i] < Range(8)
      {
        assert ids[i] in IdSet(ids);
      }
      MackRoundTrip(head, ids, pad);
      EncryptAndSend(BuildMack(head, ids, pad), Mack(ids));
    }

    /** SendMACK empties the set into packets of at most 128 ids, every id in one of them, once. */
    method SendMACK() returns (ghost split: seq<seq<nat>>)
      requires Valid()
      modifies this`sendMacks, this`encryptQueue, this`queue
      ensures Valid() && sendMacks == {}
      ensures IsSplit(split, old(sendMacks))
      ensures queue == old(queue) + MackList(split)
    {
      split := [];
      while sendMacks != {}
        invariant Valid() && Taken(split, old(sendMacks), sendMacks)
        invariant queue == old(queue) + MackList(split)
        decreases |sendMacks|
      {
        ghost var left := sendMacks;
        var ids := SendOneMack();
        TakenMore(split, ids, old(sendMacks), left, sendMacks);
        MackListMore(old(queue), split, ids);
        split := split + [ids];
      }
      TakenAll(split, old(sendMacks));
    }

    // ------------------------------------------------------------ timers

    /** The first loop of Tick: messages out of time are dropped and their handlers told. */
    method ExpireOutbound(now: nat)
      requires Valid()
      modifies this`txMsgs, this`outcomes
      ensures Valid() && TxView() == Finish(old(TxView()), Overdue(old(txMsgs), old(txMsgs).Keys, now), false, now)
    {
      ghost var t := TxView();
      var todo := txMsgs.Keys;
      ExpireStart(t, now);
      while todo != {}
        invariant Valid() && todo <= t.msgs.Keys && TxView() == ExpiredUpTo(t, todo, now)
        decreases |todo|
      {
        var id :| id in todo;
        ExpireStep(t, todo, id, now);
        todo := todo - {id};
        if TxTimedOut(txMsgs[id], now) {
          Complete(id, false, now);
        }
      }
      assert t.msgs.Keys - {} == t.msgs.Keys;
    }

    method GiveUpOne(id: nat, now: nat)
      requires Valid() && id in rxMsgs
      modifies this`rxMsgs, this`replayFilter, this`ended
      ensures Valid() && RxView() == GiveUp(old(RxView()), {id}, now)
    {
      if id !in replayFilter {
        replayFilter := replayFilter[id := now];
      }
      ended := Append(ended, id, GivenUp(now));
      rxMsgs := rxMsgs - {id};
      GiveUpIs(old(RxView()), id, now);
    }

    /** The second loop of Tick: stale messages in reassembly are given up. */
    method ExpireInbound(now: nat)
      requires Valid()
      modifies this`rxMsgs, this`replayFilter, this`ended
      ensures Valid() && RxView() == GiveUp(old(RxView()), Stale(old(rxMsgs), old(rxMsgs).Keys, now), now)
    {
      ghost var r := RxView();
      var todo := rxMsgs.Keys;
      GiveUpStart(r, now);
      while todo != {}
        invariant Valid() && todo <= r.msgs.Keys && RxView() == GivenUpTo(r, todo, now)
        decreases |todo|
      {
        var id :| id in todo;
        GiveUpStep(r, todo, id, now);
        todo := todo - {id};
        if RxTimedOut(rxMsgs[id], now) {
          GiveUpOne(id, now);
        }
      }
      assert r.msgs.Keys - {} == r.msgs.Keys;
    }

    /** The third loop of Tick: ids leave the replay filter when their window has passed. */
    method DecayReplay(now: nat)
      requires Valid()
      modifies this`replayFilter
      ensures Valid() && RxView() == Decay(old(RxView()), now)
    {
      ghost var was := replayFilter;
      var todo := replayFilter.Keys;
      while todo != {}
        invariant Valid() && todo <= replayFilter.Keys <= was.Keys
        invariant forall id :: id in was && id !in replayFilter ==> was[id] + REPLAY_WINDOW <= now
        invariant forall id :: id in replayFilter ==>
          replayFilter[id] == was[id] && (id in todo || !(was[id] + REPLAY_WINDOW <= now))
        decreases |todo|
      {
        var id :| id in todo;
        todo := todo - {id};
        if replayFilter[id] + REPLAY_WINDOW <= now {
          replayFilter := replayFilter - {id};
        }
      }
      assert replayFilter == Decay(old(RxView()), now).replay;
    }

    method Tick(now: nat)
      requires Valid()
      modifies this`txMsgs, this`outcomes, this`rxMsgs, this`replayFilter, this`ended
      ensures Valid()
      ensures TxView() == TxTick(old(TxView()), now).t
      ensures RxView() == RxTick(old(RxView()), now).r
    {
      ExpireOutbound(now);
      ExpireInbound(now);
      DecayReplay(now);
      TxTickIs(old(TxView()), now);
      RxTickIs(old(RxView()), now);
    }

    /** Queue the acknowledgement of one message in reassembly. */
    method SendAcksOf(id: nat, now: nat)
      requires Valid() && id in rxMsgs
      modifies this`rxMsgs, this`encryptQueue, this`queue
      ensures Valid() && rxMsgs == old(rxMsgs)[id := old(rxMsgs)[id].(lastAckSent := now)]
      ensures Grew(old(queue), queue, {Acks(id, rxMsgs[id].acks)})
    {
      var m := rxMsgs[id];
      var head := RandomBytes(PACKET_OVERHEAD);
      var pad := RandomPad();
      AcksRoundTrip(head, id, m.acks, pad);
      EncryptAndSend(BuildAcks(head, id, m.acks, pad), Acks(id, m.acks));
      rxMsgs := rxMsgs[id := m.(lastAckSent := now)];
      GrewBy(old(queue), [Acks(id, m.acks)], {Acks(id, m.acks)});
    }

    method AckIfDue(id: nat, now: nat, ghost was: map<nat, Inbound>, ghost seen: set<nat>, ghost start: seq<Packet>)
      requires Valid() && id in rxMsgs && id in was && id !in seen && rxMsgs == AckedOf(was, seen, now)
      requires Grew(start, queue, AcksOf(was, seen, now))
      modifies this`rxMsgs, this`encryptQueue, this`queue
      ensures Valid() && rxMsgs == AckedOf(was, seen + {id}, now)
      ensures Grew(start, queue, AcksOf(was, seen + {id}, now))
    {
      AcksMore(was, seen, id, now);
      if ShouldSendAcks(rxMsgs[id], now) {
        SendAcksOf(id, now);
        GrewMore(start, old(queue), queue, AcksOf(was, seen, now), {Acks(id, was[id].acks)});
      }
    }

    /** The first loop of Pump. */
    method PumpAcks(now: nat)
      requires Valid()
      modifies this`rxMsgs, this`encryptQueue, this`queue
      ensures Valid() && rxMsgs == AckedOf(old(rxMsgs), old(rxMsgs).Keys, now)
      ensures Grew(old(queue), queue, AcksOf(old(rxMsgs), old(rxMsgs).Keys, now))
    {
      ghost var was := rxMsgs;
      var todo := rxMsgs.Keys;
      GrewNothing(queue);
      NonePumped(txMsgs, was, now);
      assert was.Keys - todo == {};
      while todo != {}
        invariant Valid() && todo <= was.Keys
        invariant rxMsgs == AckedOf(was, was.Keys - todo, now)
        invariant Grew(old(queue), queue, AcksOf(was, was.Keys - todo, now))
        decreases |todo|
      {
        var id :| id in todo;
        SeenMore(was.Keys, todo, id);
        AckIfDue(id, now, was, was.Keys - todo, old(queue));
        todo := todo - {id};
      }
      assert was.Keys - {} == was.Keys;
    }

    method FlushIfDue(id: nat, now: nat, ghost was: map<nat, Outbound>, ghost seen: set<nat>, ghost start: seq<Packet>)
      requires Valid() && id in txMsgs && id in was && id !in seen && txMsgs == FlushOf(was, seen, now)
      requires OutboundsOk(was)
      requires Grew(start, queue, FlushedOf(was, seen, now))
      modifies this`txMsgs, this`encryptQueue, this`queue
      ensures Valid() && txMsgs == FlushOf(was, seen + {id}, now)
      ensures Grew(start, queue, FlushedOf(was, seen + {id}, now))
    {
      FlushedMore(was, seen, id, now);
      if ShouldFlush(txMsgs[id], now) {
        FlushMessage(id, txMsgs[id], now);
        GrewMore(start, old(queue), queue, FlushedOf(was, seen, now), Unacked(was[id]));
      }
    }

    /** The second loop of Pump. */
    method PumpFlush(now: nat)
      requires Valid()
      modifies this`txMsgs, this`encryptQueue, this`queue
      ensures Valid() && txMsgs == FlushOf(old(txMsgs), old(txMsgs).Keys, now)
      ensures Grew(old(queue), queue, FlushedOf(old(txMsgs), old(txMsgs).Keys, now))
    {
      ghost var was := txMsgs;
      var todo := txMsgs.Keys;
      GrewNothing(queue);
      NonePumped(was, rxMsgs, now);
      assert was.Keys - todo == {};
      while todo != {}
        invariant Valid() && todo <= was.Keys
        invariant txMsgs == FlushOf(was, was.Keys - todo, now)
        invariant Grew(old(queue), queue, FlushedOf(was, was.Keys - todo, now))
        decreases |todo|
      {
        var id :| id in todo;
        SeenMore(was.Keys, todo, id);
        FlushIfDue(id, now, was, was.Keys - todo, old(queue));
        todo := todo - {id};
      }
      assert was.Keys - {} == was.Keys;
    }

    method Pump(now: nat)
      requires Valid()
      modifies this`txMsgs, this`rxMsgs, this`encryptQueue, this`queue
      ensures Valid()
      ensures isOpen ==>
        && TxView() == Flush(old(TxView()), now).t && RxView() == SendAcks(old(RxView()), now).r
        && Grew(old(queue), queue, SendAcks(old(RxView()), now).sent + Flush(old(TxView()), now).sent)
      ensures !isOpen ==> TxView() == old(TxView()) && RxView() == old(RxView()) && queue == old(queue)
    {
      if isOpen {
        PumpIs(TxView(), RxView(), now);
        PumpAcks(now);
        ghost var mid := queue;
        PumpFlush(now);
        GrewMore(old(queue), mid, queue, SendAcks(old(RxView()), now).sent, Flush(old(TxView()), now).sent);
      }
    }

    method Close()
      requires Valid()
      modifies this`isOpen, this`encryptQueue, this`queue
      ensures Valid() && !isOpen
      ensures Grew(old(queue), queue, if old(isOpen) then {Clos} else {})
    {
      if isOpen {
        var head := RandomBytes(PACKET_OVERHEAD);
        var pad := RandomPad();
        isOpen := false;
        EncryptAndSend(CreatePacket(head, CLOS, [], pad), Clos);
        GrewBy(old(queue), [Clos], {Clos});
      }
    }
  
    // ------------------------------------------------------------ refinement of the network model

    /** The session is in the state of an end of the network model. */
    ghost predicate Shows(me: Peer)
      reads this
    {
      TxView() == me.tx && RxView() == me.rx && isOpen == me.open
    }

    /** XMIT and DATA: the commands that change the incoming half. */
    method HandleIncoming(pkt: seq<Byte>, now: nat, ghost at: nat, ghost me: Peer) returns (thrown: bool)
      requires Valid() && Shows(me) && Readable(pkt) && pkt[64] == PROTO_VERSION && (pkt[65] == XMIT || pkt[65] == DATA)
      modifies this
      ensures Valid() && thrown == Throws(me.rx, pkt, now)
      ensures !thrown ==> Shows(Received(hash, me, pkt, at, now))
      ensures !thrown ==> Queued(me, Received(hash, me, pkt, at, now), old(queue), queue, now)
    {
      thrown := false;
      if pkt[PACKET_OVERHEAD + 1] == XMIT {
        HandleXMIT(pkt, now);
        XmitReceived(hash, me, pkt, at, now, RxView(), queue);
      } else {
        thrown := HandleDATA(pkt, now);
        if !thrown {
          DataReceived(hash, me, pkt, at, now, RxView(), old(queue), queue);
        }
      }
    }

    /** ACKS, NACK and MACK: the commands that change the outgoing half. */
    method HandleOutgoing(pkt: seq<Byte>, now: nat, ghost at: nat, ghost me: Peer)
      requires Valid() && Shows(me) && Readable(pkt) && pkt[64] == PROTO_VERSION
      requires pkt[65] == ACKS || pkt[65] == NACK || pkt[65] == MACK
      modifies this
      ensures Valid() && Shows(Received(hash, me, pkt, at, now))
      ensures Queued(me, Received(hash, me, pkt, at, now), old(queue), queue, now)
    {
      if pkt[PACKET_OVERHEAD + 1] == ACKS {
        HandleACKS(pkt, now);
        AcksReceived(hash, me, pkt, at, now, TxView(), old(queue), queue);
      } else if pkt[PACKET_OVERHEAD + 1] == NACK {
        HandleNACK(pkt);
        NackReceived(hash, me, pkt, at, now, old(queue), queue);
      } else {
        HandleMACK(pkt, now);
        MackReceived(hash, me, pkt, at, now, TxView(), queue);
      }
    }

    /** The dispatch of one decrypted packet is the action Recv of what it parses to, unless it throws. */
    method HandlePacket(pkt: seq<Byte>, now: nat, ghost at: nat, ghost me: Peer) returns (thrown: bool)
      requires Valid() && Shows(me) && Readable(pkt)
      modifies this
      ensures Valid() && thrown == Throws(me.rx, pkt, now)
      ensures !thrown ==> Shows(Received(hash, me, pkt, at, now))
      ensures !thrown ==> Queued(me, Received(hash, me, pkt, at, now), old(queue), queue, now)
    {
      thrown := false;
      if pkt[PACKET_OVERHEAD] != PROTO_VERSION {
        SentIs(hash, me, pkt, at, now, old(queue), queue);
        return;
      }
      var cmd := pkt[PACKET_OVERHEAD + 1];
      if cmd == XMIT || cmd == DATA {
        thrown := HandleIncoming(pkt, now, at, me);
      } else if cmd == ACKS || cmd == NACK || cmd == MACK {
        HandleOutgoing(pkt, now, at, me);
      } else {
        if cmd == CLOS {
          Close();
        } else {
          GrewNothing(queue);
        }
        SentIs(hash, me, pkt, at, now, old(queue), queue);
      }
    }

    /** One more packet of a batch, got being the state its predecessors lead to. */
    method HandleNext(pkt: seq<Byte>, now: nat, ghost at: nat, ghost me: Peer, ghost got: Peer,
                      ghost start: seq<Packet>) returns (thrown: bool)
      requires Valid() && Shows(got) && Readable(pkt) && Queued(me, got, start, queue, now)
      modifies this
      ensures Valid() && thrown == Throws(got.rx, pkt, now)
      ensures !thrown ==> Shows(Received(hash, got, pkt, at, now))
      ensures !thrown ==> Queued(me, Received(hash, got, pkt, at, now), start, queue, now)
    {
      thrown := HandlePacket(pkt, now, at, got);
      if !thrown {
        QueuedMore(me, got, Received(hash, got, pkt, at, now), start, old(queue), queue, now);
      }
    }

    /** The packets of a batch in order, up to the first that throws. */
    method HandleBatch(batch: seq<seq<Byte>>, now: nat, ghost at: nat, ghost me: Peer) returns (thrown: bool, n: nat)
      requires Valid() && Shows(me) && forall i :: 0 <= i < |batch| ==> Readable(batch[i])
      modifies this
      ensures Valid() && (if thrown then n < |batch| else n == |batch|)
      ensures forall i :: 0 <= i < n ==> !ThrowsAt(hash, me, batch, at, now, i)
      ensures thrown ==> ThrowsAt(hash, me, batch, at, now, n)
      ensures !thrown ==> Shows(ReceivedAll(hash, me, batch, at, now))
      ensures !thrown ==> Queued(me, ReceivedAll(hash, me, batch, at, now), old(queue), queue, now)
    {
      thrown, n := false, 0;
      QueuedNothing(me, queue, now);
      while n < |batch|
        invariant 0 <= n <= |batch| && Valid()
        invariant forall i :: 0 <= i < n ==> !ThrowsAt(hash, me, batch, at, now, i)
        invariant Shows(ReceivedAll(hash, me, batch[..n], at, now))
        invariant Queued(me, ReceivedAll(hash, me, batch[..n], at, now), old(queue), queue, now)
      {
        ReceivedNext(hash, me, batch, at, now, n);
        thrown := HandleNext(batch[n], now, at, me, ReceivedAll(hash, me, batch[..n], at, now), old(queue));
        if thrown {
          return;
        }
        n := n + 1;
      }
      assert batch[..n] == batch;
    }

    /**
     * HandlePlaintext: the packets of a batch in order, then the multi-acknowledgements, then
     * a pump. The whole call is a run of actions of the network model, and the octets it
     * queues carry exactly the packets that run sends, unless one of the packets throws; the
     * first that does is returned.
     */
    method HandlePlaintext(batch: seq<seq<Byte>>, now: nat, ghost at: nat, ghost me: Peer)
      returns (thrown: bool, n: nat, ghost split: seq<seq<nat>>)
      requires Valid() && Shows(me) && forall i :: 0 <= i < |batch| ==> Readable(batch[i])
      modifies this
      ensures Valid() && (if thrown then n < |batch| else n == |batch|)
      ensures forall i :: 0 <= i < n ==> !ThrowsAt(hash, me, batch, at, now, i)
      ensures thrown ==> ThrowsAt(hash, me, batch, at, now, n)
      ensures !thrown ==> var got := ReceivedAll(hash, me, batch, at, now);
        var done := Act(hash, Act(hash, got, MackRound(split), now), Action.Pump, now);
        IsSplit(split, got.rx.macks) && Shows(done) && Queued(me, done, old(queue), queue, now)
    {
      split := [];
      thrown, n := HandleBatch(batch, now, at, me);
      if !thrown {
        split := FinishBatch(now, ReceivedAll(hash, me, batch, at, now), me, old(queue));
      }
    }

    method FinishBatch(now: nat, ghost got: Peer, ghost me: Peer, ghost start: seq<Packet>)
      returns (ghost split: seq<seq<nat>>)
      requires Valid() && Shows(got) && Queued(me, got, start, queue, now)
      modifies this
      ensures Valid() && IsSplit(split, got.rx.macks)
      ensures var done := Act(hash, Act(hash, got, MackRound(split), now), Action.Pump, now);
        Shows(done) && Queued(me, done, start, queue, now)
    {
      split := MackPhase(now, got);
      ghost var mid, macked := queue, Act(hash, got, MackRound(split), now);
      QueuedMore(me, got, macked, start, old(queue), mid, now);
      PumpPhase(now, macked);
      QueuedMore(me, macked, Act(hash, macked, Action.Pump, now), start, mid, queue, now);
    }

    method MackPhase(now: nat, ghost got: Peer) returns (ghost split: seq<seq<nat>>)
      requires Valid() && Shows(got)
      modifies this`sendMacks, this`encryptQueue, this`queue
      ensures Valid() && IsSplit(split, got.rx.macks)
      ensures Shows(Act(hash, got, MackRound(split), now))
      ensures Queued(got, Act(hash, got, MackRound(split), now), old(queue), queue, now)
    {
      split := SendMACK();
      MackSends(hash, got, split, old(queue), now);
    }

    method PumpPhase(now: nat, ghost got: Peer)
      requires Valid() && Shows(got)
      modifies this`txMsgs, this`rxMsgs, this`encryptQueue, this`queue
      ensures Valid() && Shows(Act(hash, got, Action.Pump, now))
      ensures Queued(got, Act(hash, got, Action.Pump, now), old(queue), queue, now)
    {
      Pump(now);
      PumpSends(hash, got, old(queue), queue, now);
    }
  }

  ghost function Received(h: HashFn, me: Peer, pkt: seq<Byte>, at: nat, now: nat): (p: Peer)
    requires Readable(pkt)
  {
    match Parse(pkt)
    case None => me
    case Some(p) => Act(h, me, Recv(Stamped(p, at)), now)
  }

  ghost function ReceivedAll(h: HashFn, me: Peer, batch: seq<seq<Byte>>, at: nat, now: nat): (p: Peer)
    requires forall i :: 0 <= i < |batch| ==> Readable(batch[i])
  {
    if batch == [] then me
    else Received(h, ReceivedAll(h, me, batch[..|batch| - 1], at, now), batch[|batch| - 1], at, now)
  }

  lemma ReceivedNext(h: HashFn, me: Peer, batch: seq<seq<Byte>>, at: nat, now: nat, n: nat)
    requires n < |batch| && forall i :: 0 <= i < |batch| ==> Readable(batch[i])
    ensures ReceivedAll(h, me, batch[..n + 1], at, now)
         == Received(h, ReceivedAll(h, me, batch[..n], at, now), batch[n], at, now)
  {
    assert batch[..n + 1][..n] == batch[..n];
  }

  /** Packet i of a batch throws in the state its predecessors lead to. */
  ghost predicate ThrowsAt(h: HashFn, me: Peer, batch: seq<seq<Byte>>, at: nat, now: nat, i: nat)
    requires i < |batch| && forall i :: 0 <= i < |batch| ==> Readable(batch[i])
  {
    Throws(ReceivedAll(h, me, batch[..i], at, now).rx, batch[i], now)
  }

  /** The queue grew by exactly the packets an end of the model has sent since. */
  ghost predicate Queued(me: Peer, me': Peer, before: seq<Packet>, after: seq<Packet>, now: nat) {
    before <= after && me'.net == me.net + Stamp((set p | p in after[|before|..]), now)
  }

  lemma QueuedNothing(me: Peer, q: seq<Packet>, now: nat)
    ensures Queued(me, me, q, q, now)
  {
  }

  lemma QueuedMore(me: Peer, mid: Peer, me': Peer, before: seq<Packet>, q: seq<Packet>, after: seq<Packet>, now: nat)
    requires Queued(me, mid, before, q, now) && Queued(mid, me', q, after, now)
    ensures Queued(me, me', before, after, now)
  {
    assert after[|before|..] == q[|before|..] + after[|q|..];
  }

  lemma GrewQueued(me: Peer, me': Peer, before: seq<Packet>, after: seq<Packet>, sent: set<Packet>, now: nat)
    requires Grew(before, after, sent) && me'.net == me.net + Stamp(sent, now)
    ensures Queued(me, me', before, after, now)
  {
    assert sent == set p | p in after[|before|..];
  }

  /** What an end of the model sends on receiving a packet. */
  ghost function RecvSent(h: HashFn, me: Peer, p: Packet, now: nat): (sent: set<Packet>) {
    match p
    case Data(id, offset, bytes) => GotData(h, me.rx, id, offset, bytes, now).sent
    case Acks(id, mask) => GotAcks(me.tx, id, mask, now).sent
    case Nack(id) => GotNack(me.tx, id).sent
    case Clos => if me.open then {Clos} else {}
    case _ => {}
  }

  lemma RecvIs(h: HashFn, me: Peer, p: Packet, at: nat, now: nat)
    ensures Act(h, me, Recv(Stamped(p, at)), now).net == me.net + Stamp(RecvSent(h, me, p, now), now)
  {
    var action := Recv(Stamped(p, at));
    var bye: set<Packet> := if Closes(action) && me.open then {Clos} else {};
    assert TxAct(h, me, action, now).sent + RxAct(h, me, action, now).sent + bye == RecvSent(h, me, p, now);
  }

  /** The queue grew by what receiving a packet sends, if it parses. */
  lemma SentIs(h: HashFn, me: Peer, pkt: seq<Byte>, at: nat, now: nat, before: seq<Packet>, after: seq<Packet>)
    requires Readable(pkt)
    requires match Parse(pkt)
      case None => after == before
      case Some(p) => Grew(before, after, RecvSent(h, me, p, now))
    ensures Queued(me, Received(h, me, pkt, at, now), before, after, now)
  {
    if Parse(pkt).Some? {
      RecvIs(h, me, Parse(pkt).value, at, now);
      GrewQueued(me, Received(h, me, pkt, at, now), before, after, RecvSent(h, me, Parse(pkt).value, now), now);
    } else {
      QueuedNothing(me, after, now);
    }
  }

  // What the handlers leave behind is what the model's end becomes on receiving the packet.

  ghost predicate Becomes(h: HashFn, me: Peer, pkt: seq<Byte>, at: nat, now: nat, t: Tx, r: Rx,
                          before: seq<Packet>, after: seq<Packet>)
    requires Readable(pkt)
  {
    var me' := Received(h, me, pkt, at, now);
    me'.tx == t && me'.rx == r && me'.open == me.open && Queued(me, me', before, after, now)
  }

  lemma XmitReceived(h: HashFn, me: Peer, pkt: seq<Byte>, at: nat, now: nat, r: Rx, q: seq<Packet>)
    requires Readable(pkt) && pkt[64] == PROTO_VERSION && pkt[65] == XMIT
    requires r == match ParseXmit(pkt)
      case None => me.rx
      case Some(p) => GotXmit(h, me.rx, p.id, p.size, p.digest, p.inline, now).r
    ensures Becomes(h, me, pkt, at, now, me.tx, r, q, q)
  {
    GrewNothing(q);
    SentIs(h, me, pkt, at, now, q, q);
  }

  lemma DataReceived(h: HashFn, me: Peer, pkt: seq<Byte>, at: nat, now: nat, r: Rx,
                     before: seq<Packet>, after: seq<Packet>)
    requires Readable(pkt) && pkt[64] == PROTO_VERSION && pkt[65] == DATA
    requires match ParseData(pkt)
      case None => r == me.rx && after == before
      case Some(p) => var e := GotData(h, me.rx, p.id, p.offset, p.bytes, now); r == e.r && Grew(before, after, e.sent)
    ensures Becomes(h, me, pkt, at, now, me.tx, r, before, after)
  {
    SentIs(h, me, pkt, at, now, before, after);
  }

  lemma AcksReceived(h: HashFn, me: Peer, pkt: seq<Byte>, at: nat, now: nat, t: Tx,
                     before: seq<Packet>, after: seq<Packet>)
    requires Readable(pkt) && pkt[64] == PROTO_VERSION && pkt[65] == ACKS
    requires match ParseAcks(pkt)
      case None => t == me.tx && after == before
      case Some(p) => var e := GotAcks(me.tx, p.id, p.mask, now); t == e.t && Grew(before, after, e.sent)
    ensures Becomes(h, me, pkt, at, now, t, me.rx, before, after)
  {
    SentIs(h, me, pkt, at, now, before, after);
  }

  lemma NackReceived(h: HashFn, me: Peer, pkt: seq<Byte>, at: nat, now: nat, before: seq<Packet>, after: seq<Packet>)
    requires Readable(pkt) && pkt[64] == PROTO_VERSION && pkt[65] == NACK
    requires match ParseNack(pkt)
      case None => after == before
      case Some(p) => Grew(before, after, GotNack(me.tx, p.id).sent)
    ensures Becomes(h, me, pkt, at, now, me.tx, me.rx, before, after)
  {
    SentIs(h, me, pkt, at, now, before, after);
  }

  lemma MackReceived(h: HashFn, me: Peer, pkt: seq<Byte>, at: nat, now: nat, t: Tx, q: seq<Packet>)
    requires Readable(pkt) && pkt[64] == PROTO_VERSION && pkt[65] == MACK
    requires t == match ParseMack(pkt)
      case None => me.tx
      case Some(p) => GotMack(me.tx, p.ids, now).t
    ensures Becomes(h, me, pkt, at, now, t, me.rx, q, q)
  {
    GrewNothing(q);
    SentIs(h, me, pkt, at, now, q, q);
  }

  lemma MackSends(h: HashFn, me: Peer, split: seq<seq<nat>>, before: seq<Packet>, now: nat)
    ensures Queued(me, Act(h, me, MackRound(split), now), before, before + MackList(split), now)
  {
    var l := MackList(split);
    assert (before + l)[|before|..] == l;
    var sent := SendMacks(me.rx, split).sent;
    forall p
      ensures p in sent <==> p in l
    {
      if p in sent {
        var i :| 0 <= i < |split| && p == Mack(split[i]);
        assert l[i] == p;
      }
    }
    assert sent == set p | p in l;
    assert TxAct(h, me, MackRound(split), now).sent + sent + {} == sent;
  }

  lemma PumpSends(h: HashFn, me: Peer, before: seq<Packet>, after: seq<Packet>, now: nat)
    requires me.open ==> Grew(before, after, SendAcks(me.rx, now).sent + Flush(me.tx, now).sent)
    requires !me.open ==> after == before
    ensures Queued(me, Act(h, me, Action.Pump, now), before, after, now)
  {
    var sent := TxAct(h, me, Action.Pump, now).sent + RxAct(h, me, Action.Pump, now).sent + {};
    if me.open {
      assert sent == SendAcks(me.rx, now).sent + Flush(me.tx, now).sent;
      GrewQueued(me, Act(h, me, Action.Pump, now), before, after, sent, now);
    } else {
      assert sent == {};
      QueuedNothing(me, before, now);
    }
  }

  lemma GiveUpNone(r: Rx, now: nat)
    ensures GiveUp(r, {}, now) == r
  {
    var r' := GiveUp(r, {}, now);
    assert r'.msgs == r.msgs && r'.replay == r.replay;
    assert r'.ended == r.ended;
  }

  /** The outgoing half when the first loop of Tick has still to look at some messages. */
  ghost function ExpiredUpTo(t: Tx, todo: set<nat>, now: nat): (t': Tx) {
    Finish(t, Overdue(t.msgs, t.msgs.Keys - todo, now), false, now)
  }

  lemma ExpireStart(t: Tx, now: nat)
    ensures ExpiredUpTo(t, t.msgs.Keys, now) == t
  {
    assert Overdue(t.msgs, t.msgs.Keys - t.msgs.Keys, now) == {};
    FinishNone(t, {}, false, now);
  }

  lemma ExpireStep(t: Tx, todo: set<nat>, id: nat, now: nat)
    requires id in todo && todo <= t.msgs.Keys
    ensures var cur := ExpiredUpTo(t, todo, now);
      && id in cur.msgs && cur.msgs[id] == t.msgs[id]
      && ExpiredUpTo(t, todo - {id}, now) == if TxTimedOut(t.msgs[id], now) then Finish(cur, {id}, false, now) else cur
  {
    var done := Overdue(t.msgs, t.msgs.Keys - todo, now);
    var more := Overdue(t.msgs, t.msgs.Keys - (todo - {id}), now);
    assert more == if TxTimedOut(t.msgs[id], now) then done + {id} else done;
    FinishMore(t, done, id, false, now);
  }

  /** The incoming half when the second loop of Tick has still to look at some messages. */
  ghost function GivenUpTo(r: Rx, todo: set<nat>, now: nat): (r': Rx) {
    GiveUp(r, Stale(r.msgs, r.msgs.Keys - todo, now), now)
  }

  lemma GiveUpStart(r: Rx, now: nat)
    ensures GivenUpTo(r, r.msgs.Keys, now) == r
  {
    assert Stale(r.msgs, r.msgs.Keys - r.msgs.Keys, now) == {};
    GiveUpNone(r, now);
  }

  lemma GiveUpStep(r: Rx, todo: set<nat>, id: nat, now: nat)
    requires id in todo && todo <= r.msgs.Keys
    ensures var cur := GivenUpTo(r, todo, now);
      && id in cur.msgs && cur.msgs[id] == r.msgs[id]
      && GivenUpTo(r, todo - {id}, now) == if RxTimedOut(r.msgs[id], now) then GiveUp(cur, {id}, now) else cur
  {
    var done := Stale(r.msgs, r.msgs.Keys - todo, now);
    var more := Stale(r.msgs, r.msgs.Keys - (todo - {id}), now);
    assert more == if RxTimedOut(r.msgs[id], now) then done + {id} else done;
    GiveUpMore(r, done, id, now);
  }

  lemma TxTickIs(t: Tx, now: nat)
    ensures TxTick(t, now).t == Finish(t, Overdue(t.msgs, t.msgs.Keys, now), false, now)
  {
    var ids := set id | id in t.msgs && TxTimedOut(t.msgs[id], now);
    assert ids == Overdue(t.msgs, t.msgs.Keys, now);
    assert TxTick(t, now).t == Finish(t, ids, false, now);
  }

  lemma RxTickIs(r: Rx, now: nat)
    ensures RxTick(r, now).r == Decay(GiveUp(r, Stale(r.msgs, r.msgs.Keys, now), now), now)
  {
    var ids := set id | id in r.msgs && RxTimedOut(r.msgs[id], now);
    assert ids == Stale(r.msgs, r.msgs.Keys, now);
    assert RxTick(r, now).r == Decay(GiveUp(r, ids, now), now);
  }

  lemma GiveUpMore(r: Rx, ids: set<nat>, id: nat, now: nat)
    requires id !in ids
    ensures GiveUp(GiveUp(r, ids, now), {id}, now) == GiveUp(r, ids + {id}, now)
  {
    var one, two := GiveUp(GiveUp(r, ids, now), {id}, now), GiveUp(r, ids + {id}, now);
    assert one.msgs == two.msgs;
    assert one.macks == two.macks;
    ReplayMore(r, ids, id, now);
    EndedMore(r, ids, id, now);
  }

  lemma ReplayMore(r: Rx, ids: set<nat>, id: nat, now: nat)
    ensures GiveUp(GiveUp(r, ids, now), {id}, now).replay == GiveUp(r, ids + {id}, now).replay
  {
    var one, two := GiveUp(GiveUp(r, ids, now), {id}, now).replay, GiveUp(r, ids + {id}, now).replay;
    assert one.Keys == two.Keys;
    forall x | x in one.Keys
      ensures one[x] == two[x]
    {
    }
  }

  lemma EndedMoreAt(r: Rx, ids: set<nat>, id: nat, now: nat, x: nat)
    requires id !in ids
    ensures Of(GiveUp(GiveUp(r, ids, now), {id}, now).ended, x) == Of(GiveUp(r, ids + {id}, now).ended, x)
  {
    assert Of(GiveUp(r, ids, now).ended, x) == if x in ids then Of(r.ended, x) + [GivenUp(now)] else Of(r.ended, x);
  }

  lemma EndedMore(r: Rx, ids: set<nat>, id: nat, now: nat)
    requires id !in ids
    ensures GiveUp(GiveUp(r, ids, now), {id}, now).ended == GiveUp(r, ids + {id}, now).ended
  {
    var one, two := GiveUp(GiveUp(r, ids, now), {id}, now).ended, GiveUp(r, ids + {id}, now).ended;
    assert one.Keys == two.Keys;
    forall x | x in one.Keys
      ensures one[x] == two[x]
    {
      EndedMoreAt(r, ids, id, now, x);
      assert one[x] == Of(one, x) && two[x] == Of(two, x);
    }
  }

  lemma NonePumped(txMsgs: map<nat, Outbound>, rxMsgs: map<nat, Inbound>, now: nat)
    ensures FlushOf(txMsgs, {}, now) == txMsgs && FlushedOf(txMsgs, {}, now) == {}
    ensures AckedOf(rxMsgs, {}, now) == rxMsgs && AcksOf(rxMsgs, {}, now) == {}
  {
  }

  lemma PumpIs(t: Tx, r: Rx, now: nat)
    ensures Flush(t, now) == TxStep(t.(msgs := FlushOf(t.msgs, t.msgs.Keys, now)), FlushedOf(t.msgs, t.msgs.Keys, now))
    ensures SendAcks(r, now) == RxStep(r.(msgs := AckedOf(r.msgs, r.msgs.Keys, now)), AcksOf(r.msgs, r.msgs.Keys, now))
    ensures Flush(t, now).sent !! SendAcks(r, now).sent
  {
    assert Flush(t, now).t.msgs == FlushOf(t.msgs, t.msgs.Keys, now);
    assert Flush(t, now).sent == FlushedOf(t.msgs, t.msgs.Keys, now);
    assert SendAcks(r, now).r.msgs == AckedOf(r.msgs, r.msgs.Keys, now);
    assert SendAcks(r, now).sent == AcksOf(r.msgs, r.msgs.Keys, now);
  }

  lemma SeenMore(keys: set<nat>, todo: set<nat>, id: nat)
    requires id in todo && todo <= keys
    ensures keys - todo + {id} == keys - (todo - {id}) && id !in keys - todo
  {
  }

  lemma GrewNothing(q: seq<Packet>)
    ensures Grew(q, q, {})
  {
  }

  lemma GrewMore(before: seq<Packet>, mid: seq<Packet>, after: seq<Packet>, one: set<Packet>, two: set<Packet>)
    requires Grew(before, mid, one) && Grew(mid, after, two) && one !! two
    ensures Grew(before, after, one + two)
  {
    var a, b, c := mid[|before|..], after[|mid|..], after[|before|..];
    assert c == a + b;
    forall i, j | 0 <= i < j < |c|
      ensures c[i] != c[j]
    {
      if i < |a| <= j {
        assert c[i] in a && c[j] in b;
      }
    }
  }

  // The loops of Tick and Pump, part way: their effect on the messages seen so far.

  ghost function Overdue(msgs: map<nat, Outbound>, ids: set<nat>, now: nat): (s: set<nat>) {
    set id | id in ids && id in msgs && TxTimedOut(msgs[id], now)
  }

  ghost function Stale(msgs: map<nat, Inbound>, ids: set<nat>, now: nat): (s: set<nat>) {
    set id | id in ids && id in msgs && RxTimedOut(msgs[id], now)
  }

  ghost function AckedOf(msgs: map<nat, Inbound>, ids: set<nat>, now: nat): (m: map<nat, Inbound>) {
    map id | id in msgs ::
      if id in ids && ShouldSendAcks(msgs[id], now) then msgs[id].(lastAckSent := now) else msgs[id]
  }

  ghost function AcksOf(msgs: map<nat, Inbound>, ids: set<nat>, now: nat): (s: set<Packet>) {
    set id | id in ids && id in msgs && ShouldSendAcks(msgs[id], now) :: Acks(id, msgs[id].acks)
  }

  lemma AcksMore(msgs: map<nat, Inbound>, ids: set<nat>, id: nat, now: nat)
    requires id in msgs && id !in ids
    ensures AckedOf(msgs, ids, now)[id] == msgs[id]
    ensures AcksOf(msgs, ids + {id}, now) ==
      AcksOf(msgs, ids, now) + if ShouldSendAcks(msgs[id], now) then {Acks(id, msgs[id].acks)} else {}
    ensures Acks(id, msgs[id].acks) !in AcksOf(msgs, ids, now)
    ensures AckedOf(msgs, ids + {id}, now) ==
      if ShouldSendAcks(msgs[id], now) then AckedOf(msgs, ids, now)[id := msgs[id].(lastAckSent := now)]
      else AckedOf(msgs, ids, now)
  {
  }

  ghost function FlushOf(msgs: map<nat, Outbound>, ids: set<nat>, now: nat): (m: map<nat, Outbound>) {
    map id | id in msgs ::
      if id in ids && ShouldFlush(msgs[id], now) then msgs[id].(lastFlush := now) else msgs[id]
  }

  ghost function FlushedOf(msgs: map<nat, Outbound>, ids: set<nat>, now: nat): (s: set<Packet>) {
    set id, p | id in ids && id in msgs && ShouldFlush(msgs[id], now) && p in Unacked(msgs[id]) :: p
  }

  lemma UnackedId(m: Outbound, p: Packet)
    requires p in Unacked(m)
    ensures p.Data? && p.id == m.id
  {
  }

  lemma FlushedMore(msgs: map<nat, Outbound>, ids: set<nat>, id: nat, now: nat)
    requires id in msgs && id !in ids && OutboundsOk(msgs)
    ensures FlushOf(msgs, ids, now)[id] == msgs[id]
    ensures FlushOf(msgs, ids + {id}, now) ==
      if ShouldFlush(msgs[id], now) then FlushOf(msgs, ids, now)[id := msgs[id].(lastFlush := now)]
      else FlushOf(msgs, ids, now)
    ensures FlushedOf(msgs, ids + {id}, now) ==
      FlushedOf(msgs, ids, now) + if ShouldFlush(msgs[id], now) then Unacked(msgs[id]) else {}
    ensures FlushedOf(msgs, ids, now) !! Unacked(msgs[id])
  {
    FlushedApart(msgs, ids, id, now);
    assert FlushedOf(msgs, ids + {id}, now) ==
      FlushedOf(msgs, ids, now) + if ShouldFlush(msgs[id], now) then Unacked(msgs[id]) else {};
  }

  lemma FlushedApart(msgs: map<nat, Outbound>, ids: set<nat>, id: nat, now: nat)
    requires id in msgs && id !in ids && OutboundsOk(msgs)
    ensures FlushedOf(msgs, ids, now) !! Unacked(msgs[id])
  {
    forall p | p in FlushedOf(msgs, ids, now)
      ensures p !in Unacked(msgs[id])
    {
      var x :| x in ids && x in msgs && p in Unacked(msgs[x]);
      UnackedId(msgs[x], p);
      if p in Unacked(msgs[id]) {
        UnackedId(msgs[id], p);
      }
    }
  }

  /** The packets of a division, in order. */
  ghost function MackList(split: seq<seq<nat>>): (l: seq<Packet>) {
    seq(|split|, i requires 0 <= i < |split| => Mack(split[i]))
  }

  /** The division so far of a set of ids of which some are left. */
  ghost predicate Taken(split: seq<seq<nat>>, all: set<nat>, left: set<nat>) {
    && left <= all && |Join(split)| + |left| == |all| && IdSet(Join(split)) == all - left
    && forall i :: 0 <= i < |split| ==> 0 < |split[i]| <= MAX_ACKS_IN_MACK
  }

  lemma TakenMore(split: seq<seq<nat>>, ids: seq<nat>, all: set<nat>, left: set<nat>, left': set<nat>)
    requires Taken(split, all, left) && 0 < |ids| <= MAX_ACKS_IN_MACK
    requires left' <= left && |left'| + |ids| == |left| && IdSet(ids) == left - left'
    ensures Taken(split + [ids], all, left')
  {
    assert (split + [ids])[..|split|] == split;
    IdSetJoin(Join(split), ids);
  }

  lemma IdSetJoin(a: seq<nat>, b: seq<nat>)
    ensures IdSet(a + b) == IdSet(a) + IdSet(b)
  {
  }

  lemma TakenAll(split: seq<seq<nat>>, all: set<nat>)
    requires Taken(split, all, {})
    ensures IsSplit(split, all)
  {
    assert IdSet(Join(split)) == set id | id in Join(split);
  }

  lemma MackListMore(q: seq<Packet>, split: seq<seq<nat>>, ids: seq<nat>)
    ensures q + MackList(split) + [Mack(ids)] == q + MackList(split + [ids])
  {
  }

  lemma FragmentsFit(m: Outbound, id: nat, frags: seq<Packet>)
    requires OutboundOk(m, id) && (set p | p in frags) == Unacked(m) && ByOffset(frags)
    ensures Lists(frags, Unacked(m))
    ensures forall i :: 0 <= i < |frags| ==> frags[i].Data? && frags[i].id < Range(8) && frags[i].offset < Range(2)
  {
    RangeValues();
    forall i | 0 <= i < |frags|
      ensures frags[i].Data? && frags[i].id < Range(8) && frags[i].offset < Range(2)
    {
      assert frags[i] in Unacked(m);
      var k: nat :| k < |m.data| && k * FRAGMENT_SIZE < |m.data| && frags[i] == DataOf(m, k);
    }
    forall p
      ensures p in frags <==> p in Unacked(m)
    {
      assert p in frags <==> p in (set q | q in frags);
    }
  }

  lemma WordRange(pkt: seq<Byte>, at: nat, width: nat)
    requires at + width <= |pkt|
    ensures Word(pkt, at, width) < Range(width)
  {
    FromBEBelow(pkt[at .. at + width]);
  }

  ghost function IdSet(ids: seq<nat>): (s: set<nat>) {
    set id | id in ids
  }

  lemma NextId(ids: seq<nat>, i: nat)
    requires i < |ids|
    ensures IdSet(ids[..i + 1]) == IdSet(ids[..i]) + {ids[i]}
  {
    assert ids[..i + 1] == ids[..i] + [ids[i]];
  }

  lemma FinishAbsent(t: Tx, ids: set<nat>, id: nat, success: bool, now: nat)
    requires id !in Finish(t, ids, success, now).msgs
    ensures Finish(t, ids + {id}, success, now) == Finish(t, ids, success, now)
  {
    if id in ids {
      assert ids + {id} == ids;
    } else {
      FinishMore(t, ids, id, success, now);
      FinishNone(Finish(t, ids, success, now), {id}, success, now);
    }
  }

  lemma {:induction false} ReadWordsAt(pkt: seq<Byte>, at: nat, count: nat, i: nat)
    requires at + 8 * count <= |pkt| && i < count
    ensures ReadWords(pkt, at, count)[i] == Word(pkt, at + 8 * i, 8)
  {
    if i < count - 1 {
      ReadWordsAt(pkt, at, count - 1, i);
    }
  }
}
