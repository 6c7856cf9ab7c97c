/**
 * Safety of the IWP transport between two honest sessions over a network that loses,
 * duplicates, reorders and delays packets: the invariant of one direction, from the outgoing
 * half at one end to the incoming half at the other, and what it implies in every run.
 */
module IwpSafety {
  import opened Bytes
  import opened IwpMessage
  import opened IwpProtocol
  import opened IwpNetwork
  import opened IwpLocal

  // ---------------------------------------------------------------- the invariant of a direction

  /** A pending message is the one accepted under its id. */
  ghost predicate PendingOk(h: HashFn, t: Tx, id: nat) {
    id in t.msgs ==>
      && id in t.started
      && var m, d := t.msgs[id], t.started[id];
      && m.data == d.data && m.startedAt == d.at && m.id == id && m.digest == h(d.data)
  }

  /** An announcement or fragment in flight was cut from the message accepted under its id. */
  ghost predicate FwdOk(h: HashFn, t: Tx, p: Stamped, now: nat) {
    match p.pkt
    case Xmit(id, size, digest, inline) =>
      && id in t.started && t.started[id].at <= p.at <= now
      && var data := t.started[id].data;
      && size == |data| && digest == h(data) && inline == (if data == [] then Some([]) else None)
    case Data(id, offset, bytes) =>
      && id in t.started && t.started[id].at <= p.at <= now
      && var data := t.started[id].data;
      && offset < |data| && offset % FRAGMENT_SIZE == 0
      && bytes == Fragment(data, offset / FRAGMENT_SIZE)
    case _ => true
  }

  /** The acknowledged fragments of a message in reassembly are the sender's, and one is missing. */
  ghost predicate PartialOk(h: HashFn, t: Tx, r: Rx, id: nat) {
    id in r.msgs ==>
      && id in t.started
      && var m, d := r.msgs[id], t.started[id];
      && |m.data| == |d.data| && m.digest == h(d.data) && d.at <= m.lastActive
      && !Covers(m.acks, |d.data|)
      && forall k :: k in m.acks ==> k * FRAGMENT_SIZE < |d.data| && Fragment(m.data, k) == Fragment(d.data, k)
  }

  /** Whatever was handed up is the sent message; giving up takes longer than the delivery timeout. */
  ghost predicate EndingOk(t: Tx, id: nat, e: Ending) {
    && id in t.started
    && match e
       case HandedUp(data, at) => data == t.started[id].data && t.started[id].at <= at
       case GivenUp(at) => t.started[id].at + DELIVERY_TIMEOUT < at
  }

  ghost predicate EndedOk(t: Tx, r: Rx, id: nat) {
    && (forall e :: e in Of(r.ended, id) ==> EndingOk(t, id, e))
    && (id in r.macks || id in r.replay ==> Of(r.ended, id) != [])
  }

  /** Has the receiver been done with this message, at some time up to `at`? */
  ghost predicate EndedBy(r: Rx, id: nat, at: nat) {
    Of(r.ended, id) != [] && Of(r.ended, id)[0].at <= at
  }

  /** Until the receiver is done, a set of acknowledged fragments is one it really has. */
  ghost predicate Acked(r: Rx, id: nat, mask: set<nat>) {
    Of(r.ended, id) == [] && mask != {} ==> id in r.msgs && mask <= r.msgs[id].acks
  }

  ghost predicate BackOk(t: Tx, r: Rx, p: Stamped, now: nat) {
    && p.at <= now
    && match p.pkt
       case Acks(id, mask) =>
         id in t.started && !Covers(mask, |t.started[id].data|) && Acked(r, id, mask)
       case Mack(ids) => forall id :: id in ids ==> EndedBy(r, id, p.at)
       case _ => true
  }

  ghost predicate AckedOk(t: Tx, r: Rx, id: nat) {
    id in t.msgs ==> Acked(r, id, t.msgs[id].acks)
  }

  /** A success was reported only after the receiver was done with the message. */
  ghost predicate OutcomeOk(t: Tx, r: Rx, id: nat) {
    forall o :: o in Of(t.outcomes, id) && o.success ==> EndedBy(r, id, o.at)
  }

  ghost predicate Link(h: HashFn, t: Tx, r: Rx, fwd: set<Stamped>, back: set<Stamped>, now: nat) {
    && Early(t, now)
    && (forall id :: PendingOk(h, t, id))
    && (forall p :: p in fwd ==> FwdOk(h, t, p, now))
    && (forall id :: PartialOk(h, t, r, id))
    && (forall id :: EndedOk(t, r, id))
    && (forall p :: p in back ==> BackOk(t, r, p, now))
    && (forall id :: AckedOk(t, r, id))
    && (forall id :: OutcomeOk(t, r, id))
  }

  // ---------------------------------------------------------------- steps of the sending end

  ghost predicate Extends(t: Tx, t': Tx) {
    forall id :: id in t.started ==> id in t'.started && t'.started[id] == t.started[id]
  }

  /** A good step of the outgoing half: accepted messages stay, and everything sent is genuine. */
  ghost predicate TxGood(h: HashFn, t: Tx, e: TxStep, now: nat) {
    && Extends(t, e.t)
    && (forall id :: PendingOk(h, e.t, id))
    && (forall p :: p in e.sent ==> FwdOk(h, e.t, Stamped(p, now), now))
  }

  ghost predicate Early(t: Tx, now: nat) {
    forall id :: id in t.started ==> t.started[id].at <= now
  }

  lemma XmitGenuine(h: HashFn, t: Tx, id: nat, now: nat)
    requires id in t.msgs && PendingOk(h, t, id) && t.started[id].at <= now
    ensures FwdOk(h, t, Stamped(XmitOf(t.msgs[id]), now), now)
  {
  }

  lemma UnackedGenuine(h: HashFn, t: Tx, id: nat, m: Outbound, p: Packet, now: nat)
    requires id in t.msgs && PendingOk(h, t, id) && t.started[id].at <= now
    requires m.data == t.msgs[id].data && m.id == id && p in Unacked(m)
    ensures FwdOk(h, t, Stamped(p, now), now)
  {
    var k: nat :| k < |m.data| && k * FRAGMENT_SIZE < |m.data| && k !in m.acks && p == DataOf(m, k);
    assert k * FRAGMENT_SIZE / FRAGMENT_SIZE == k;
  }

  lemma FinishGood(h: HashFn, t: Tx, ids: set<nat>, success: bool, now: nat)
    requires forall id :: PendingOk(h, t, id)
    ensures TxGood(h, t, TxStep(Finish(t, ids, success, now), {}), now)
  {
    var t' := Finish(t, ids, success, now);
    forall id
      ensures PendingOk(h, t', id)
    {
      assert PendingOk(h, t, id);
    }
  }

  lemma SendGood(h: HashFn, t: Tx, data: seq<Byte>, handler: bool, now: nat)
    requires TxLocal(t) && forall id :: PendingOk(h, t, id)
    ensures TxGood(h, t, Send(h, t, data, handler, now), now)
  {
    var e := Send(h, t, data, handler, now);
    assert Conserved(t, t.nextId);
    forall id
      ensures PendingOk(h, e.t, id)
    {
      assert PendingOk(h, t, id);
    }
    if Accepts(t) {
      XmitGenuine(h, e.t, t.nextId, now);
    }
  }

  lemma AcksGood(h: HashFn, t: Tx, id: nat, mask: set<nat>, now: nat)
    requires Early(t, now) && forall id :: PendingOk(h, t, id)
    ensures TxGood(h, t, GotAcks(t, id, mask, now), now)
  {
    var e := GotAcks(t, id, mask, now);
    if id in t.msgs {
      assert PendingOk(h, t, id);
      if Covers(mask, |t.msgs[id].data|) {
        FinishGood(h, t, {id}, true, now);
      } else {
        forall x
          ensures PendingOk(h, e.t, x)
        {
          assert PendingOk(h, t, x);
        }
        forall p | p in e.sent
          ensures FwdOk(h, e.t, Stamped(p, now), now)
        {
          UnackedGenuine(h, e.t, id, t.msgs[id].(acks := mask), p, now);
        }
      }
    }
  }

  lemma FlushGood(h: HashFn, t: Tx, now: nat)
    requires Early(t, now) && forall id :: PendingOk(h, t, id)
    ensures TxGood(h, t, Flush(t, now), now)
  {
    var e := Flush(t, now);
    forall id
      ensures PendingOk(h, e.t, id)
    {
      assert PendingOk(h, t, id);
    }
    forall p | p in e.sent
      ensures FwdOk(h, e.t, Stamped(p, now), now)
    {
      var id :| id in t.msgs && p in Unacked(t.msgs[id]);
      UnackedGenuine(h, e.t, id, t.msgs[id], p, now);
    }
  }

  lemma TxActGood(h: HashFn, me: Peer, action: Action, now: nat)
    requires TxLocal(me.tx) && Early(me.tx, now) && forall id :: PendingOk(h, me.tx, id)
    ensures TxGood(h, me.tx, TxAct(h, me, action, now), now)
  {
    var t := me.tx;
    match action
    case Submit(data, handler) => SendGood(h, t, data, handler, now);
    case Recv(p) =>
      match p.pkt {
        case Acks(id, mask) => AcksGood(h, t, id, mask, now);
        case Nack(id) => if id in t.msgs { assert PendingOk(h, t, id); XmitGenuine(h, t, id, now); }
        case Mack(ids) => FinishGood(h, t, set id | id in ids, true, now);
        case _ =>
      }
    case Pump => if me.open { FlushGood(h, t, now); }
    case Tick => FinishGood(h, t, set id | id in t.msgs && TxTimedOut(t.msgs[id], now), false, now);
    case _ =>
  }

  /** Finishing keeps the bookkeeping about the receiver, if a success has its reason. */
  lemma FinishTracks(t: Tx, r: Rx, ids: set<nat>, success: bool, now: nat)
    requires forall id :: AckedOk(t, r, id) && OutcomeOk(t, r, id)
    requires success ==> forall id :: id in ids && id in t.msgs ==> EndedBy(r, id, now)
    ensures var t' := Finish(t, ids, success, now); forall id :: AckedOk(t', r, id) && OutcomeOk(t', r, id)
  {
    var t' := Finish(t, ids, success, now);
    forall id
      ensures AckedOk(t', r, id) && OutcomeOk(t', r, id)
    {
      assert AckedOk(t, r, id) && OutcomeOk(t, r, id);
      assert Of(t'.outcomes, id) == Of(t.outcomes, id) ||
             (id in ids && id in t.msgs && Of(t'.outcomes, id) == Of(t.outcomes, id) + [Outcome(success, now)]);
    }
  }

  lemma UpdateTracks(t: Tx, t': Tx, r: Rx)
    requires forall id :: AckedOk(t, r, id) && OutcomeOk(t, r, id)
    requires t'.outcomes == t.outcomes
    requires forall id :: id in t'.msgs ==> Acked(r, id, t'.msgs[id].acks)
    ensures forall id :: AckedOk(t', r, id) && OutcomeOk(t', r, id)
  {
    forall id
      ensures OutcomeOk(t', r, id)
    {
      assert OutcomeOk(t, r, id);
    }
  }

  lemma TxActTracks(h: HashFn, me: Peer, r: Rx, action: Action, old': nat, now: nat)
    requires forall id :: PendingOk(h, me.tx, id) && AckedOk(me.tx, r, id) && OutcomeOk(me.tx, r, id)
    requires action.Recv? ==> BackOk(me.tx, r, action.p, old')
    requires old' <= now
    ensures var t' := TxAct(h, me, action, now).t; forall id :: AckedOk(t', r, id) && OutcomeOk(t', r, id)
  {
    var t := me.tx;
    var t' := TxAct(h, me, action, now).t;
    match action
    case Submit(data, handler) =>
      forall id | id in t'.msgs
        ensures Acked(r, id, t'.msgs[id].acks)
      {
        assert AckedOk(t, r, id);
      }
      UpdateTracks(t, t', r);
    case Recv(p) =>
      match p.pkt {
        case Acks(id, mask) =>
          assert PendingOk(h, t, id);
          forall x | x in t'.msgs
            ensures Acked(r, x, t'.msgs[x].acks)
          {
            assert AckedOk(t, r, x);
          }
          UpdateTracks(t, t', r);
        case Mack(ids) =>
          FinishTracks(t, r, set id | id in ids, true, now);
        case _ =>
      }
    case Pump =>
      forall id | id in t'.msgs
        ensures Acked(r, id, t'.msgs[id].acks)
      {
        assert AckedOk(t, r, id);
      }
      UpdateTracks(t, t', r);
    case Tick => FinishTracks(t, r, set id | id in t.msgs && TxTimedOut(t.msgs[id], now), false, now);
    case _ =>
  }

  /** A step of the sending end keeps the invariant of its direction. */
  lemma SenderStep(h: HashFn, me: Peer, other: Peer, action: Action, old': nat, now: nat)
    requires TxLocal(me.tx) && Link(h, me.tx, other.rx, me.net, other.net, old')
    requires old' <= now && Allowed(me, other, action)
    ensures var me' := Act(h, me, action, now); Link(h, me'.tx, other.rx, me'.net, other.net, now)
  {
    var t, r := me.tx, other.rx;
    var me' := Act(h, me, action, now);
    assert Early(t, now);
    TxActGood(h, me, action, now);
    TxActTracks(h, me, r, action, old', now);
    forall p | p in me'.net
      ensures FwdOk(h, me'.tx, p, now)
    {
      if p in me.net {
        assert FwdOk(h, t, p, old');
      } else {
        RxActQuiet(h, me, action, now, p.pkt);
      }
    }
    forall id
      ensures PartialOk(h, me'.tx, r, id) && EndedOk(me'.tx, r, id)
    {
      assert PartialOk(h, t, r, id) && EndedOk(t, r, id);
      forall e | e in Of(r.ended, id)
        ensures EndingOk(me'.tx, id, e)
      {
        assert EndingOk(t, id, e);
      }
    }
    forall p | p in other.net
      ensures BackOk(me'.tx, r, p, now)
    {
      assert BackOk(t, r, p, old');
    }
    assert Early(me'.tx, now);
  }

  /** The incoming half sends neither announcements nor fragments. */
  lemma RxActQuiet(h: HashFn, me: Peer, action: Action, now: nat, p: Packet)
    ensures p in RxAct(h, me, action, now).sent ==> !p.Xmit? && !p.Data?
  {
  }

  // ---------------------------------------------------------------- steps of the receiving end

  /** Fragments agree: the sequences agree. */
  lemma SameFragments(a: seq<Byte>, b: seq<Byte>)
    requires |a| == |b|
    requires forall k: nat :: k * FRAGMENT_SIZE < |a| ==> Fragment(a, k) == Fragment(b, k)
    ensures a == b
  {
    forall i | 0 <= i < |a|
      ensures a[i] == b[i]
    {
      var k := i / FRAGMENT_SIZE;
      assert a[i] == Fragment(a, k)[i - k * FRAGMENT_SIZE];
      assert b[i] == Fragment(b, k)[i - k * FRAGMENT_SIZE];
    }
  }

  /** Copying a fragment in changes that fragment only. */
  lemma SpliceFragment(m: Inbound, offset: nat, bytes: seq<Byte>, now: nat, k: nat)
    requires offset < |m.data| && offset % FRAGMENT_SIZE == 0
    requires offset + |bytes| == FragmentEnd(|m.data|, offset / FRAGMENT_SIZE)
    requires k * FRAGMENT_SIZE < |m.data|
    ensures Fragment(HandleData(m, offset, bytes, now).data, k) ==
      if k == offset / FRAGMENT_SIZE then bytes else Fragment(m.data, k)
  {
    var d := HandleData(m, offset, bytes, now).data;
    var j := offset / FRAGMENT_SIZE;
    var from, to := k * FRAGMENT_SIZE, FragmentEnd(|m.data|, k);
    assert offset == j * FRAGMENT_SIZE;
    assert d == m.data[..offset] + bytes + m.data[offset + |bytes|..];
    if k < j {
      assert to <= offset;
      assert d[from..to] == m.data[from..to];
    } else if k > j {
      assert offset + |bytes| <= from;
      assert d[from..to] == m.data[from..to];
    } else {
      assert d[from..to] == bytes;
    }
  }

  /** The receiver only gains: histories grow, and acknowledged sets grow until the end. */
  ghost predicate Gains(r: Rx, r': Rx, id: nat) {
    && Of(r.ended, id) <= Of(r'.ended, id)
    && (Of(r'.ended, id) == [] && id in r.msgs ==> id in r'.msgs && r.msgs[id].acks <= r'.msgs[id].acks)
  }

  ghost predicate RxGood(h: HashFn, t: Tx, r: Rx, e: RxStep, now: nat) {
    && (forall id :: Gains(r, e.r, id))
    && (forall id :: PartialOk(h, t, e.r, id) && EndedOk(t, e.r, id))
    && (forall p :: p in e.sent ==> BackOk(t, e.r, Stamped(p, now), now))
  }

  lemma HandUpGood(h: HashFn, t: Tx, r: Rx, id: nat, now: nat)
    requires forall id :: PartialOk(h, t, r, id) && EndedOk(t, r, id)
    requires id in t.started && t.started[id].at <= now
    ensures RxGood(h, t, r, RxStep(HandUp(r, id, t.started[id].data, now), {}), now)
  {
    var r' := HandUp(r, id, t.started[id].data, now);
    forall x
      ensures Gains(r, r', x) && PartialOk(h, t, r', x) && EndedOk(t, r', x)
    {
      assert PartialOk(h, t, r, x) && EndedOk(t, r, x);
    }
  }

  /** Steps that end nothing. */
  lemma UpdateGood(h: HashFn, t: Tx, r: Rx, e: RxStep, now: nat)
    requires forall id :: PartialOk(h, t, r, id) && EndedOk(t, r, id)
    requires e.r.ended == r.ended && e.r.replay == r.replay
    requires forall id :: id in r.msgs ==> id in e.r.msgs && r.msgs[id].acks <= e.r.msgs[id].acks
    requires forall id :: PartialOk(h, t, e.r, id)
    requires forall id :: id in e.r.macks ==> id in r.macks || id in r.replay
    requires forall p :: p in e.sent ==> BackOk(t, e.r, Stamped(p, now), now)
    ensures RxGood(h, t, r, e, now)
  {
    forall id
      ensures EndedOk(t, e.r, id)
    {
      assert EndedOk(t, r, id);
    }
  }

  lemma NoneCovered(n: nat)
    requires n > 0
    ensures !Covers({}, n)
  {
    var none: set<nat> := {};
    assert 0 * FRAGMENT_SIZE < n && 0 !in none;
  }

  lemma XmitGood(h: HashFn, t: Tx, r: Rx, p: Stamped, now: nat)
    requires forall id :: PartialOk(h, t, r, id) && EndedOk(t, r, id)
    requires p.pkt.Xmit? && FwdOk(h, t, p, now)
    ensures RxGood(h, t, r, GotXmit(h, r, p.pkt.id, p.pkt.size, p.pkt.digest, p.pkt.inline, now), now)
  {
    var id, d := p.pkt.id, t.started[p.pkt.id];
    var e := GotXmit(h, r, id, p.pkt.size, p.pkt.digest, p.pkt.inline, now);
    if id !in r.replay && id !in r.msgs && d.data == [] {
      var m := HandleData(NewInbound(id, 0, p.pkt.digest, now), 0, [], now);
      assert m.data == d.data;
      assert Covers(m.acks, 0);
      HandUpGood(h, t, r, id, now);
    } else {
      forall x
        ensures PartialOk(h, t, e.r, x)
      {
        assert PartialOk(h, t, r, x);
        if x == id && id !in r.replay && id !in r.msgs {
          NoneCovered(|d.data|);
        }
      }
      UpdateGood(h, t, r, e, now);
    }
  }

  lemma DataPartial(h: HashFn, t: Tx, r: Rx, p: Stamped, now: nat)
    requires p.pkt.Data? && FwdOk(h, t, p, now) && p.pkt.id in r.msgs && PartialOk(h, t, r, p.pkt.id)
    ensures var m, d := HandleData(r.msgs[p.pkt.id], p.pkt.offset, p.pkt.bytes, now), t.started[p.pkt.id];
      && d.at <= m.lastActive
      && (forall k :: k in m.acks ==> k * FRAGMENT_SIZE < |d.data| && Fragment(m.data, k) == Fragment(d.data, k))
      && (Covers(m.acks, |d.data|) ==> m.data == d.data)
  {
    var id, d := p.pkt.id, t.started[p.pkt.id];
    var m := HandleData(r.msgs[id], p.pkt.offset, p.pkt.bytes, now);
    forall k | k in m.acks
      ensures k * FRAGMENT_SIZE < |d.data| && Fragment(m.data, k) == Fragment(d.data, k)
    {
      SpliceFragment(r.msgs[id], p.pkt.offset, p.pkt.bytes, now, k);
    }
    if Covers(m.acks, |d.data|) {
      SameFragments(m.data, d.data);
    }
  }

  lemma DataGood(h: HashFn, t: Tx, r: Rx, p: Stamped, now: nat)
    requires forall id :: PartialOk(h, t, r, id) && EndedOk(t, r, id)
    requires p.pkt.Data? && FwdOk(h, t, p, now)
    ensures RxGood(h, t, r, GotData(h, r, p.pkt.id, p.pkt.offset, p.pkt.bytes, now), now)
  {
    var id := p.pkt.id;
    var e := GotData(h, r, id, p.pkt.offset, p.pkt.bytes, now);
    assert PartialOk(h, t, r, id);
    if id in r.msgs {
      var m := HandleData(r.msgs[id], p.pkt.offset, p.pkt.bytes, now);
      DataPartial(h, t, r, p, now);
      if Covers(m.acks, |m.data|) {
        HandUpGood(h, t, r, id, now);
      } else {
        forall x
          ensures PartialOk(h, t, e.r, x)
        {
          assert PartialOk(h, t, r, x);
        }
        UpdateGood(h, t, r, e, now);
      }
    } else {
      forall x
        ensures PartialOk(h, t, e.r, x)
      {
        assert PartialOk(h, t, r, x);
      }
      UpdateGood(h, t, r, e, now);
    }
  }

  lemma AcksSent(h: HashFn, t: Tx, r: Rx, now: nat)
    requires forall id :: PartialOk(h, t, r, id) && EndedOk(t, r, id)
    ensures RxGood(h, t, r, SendAcks(r, now), now)
  {
    var e := SendAcks(r, now);
    forall id
      ensures PartialOk(h, t, e.r, id)
    {
      assert PartialOk(h, t, r, id);
    }
    forall p | p in e.sent
      ensures BackOk(t, e.r, Stamped(p, now), now)
    {
      assert PartialOk(h, t, r, p.id) && PartialOk(h, t, e.r, p.id);
    }
    UpdateGood(h, t, r, e, now);
  }

  lemma MacksSent(h: HashFn, t: Tx, r: Rx, split: seq<seq<nat>>, now: nat)
    requires forall id :: PartialOk(h, t, r, id) && EndedOk(t, r, id)
    requires RxLocal(r, now) && IsSplit(split, r.macks)
    ensures RxGood(h, t, r, SendMacks(r, split), now)
  {
    var e := SendMacks(r, split);
    forall p | p in e.sent
      ensures BackOk(t, e.r, Stamped(p, now), now)
    {
      var i :| 0 <= i < |split| && p == Mack(split[i]);
      forall id | id in split[i]
        ensures EndedBy(e.r, id, now)
      {
        JoinHas(split, i, id);
        assert EndedOk(t, r, id) && Filtered(r, now, id);
      }
    }
    forall id
      ensures PartialOk(h, t, e.r, id)
    {
      assert PartialOk(h, t, r, id);
    }
    UpdateGood(h, t, r, e, now);
  }

  lemma TickGoodOne(h: HashFn, t: Tx, r: Rx, now: nat, id: nat)
    requires PartialOk(h, t, r, id) && EndedOk(t, r, id)
    ensures var r' := RxTick(r, now).r; Gains(r, r', id) && PartialOk(h, t, r', id) && EndedOk(t, r', id)
  {
    var r' := RxTick(r, now).r;
    if id in r.msgs && RxTimedOut(r.msgs[id], now) {
      assert Of(r'.ended, id) == Of(r.ended, id) + [GivenUp(now)];
    } else {
      assert Of(r'.ended, id) == Of(r.ended, id);
      assert id in r'.replay ==> id in r.replay;
    }
  }

  lemma RxActGood(h: HashFn, me: Peer, t: Tx, action: Action, now: nat)
    requires forall id :: PartialOk(h, t, me.rx, id) && EndedOk(t, me.rx, id)
    requires RxLocal(me.rx, now)
    requires action.Recv? ==> FwdOk(h, t, action.p, now)
    requires action.MackRound? ==> IsSplit(action.split, me.rx.macks)
    ensures RxGood(h, t, me.rx, RxAct(h, me, action, now), now)
  {
    var r := me.rx;
    match action
    case Recv(p) =>
      match p.pkt {
        case Xmit(_, _, _, _) => XmitGood(h, t, r, p, now);
        case Data(_, _, _) => DataGood(h, t, r, p, now);
        case _ => UpdateGood(h, t, r, RxStep(r, {}), now);
      }
    case MackRound(split) => MacksSent(h, t, r, split, now);
    case Pump => if me.open { AcksSent(h, t, r, now); } else { UpdateGood(h, t, r, RxStep(r, {}), now); }
    case Tick =>
      forall id
        ensures var r' := RxTick(r, now).r; Gains(r, r', id) && PartialOk(h, t, r', id) && EndedOk(t, r', id)
      {
        TickGoodOne(h, t, r, now, id);
      }
    case _ => UpdateGood(h, t, r, RxStep(r, {}), now);
  }

  lemma GainsKeep(r: Rx, r': Rx, id: nat, mask: set<nat>, at: nat)
    requires Gains(r, r', id)
    ensures Acked(r, id, mask) ==> Acked(r', id, mask)
    ensures EndedBy(r, id, at) ==> EndedBy(r', id, at)
  {
  }

  /** The outgoing half and a farewell carry no acknowledgement. */
  lemma TxActQuiet(h: HashFn, me: Peer, action: Action, now: nat, p: Packet)
    ensures p in TxAct(h, me, action, now).sent ==> !p.Acks? && !p.Mack?
  {
  }

  /** A step of the receiving end keeps the invariant of the direction. */
  lemma ReceiverStep(h: HashFn, me: Peer, other: Peer, action: Action, old': nat, now: nat)
    requires RxLocal(me.rx, now) && Link(h, other.tx, me.rx, other.net, me.net, old')
    requires old' <= now && Allowed(me, other, action)
    ensures var me' := Act(h, me, action, now); Link(h, other.tx, me'.rx, other.net, me'.net, now)
  {
    var t, r := other.tx, me.rx;
    var me' := Act(h, me, action, now);
    var r' := me'.rx;
    RxActGood(h, me, t, action, now);
    forall p | p in me'.net
      ensures BackOk(t, r', p, now)
    {
      if p in me.net {
        assert BackOk(t, r, p, old');
        match p.pkt {
          case Acks(id, mask) => GainsKeep(r, r', id, mask, 0);
          case Mack(ids) =>
            forall id | id in ids
              ensures EndedBy(r', id, p.at)
            {
              GainsKeep(r, r', id, {}, p.at);
            }
          case _ =>
        }
      } else {
        TxActQuiet(h, me, action, now, p.pkt);
      }
    }
    forall id
      ensures AckedOk(t, r', id) && OutcomeOk(t, r', id)
    {
      assert AckedOk(t, r, id) && OutcomeOk(t, r, id);
      if id in t.msgs {
        GainsKeep(r, r', id, t.msgs[id].acks, 0);
      }
      forall o | o in Of(t.outcomes, id) && o.success
        ensures EndedBy(r', id, o.at)
      {
        GainsKeep(r, r', id, {}, o.at);
      }
    }
    forall p | p in other.net
      ensures FwdOk(h, t, p, now)
    {
      assert FwdOk(h, t, p, old');
    }
  }
}
