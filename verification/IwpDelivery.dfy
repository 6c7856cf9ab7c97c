/**
 * Delivery between two IWP sessions: from every reachable state any message that is accepted
 * can be delivered and reported as delivered, and an acknowledgement makes the sender repeat
 * exactly what the receiver lacks.
 */
module IwpDelivery {
  import opened Bytes
  import opened IwpMessage
  import opened IwpProtocol
  import opened IwpNetwork
  import opened IwpLocal
  import opened IwpSafety
  import opened IwpTheorems
  import opened IwpAccount

  // ---------------------------------------------------------------- runs, one step at a time

  lemma OneStep(h: HashFn, t0: nat, run: seq<Step>, step: Step) returns (run': seq<Step>)
    requires Legal(h, t0, run) && Enabled(After(h, t0, run), step)
    ensures run' == run + [step] && Legal(h, t0, run') && After(h, t0, run') == Apply(h, After(h, t0, run), step)
  {
    run' := run + [step];
    assert run'[..|run|] == run;
  }

  lemma StepAtFrom(h: HashFn, s: Sys, aToB: bool, a: Action, now: nat)
    ensures var s' := Apply(h, s, Step(aToB, now, a));
      From(s', aToB) == Act(h, From(s, aToB), a, now) && To(s', aToB) == To(s, aToB) && s'.now == now
  {
  }

  lemma StepAtTo(h: HashFn, s: Sys, aToB: bool, a: Action, now: nat)
    ensures var s' := Apply(h, s, Step(!aToB, now, a));
      To(s', aToB) == Act(h, To(s, aToB), a, now) && From(s', aToB) == From(s, aToB) && s'.now == now
  {
  }

  // ---------------------------------------------------------------- submission and flush

  lemma SubmitSends(h: HashFn, me: Peer, data: seq<Byte>, handler: bool, now: nat)
    requires Accepts(me.tx)
    ensures var m, me' := NewOutbound(h, me.tx.nextId, data, handler, now), Act(h, me, Submit(data, handler), now);
      && me'.tx.msgs == me.tx.msgs[me.tx.nextId := m] && me'.open == me.open
      && me.tx.nextId in me'.tx.started && me'.tx.started[me.tx.nextId] == Started(data, handler, now)
      && Stamped(XmitOf(m), now) in me'.net
  {
    assert XmitOf(NewOutbound(h, me.tx.nextId, data, handler, now)) in Send(h, me.tx, data, handler, now).sent;
  }

  lemma PumpSends(h: HashFn, me: Peer, id: nat, now: nat)
    requires me.open && id in me.tx.msgs && me.tx.msgs[id].lastFlush == 0 && now >= 400
    ensures var me' := Act(h, me, Pump, now);
      && id in me'.tx.msgs && me'.tx.msgs[id] == me.tx.msgs[id].(lastFlush := now)
      && me'.tx.started == me.tx.started && me.net <= me'.net
      && forall p :: p in Unacked(me.tx.msgs[id]) ==> Stamped(p, now) in me'.net
  {
    var e := Flush(me.tx, now);
    forall p | p in Unacked(me.tx.msgs[id])
      ensures Stamped(p, now) in Act(h, me, Pump, now).net
    {
      assert ShouldFlush(me.tx.msgs[id], now);
      assert p in e.sent;
    }
  }

  /** The announcement, then a packet for each fragment. */
  function Parcel(m: Outbound, now: nat): (ps: seq<Stamped>) {
    [Stamped(XmitOf(m), now)] + StampAll(UnackedList(m, |m.data|), now)
  }

  function StampAll(l: seq<Packet>, now: nat): (ps: seq<Stamped>)
    ensures |ps| == |l| && forall i :: 0 <= i < |l| ==> ps[i] == Stamped(l[i], now)
  {
    seq(|l|, i requires 0 <= i < |l| => Stamped(l[i], now))
  }

  lemma ParcelHas(m: Outbound, now: nat)
    ensures forall p :: p in Parcel(m, now) ==> p.at == now && (p.pkt == XmitOf(m) || p.pkt in Unacked(m))
    ensures forall q :: q in Unacked(m) ==> Stamped(q, now) in Parcel(m, now)
  {
    UnackedListed(m, |m.data|);
    var l := UnackedList(m, |m.data|);
    forall q | q in Unacked(m)
      ensures Stamped(q, now) in Parcel(m, now)
    {
      assert q in l;
      var i :| 0 <= i < |l| && l[i] == q;
      assert Parcel(m, now)[i + 1] == Stamped(q, now);
    }
    forall p | p in Parcel(m, now)
      ensures p.at == now && (p.pkt == XmitOf(m) || p.pkt in Unacked(m))
    {
      if p != Stamped(XmitOf(m), now) {
        assert p.pkt in l;
      }
    }
  }

  // ---------------------------------------------------------------- receipts

  /** The other end handles packets one after the other, all at one time. */
  lemma {:induction false} Receive(h: HashFn, t0: nat, run: seq<Step>, aToB: bool, ps: seq<Stamped>, now: nat)
    returns (run': seq<Step>)
    requires Legal(h, t0, run) && After(h, t0, run).now == now
    requires forall p :: p in ps ==> p.at == now && p in From(After(h, t0, run), aToB).net
    ensures run <= run' && Legal(h, t0, run') && After(h, t0, run').now == now
    ensures From(After(h, t0, run'), aToB) == From(After(h, t0, run), aToB)
    ensures To(After(h, t0, run'), aToB).rx == Feed(h, To(After(h, t0, run), aToB).rx, ps)
    decreases |ps|
  {
    if ps == [] {
      run' := run;
    } else {
      var init, last := ps[..|ps| - 1], ps[|ps| - 1];
      var mid := Receive(h, t0, run, aToB, init, now);
      run' := OneStep(h, t0, mid, Step(!aToB, now, Recv(last)));
      StepAtTo(h, After(h, t0, mid), aToB, Recv(last), now);
      OneIsAct(h, To(After(h, t0, mid), aToB), last);
    }
  }

  lemma OneIsAct(h: HashFn, me: Peer, p: Stamped)
    ensures Act(h, me, Recv(p), p.at).rx == One(h, me.rx, p).r
  {
  }

  /** A message that ends while packets are handled is queued for acknowledgement. */
  lemma {:induction false} EndedIsQueued(h: HashFn, r: Rx, ps: seq<Stamped>, id: nat)
    requires Of(r.ended, id) == []
    ensures Of(Feed(h, r, ps).ended, id) != [] ==> id in Feed(h, r, ps).macks
  {
    if ps != [] {
      EndedIsQueued(h, r, ps[..|ps| - 1], id);
      OneQueues(h, Feed(h, r, ps[..|ps| - 1]), ps[|ps| - 1], id);
    }
  }

  lemma OneQueues(h: HashFn, r: Rx, p: Stamped, id: nat)
    requires Of(r.ended, id) != [] ==> id in r.macks
    ensures Of(One(h, r, p).r.ended, id) != [] ==> id in One(h, r, p).r.macks
  {
  }

  // ---------------------------------------------------------------- multi-acknowledgements

  /** Any set of ids can be divided into multi-acknowledgements. */
  lemma {:induction false} SplitExists(ids: set<nat>) returns (split: seq<seq<nat>>)
    ensures IsSplit(split, ids)
    decreases ids
  {
    if ids == {} {
      split := [];
    } else {
      var id :| id in ids;
      var rest := SplitExists(ids - {id});
      split := rest + [[id]];
      SplitMore(rest, ids - {id}, id);
      assert ids - {id} + {id} == ids;
    }
  }

  lemma SplitMore(split: seq<seq<nat>>, ids: set<nat>, id: nat)
    requires IsSplit(split, ids) && id !in ids
    ensures IsSplit(split + [[id]], ids + {id})
  {
    assert (split + [[id]])[..|split|] == split;
    assert Join(split + [[id]]) == Join(split) + [id];
    assert (set x | x in Join(split) + [id]) == (set x | x in Join(split)) + {id};
  }

  // ---------------------------------------------------------------- from submission to report

  lemma Submitted(h: HashFn, t0: nat, run: seq<Step>, aToB: bool, data: seq<Byte>, handler: bool, now: nat)
    returns (run': seq<Step>, m: Outbound)
    requires Legal(h, t0, run) && After(h, t0, run).now <= now && now >= 400
    requires From(After(h, t0, run), aToB).open && Accepts(From(After(h, t0, run), aToB).tx)
    requires |data| <= MAX_LINK_MSG_SIZE
    ensures run <= run' && Legal(h, t0, run') && After(h, t0, run').now == now
    ensures var id, t, net := From(After(h, t0, run), aToB).tx.nextId,
                              From(After(h, t0, run'), aToB).tx, From(After(h, t0, run'), aToB).net;
      && id in t.started && t.started[id] == Started(data, handler, now)
      && id in t.msgs && t.msgs[id] == m && m.data == data && m.acks == {} && m.id == id
      && Stamped(XmitOf(m), now) in net && forall p :: p in Unacked(m) ==> Stamped(p, now) in net
    ensures To(After(h, t0, run'), aToB) == To(After(h, t0, run), aToB)
  {
    var s := After(h, t0, run);
    var mid := OneStep(h, t0, run, Step(aToB, now, Submit(data, handler)));
    var s1 := After(h, t0, mid);
    StepAtFrom(h, s, aToB, Submit(data, handler), now);
    SubmitSends(h, From(s, aToB), data, handler, now);
    run' := OneStep(h, t0, mid, Step(aToB, now, Pump));
    StepAtFrom(h, s1, aToB, Pump, now);
    var id := From(s, aToB).tx.nextId;
    PumpSends(h, From(s1, aToB), id, now);
    m := From(After(h, t0, run'), aToB).tx.msgs[id];
    SameParcel(From(s1, aToB).tx.msgs[id], now);
  }

  lemma SameParcel(m: Outbound, now: nat)
    ensures XmitOf(m.(lastFlush := now)) == XmitOf(m) && Unacked(m.(lastFlush := now)) == Unacked(m)
  {
    assert forall k: nat :: k * FRAGMENT_SIZE < |m.data| ==> DataOf(m.(lastFlush := now), k) == DataOf(m, k);
  }

  /** The receiver is done with the message once, by handing it up, and has it queued for acknowledgement. */
  ghost predicate Arrived(r: Rx, id: nat, data: seq<Byte>, now: nat) {
    Of(r.ended, id) == [HandedUp(data, now)] && id in r.macks
  }

  lemma Delivered(h: HashFn, t0: nat, run: seq<Step>, aToB: bool, id: nat, m: Outbound, now: nat)
    returns (run': seq<Step>)
    requires Legal(h, t0, run) && After(h, t0, run).now == now
    requires var from := From(After(h, t0, run), aToB);
      && id in from.tx.started && from.tx.started[id].at == now
      && id in from.tx.msgs && from.tx.msgs[id] == m && m.acks == {}
      && Stamped(XmitOf(m), now) in from.net && forall p :: p in Unacked(m) ==> Stamped(p, now) in from.net
    requires Of(To(After(h, t0, run), aToB).rx.ended, id) == []
    ensures run <= run' && Legal(h, t0, run') && After(h, t0, run').now == now
    ensures From(After(h, t0, run'), aToB) == From(After(h, t0, run), aToB)
    ensures Arrived(To(After(h, t0, run'), aToB).rx, id, m.data, now)
  {
    var s, ps := After(h, t0, run), Parcel(m, now);
    ParcelHas(m, now);
    Invariant(h, t0, run, aToB);
    forall p | p in ps
      ensures p in From(s, aToB).net && FwdOk(h, From(s, aToB).tx, p, p.at)
    {
      assert p == Stamped(p.pkt, now);
    }
    forall q | q in Unacked(m)
      ensures exists p :: p in ps && p.pkt == q
    {
      assert Stamped(q, now) in ps;
    }
    RetransmissionDelivers(h, t0, run, aToB, id, ps);
    run' := Receive(h, t0, run, aToB, ps, now);
    EndedIsQueued(h, To(s, aToB).rx, ps, id);
    Invariant(h, t0, run', aToB);
    OnlyOnce(h, After(h, t0, run'), aToB, id, m.data, now);
  }

  /** Endings of one moment are one ending. */
  lemma OnlyOnce(h: HashFn, s: Sys, aToB: bool, id: nat, data: seq<Byte>, now: nat)
    requires DirectionOk(h, s, aToB) && s.now == now
    requires id in From(s, aToB).tx.started && From(s, aToB).tx.started[id].at == now
    requires var e := Of(To(s, aToB).rx.ended, id); e != [] && e[0].HandedUp? && e[0].data == data
    ensures Of(To(s, aToB).rx.ended, id) == [HandedUp(data, now)]
  {
    var r, t := To(s, aToB).rx, From(s, aToB).tx;
    assert Filtered(r, now, id) && EndedOk(t, r, id);
    var e := Of(r.ended, id);
    assert EndingOk(t, id, e[0]);
  }

  lemma Confirmed(h: HashFn, t0: nat, run: seq<Step>, aToB: bool, id: nat, now: nat) returns (run': seq<Step>)
    requires Legal(h, t0, run) && After(h, t0, run).now == now
    requires id in To(After(h, t0, run), aToB).rx.macks && id in From(After(h, t0, run), aToB).tx.msgs
    requires id in From(After(h, t0, run), aToB).tx.started
    ensures run <= run' && Legal(h, t0, run') && After(h, t0, run').now == now
    ensures To(After(h, t0, run'), aToB).rx.ended == To(After(h, t0, run), aToB).rx.ended
    ensures Reported(From(After(h, t0, run), aToB), From(After(h, t0, run'), aToB), id, true, now)
  {
    var s := After(h, t0, run);
    var split := SplitExists(To(s, aToB).rx.macks);
    var mid := OneStep(h, t0, run, Step(!aToB, now, MackRound(split)));
    StepAtTo(h, s, aToB, MackRound(split), now);
    RoundSends(h, To(s, aToB), split, now, id);
    var s1 := After(h, t0, mid);
    var ids :| id in ids && Stamped(Mack(ids), now) in To(s1, aToB).net;
    run' := OneStep(h, t0, mid, Step(aToB, now, Recv(Stamped(Mack(ids), now))));
    StepAtFrom(h, s1, aToB, Recv(Stamped(Mack(ids), now)), now);
    Invariant(h, t0, mid, aToB);
    MackReports(h, From(s1, aToB), ids, now, id);
  }

  lemma MackReports(h: HashFn, me: Peer, ids: seq<nat>, now: nat, id: nat)
    requires TxLocal(me.tx) && id in me.tx.msgs && id in ids && id in me.tx.started
    ensures Reported(me, Act(h, me, Recv(Stamped(Mack(ids), now)), now), id, true, now)
    ensures Act(h, me, Recv(Stamped(Mack(ids), now)), now).rx == me.rx
  {
    assert Conserved(me.tx, id);
    FinishOutcome(me.tx, set x | x in ids, true, now, id);
  }

  /**
   * From every reachable state in which the sending session is open and has room, whatever
   * either end did before, there is a continuation in which a given message is submitted,
   * handed up once and unchanged, and reported as delivered.
   */
  lemma CanDeliver(h: HashFn, t0: nat, run: seq<Step>, aToB: bool, data: seq<Byte>, handler: bool, now: nat)
    returns (run': seq<Step>)
    requires Legal(h, t0, run) && After(h, t0, run).now <= now && now >= 400
    requires From(After(h, t0, run), aToB).open && Accepts(From(After(h, t0, run), aToB).tx)
    requires |data| <= MAX_LINK_MSG_SIZE
    ensures run <= run' && Legal(h, t0, run')
    ensures var id, s' := From(After(h, t0, run), aToB).tx.nextId, After(h, t0, run');
      && Of(To(s', aToB).rx.ended, id) == [HandedUp(data, now)]
      && id !in From(s', aToB).tx.msgs
      && Of(From(s', aToB).tx.outcomes, id) == if handler then [Outcome(true, now)] else []
  {
    var id := From(After(h, t0, run), aToB).tx.nextId;
    NothingBefore(h, t0, run, aToB, id);
    var run1, m := Submitted(h, t0, run, aToB, data, handler, now);
    var run2 := Delivered(h, t0, run1, aToB, id, m, now);
    run' := Confirmed(h, t0, run2, aToB, id, now);
  }

  lemma NothingBefore(h: HashFn, t0: nat, run: seq<Step>, aToB: bool, id: nat)
    requires Legal(h, t0, run) && id == From(After(h, t0, run), aToB).tx.nextId
    ensures Of(To(After(h, t0, run), aToB).rx.ended, id) == []
  {
    Invariant(h, t0, run, aToB);
    var s := After(h, t0, run);
    var t, r := From(s, aToB).tx, To(s, aToB).rx;
    assert Conserved(t, id) && EndedOk(t, r, id);
    FirstIsIn(Of(r.ended, id));
  }

  lemma FirstIsIn(s: seq<Ending>)
    ensures s != [] ==> s[0] in s
  {
  }

  // ---------------------------------------------------------------- a lost announcement

  lemma Complains(h: HashFn, me: Peer, p: Stamped, now: nat)
    requires p.pkt.Data? && p.pkt.id !in me.rx.msgs && p.pkt.id !in me.rx.replay
    ensures var me' := Act(h, me, Recv(p), now); me'.rx == me.rx && Stamped(Nack(p.pkt.id), now) in me'.net
  {
  }

  lemma Reannounces(h: HashFn, me: Peer, id: nat, at: nat, now: nat)
    requires id in me.tx.msgs
    ensures var me' := Act(h, me, Recv(Stamped(Nack(id), at)), now);
      me'.tx == me.tx && Stamped(XmitOf(me.tx.msgs[id]), now) in me'.net
  {
  }

  lemma Reopens(h: HashFn, me: Peer, m: Outbound, at: nat, now: nat)
    requires m.id !in me.rx.msgs && m.id !in me.rx.replay && m.data != []
    ensures var me' := Act(h, me, Recv(Stamped(XmitOf(m), at)), now);
      m.id in me'.rx.msgs && |me'.rx.msgs[m.id].data| == |m.data| && me'.rx.msgs[m.id].acks == {}
  {
  }

  /**
   * A lost announcement is made up for: a fragment of a message the receiver does not know
   * makes it complain, and the sender's answer begins the reassembly.
   */
  lemma AnnouncementRecovered(h: HashFn, t0: nat, run: seq<Step>, aToB: bool, p: Stamped, now: nat)
    returns (run': seq<Step>)
    requires Legal(h, t0, run) && After(h, t0, run).now <= now
    requires p in From(After(h, t0, run), aToB).net && p.pkt.Data? && p.pkt.id in From(After(h, t0, run), aToB).tx.msgs
    requires p.pkt.id !in To(After(h, t0, run), aToB).rx.msgs && p.pkt.id !in To(After(h, t0, run), aToB).rx.replay
    ensures run <= run' && |run'| == |run| + 3 && Legal(h, t0, run')
    ensures var t, r := From(After(h, t0, run), aToB).tx, To(After(h, t0, run'), aToB).rx;
      p.pkt.id in r.msgs && |r.msgs[p.pkt.id].data| == |t.msgs[p.pkt.id].data| && r.msgs[p.pkt.id].acks == {}
  {
    var s, id := After(h, t0, run), p.pkt.id;
    Invariant(h, t0, run, aToB);
    assert FwdOk(h, From(s, aToB).tx, p, s.now) && PendingOk(h, From(s, aToB).tx, id);
    var run1 := OneStep(h, t0, run, Step(!aToB, now, Recv(p)));
    var s1 := After(h, t0, run1);
    StepAtTo(h, s, aToB, Recv(p), now);
    Complains(h, To(s, aToB), p, now);
    var run2 := OneStep(h, t0, run1, Step(aToB, now, Recv(Stamped(Nack(id), now))));
    var s2 := After(h, t0, run2);
    StepAtFrom(h, s1, aToB, Recv(Stamped(Nack(id), now)), now);
    Reannounces(h, From(s1, aToB), id, now, now);
    var m := From(s, aToB).tx.msgs[id];
    run' := OneStep(h, t0, run2, Step(!aToB, now, Recv(Stamped(XmitOf(m), now))));
    StepAtTo(h, s2, aToB, Recv(Stamped(XmitOf(m), now)), now);
    Reopens(h, To(s2, aToB), m, now, now);
  }

  // ---------------------------------------------------------------- selective repetition

  /**
   * When the receiver acknowledges a message in reassembly and the sender gets that, the
   * sender sends exactly the fragments the receiver lacks.
   */
  lemma SelectiveRepeat(h: HashFn, t0: nat, run: seq<Step>, aToB: bool, id: nat, now: nat) returns (run': seq<Step>)
    requires Legal(h, t0, run) && After(h, t0, run).now <= now && To(After(h, t0, run), aToB).open
    requires id in From(After(h, t0, run), aToB).tx.msgs && id in To(After(h, t0, run), aToB).rx.msgs
    requires To(After(h, t0, run), aToB).rx.msgs[id].lastAckSent + 250 < now
    ensures run <= run' && Legal(h, t0, run')
    ensures var s, s' := After(h, t0, run), After(h, t0, run');
      var had := To(s, aToB).rx.msgs[id].acks;
      && id in From(s, aToB).tx.started
      && id in From(s', aToB).tx.msgs && From(s', aToB).tx.msgs[id].acks == had
      && From(s', aToB).net == From(s, aToB).net + Missing(id, From(s, aToB).tx.started[id].data, had, now)
  {
    var s := After(h, t0, run);
    Invariant(h, t0, run, aToB);
    var from, to := From(s, aToB), To(s, aToB);
    assert PendingOk(h, from.tx, id) && PartialOk(h, from.tx, to.rx, id);
    var mid := OneStep(h, t0, run, Step(!aToB, now, Pump));
    StepAtTo(h, s, aToB, Pump, now);
    AcksGoOut(h, to, id, now);
    var p := Stamped(Acks(id, to.rx.msgs[id].acks), now);
    run' := OneStep(h, t0, mid, Step(aToB, now, Recv(p)));
    StepAtFrom(h, After(h, t0, mid), aToB, Recv(p), now);
    AckAnswered(h, from, id, to.rx.msgs[id].acks, now, now);
  }

  lemma AcksGoOut(h: HashFn, me: Peer, id: nat, now: nat)
    requires me.open && id in me.rx.msgs && me.rx.msgs[id].lastAckSent + 250 < now
    ensures Stamped(Acks(id, me.rx.msgs[id].acks), now) in Act(h, me, Pump, now).net
  {
    assert Acks(id, me.rx.msgs[id].acks) in SendAcks(me.rx, now).sent;
  }

  lemma AckAnswered(h: HashFn, me: Peer, id: nat, mask: set<nat>, at: nat, now: nat)
    requires id in me.tx.msgs && PendingOk(h, me.tx, id) && !Covers(mask, |me.tx.msgs[id].data|)
    ensures var me' := Act(h, me, Recv(Stamped(Acks(id, mask), at)), now);
      && id in me'.tx.msgs && me'.tx.msgs[id].acks == mask
      && me'.net == me.net + Missing(id, me.tx.started[id].data, mask, now)
  {
    var m := me.tx.msgs[id].(acks := mask);
    UnackedIsMissing(m, now);
    assert TxAct(h, me, Recv(Stamped(Acks(id, mask), at)), now).sent == Unacked(m);
    assert Unacked(m) + {} + {} == Unacked(m);
  }
}
