/**
 * At-most-once delivery on a common clock. P bounds the time between two Ticks of an end, L
 * bounds how long after being queued a packet can still be handled.
 */
module IwpTimed {
  import opened Bytes
  import opened IwpMessage
  import opened IwpProtocol
  import opened IwpNetwork
  import opened IwpLocal
  import opened IwpSafety
  import opened IwpTheorems

  ghost predicate Timely(P: nat, L: nat, s: Sys, step: Step) {
    && step.at <= s.a.ticked + P && step.at <= s.b.ticked + P
    && (step.action.Recv? ==> step.at <= step.action.p.at + L)
  }

  ghost predicate LegalTimed(h: HashFn, P: nat, L: nat, t0: nat, run: seq<Step>) {
    run == [] ||
    var s := After(h, t0, run[..|run| - 1]);
    LegalTimed(h, P, L, t0, run[..|run| - 1]) && Enabled(s, run[|run| - 1]) && Timely(P, L, s, run[|run| - 1])
  }

  lemma {:induction false} TimedIsLegal(h: HashFn, P: nat, L: nat, t0: nat, run: seq<Step>)
    requires LegalTimed(h, P, L, t0, run)
    ensures Legal(h, t0, run)
  {
    if run != [] {
      TimedIsLegal(h, P, L, t0, run[..|run| - 1]);
    }
  }

  /**
   * The timing under which no id is done with twice: a pending message dies before its id
   * leaves the replay filter, and either no announcement outlives the window or no negative
   * acknowledgement can provoke one that does.
   */
  predicate Safe(P: nat, L: nat) {
    DELIVERY_TIMEOUT + P + L < REPLAY_WINDOW ||
    (DELIVERY_TIMEOUT + P < REPLAY_WINDOW && 2 * L < REPLAY_WINDOW)
  }

  // ---------------------------------------------------------------- the timed invariant

  /** A pending message is younger than the delivery timeout was at the last Tick. */
  ghost predicate AliveOk(t: Tx, ticked: nat, id: nat) {
    id in t.msgs && id in t.started ==> ticked <= t.started[id].at + DELIVERY_TIMEOUT
  }

  ghost predicate XmitAge(P: nat, L: nat, t: Tx, r: Rx, p: Stamped) {
    p.pkt.Xmit? && p.pkt.id in t.started ==>
      && p.at <= t.started[p.pkt.id].at + DELIVERY_TIMEOUT + P
      && (Of(r.ended, p.pkt.id) != [] ==> p.at <= Of(r.ended, p.pkt.id)[0].at + L)
  }

  ghost predicate NackAge(r: Rx, p: Stamped) {
    p.pkt.Nack? && Of(r.ended, p.pkt.id) != [] ==>
      var end := Of(r.ended, p.pkt.id)[0].at;
      p.at <= end || end + REPLAY_WINDOW <= p.at
  }

  ghost predicate Once(r: Rx, id: nat) {
    |Of(r.ended, id)| <= 1 && (id in r.msgs ==> Of(r.ended, id) == [])
  }

  ghost predicate TimedLink(P: nat, L: nat, t: Tx, r: Rx, fwd: set<Stamped>, back: set<Stamped>, ticked: nat) {
    && (forall id :: AliveOk(t, ticked, id))
    && (forall p :: p in fwd ==> XmitAge(P, L, t, r, p))
    && (forall p :: p in back ==> NackAge(r, p))
    && (forall id :: Once(r, id))
  }

  // ---------------------------------------------------------------- the sending end

  lemma AliveAct(h: HashFn, me: Peer, action: Action, now: nat, id: nat)
    requires TxLocal(me.tx) && PendingOk(h, me.tx, id) && AliveOk(me.tx, me.ticked, id)
    requires me.ticked <= now
    ensures var me' := Act(h, me, action, now); AliveOk(me'.tx, me'.ticked, id)
  {
    assert Conserved(me.tx, id) && Conserved(me.tx, me.tx.nextId);
  }

  /** An announcement is sent for a new message or on a negative acknowledgement. */
  lemma XmitSent(h: HashFn, me: Peer, action: Action, now: nat, p: Packet)
    requires p in TxAct(h, me, action, now).sent && p.Xmit?
    requires TxLocal(me.tx) && forall id :: PendingOk(h, me.tx, id)
    ensures var t' := TxAct(h, me, action, now).t;
      if action.Submit? then
        p.id !in me.tx.started && p.id in t'.started && t'.started[p.id].at == now
      else
        action.Recv? && action.p.pkt == Nack(p.id) && p.id in me.tx.msgs && t' == me.tx
  {
    assert Conserved(me.tx, me.tx.nextId);
    if action.Recv? && action.p.pkt.Nack? && action.p.pkt.id in me.tx.msgs {
      assert PendingOk(h, me.tx, action.p.pkt.id);
    }
  }

  lemma SenderTimed(h: HashFn, P: nat, L: nat, me: Peer, other: Peer, action: Action, old': nat, now: nat)
    requires Safe(P, L) && TxLocal(me.tx) && RxLocal(other.rx, old')
    requires Link(h, me.tx, other.rx, me.net, other.net, old')
    requires TimedLink(P, L, me.tx, other.rx, me.net, other.net, me.ticked)
    requires me.ticked <= old' <= now <= me.ticked + P && Allowed(me, other, action)
    requires action.Recv? ==> now <= action.p.at + L
    ensures var me' := Act(h, me, action, now);
      TimedLink(P, L, me'.tx, other.rx, me'.net, other.net, me'.ticked)
  {
    var me', r := Act(h, me, action, now), other.rx;
    forall id
      ensures AliveOk(me'.tx, me'.ticked, id)
    {
      AliveAct(h, me, action, now, id);
    }
    TxActGood(h, me, action, now);
    forall p | p in me'.net
      ensures XmitAge(P, L, me'.tx, r, p)
    {
      if p in me.net {
        assert XmitAge(P, L, me.tx, r, p) && FwdOk(h, me.tx, p, old');
      } else if p.pkt.Xmit? {
        RxActQuiet(h, me, action, now, p.pkt);
        NewXmitAge(h, P, L, me, other, action, old', now, p);
      }
    }
  }

  lemma NewXmitAge(h: HashFn, P: nat, L: nat, me: Peer, other: Peer, action: Action, old': nat, now: nat, p: Stamped)
    requires Safe(P, L) && TxLocal(me.tx)
    requires Link(h, me.tx, other.rx, me.net, other.net, old')
    requires TimedLink(P, L, me.tx, other.rx, me.net, other.net, me.ticked)
    requires old' <= now <= me.ticked + P && Allowed(me, other, action)
    requires action.Recv? ==> now <= action.p.at + L
    requires p.pkt.Xmit? && p.pkt in TxAct(h, me, action, now).sent && p.at == now
    ensures XmitAge(P, L, TxAct(h, me, action, now).t, other.rx, p)
  {
    var id, r := p.pkt.id, other.rx;
    XmitSent(h, me, action, now, p.pkt);
    assert EndedOk(me.tx, r, id);
    if Of(r.ended, id) != [] {
      assert EndingOk(me.tx, id, Of(r.ended, id)[0]);
    }
    if !action.Submit? {
      assert PendingOk(h, me.tx, id) && AliveOk(me.tx, me.ticked, id);
      assert NackAge(r, action.p) && BackOk(me.tx, r, action.p, old');
    }
  }

  // ---------------------------------------------------------------- the receiving end

  /** An announcement that is still handled finds the id in the filter if it has ended. */
  lemma XmitFiltered(h: HashFn, P: nat, L: nat, t: Tx, r: Rx, p: Stamped, now: nat)
    requires Safe(P, L) && RxLocal(r, now) && FwdOk(h, t, p, now) && p.pkt.Xmit?
    requires XmitAge(P, L, t, r, p) && Once(r, p.pkt.id) && EndedOk(t, r, p.pkt.id) && now <= p.at + L
    ensures Of(r.ended, p.pkt.id) != [] ==> p.pkt.id in r.replay
  {
    var id := p.pkt.id;
    assert Filtered(r, now, id);
    if Of(r.ended, id) != [] {
      assert EndingOk(t, id, Of(r.ended, id)[0]);
    }
  }

  /** What a step may do to the history of an id that was seen at most once. */
  ghost predicate Progress(r: Rx, r': Rx, now: nat, id: nat) {
    && (Of(r'.ended, id) == Of(r.ended, id) ||
        (Of(r.ended, id) == [] && |Of(r'.ended, id)| == 1 && Of(r'.ended, id)[0].at == now))
    && (id in r'.msgs ==> Of(r'.ended, id) == [])
  }

  lemma HandUpProgress(r: Rx, id: nat, data: seq<Byte>, now: nat)
    requires forall x :: Once(r, x)
    requires Of(r.ended, id) == []
    ensures forall x :: Progress(r, HandUp(r, id, data, now), now, x)
  {
    forall x
      ensures Progress(r, HandUp(r, id, data, now), now, x)
    {
      assert Once(r, x);
    }
  }

  lemma SameProgress(r: Rx, r': Rx, now: nat)
    requires forall x :: Once(r, x)
    requires r'.ended == r.ended
    requires forall x :: x in r'.msgs ==> x in r.msgs || Of(r.ended, x) == []
    ensures forall x :: Progress(r, r', now, x)
  {
    forall x
      ensures Progress(r, r', now, x)
    {
      assert Once(r, x);
    }
  }

  lemma TickProgress(r: Rx, now: nat, id: nat)
    requires Once(r, id)
    ensures Progress(r, RxTick(r, now).r, now, id)
  {
    var r' := RxTick(r, now).r;
    if id in r.msgs && RxTimedOut(r.msgs[id], now) {
      assert Of(r'.ended, id) == Of(r.ended, id) + [GivenUp(now)];
    } else {
      assert Of(r'.ended, id) == Of(r.ended, id);
    }
  }

  lemma XmitProgress(h: HashFn, r: Rx, p: Stamped, now: nat)
    requires p.pkt.Xmit? && (Of(r.ended, p.pkt.id) != [] ==> p.pkt.id in r.replay)
    requires forall x :: Once(r, x)
    ensures var r' := GotXmit(h, r, p.pkt.id, p.pkt.size, p.pkt.digest, p.pkt.inline, now).r;
      forall x :: Progress(r, r', now, x)
  {
    var id := p.pkt.id;
    var r' := GotXmit(h, r, id, p.pkt.size, p.pkt.digest, p.pkt.inline, now).r;
    if r'.ended == r.ended {
      SameProgress(r, r', now);
    } else {
      var m := HandleData(NewInbound(id, p.pkt.size, p.pkt.digest, now), 0, p.pkt.inline.value, now);
      HandUpProgress(r, id, m.data, now);
    }
  }

  lemma DataProgress(h: HashFn, r: Rx, p: Stamped, now: nat)
    requires p.pkt.Data? && forall x :: Once(r, x)
    ensures var r' := GotData(h, r, p.pkt.id, p.pkt.offset, p.pkt.bytes, now).r;
      forall x :: Progress(r, r', now, x)
  {
    var id := p.pkt.id;
    var r' := GotData(h, r, id, p.pkt.offset, p.pkt.bytes, now).r;
    if r'.ended == r.ended {
      SameProgress(r, r', now);
    } else {
      assert Once(r, id);
      HandUpProgress(r, id, HandleData(r.msgs[id], p.pkt.offset, p.pkt.bytes, now).data, now);
    }
  }

  lemma RxActProgress(h: HashFn, me: Peer, action: Action, now: nat)
    requires forall x :: Once(me.rx, x)
    requires action.Recv? && action.p.pkt.Xmit? && Of(me.rx.ended, action.p.pkt.id) != [] ==>
      action.p.pkt.id in me.rx.replay
    ensures forall x :: Progress(me.rx, RxAct(h, me, action, now).r, now, x)
  {
    var r := me.rx;
    match action
    case Recv(p) =>
      match p.pkt {
        case Xmit(_, _, _, _) => XmitProgress(h, r, p, now);
        case Data(_, _, _) => DataProgress(h, r, p, now);
        case _ => SameProgress(r, r, now);
      }
    case Tick =>
      forall id
        ensures Progress(r, RxTick(r, now).r, now, id)
      {
        TickProgress(r, now, id);
      }
    case MackRound(split) => SameProgress(r, SendMacks(r, split).r, now);
    case Pump => SameProgress(r, RxAct(h, me, action, now).r, now);
    case _ => SameProgress(r, r, now);
  }

  lemma ReceiverProgress(h: HashFn, P: nat, L: nat, me: Peer, other: Peer, action: Action, old': nat, now: nat)
    requires Safe(P, L) && RxLocal(me.rx, now)
    requires Link(h, other.tx, me.rx, other.net, me.net, old')
    requires TimedLink(P, L, other.tx, me.rx, other.net, me.net, other.ticked)
    requires old' <= now && Allowed(me, other, action)
    requires action.Recv? ==> now <= action.p.at + L
    ensures forall id :: Progress(me.rx, RxAct(h, me, action, now).r, now, id)
  {
    var t, r := other.tx, me.rx;
    if action.Recv? && action.p.pkt.Xmit? {
      assert XmitAge(P, L, t, r, action.p) && FwdOk(h, t, action.p, old');
      assert EndedOk(t, r, action.p.pkt.id) && Once(r, action.p.pkt.id);
      XmitFiltered(h, P, L, t, r, action.p, now);
    }
    RxActProgress(h, me, action, now);
  }

  lemma XmitAgeKept(h: HashFn, P: nat, L: nat, t: Tx, r: Rx, r': Rx, p: Stamped, old': nat, now: nat)
    requires XmitAge(P, L, t, r, p) && FwdOk(h, t, p, old') && old' <= now
    requires p.pkt.Xmit? ==> Progress(r, r', now, p.pkt.id)
    ensures XmitAge(P, L, t, r', p)
  {
  }

  lemma NackAgeKept(h: HashFn, me: Peer, other: Peer, action: Action, old': nat, now: nat, p: Stamped)
    requires p in Act(h, me, action, now).net && p.pkt.Nack? && old' <= now
    requires p in me.net ==> NackAge(me.rx, p) && BackOk(other.tx, me.rx, p, old')
    requires Once(me.rx, p.pkt.id) && Filtered(me.rx, now, p.pkt.id)
    requires Progress(me.rx, RxAct(h, me, action, now).r, now, p.pkt.id)
    ensures NackAge(RxAct(h, me, action, now).r, p)
  {
    if p !in me.net {
      NackSent(h, me, action, now, p.pkt);
    }
  }

  lemma ReceiverTimed(h: HashFn, P: nat, L: nat, me: Peer, other: Peer, action: Action, old': nat, now: nat)
    requires Safe(P, L) && RxLocal(me.rx, now)
    requires Link(h, other.tx, me.rx, other.net, me.net, old')
    requires TimedLink(P, L, other.tx, me.rx, other.net, me.net, other.ticked)
    requires old' <= now && Allowed(me, other, action)
    requires action.Recv? ==> now <= action.p.at + L
    ensures var me' := Act(h, me, action, now);
      TimedLink(P, L, other.tx, me'.rx, other.net, me'.net, other.ticked)
  {
    ReceiverProgress(h, P, L, me, other, action, old', now);
    var t, r, me' := other.tx, me.rx, Act(h, me, action, now);
    var r' := me'.rx;
    forall id
      ensures Once(r', id)
    {
      assert Once(r, id) && Progress(r, r', now, id);
    }
    forall p | p in other.net
      ensures XmitAge(P, L, t, r', p)
    {
      XmitAgeKept(h, P, L, t, r, r', p, old', now);
    }
    forall p | p in me'.net
      ensures NackAge(r', p)
    {
      if p.pkt.Nack? {
        NackAgeKept(h, me, other, action, old', now, p);
      }
    }
  }

  /** A negative acknowledgement is for an id that is neither in reassembly nor filtered. */
  lemma NackSent(h: HashFn, me: Peer, action: Action, now: nat, p: Packet)
    requires p.Nack? && p in TxAct(h, me, action, now).sent + RxAct(h, me, action, now).sent
    ensures p.id !in me.rx.msgs && p.id !in me.rx.replay && RxAct(h, me, action, now).r == me.rx
  {
  }

  // ---------------------------------------------------------------- runs

  ghost predicate TimedOk(h: HashFn, P: nat, L: nat, s: Sys, aToB: bool) {
    && DirectionOk(h, s, aToB) && From(s, aToB).ticked <= s.now
    && TimedLink(P, L, From(s, aToB).tx, To(s, aToB).rx, From(s, aToB).net, To(s, aToB).net, From(s, aToB).ticked)
  }

  lemma TimedStep(h: HashFn, P: nat, L: nat, s: Sys, step: Step, aToB: bool)
    requires Safe(P, L) && TimedOk(h, P, L, s, aToB) && Enabled(s, step) && Timely(P, L, s, step)
    ensures TimedOk(h, P, L, Apply(h, s, step), aToB)
  {
    StepKeeps(h, s, step, aToB);
    var from, to := From(s, aToB), To(s, aToB);
    if step.atA == aToB {
      SenderTimed(h, P, L, from, to, step.action, s.now, step.at);
    } else {
      LaterFiltered(to.rx, s.now, step.at);
      ReceiverTimed(h, P, L, to, from, step.action, s.now, step.at);
    }
  }

  lemma {:induction false} TimedInvariant(h: HashFn, P: nat, L: nat, t0: nat, run: seq<Step>, aToB: bool)
    requires Safe(P, L) && LegalTimed(h, P, L, t0, run)
    ensures TimedOk(h, P, L, After(h, t0, run), aToB)
  {
    if run == [] {
      InitOk(h, t0, aToB);
    } else {
      TimedInvariant(h, P, L, t0, run[..|run| - 1], aToB);
      TimedStep(h, P, L, After(h, t0, run[..|run| - 1]), run[|run| - 1], aToB);
    }
  }

  /**
   * At most once: under safe timing, in every run and for every id, the receiver is done
   * with the message at most once, so it is handed up at most once and never after having
   * been given up.
   */
  lemma AtMostOnce(h: HashFn, P: nat, L: nat, t0: nat, run: seq<Step>, aToB: bool, id: nat)
    requires Safe(P, L) && LegalTimed(h, P, L, t0, run)
    ensures |Of(To(After(h, t0, run), aToB).rx.ended, id)| <= 1
  {
    TimedInvariant(h, P, L, t0, run, aToB);
    assert Once(To(After(h, t0, run), aToB).rx, id);
  }

  // ---------------------------------------------------------------- reporting in time

  ghost predicate Alive(s: Sys, P: nat, aToB: bool) {
    && From(s, aToB).ticked <= s.now <= From(s, aToB).ticked + P
    && forall id :: AliveOk(From(s, aToB).tx, From(s, aToB).ticked, id)
  }

  lemma AliveStep(h: HashFn, P: nat, L: nat, s: Sys, step: Step, aToB: bool)
    requires DirectionOk(h, s, aToB) && Alive(s, P, aToB) && Enabled(s, step) && Timely(P, L, s, step)
    ensures Alive(Apply(h, s, step), P, aToB)
  {
    var from := From(s, aToB);
    if step.atA == aToB {
      forall id
        ensures var me' := Act(h, from, step.action, step.at); AliveOk(me'.tx, me'.ticked, id)
      {
        AliveAct(h, from, step.action, step.at, id);
      }
    }
  }

  lemma {:induction false} AliveRun(h: HashFn, P: nat, L: nat, t0: nat, run: seq<Step>, aToB: bool)
    requires LegalTimed(h, P, L, t0, run)
    ensures Alive(After(h, t0, run), P, aToB)
  {
    if run != [] {
      var before := run[..|run| - 1];
      AliveRun(h, P, L, t0, before, aToB);
      TimedIsLegal(h, P, L, t0, before);
      Invariant(h, t0, before, aToB);
      AliveStep(h, P, L, After(h, t0, before), run[|run| - 1], aToB);
    }
  }

  /**
   * Reported in time, whatever the delay of packets: once the delivery timeout and the time
   * between two Ticks have passed, an accepted message is no longer pending, and its handler,
   * if it has one, was told exactly once.
   */
  lemma ReportedInTime(h: HashFn, P: nat, L: nat, t0: nat, run: seq<Step>, aToB: bool, id: nat)
    requires LegalTimed(h, P, L, t0, run)
    ensures var s := After(h, t0, run);
      var t := From(s, aToB).tx;
      id in t.started && t.started[id].at + DELIVERY_TIMEOUT + P < s.now ==>
        id !in t.msgs && |Of(t.outcomes, id)| == if t.started[id].handler then 1 else 0
  {
    AliveRun(h, P, L, t0, run, aToB);
    TimedIsLegal(h, P, L, t0, run);
    Invariant(h, t0, run, aToB);
    var s := After(h, t0, run);
    var t := From(s, aToB).tx;
    assert AliveOk(t, From(s, aToB).ticked, id) && Conserved(t, id);
  }
}
