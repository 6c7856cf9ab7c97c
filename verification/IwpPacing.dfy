/**
 * How often an IWP session sends: fragments of a message at least 400 ms apart and no longer
 * than that unsent, acknowledgements more than 250 ms apart and no longer than that unsent.
 */
module IwpPacing {
  import opened Bytes
  import opened IwpMessage
  import opened IwpProtocol
  import opened IwpNetwork
  import opened IwpLocal
  import opened IwpSafety
  import opened IwpTheorems

  // ---------------------------------------------------------------- fragments

  predicate IsData(p: Stamped, id: nat) {
    p.pkt.Data? && p.pkt.id == id
  }

  predicate IsAcks(p: Stamped, id: nat) {
    p.pkt.Acks? && p.pkt.id == id
  }

  /** The step answers an acknowledgement of the message. */
  predicate Answers(step: Timed, id: nat, at: nat) {
    step.at == at && step.action.Recv? && IsAcks(step.action.p, id)
  }

  /** Two sendings of fragments of a message are at least 400 ms apart, unless the second answers an acknowledgement. */
  ghost predicate Apart(run: seq<Timed>, id: nat, p: Stamped, q: Stamped) {
    p.at < q.at ==> p.at + 400 <= q.at || exists i :: 0 <= i < |run| && Answers(run[i], id, q.at)
  }

  lemma ApartStays(run: seq<Timed>, id: nat, p: Stamped, q: Stamped)
    requires run != [] && Apart(run[..|run| - 1], id, p, q)
    ensures Apart(run, id, p, q)
  {
    if p.at < q.at < p.at + 400 {
      var i :| 0 <= i < |run| - 1 && Answers(run[..|run| - 1][i], id, q.at);
      assert Answers(run[i], id, q.at);
    }
  }

  /** What was sent of a message: it was submitted, and flushed no later than its last flush. */
  ghost predicate SentOk(t: Tx, now: nat, id: nat, p: Stamped) {
    p.at <= now && id in t.started && (id in t.msgs ==> p.at <= t.msgs[id].lastFlush)
  }

  /** What has to go out of a message went out at its last flush. */
  ghost predicate Flushed(m: Outbound, net: set<Stamped>, now: nat) {
    && m.lastFlush <= now
    && (m.lastFlush > 0 ==> forall p :: p in Unacked(m) ==> Stamped(p, m.lastFlush) in net)
  }

  ghost predicate FlushedOk(t: Tx, net: set<Stamped>, now: nat, id: nat) {
    id in t.msgs ==> Flushed(t.msgs[id], net, now)
  }

  ghost predicate OwnIds(t: Tx) {
    forall x :: x in t.msgs ==> t.msgs[x].id == x
  }

  ghost predicate DataOk(me: Peer, now: nat, id: nat) {
    && FlushedOk(me.tx, me.net, now, id)
    && forall p :: p in me.net && IsData(p, id) ==> SentOk(me.tx, now, id, p)
  }

  lemma FlushSends(t: Tx, now: nat, p: Packet)
    requires p in Flush(t, now).sent && OwnIds(t)
    ensures p.Data? && p.id in t.msgs && t.msgs[p.id].lastFlush + 400 <= now
    ensures p.id in Flush(t, now).t.msgs && Flush(t, now).t.msgs[p.id].lastFlush == now
  {
  }

  lemma AnswerSends(t: Tx, id: nat, mask: set<nat>, now: nat, p: Packet)
    requires p in GotAcks(t, id, mask, now).sent && OwnIds(t)
    ensures p.Data? && p.id == id && id in t.msgs
    ensures id in GotAcks(t, id, mask, now).t.msgs && GotAcks(t, id, mask, now).t.msgs[id].lastFlush == now
  {
  }

  /** Only pumps and answers to acknowledgements send fragments. */
  lemma DataFrom(h: HashFn, me: Peer, action: Action, now: nat, p: Packet)
    requires p in TxAct(h, me, action, now).sent + RxAct(h, me, action, now).sent && p.Data?
    ensures p in TxAct(h, me, action, now).sent
    ensures (action.Pump? && me.open) || (action.Recv? && action.p.pkt.Acks?)
  {
  }

  /** A fragment is sent by a pump when its message is due, or in answer to an acknowledgement. */
  lemma DataSent(h: HashFn, me: Peer, step: Timed, id: nat, p: Stamped)
    requires p in Act(h, me, step.action, step.at).net && p !in me.net && IsData(p, id) && OwnIds(me.tx)
    ensures p.at == step.at && id in me.tx.msgs
    ensures Answers(step, id, p.at) || me.tx.msgs[id].lastFlush + 400 <= p.at
    ensures var t' := Act(h, me, step.action, step.at).tx; id in t'.msgs && t'.msgs[id].lastFlush == p.at
  {
    DataFrom(h, me, step.action, step.at, p.pkt);
    if step.action.Pump? {
      FlushSends(me.tx, step.at, p.pkt);
    } else {
      AnswerSends(me.tx, step.action.p.pkt.id, step.action.p.pkt.mask, step.at, p.pkt);
    }
  }

  /** What a step of the outgoing half does to a message: nothing, or a flush, which sends all that is missing. */
  ghost predicate Untouched(t: Tx, e: TxStep, id: nat, now: nat) {
    id in e.t.msgs ==>
      || (id in t.msgs && e.t.msgs[id] == t.msgs[id])
      || (e.t.msgs[id].lastFlush == now && forall p :: p in Unacked(e.t.msgs[id]) ==> p in e.sent)
      || (id !in t.msgs && e.t.msgs[id].lastFlush == 0)
  }

  lemma FlushTouches(t: Tx, now: nat, id: nat)
    ensures Untouched(t, Flush(t, now), id, now)
  {
    var e := Flush(t, now);
    if id in t.msgs && ShouldFlush(t.msgs[id], now) {
      UnackedSame(t.msgs[id], now);
      forall p | p in Unacked(e.t.msgs[id])
        ensures p in e.sent
      {
      }
    }
  }

  lemma UnackedSame(m: Outbound, now: nat)
    ensures Unacked(m.(lastFlush := now)) == Unacked(m)
  {
    assert forall k: nat :: k * FRAGMENT_SIZE < |m.data| ==> DataOf(m.(lastFlush := now), k) == DataOf(m, k);
  }

  lemma AnswerTouches(t: Tx, id: nat, mask: set<nat>, now: nat, x: nat)
    ensures Untouched(t, GotAcks(t, id, mask, now), x, now)
  {
    if id in t.msgs {
      UnackedSame(t.msgs[id].(acks := mask), now);
    }
  }

  lemma Touched(h: HashFn, me: Peer, action: Action, now: nat, id: nat)
    requires TxLocal(me.tx)
    ensures Untouched(me.tx, TxAct(h, me, action, now), id, now)
  {
    match action
    case Submit(_, _) => assert Conserved(me.tx, me.tx.nextId);
    case Recv(p) =>
      match p.pkt {
        case Acks(x, mask) => AnswerTouches(me.tx, x, mask, now, id);
        case _ =>
      }
    case Pump => FlushTouches(me.tx, now, id);
    case _ =>
  }

  lemma FlushedStep(h: HashFn, me: Peer, action: Action, now: nat, id: nat, before: nat)
    requires FlushedOk(me.tx, me.net, before, id) && before <= now && TxLocal(me.tx)
    ensures FlushedOk(Act(h, me, action, now).tx, Act(h, me, action, now).net, now, id)
  {
    Touched(h, me, action, now, id);
    FlushedBy(me, TxAct(h, me, action, now), Act(h, me, action, now).net, id, now, before);
  }

  lemma FlushedBy(me: Peer, e: TxStep, net: set<Stamped>, id: nat, now: nat, before: nat)
    requires FlushedOk(me.tx, me.net, before, id) && before <= now && Untouched(me.tx, e, id, now)
    requires me.net <= net && forall p :: p in e.sent ==> Stamped(p, now) in net
    ensures FlushedOk(e.t, net, now, id)
  {
  }

  lemma SentStep(h: HashFn, me: Peer, step: Timed, id: nat, before: nat, p: Stamped)
    requires DataOk(me, before, id) && before <= step.at && TxLocal(me.tx) && OwnIds(me.tx)
    requires p in Act(h, me, step.action, step.at).net && IsData(p, id)
    ensures SentOk(Act(h, me, step.action, step.at).tx, step.at, id, p)
  {
    assert Conserved(me.tx, id);
    StartedKept(h, me, step.action, step.at, id);
    if p in me.net {
      assert SentOk(me.tx, before, id, p);
      Touched(h, me, step.action, step.at, id);
    } else {
      DataSent(h, me, step, id, p);
    }
  }

  lemma StartedKept(h: HashFn, me: Peer, action: Action, now: nat, id: nat)
    requires id in me.tx.started && TxLocal(me.tx)
    ensures var t' := TxAct(h, me, action, now).t; id in t'.started && (id in t'.msgs ==> id in me.tx.msgs)
  {
    assert Conserved(me.tx, me.tx.nextId);
  }

  lemma ApartStep(h: HashFn, me: Peer, run: seq<Timed>, id: nat, p: Stamped, q: Stamped, before: nat)
    requires run != [] && DataOk(me, before, id) && OwnIds(me.tx)
    requires p in me.net && IsData(p, id) && IsData(q, id) && q !in me.net
    requires q in Act(h, me, run[|run| - 1].action, run[|run| - 1].at).net
    ensures Apart(run, id, p, q)
  {
    DataSent(h, me, run[|run| - 1], id, q);
    assert SentOk(me.tx, before, id, p);
    assert Answers(run[|run| - 1], id, q.at) || p.at + 400 <= q.at;
  }

  lemma {:induction false} AloneData(h: HashFn, t0: nat, run: seq<Timed>, id: nat)
    requires Monotone(t0, run)
    ensures DataOk(Alone(h, t0, run), Clock(t0, run), id) && OwnIds(Alone(h, t0, run).tx)
  {
    if run != [] {
      var init, last := run[..|run| - 1], run[|run| - 1];
      AloneData(h, t0, init, id);
      AloneLocal(h, t0, init);
      var me := Alone(h, t0, init);
      IdsKept(h, me, last.action, last.at);
      FlushedStep(h, me, last.action, last.at, id, Clock(t0, init));
      forall p | p in Alone(h, t0, run).net && IsData(p, id)
        ensures SentOk(Alone(h, t0, run).tx, last.at, id, p)
      {
        SentStep(h, me, last, id, Clock(t0, init), p);
      }
    }
  }

  lemma IdsKept(h: HashFn, me: Peer, action: Action, now: nat)
    requires OwnIds(me.tx)
    ensures OwnIds(TxAct(h, me, action, now).t)
  {
  }

  /** In every run against any peer the fragments of a message go out at least 400 ms apart, or on request. */
  lemma {:induction false} FragmentsApart(h: HashFn, t0: nat, run: seq<Timed>, id: nat, p: Stamped, q: Stamped)
    requires Monotone(t0, run)
    requires p in Alone(h, t0, run).net && q in Alone(h, t0, run).net && IsData(p, id) && IsData(q, id)
    ensures Apart(run, id, p, q)
  {
    if run != [] && p.at < q.at {
      var init, last := run[..|run| - 1], run[|run| - 1];
      var me := Alone(h, t0, init);
      AloneData(h, t0, init, id);
      SentByNow(h, t0, run, id, q);
      if p in me.net && q in me.net {
        FragmentsApart(h, t0, init, id, p, q);
        ApartStays(run, id, p, q);
      } else if p in me.net {
        ApartStep(h, me, run, id, p, q, Clock(t0, init));
      } else {
        DataSent(h, me, last, id, p);
      }
    }
  }

  lemma SentByNow(h: HashFn, t0: nat, run: seq<Timed>, id: nat, p: Stamped)
    requires Monotone(t0, run) && p in Alone(h, t0, run).net && IsData(p, id)
    ensures p.at <= Clock(t0, run)
  {
    AloneData(h, t0, run, id);
    assert SentOk(Alone(h, t0, run).tx, Clock(t0, run), id, p);
  }

  /** Every missing fragment of the message was sent within the last 400 ms. */
  ghost predicate FragmentsFresh(me: Peer, id: nat, now: nat) {
    id in me.tx.msgs ==>
      forall p :: p in Unacked(me.tx.msgs[id]) ==> exists at: nat :: Stamped(p, at) in me.net && at <= now < at + 400
  }

  /** After a pump of an open session nothing that is missing has been left unsent for 400 ms. */
  lemma PumpRefreshes(h: HashFn, t0: nat, run: seq<Timed>, now: nat, id: nat)
    requires Monotone(t0, run) && Clock(t0, run) <= now && now >= 400 && Alone(h, t0, run).open
    ensures FragmentsFresh(Act(h, Alone(h, t0, run), Pump, now), id, now)
  {
    var me := Alone(h, t0, run);
    AloneData(h, t0, run, id);
    AloneLocal(h, t0, run);
    PumpFresh(h, me, Clock(t0, run), now, id);
  }

  lemma PumpFresh(h: HashFn, me: Peer, before: nat, now: nat, id: nat)
    requires FlushedOk(me.tx, me.net, before, id) && before <= now && TxLocal(me.tx) && now >= 400 && me.open
    ensures FragmentsFresh(Act(h, me, Pump, now), id, now)
  {
    FlushedStep(h, me, Pump, now, id, before);
    var me' := Act(h, me, Pump, now);
    if id in me'.tx.msgs {
      var at := me'.tx.msgs[id].lastFlush;
      assert now < at + 400;
      forall p | p in Unacked(me'.tx.msgs[id])
        ensures exists at: nat :: Stamped(p, at) in me'.net && at <= now < at + 400
      {
        assert Stamped(p, at) in me'.net;
      }
    }
  }

  // ---------------------------------------------------------------- acknowledgements

  /** The last acknowledgement of a message in reassembly was sent at the time noted. */
  ghost predicate AckNoted(me: Peer, now: nat, id: nat) {
    id in me.rx.msgs ==>
      && me.rx.msgs[id].lastAckSent <= now
      && (me.rx.msgs[id].lastAckSent > 0 ==>
           exists mask :: Stamped(Acks(id, mask), me.rx.msgs[id].lastAckSent) in me.net)
  }

  lemma AckNotedStep(h: HashFn, me: Peer, action: Action, now: nat, id: nat, before: nat)
    requires AckNoted(me, before, id) && before <= now
    ensures AckNoted(Act(h, me, action, now), now, id)
  {
    var me' := Act(h, me, action, now);
    if id in me'.rx.msgs && me'.rx.msgs[id].lastAckSent > 0 {
      assert id in me.rx.msgs;
      if me'.rx.msgs[id].lastAckSent != me.rx.msgs[id].lastAckSent {
        assert Acks(id, me.rx.msgs[id].acks) in RxAct(h, me, action, now).sent;
        assert Stamped(Acks(id, me.rx.msgs[id].acks), now) in me'.net;
      }
    }
  }

  lemma {:induction false} AloneNoted(h: HashFn, t0: nat, run: seq<Timed>, id: nat)
    requires Monotone(t0, run)
    ensures AckNoted(Alone(h, t0, run), Clock(t0, run), id)
  {
    if run != [] {
      var init, last := run[..|run| - 1], run[|run| - 1];
      AloneNoted(h, t0, init, id);
      AckNotedStep(h, Alone(h, t0, init), last.action, last.at, id, Clock(t0, init));
    }
  }

  /** An acknowledgement of the message was sent within the last 250 ms. */
  ghost predicate AckFresh(me: Peer, id: nat, now: nat) {
    id in me.rx.msgs ==> exists p :: p in me.net && IsAcks(p, id) && p.at <= now <= p.at + 250
  }

  /** After a pump of an open session no message in reassembly was left unacknowledged for more than 250 ms. */
  lemma PumpAcknowledges(h: HashFn, t0: nat, run: seq<Timed>, now: nat, id: nat)
    requires Monotone(t0, run) && Clock(t0, run) <= now && now > 250 && Alone(h, t0, run).open
    ensures AckFresh(Act(h, Alone(h, t0, run), Pump, now), id, now)
  {
    AloneNoted(h, t0, run, id);
    PumpAcks(h, Alone(h, t0, run), Clock(t0, run), now, id);
  }

  lemma PumpAcks(h: HashFn, me: Peer, before: nat, now: nat, id: nat)
    requires AckNoted(me, before, id) && before <= now && now > 250 && me.open
    ensures AckFresh(Act(h, me, Pump, now), id, now)
  {
    AckNotedStep(h, me, Pump, now, id, before);
    var me' := Act(h, me, Pump, now);
    if id in me'.rx.msgs {
      var at := me'.rx.msgs[id].lastAckSent;
      assert now <= at + 250;
      var mask :| Stamped(Acks(id, mask), at) in me'.net;
      assert IsAcks(Stamped(Acks(id, mask), at), id);
    }
  }

  // ---------------------------------------------------------------- acknowledgements between honest ends

  /** An acknowledgement of this reassembly, or of one that ended before. */
  ghost predicate AckDated(r: Rx, now: nat, id: nat, p: Stamped) {
    && p.at <= now
    && ((id in r.msgs && p.at <= r.msgs[id].lastAckSent)
        || (Of(r.ended, id) != [] && p.at <= Of(r.ended, id)[|Of(r.ended, id)| - 1].at))
  }

  ghost predicate AcksDated(me: Peer, now: nat, id: nat) {
    forall p :: p in me.net && IsAcks(p, id) ==> AckDated(me.rx, now, id, p)
  }

  /** A message leaves reassembly only by an ending; histories only grow, by endings of the step's time. */
  ghost predicate Leaves(r: Rx, r': Rx, now: nat, id: nat) {
    var s, s' := Of(r.ended, id), Of(r'.ended, id);
    && (s' == s || (|s'| == |s| + 1 && s'[|s'| - 1].at == now))
    && (id in r.msgs ==> s' != s || (id in r'.msgs && r'.msgs[id].lastAckSent >= r.msgs[id].lastAckSent))
  }

  lemma RxLeaves(h: HashFn, me: Peer, other: Peer, action: Action, now: nat, id: nat, before: nat)
    requires Link(h, other.tx, me.rx, other.net, me.net, before) && Allowed(me, other, action) && before <= now
    requires AckNoted(me, before, id)
    ensures Leaves(me.rx, RxAct(h, me, action, now).r, now, id)
  {
    var r := me.rx;
    match action
    case Recv(p) => ReceiptLeaves(h, me, other, p, now, id, before);
    case Tick =>
      var r' := RxTick(r, now).r;
      assert Of(r'.ended, id) ==
        if id in r.msgs && RxTimedOut(r.msgs[id], now) then Of(r.ended, id) + [GivenUp(now)] else Of(r.ended, id);
    case _ =>
  }

  lemma ReceiptLeaves(h: HashFn, me: Peer, other: Peer, p: Stamped, now: nat, id: nat, before: nat)
    requires Link(h, other.tx, me.rx, other.net, me.net, before) && p in other.net && before <= now
    ensures Leaves(me.rx, RxAct(h, me, Recv(p), now).r, now, id)
  {
    var t, r := other.tx, me.rx;
    if p.pkt.Data? && p.pkt.id in r.msgs {
      assert FwdOk(h, t, p, before) && PartialOk(h, t, r, p.pkt.id);
      DataPartial(h, t, r, p, now);
    }
  }

  /** An acknowledgement is sent more than 250 ms after the last one of the reassembly. */
  lemma AckSent(h: HashFn, me: Peer, action: Action, now: nat, id: nat, p: Stamped)
    requires p in Act(h, me, action, now).net && p !in me.net && IsAcks(p, id)
    ensures p.at == now && id in me.rx.msgs && me.rx.msgs[id].lastAckSent + 250 < now
    ensures var r' := RxAct(h, me, action, now).r;
      id in r'.msgs && r'.msgs[id].lastAckSent == now && r'.ended == me.rx.ended
  {
    TxActQuiet(h, me, action, now, p.pkt);
    assert p.pkt in RxAct(h, me, action, now).sent;
  }

  lemma AckDatedStep(h: HashFn, me: Peer, other: Peer, action: Action, now: nat, id: nat, before: nat, p: Stamped)
    requires Link(h, other.tx, me.rx, other.net, me.net, before) && Allowed(me, other, action) && before <= now
    requires AcksDated(me, before, id) && AckNoted(me, before, id)
    requires p in Act(h, me, action, now).net && IsAcks(p, id)
    ensures AckDated(RxAct(h, me, action, now).r, now, id, p)
  {
    RxLeaves(h, me, other, action, now, id, before);
    if p in me.net {
      assert AckDated(me.rx, before, id, p);
    } else {
      AckSent(h, me, action, now, id, p);
    }
  }

  ghost predicate AcksOk(s: Sys, aToB: bool, id: nat) {
    AcksDated(To(s, aToB), s.now, id) && AckNoted(To(s, aToB), s.now, id)
  }

  lemma AcksStep(h: HashFn, s: Sys, step: Step, aToB: bool, id: nat)
    requires DirectionOk(h, s, aToB) && Enabled(s, step) && AcksOk(s, aToB, id)
    ensures AcksOk(Apply(h, s, step), aToB, id)
  {
    var from, to := From(s, aToB), To(s, aToB);
    if step.atA != aToB {
      AckNotedStep(h, to, step.action, step.at, id, s.now);
      forall p | p in Act(h, to, step.action, step.at).net && IsAcks(p, id)
        ensures AckDated(RxAct(h, to, step.action, step.at).r, step.at, id, p)
      {
        AckDatedStep(h, to, from, step.action, step.at, id, s.now, p);
      }
    } else {
      forall p | p in to.net && IsAcks(p, id)
        ensures AckDated(to.rx, step.at, id, p)
      {
        assert AckDated(to.rx, s.now, id, p);
      }
    }
  }

  lemma {:induction false} AcksRun(h: HashFn, t0: nat, run: seq<Step>, aToB: bool, id: nat)
    requires Legal(h, t0, run)
    ensures AcksOk(After(h, t0, run), aToB, id)
  {
    if run != [] {
      var init, last := run[..|run| - 1], run[|run| - 1];
      AcksRun(h, t0, init, aToB, id);
      Invariant(h, t0, init, aToB);
      AcksStep(h, After(h, t0, init), last, aToB, id);
    }
  }

  /** A new acknowledgement comes more than 250 ms after every earlier one. */
  lemma AcksGap(h: HashFn, me: Peer, action: Action, now: nat, id: nat, before: nat, p: Stamped, q: Stamped)
    requires RxLocal(me.rx, now) && AcksDated(me, before, id) && before <= now
    requires p in me.net && IsAcks(p, id) && IsAcks(q, id) && q !in me.net && q in Act(h, me, action, now).net
    ensures p.at + 250 < q.at
  {
    AckSent(h, me, action, now, id, q);
    assert AckDated(me.rx, before, id, p);
    assert Filtered(me.rx, now, id);
  }

  /** In every run of two honest sessions the acknowledgements of a message are more than 250 ms apart. */
  lemma {:induction false} AcksApart(h: HashFn, t0: nat, run: seq<Step>, aToB: bool, id: nat, p: Stamped, q: Stamped)
    requires Legal(h, t0, run) && p.at < q.at && IsAcks(p, id) && IsAcks(q, id)
    requires p in To(After(h, t0, run), aToB).net && q in To(After(h, t0, run), aToB).net
    ensures p.at + 250 < q.at
  {
    if run != [] {
      var init, last := run[..|run| - 1], run[|run| - 1];
      var s := After(h, t0, init);
      var to := To(s, aToB);
      AcksRun(h, t0, init, aToB, id);
      Invariant(h, t0, init, aToB);
      AckedByNow(h, t0, run, aToB, id, q);
      if p in to.net && q in to.net {
        AcksApart(h, t0, init, aToB, id, p, q);
      } else {
        LaterFiltered(to.rx, s.now, last.at);
        if p in to.net {
          AcksGap(h, to, last.action, last.at, id, s.now, p, q);
        } else {
          AckSent(h, to, last.action, last.at, id, p);
        }
      }
    }
  }

  lemma AckedByNow(h: HashFn, t0: nat, run: seq<Step>, aToB: bool, id: nat, p: Stamped)
    requires Legal(h, t0, run) && p in To(After(h, t0, run), aToB).net && IsAcks(p, id)
    ensures p.at <= After(h, t0, run).now
  {
    AcksRun(h, t0, run, aToB, id);
    assert AckDated(To(After(h, t0, run), aToB).rx, After(h, t0, run).now, id, p);
  }
}
