/**
 * Theorems about every run of two honest IWP sessions over the unreliable network:
 * reassembly safety, soundness of reported successes, and progress of a retransmission.
 */
module IwpTheorems {
  import opened Bytes
  import opened IwpMessage
  import opened IwpProtocol
  import opened IwpNetwork
  import opened IwpLocal
  import opened IwpSafety

  /** The sending end of a direction. */
  function From(s: Sys, aToB: bool): (p: Peer) {
    if aToB then s.a else s.b
  }

  function To(s: Sys, aToB: bool): (p: Peer) {
    if aToB then s.b else s.a
  }

  ghost predicate DirectionOk(h: HashFn, s: Sys, aToB: bool) {
    && TxLocal(From(s, aToB).tx) && RxLocal(To(s, aToB).rx, s.now)
    && Link(h, From(s, aToB).tx, To(s, aToB).rx, From(s, aToB).net, To(s, aToB).net, s.now)
  }

  lemma StepKeeps(h: HashFn, s: Sys, step: Step, aToB: bool)
    requires DirectionOk(h, s, aToB) && Enabled(s, step)
    ensures DirectionOk(h, Apply(h, s, step), aToB)
  {
    var from, to := From(s, aToB), To(s, aToB);
    LaterFiltered(to.rx, s.now, step.at);
    if step.atA == aToB {
      TxActConserves(h, from, step.action, step.at);
      SenderStep(h, from, to, step.action, s.now, step.at);
    } else {
      RxActFiltered(h, to, step.action, step.at);
      ReceiverStep(h, to, from, step.action, s.now, step.at);
    }
  }

  lemma InitOk(h: HashFn, t0: nat, aToB: bool)
    ensures DirectionOk(h, Init(t0), aToB)
  {
    forall id: nat
      ensures Conserved(EMPTY_TX, id) && Filtered(EMPTY_RX, t0, id)
    {
    }
  }

  /** The invariant holds in both directions after every legal run. */
  lemma {:induction false} Invariant(h: HashFn, t0: nat, run: seq<Step>, aToB: bool)
    requires Legal(h, t0, run)
    ensures DirectionOk(h, After(h, t0, run), aToB)
  {
    if run == [] {
      InitOk(h, t0, aToB);
    } else {
      Invariant(h, t0, run[..|run| - 1], aToB);
      StepKeeps(h, After(h, t0, run[..|run| - 1]), run[|run| - 1], aToB);
    }
  }

  // ---------------------------------------------------------------- reassembly safety

  /** Every message handed up is octet for octet the one sent under that id, and sent before. */
  ghost predicate HandedUpIsSent(t: Tx, r: Rx) {
    forall id, i :: 0 <= i < |Of(r.ended, id)| && Of(r.ended, id)[i].HandedUp? ==>
      && id in t.started
      && Of(r.ended, id)[i].data == t.started[id].data
      && t.started[id].at <= Of(r.ended, id)[i].at
  }

  /** Every acknowledged fragment in reassembly holds the sender's octets. */
  ghost predicate AckedIsSent(t: Tx, r: Rx) {
    forall id, k :: id in r.msgs && k in r.msgs[id].acks ==>
      && id in t.started
      && |r.msgs[id].data| == |t.started[id].data|
      && k * FRAGMENT_SIZE < |t.started[id].data|
      && Fragment(r.msgs[id].data, k) == Fragment(t.started[id].data, k)
  }

  /** A message in reassembly that is not complete with the wrong digest. */
  ghost predicate NotWrong(h: HashFn, m: Inbound) {
    Covers(m.acks, |m.data|) ==> Verify(h, m)
  }

  /** No fragment in flight, also none that came with an announcement, completes a message with the wrong digest. */
  ghost predicate NoMismatch(h: HashFn, r: Rx, net: set<Stamped>, now: nat) {
    && (forall p :: p in net && p.pkt.Data? && p.pkt.id in r.msgs ==>
         NotWrong(h, HandleData(r.msgs[p.pkt.id], p.pkt.offset, p.pkt.bytes, now)))
    && (forall p :: p in net && p.pkt.Xmit? && p.pkt.inline.Some? ==>
         NotWrong(h, HandleData(NewInbound(p.pkt.id, p.pkt.size, p.pkt.digest, now), 0, p.pkt.inline.value, now)))
  }

  lemma LinkSafe(h: HashFn, t: Tx, r: Rx, fwd: set<Stamped>, back: set<Stamped>, now: nat)
    requires Link(h, t, r, fwd, back, now)
    ensures HandedUpIsSent(t, r) && AckedIsSent(t, r) && NoMismatch(h, r, fwd, now)
  {
    forall id, i | 0 <= i < |Of(r.ended, id)| && Of(r.ended, id)[i].HandedUp?
      ensures id in t.started
      ensures Of(r.ended, id)[i].data == t.started[id].data && t.started[id].at <= Of(r.ended, id)[i].at
    {
      assert EndedOk(t, r, id);
      assert EndingOk(t, id, Of(r.ended, id)[i]);
    }
    forall id | id in r.msgs
      ensures PartialOk(h, t, r, id)
    {
    }
    forall p | p in fwd && p.pkt.Data? && p.pkt.id in r.msgs
      ensures NotWrong(h, HandleData(r.msgs[p.pkt.id], p.pkt.offset, p.pkt.bytes, now))
    {
      assert FwdOk(h, t, p, now);
      DataPartial(h, t, r, p, now);
    }
    forall p | p in fwd && p.pkt.Xmit? && p.pkt.inline.Some?
      ensures NotWrong(h, HandleData(NewInbound(p.pkt.id, p.pkt.size, p.pkt.digest, now), 0, p.pkt.inline.value, now))
    {
      assert FwdOk(h, t, p, now);
      InlineIsSent(h, t, p, now);
    }
  }

  lemma InlineIsSent(h: HashFn, t: Tx, p: Stamped, now: nat)
    requires p.pkt.Xmit? && p.pkt.inline.Some? && FwdOk(h, t, p, now)
    ensures NotWrong(h, HandleData(NewInbound(p.pkt.id, p.pkt.size, p.pkt.digest, now), 0, p.pkt.inline.value, now))
  {
    var m := HandleData(NewInbound(p.pkt.id, p.pkt.size, p.pkt.digest, now), 0, p.pkt.inline.value, now);
    assert m.data == t.started[p.pkt.id].data;
  }

  /** Reassembly safety over every run, in both directions. */
  lemma ReassemblySafe(h: HashFn, t0: nat, run: seq<Step>, aToB: bool)
    requires Legal(h, t0, run)
    ensures var s := After(h, t0, run);
      && HandedUpIsSent(From(s, aToB).tx, To(s, aToB).rx)
      && AckedIsSent(From(s, aToB).tx, To(s, aToB).rx)
      && NoMismatch(h, To(s, aToB).rx, From(s, aToB).net, s.now)
  {
    Invariant(h, t0, run, aToB);
    var s := After(h, t0, run);
    LinkSafe(h, From(s, aToB).tx, To(s, aToB).rx, From(s, aToB).net, To(s, aToB).net, s.now);
  }

  // ---------------------------------------------------------------- no overrun between honest ends

  ghost predicate Small(t: Tx) {
    forall id :: id in t.started ==> |t.started[id].data| <= MAX_LINK_MSG_SIZE
  }

  lemma SmallAct(h: HashFn, me: Peer, action: Action, now: nat)
    requires Small(me.tx) && (action.Submit? ==> |action.data| <= MAX_LINK_MSG_SIZE)
    ensures Small(TxAct(h, me, action, now).t)
  {
  }

  lemma {:induction false} SmallRun(h: HashFn, t0: nat, run: seq<Step>, aToB: bool)
    requires Legal(h, t0, run)
    ensures Small(From(After(h, t0, run), aToB).tx)
  {
    if run != [] {
      var before, step := After(h, t0, run[..|run| - 1]), run[|run| - 1];
      SmallRun(h, t0, run[..|run| - 1], aToB);
      if step.atA == aToB {
        SmallAct(h, From(before, aToB), step.action, step.at);
      }
    }
  }

  /** In every run no fragment in flight, handled at any time, indexes the acknowledgement bits out of range. */
  lemma NeverOverruns(h: HashFn, t0: nat, run: seq<Step>, aToB: bool, p: Stamped, now: nat)
    requires Legal(h, t0, run) && p in From(After(h, t0, run), aToB).net && p.pkt.Data?
    ensures var r := To(After(h, t0, run), aToB).rx;
      p.pkt.id in r.msgs ==> !Overruns(r.msgs[p.pkt.id], p.pkt.offset, p.pkt.bytes, now)
  {
    Invariant(h, t0, run, aToB);
    SmallRun(h, t0, run, aToB);
    var s := After(h, t0, run);
    assert FwdOk(h, From(s, aToB).tx, p, s.now) && PartialOk(h, From(s, aToB).tx, To(s, aToB).rx, p.pkt.id);
  }

  // ---------------------------------------------------------------- success soundness

  /**
   * A success reported for a message means the receiver had handed it up or given it up by
   * then; one reported within the delivery timeout means it had been handed up, intact.
   */
  ghost predicate SuccessMeans(t: Tx, r: Rx, id: nat, o: Outcome) {
    && id in t.started
    && EndedBy(r, id, o.at)
    && (o.at <= t.started[id].at + DELIVERY_TIMEOUT ==>
         Of(r.ended, id)[0] == HandedUp(t.started[id].data, Of(r.ended, id)[0].at))
  }

  lemma LinkSound(h: HashFn, t: Tx, r: Rx, fwd: set<Stamped>, back: set<Stamped>, now: nat, id: nat, o: Outcome)
    requires Link(h, t, r, fwd, back, now) && o in Of(t.outcomes, id) && o.success
    ensures SuccessMeans(t, r, id, o)
  {
    assert OutcomeOk(t, r, id) && EndedOk(t, r, id);
    assert EndingOk(t, id, Of(r.ended, id)[0]);
  }

  lemma SuccessSound(h: HashFn, t0: nat, run: seq<Step>, aToB: bool, id: nat, o: Outcome)
    requires Legal(h, t0, run)
    requires o in Of(From(After(h, t0, run), aToB).tx.outcomes, id) && o.success
    ensures SuccessMeans(From(After(h, t0, run), aToB).tx, To(After(h, t0, run), aToB).rx, id, o)
  {
    Invariant(h, t0, run, aToB);
    var s := After(h, t0, run);
    LinkSound(h, From(s, aToB).tx, To(s, aToB).rx, From(s, aToB).net, To(s, aToB).net, s.now, id, o);
  }

  // ---------------------------------------------------------------- retransmission progress

  /** The receiver handling one announcement or fragment at its time of arrival. */
  ghost function One(h: HashFn, r: Rx, p: Stamped): (e: RxStep) {
    match p.pkt
    case Xmit(id, size, digest, inline) => GotXmit(h, r, id, size, digest, inline, p.at)
    case Data(id, offset, bytes) => GotData(h, r, id, offset, bytes, p.at)
    case _ => RxStep(r, {})
  }

  /** The receiver after handling packets in order of arrival, with no Tick in between. */
  ghost function Feed(h: HashFn, r: Rx, arrivals: seq<Stamped>): (r': Rx) {
    if arrivals == [] then r
    else One(h, Feed(h, r, arrivals[..|arrivals| - 1]), arrivals[|arrivals| - 1]).r
  }

  /** Handed up already, or in reassembly with the sender's acknowledged set and the arrivals so far. */
  ghost predicate Underway(t: Tx, r: Rx, id: nat, arrivals: seq<Stamped>)
    requires id in t.msgs
  {
    if Of(r.ended, id) != [] then
      Of(r.ended, id)[0].HandedUp?
    else
      && id in r.msgs && t.msgs[id].acks <= r.msgs[id].acks
      && forall p :: p in arrivals && p.pkt.Data? && p.pkt.id == id ==>
           p.pkt.offset / FRAGMENT_SIZE in r.msgs[id].acks
  }

  ghost predicate Genuine(h: HashFn, t: Tx, arrivals: seq<Stamped>) {
    forall p :: p in arrivals ==> FwdOk(h, t, p, p.at)
  }

  lemma FirstXmit(h: HashFn, t: Tx, r: Rx, id: nat, at: nat)
    requires id in t.msgs && PendingOk(h, t, id) && AckedOk(t, r, id) && EndedOk(t, r, id)
    requires Of(r.ended, id) == []
    ensures Underway(t, Feed(h, r, [Stamped(XmitOf(t.msgs[id]), at)]), id, [Stamped(XmitOf(t.msgs[id]), at)])
  {
    var x := Stamped(XmitOf(t.msgs[id]), at);
    assert [x][..|[x]| - 1] == [];
    assert Feed(h, r, [x][..|[x]| - 1]) == r;
    if id !in r.msgs && t.msgs[id].data == [] {
      var m := HandleData(NewInbound(id, 0, t.msgs[id].digest, at), 0, [], at);
      assert m.data == t.msgs[id].data;
      assert Covers(m.acks, 0);
    }
  }

  lemma {:induction false} FeedUnderway(h: HashFn, t: Tx, r: Rx, id: nat, arrivals: seq<Stamped>)
    requires id in t.msgs && PendingOk(h, t, id) && AckedOk(t, r, id) && Of(r.ended, id) == []
    requires forall id :: PartialOk(h, t, r, id) && EndedOk(t, r, id)
    requires arrivals != [] && arrivals[0].pkt == XmitOf(t.msgs[id]) && Genuine(h, t, arrivals)
    ensures forall id :: PartialOk(h, t, Feed(h, r, arrivals), id) && EndedOk(t, Feed(h, r, arrivals), id)
    ensures Underway(t, Feed(h, r, arrivals), id, arrivals)
  {
    var init, p := arrivals[..|arrivals| - 1], arrivals[|arrivals| - 1];
    assert FwdOk(h, t, p, p.at);
    if init == [] {
      assert arrivals == [Stamped(XmitOf(t.msgs[id]), p.at)];
      FirstXmit(h, t, r, id, p.at);
      XmitGood(h, t, r, p, p.at);
    } else {
      FeedUnderway(h, t, r, id, init);
      OneMore(h, t, Feed(h, r, init), id, init, p);
      assert arrivals == init + [p];
    }
  }

  lemma OneMore(h: HashFn, t: Tx, r: Rx, id: nat, init: seq<Stamped>, p: Stamped)
    requires id in t.msgs && Underway(t, r, id, init) && FwdOk(h, t, p, p.at)
    requires forall id :: PartialOk(h, t, r, id) && EndedOk(t, r, id)
    ensures forall id :: PartialOk(h, t, One(h, r, p).r, id) && EndedOk(t, One(h, r, p).r, id)
    ensures Underway(t, One(h, r, p).r, id, init + [p])
  {
    match p.pkt
    case Xmit(_, _, _, _) =>
      XmitGood(h, t, r, p, p.at);
      assert Gains(r, One(h, r, p).r, id);
    case Data(_, _, _) =>
      DataGood(h, t, r, p, p.at);
      assert Gains(r, One(h, r, p).r, id);
      assert PartialOk(h, t, r, id);
    case _ =>
  }

  /**
   * Progress: in any reachable state, for a pending message the receiver is not done with,
   * the sender's acknowledged set is contained in the receiver's, and handling the
   * announcement and then every packet of one flush, in any order, with repetitions and
   * mixed with any other genuine packets, hands the message up.
   */
  lemma RetransmissionDelivers(h: HashFn, t0: nat, run: seq<Step>, aToB: bool, id: nat, arrivals: seq<Stamped>)
    requires Legal(h, t0, run)
    requires var s := After(h, t0, run);
      var t := From(s, aToB).tx;
      && id in t.msgs && Of(To(s, aToB).rx.ended, id) == []
      && arrivals != [] && arrivals[0].pkt == XmitOf(t.msgs[id])
      && Genuine(h, t, arrivals)
      && forall q :: q in Unacked(t.msgs[id]) ==> exists p :: p in arrivals && p.pkt == q
    ensures var s := After(h, t0, run);
      var t, r := From(s, aToB).tx, To(s, aToB).rx;
      && Acked(r, id, t.msgs[id].acks)
      && Of(Feed(h, r, arrivals).ended, id) != []
      && Of(Feed(h, r, arrivals).ended, id)[0].HandedUp?
      && Of(Feed(h, r, arrivals).ended, id)[0].data == t.msgs[id].data
  {
    Invariant(h, t0, run, aToB);
    var s := After(h, t0, run);
    LinkDelivers(h, From(s, aToB).tx, To(s, aToB).rx, From(s, aToB).net, To(s, aToB).net, s.now, id, arrivals);
  }

  lemma LinkDelivers(h: HashFn, t: Tx, r: Rx, fwd: set<Stamped>, back: set<Stamped>, now: nat,
                     id: nat, arrivals: seq<Stamped>)
    requires Link(h, t, r, fwd, back, now)
    requires id in t.msgs && Of(r.ended, id) == []
    requires arrivals != [] && arrivals[0].pkt == XmitOf(t.msgs[id]) && Genuine(h, t, arrivals)
    requires forall q :: q in Unacked(t.msgs[id]) ==> exists p :: p in arrivals && p.pkt == q
    ensures Acked(r, id, t.msgs[id].acks)
    ensures Of(Feed(h, r, arrivals).ended, id) != []
    ensures Of(Feed(h, r, arrivals).ended, id)[0].HandedUp?
    ensures Of(Feed(h, r, arrivals).ended, id)[0].data == t.msgs[id].data
  {
    var m := t.msgs[id];
    assert PendingOk(h, t, id) && AckedOk(t, r, id);
    FeedUnderway(h, t, r, id, arrivals);
    var r' := Feed(h, r, arrivals);
    assert PartialOk(h, t, r', id) && EndedOk(t, r', id);
    if Of(r'.ended, id) == [] {
      forall k: nat | k * FRAGMENT_SIZE < |m.data|
        ensures k in r'.msgs[id].acks
      {
        if k !in m.acks {
          assert DataOf(m, k) in Unacked(m);
          var p :| p in arrivals && p.pkt == DataOf(m, k);
          assert p.pkt.offset / FRAGMENT_SIZE == k;
        }
      }
      assert Covers(r'.msgs[id].acks, |m.data|);
      assert false;
    }
    assert EndingOk(t, id, Of(r'.ended, id)[0]);
  }
}
