/**
 * What one IWP session accounts for in every run, whatever its peer sends: why each message
 * was reported as it was, that what is handed up has the announced digest, when a message is
 * given up, and how often fragments and acknowledgements go out.
 */
module IwpAccount {
  import opened Bytes
  import opened IwpMessage
  import opened IwpProtocol
  import opened IwpNetwork
  import opened IwpLocal
  import opened IwpSafety

  // ---------------------------------------------------------------- pending messages are as submitted

  /** A pending message is the submitted one, and nothing was submitted in the future. */
  ghost predicate Recorded(h: HashFn, t: Tx, now: nat) {
    Early(t, now) && forall id :: PendingOk(h, t, id)
  }

  lemma {:induction false} AloneRecorded(h: HashFn, t0: nat, run: seq<Timed>)
    requires Monotone(t0, run)
    ensures Recorded(h, Alone(h, t0, run).tx, Clock(t0, run)) && TxLocal(Alone(h, t0, run).tx)
  {
    AloneLocal(h, t0, run);
    if run != [] {
      var init, last := run[..|run| - 1], run[|run| - 1];
      AloneRecorded(h, t0, init);
      TxActGood(h, Alone(h, t0, init), last.action, last.at);
      StartedNow(h, Alone(h, t0, init), last.action, last.at);
    }
  }

  lemma StartedNow(h: HashFn, me: Peer, action: Action, now: nat)
    requires Early(me.tx, now)
    ensures Early(TxAct(h, me, action, now).t, now)
  {
  }

  // ---------------------------------------------------------------- why a message was reported

  /** A receipt that acknowledges all of a message. */
  ghost predicate Acknowledges(a: Action, id: nat, size: nat) {
    a.Recv? &&
    match a.p.pkt
    case Mack(ids) => id in ids
    case Acks(x, mask) => x == id && Covers(mask, size)
    case _ => false
  }

  /** Success is reported on a full acknowledgement, failure on a Tick more than 500 ms after the submission. */
  ghost predicate Reason(step: Timed, t: Tx, id: nat, o: Outcome) {
    && id in t.started && step.at == o.at
    && if o.success then Acknowledges(step.action, id, |t.started[id].data|)
       else step.action.Tick? && t.started[id].at + 500 < o.at
  }

  ghost predicate Explained(run: seq<Timed>, t: Tx, id: nat, o: Outcome) {
    exists i :: 0 <= i < |run| && Reason(run[i], t, id, o)
  }

  lemma FinishOutcome(t: Tx, ids: set<nat>, success: bool, now: nat, id: nat)
    ensures var new' := Of(Finish(t, ids, success, now).outcomes, id);
      new' == if id in ids && id in t.msgs && t.msgs[id].handler then Of(t.outcomes, id) + [Outcome(success, now)]
              else Of(t.outcomes, id)
  {
  }

  lemma OutcomeStep(h: HashFn, me: Peer, step: Timed, id: nat, o: Outcome)
    requires PendingOk(h, me.tx, id)
    requires var t' := TxAct(h, me, step.action, step.at).t; o in Of(t'.outcomes, id) && o !in Of(me.tx.outcomes, id)
    ensures Reason(step, me.tx, id, o)
  {
    var t, now := me.tx, step.at;
    match step.action
    case Recv(p) =>
      match p.pkt {
        case Acks(x, mask) => FinishOutcome(t, {x}, true, now, id);
        case Mack(ids) => FinishOutcome(t, set x | x in ids, true, now, id);
        case _ =>
      }
    case Tick => FinishOutcome(t, set x | x in t.msgs && TxTimedOut(t.msgs[x], now), false, now, id);
    case _ =>
  }

  lemma StartedStays(h: HashFn, me: Peer, action: Action, now: nat, id: nat)
    requires TxLocal(me.tx) && id in me.tx.started
    ensures var t' := TxAct(h, me, action, now).t; id in t'.started && t'.started[id] == me.tx.started[id]
  {
    assert Conserved(me.tx, me.tx.nextId) && Conserved(me.tx, id);
  }

  /** Every reported outcome has its reason in the run. */
  lemma {:induction false} OutcomesExplained(h: HashFn, t0: nat, run: seq<Timed>, id: nat, o: Outcome)
    requires Monotone(t0, run) && o in Of(Alone(h, t0, run).tx.outcomes, id)
    ensures Explained(run, Alone(h, t0, run).tx, id, o)
  {
    if run != [] {
      var init, last := run[..|run| - 1], run[|run| - 1];
      var p := Alone(h, t0, init);
      AloneRecorded(h, t0, init);
      assert PendingOk(h, p.tx, id);
      if o in Of(p.tx.outcomes, id) {
        OutcomesExplained(h, t0, init, id, o);
        var i :| 0 <= i < |init| && Reason(init[i], p.tx, id, o);
        StartedStays(h, p, last.action, last.at, id);
        assert Reason(run[i], Alone(h, t0, run).tx, id, o);
      } else {
        OutcomeStep(h, p, last, id, o);
        StartedStays(h, p, last.action, last.at, id);
        assert Reason(run[|run| - 1], Alone(h, t0, run).tx, id, o);
      }
    }
  }

  /** A message is reported by a step exactly once and this way, and is no longer pending. */
  ghost predicate Reported(me: Peer, me': Peer, id: nat, success: bool, now: nat)
    requires id in me.tx.started
  {
    && id !in me'.tx.msgs
    && Of(me'.tx.outcomes, id) == if me.tx.started[id].handler then [Outcome(success, now)] else []
  }

  /** A full acknowledgement of a pending message reports its success. */
  lemma AcknowledgedIsReported(h: HashFn, t0: nat, run: seq<Timed>, a: Action, now: nat, id: nat)
    requires Monotone(t0, run) && id in Alone(h, t0, run).tx.msgs
    requires Acknowledges(a, id, |Alone(h, t0, run).tx.msgs[id].data|)
    ensures id in Alone(h, t0, run).tx.started
    ensures Reported(Alone(h, t0, run), Act(h, Alone(h, t0, run), a, now), id, true, now)
  {
    AloneRecorded(h, t0, run);
    var t := Alone(h, t0, run).tx;
    assert Conserved(t, id);
    match a.p.pkt
    case Mack(ids) => FinishOutcome(t, set x | x in ids, true, now, id);
    case Acks(x, mask) => FinishOutcome(t, {x}, true, now, id);
  }

  /** What a Tick does to a pending message: it is reported as dropped exactly when it is overdue. */
  ghost predicate Judged(p: Peer, p': Peer, id: nat, now: nat)
    requires id in p.tx.msgs && id in p.tx.started
  {
    if p.tx.started[id].at + 500 < now then Reported(p, p', id, false, now)
    else id in p'.tx.msgs && p'.tx.msgs[id] == p.tx.msgs[id] && Of(p'.tx.outcomes, id) == []
  }

  /** A Tick reports as dropped exactly the messages submitted more than 500 ms before; the others stay pending. */
  lemma LateIsDropped(h: HashFn, t0: nat, run: seq<Timed>, now: nat, id: nat)
    requires Monotone(t0, run) && id in Alone(h, t0, run).tx.msgs
    ensures id in Alone(h, t0, run).tx.started
    ensures Judged(Alone(h, t0, run), Act(h, Alone(h, t0, run), Tick, now), id, now)
  {
    AloneRecorded(h, t0, run);
    var p := Alone(h, t0, run);
    assert Conserved(p.tx, id) && PendingOk(h, p.tx, id);
    TickJudges(h, p, now, id);
  }

  lemma TickJudges(h: HashFn, p: Peer, now: nat, id: nat)
    requires id in p.tx.msgs && Conserved(p.tx, id) && PendingOk(h, p.tx, id)
    ensures Judged(p, Act(h, p, Tick, now), id, now)
  {
    FinishOutcome(p.tx, set x | x in p.tx.msgs && TxTimedOut(p.tx.msgs[x], now), false, now, id);
  }

  // ---------------------------------------------------------------- submission and closing

  /** The message is pending under the next id and was announced. */
  ghost predicate Taken(h: HashFn, me: Peer, me': Peer, data: seq<Byte>, handler: bool, now: nat) {
    var id := me.tx.nextId;
    && me'.tx.nextId == id + 1 && me'.tx.msgs.Keys == me.tx.msgs.Keys + {id}
    && me'.tx.msgs[id].data == data && id in me'.tx.started && me'.tx.started[id] == Started(data, handler, now)
    && exists inline :: Stamped(Xmit(id, |data|, h(data), inline), now) in me'.net
  }

  /** A message is taken exactly while fewer than 1024 are pending, and otherwise nothing changes. */
  lemma TakenBelowLimit(h: HashFn, me: Peer, data: seq<Byte>, handler: bool, now: nat)
    ensures var me' := Act(h, me, Submit(data, handler), now);
      if |me.tx.msgs| < 1024 then Taken(h, me, me', data, handler, now) else me' == me
  {
    if |me.tx.msgs| < 1024 {
      TakenNow(h, me, data, handler, now);
    } else {
      assert Stamp({}, now) == {};
    }
  }

  lemma TakenNow(h: HashFn, me: Peer, data: seq<Byte>, handler: bool, now: nat)
    requires |me.tx.msgs| < 1024
    ensures Taken(h, me, Act(h, me, Submit(data, handler), now), data, handler, now)
  {
    var me' := Act(h, me, Submit(data, handler), now);
    var p := XmitOf(NewOutbound(h, me.tx.nextId, data, handler, now));
    assert p in Send(h, me.tx, data, handler, now).sent;
    assert Stamped(Xmit(me.tx.nextId, |data|, h(data), p.inline), now) in me'.net;
  }

  /** The run closes the session for the first time at step i. */
  ghost predicate ClosesAt(run: seq<Timed>, i: nat) {
    i < |run| && Closes(run[i].action) && forall j :: 0 <= j < i ==> !Closes(run[j].action)
  }

  ghost predicate NeverCloses(run: seq<Timed>) {
    forall j :: 0 <= j < |run| ==> !Closes(run[j].action)
  }

  ghost predicate SaidAt(run: seq<Timed>, at: nat) {
    exists i: nat :: ClosesAt(run, i) && at == run[i].at
  }

  /** A farewell is sent by the first closing step and no other, and the session is open exactly before it. */
  ghost predicate Farewell(run: seq<Timed>, me: Peer) {
    && (me.open <==> NeverCloses(run))
    && forall at: nat :: Stamped(Clos, at) in me.net <==> SaidAt(run, at)
  }

  lemma {:induction false} ClosedOnce(h: HashFn, t0: nat, run: seq<Timed>)
    ensures Farewell(run, Alone(h, t0, run))
  {
    if run != [] {
      var init, last := run[..|run| - 1], run[|run| - 1];
      var me, me' := Alone(h, t0, init), Alone(h, t0, run);
      ClosedOnce(h, t0, init);
      LongerNever(run);
      forall at: nat
        ensures Stamped(Clos, at) in me'.net <==> SaidAt(run, at)
      {
        FarewellFrom(h, me, last.action, last.at, at);
        SaidMore(run, at);
      }
    }
  }

  lemma LongerNever(run: seq<Timed>)
    requires run != []
    ensures NeverCloses(run) <==> NeverCloses(run[..|run| - 1]) && !Closes(run[|run| - 1].action)
  {
    assert forall j :: 0 <= j < |run| - 1 ==> run[..|run| - 1][j] == run[j];
  }

  lemma SaidMore(run: seq<Timed>, at: nat)
    requires run != []
    ensures var init, last := run[..|run| - 1], run[|run| - 1];
      SaidAt(run, at) <==> SaidAt(init, at) || (NeverCloses(init) && Closes(last.action) && at == last.at)
  {
    var init, last := run[..|run| - 1], run[|run| - 1];
    forall i: nat | i < |init|
      ensures ClosesAt(run, i) <==> ClosesAt(init, i)
    {
      assert init[..i] == run[..i];
    }
    if NeverCloses(init) && Closes(last.action) {
      assert ClosesAt(run, |run| - 1);
    }
    if SaidAt(init, at) {
      var i: nat :| ClosesAt(init, i) && at == init[i].at;
      assert ClosesAt(run, i) && at == run[i].at;
    }
  }

  lemma FarewellFrom(h: HashFn, me: Peer, action: Action, now: nat, at: nat)
    ensures Stamped(Clos, at) in Act(h, me, action, now).net <==>
      Stamped(Clos, at) in me.net || (at == now && me.open && Closes(action))
  {
    var t, r := TxAct(h, me, action, now), RxAct(h, me, action, now);
    NoClos(h, me, action, now);
    assert Clos !in t.sent + r.sent;
  }

  lemma NoClos(h: HashFn, me: Peer, action: Action, now: nat)
    ensures Clos !in TxAct(h, me, action, now).sent && Clos !in RxAct(h, me, action, now).sent
  {
  }

  /** A closed session sends nothing of its own accord. */
  lemma ClosedIsQuiet(h: HashFn, me: Peer, now: nat)
    requires !me.open
    ensures Act(h, me, Pump, now) == me && Act(h, me, Close, now) == me
  {
    assert Stamp({}, now) == {};
  }

  // ---------------------------------------------------------------- partial acknowledgements

  /** The packets of the fragments outside a set, sent at a time. */
  ghost function Missing(id: nat, data: seq<Byte>, mask: set<nat>, now: nat): (s: set<Stamped>) {
    set k: nat | k < |data| && k * FRAGMENT_SIZE < |data| && k !in mask ::
      Stamped(Data(id, k * FRAGMENT_SIZE, Fragment(data, k)), now)
  }

  /**
   * An acknowledgement that leaves something out replaces what was acknowledged before, and
   * exactly the fragments it leaves out are sent at once.
   */
  lemma PartialAckRepeats(h: HashFn, t0: nat, run: seq<Timed>, id: nat, mask: set<nat>, at: nat, now: nat)
    requires Monotone(t0, run) && id in Alone(h, t0, run).tx.msgs
    requires !Covers(mask, |Alone(h, t0, run).tx.msgs[id].data|)
    ensures var p := Alone(h, t0, run);
      var p' := Act(h, p, Recv(Stamped(Acks(id, mask), at)), now);
      && id in p.tx.started
      && id in p'.tx.msgs && p'.tx.msgs[id].acks == mask && p'.tx.msgs[id].data == p.tx.started[id].data
      && p'.tx.outcomes == p.tx.outcomes
      && (forall x :: x != id ==> (x in p'.tx.msgs <==> x in p.tx.msgs))
      && p'.net == p.net + Missing(id, p.tx.started[id].data, mask, now)
  {
    AloneRecorded(h, t0, run);
    var p := Alone(h, t0, run);
    assert PendingOk(h, p.tx, id);
    var m := p.tx.msgs[id].(acks := mask);
    UnackedIsMissing(m, now);
    var p' := Act(h, p, Recv(Stamped(Acks(id, mask), at)), now);
    assert TxAct(h, p, Recv(Stamped(Acks(id, mask), at)), now).sent == Unacked(m);
    assert Unacked(m) + {} + {} == Unacked(m);
  }

  lemma UnackedIsMissing(m: Outbound, now: nat)
    ensures Stamp(Unacked(m), now) == Missing(m.id, m.data, m.acks, now)
  {
    forall s | s in Missing(m.id, m.data, m.acks, now)
      ensures s in Stamp(Unacked(m), now)
    {
      var k: nat :| k < |m.data| && k * FRAGMENT_SIZE < |m.data| && k !in m.acks &&
        s == Stamped(Data(m.id, k * FRAGMENT_SIZE, Fragment(m.data, k)), now);
      assert DataOf(m, k) in Unacked(m);
    }
  }

  // ---------------------------------------------------------------- integrity of what is handed up

  predicate IsAnnouncement(a: Action, id: nat, size: nat, digest: Digest) {
    a.Recv? && a.p.pkt.Xmit? && a.p.pkt.id == id && a.p.pkt.size == size && a.p.pkt.digest == digest
  }

  /** The peer announced a message of this size and digest under this id. */
  ghost predicate Announced(run: seq<Timed>, id: nat, size: nat, digest: Digest) {
    exists i :: 0 <= i < |run| && IsAnnouncement(run[i].action, id, size, digest)
  }

  lemma AnnouncedStays(run: seq<Timed>, id: nat, size: nat, digest: Digest)
    requires run != [] && Announced(run[..|run| - 1], id, size, digest)
    ensures Announced(run, id, size, digest)
  {
    var i :| 0 <= i < |run| - 1 && IsAnnouncement(run[..|run| - 1][i].action, id, size, digest);
    assert IsAnnouncement(run[i].action, id, size, digest);
  }

  ghost predicate InReassembly(run: seq<Timed>, r: Rx, id: nat) {
    id in r.msgs ==> Announced(run, id, |r.msgs[id].data|, r.msgs[id].digest)
  }

  ghost predicate EndingMatches(h: HashFn, run: seq<Timed>, id: nat, e: Ending) {
    e.HandedUp? ==> Announced(run, id, |e.data|, h(e.data))
  }

  /** The size and digest of the reassembly of an id, before a step or by its announcement. */
  predicate Known(r: Rx, a: Action, id: nat, size: nat, digest: Digest) {
    || (id in r.msgs && size == |r.msgs[id].data| && digest == r.msgs[id].digest)
    || IsAnnouncement(a, id, size, digest)
  }

  ghost predicate Matches(h: HashFn, r: Rx, r': Rx, a: Action, id: nat) {
    && (id in r'.msgs ==> Known(r, a, id, |r'.msgs[id].data|, r'.msgs[id].digest))
    && forall e :: e in Of(r'.ended, id) && e !in Of(r.ended, id) && e.HandedUp? ==>
         Known(r, a, id, |e.data|, h(e.data))
  }

  /** What a step adds: a new reassembly is announced by it, a new ending is one of the reassembly. */
  lemma ReassemblyStep(h: HashFn, me: Peer, step: Timed, id: nat)
    ensures Matches(h, me.rx, RxAct(h, me, step.action, step.at).r, step.action, id)
  {
    match step.action
    case Recv(p) => ReceiptMatches(h, me, p, step.at, id);
    case Tick => TickMatches(h, me.rx, step.action, step.at, id);
    case _ =>
  }

  lemma TickMatches(h: HashFn, r: Rx, a: Action, now: nat, id: nat)
    ensures Matches(h, r, RxTick(r, now).r, a, id)
  {
  }

  lemma ReceiptMatches(h: HashFn, me: Peer, p: Stamped, now: nat, id: nat)
    ensures Matches(h, me.rx, RxAct(h, me, Recv(p), now).r, Recv(p), id)
  {
  }

  lemma {:induction false} RunMatches(h: HashFn, t0: nat, run: seq<Timed>, id: nat)
    ensures InReassembly(run, Alone(h, t0, run).rx, id)
    ensures forall e :: e in Of(Alone(h, t0, run).rx.ended, id) ==> EndingMatches(h, run, id, e)
  {
    if run != [] {
      var init, last := run[..|run| - 1], run[|run| - 1];
      var r, r' := Alone(h, t0, init).rx, Alone(h, t0, run).rx;
      RunMatches(h, t0, init, id);
      ReassemblyStep(h, Alone(h, t0, init), last, id);
      assert run[|run| - 1] == last;
      if id in r.msgs {
        AnnouncedStays(run, id, |r.msgs[id].data|, r.msgs[id].digest);
      }
      forall e | e in Of(r'.ended, id)
        ensures EndingMatches(h, run, id, e)
      {
        if e in Of(r.ended, id) && e.HandedUp? {
          assert EndingMatches(h, init, id, e);
          AnnouncedStays(run, id, |e.data|, h(e.data));
        }
      }
    }
  }

  /** Whatever any peer sends: a message handed up has a size and digest that were announced under its id. */
  lemma HandedUpMatchesDigest(h: HashFn, t0: nat, run: seq<Timed>, id: nat, e: Ending)
    requires e in Of(Alone(h, t0, run).rx.ended, id) && e.HandedUp?
    ensures Announced(run, id, |e.data|, h(e.data))
  {
    RunMatches(h, t0, run, id);
    assert EndingMatches(h, run, id, e);
  }

  /**
   * A fragment that completes a message with another digest than announced makes the session
   * forget it: nothing is handed up, filtered, acknowledged or sent.
   */
  lemma WrongDigestForgotten(h: HashFn, me: Peer, id: nat, offset: nat, bytes: seq<Byte>, at: nat, now: nat)
    requires id in me.rx.msgs && offset + |bytes| <= |me.rx.msgs[id].data|
    requires forall k: nat :: k * FRAGMENT_SIZE < |me.rx.msgs[id].data| && k != offset / FRAGMENT_SIZE ==>
      k in me.rx.msgs[id].acks
    requires var d := me.rx.msgs[id].data; h(d[..offset] + bytes + d[offset + |bytes|..]) != me.rx.msgs[id].digest
    ensures var me' := Act(h, me, Recv(Stamped(Data(id, offset, bytes), at)), now);
      me' == me.(rx := me.rx.(msgs := me.rx.msgs - {id}))
  {
    var m := HandleData(me.rx.msgs[id], offset, bytes, now);
    assert Covers(m.acks, |m.data|) && !Verify(h, m);
    assert Stamp({}, now) == {};
  }

  // ---------------------------------------------------------------- duplicates of finished messages

  /** An announcement or a fragment of a message. */
  predicate Concerns(a: Action, id: nat) {
    a.Recv? && (a.p.pkt.Xmit? || a.p.pkt.Data?) && a.p.pkt.id == id
  }

  /** Receiving left everything handed up as it was, and the next round acknowledges the id. */
  ghost predicate Reacknowledged(p: Peer, p1: Peer, p2: Peer, id: nat, later: nat) {
    && p1.rx.ended == p.rx.ended && p1.rx.msgs == p.rx.msgs && id in p1.rx.macks && p2.rx.macks == {}
    && exists ids :: id in ids && Stamped(Mack(ids), later) in p2.net
  }

  /**
   * Within 1200 ms of its ending, whatever arrives for an id is not handed up again but
   * queues a multi-acknowledgement, which the next round sends.
   */
  lemma DuplicateReacknowledged(h: HashFn, t0: nat, run: seq<Timed>, a: Action, now: nat, id: nat,
                                split: seq<seq<nat>>, later: nat)
    requires Monotone(t0, run) && Clock(t0, run) <= now && Concerns(a, id)
    requires Of(Alone(h, t0, run).rx.ended, id) != []
    requires now < LastAt(Of(Alone(h, t0, run).rx.ended, id)) + 1200
    requires IsSplit(split, Act(h, Alone(h, t0, run), a, now).rx.macks)
    ensures var p := Alone(h, t0, run);
      Reacknowledged(p, Act(h, p, a, now), Act(h, Act(h, p, a, now), MackRound(split), later), id, later)
  {
    AloneLocal(h, t0, run);
    var p := Alone(h, t0, run);
    StillFiltered(p.rx, Clock(t0, run), now, id);
    DuplicateStep(h, p, a, now, id);
    RoundSends(h, Act(h, p, a, now), split, later, id);
  }

  function LastAt(s: seq<Ending>): (at: nat)
    requires s != []
  {
    s[|s| - 1].at
  }

  lemma StillFiltered(r: Rx, clock: nat, now: nat, id: nat)
    requires RxLocal(r, clock) && clock <= now && Of(r.ended, id) != [] && now < LastAt(Of(r.ended, id)) + 1200
    ensures id in r.replay && id !in r.msgs
  {
    assert Filtered(r, clock, id);
  }

  lemma DuplicateStep(h: HashFn, me: Peer, a: Action, now: nat, id: nat)
    requires id in me.rx.replay && id !in me.rx.msgs && Concerns(a, id)
    ensures var r' := Act(h, me, a, now).rx; r'.ended == me.rx.ended && r'.msgs == me.rx.msgs && id in r'.macks
  {
  }

  /** A round of multi-acknowledgements sends every queued id and empties the queue. */
  lemma RoundSends(h: HashFn, me: Peer, split: seq<seq<nat>>, now: nat, id: nat)
    requires IsSplit(split, me.rx.macks) && id in me.rx.macks
    ensures var me' := Act(h, me, MackRound(split), now);
      me'.rx.macks == {} && exists ids :: id in ids && Stamped(Mack(ids), now) in me'.net
  {
    assert id in (set x | x in Join(split));
    var i := JoinedFrom(split, id);
    assert Mack(split[i]) in SendMacks(me.rx, split).sent;
    assert Stamped(Mack(split[i]), now) in Act(h, me, MackRound(split), now).net;
  }

  lemma {:induction false} JoinedFrom(split: seq<seq<nat>>, id: nat) returns (i: nat)
    requires id in Join(split)
    ensures i < |split| && id in split[i]
  {
    if id in split[|split| - 1] {
      i := |split| - 1;
    } else {
      i := JoinedFrom(split[..|split| - 1], id);
    }
  }

  // ---------------------------------------------------------------- giving up

  /** A receipt that begins or continues the reassembly of a message. */
  predicate Touches(r: Rx, a: Action, id: nat) {
    a.Recv? &&
    match a.p.pkt
    case Xmit(x, _, _, _) => x == id && id !in r.msgs && id !in r.replay
    case Data(x, offset, bytes) => x == id && id in r.msgs && offset + |bytes| <= |r.msgs[id].data|
    case _ => false
  }

  /** Since a time nothing but quiet of more than 500 ms made the session give up a message. */
  ghost predicate QuietSince(r: Rx, id: nat, n: nat, since: nat) {
    && |Of(r.ended, id)| >= n
    && (id in r.msgs ==> r.msgs[id].lastActive >= since)
    && forall j :: n <= j < |Of(r.ended, id)| && Of(r.ended, id)[j].GivenUp? ==> since + 500 < Of(r.ended, id)[j].at
  }

  lemma QuietStep(h: HashFn, me: Peer, a: Action, now: nat, id: nat, n: nat, since: nat)
    requires QuietSince(me.rx, id, n, since) && since <= now
    ensures QuietSince(RxAct(h, me, a, now).r, id, n, since)
  {
    var r' := RxAct(h, me, a, now).r;
    if a.Tick? {
      var stale := set x | x in me.rx.msgs && RxTimedOut(me.rx.msgs[x], now);
      assert Of(r'.ended, id) == if id in stale then Of(me.rx.ended, id) + [GivenUp(now)] else Of(me.rx.ended, id);
    }
  }

  lemma TouchQuiet(h: HashFn, me: Peer, a: Action, now: nat, id: nat)
    requires Touches(me.rx, a, id)
    ensures QuietSince(RxAct(h, me, a, now).r, id, |Of(me.rx.ended, id)|, now)
  {
  }

  /** A message is given up only when more than 500 ms have passed since the last receipt for it. */
  lemma {:induction false} GivenUpWhenQuiet(h: HashFn, t0: nat, run: seq<Timed>, i: nat, id: nat)
    requires Monotone(t0, run) && i < |run| && Touches(Alone(h, t0, run[..i]).rx, run[i].action, id)
    ensures QuietSince(Alone(h, t0, run).rx, id, |Of(Alone(h, t0, run[..i]).rx.ended, id)|, run[i].at)
    decreases |run|
  {
    var init, last := run[..|run| - 1], run[|run| - 1];
    if i == |run| - 1 {
      assert run[..i] == init;
      TouchQuiet(h, Alone(h, t0, init), last.action, last.at, id);
    } else {
      assert init[..i] == run[..i];
      GivenUpWhenQuiet(h, t0, init, i, id);
      ClockGrows(t0, run, i);
      QuietStep(h, Alone(h, t0, init), last.action, last.at, id, |Of(Alone(h, t0, run[..i]).rx.ended, id)|, run[i].at);
    }
  }

  lemma {:induction false} ClockGrows(t0: nat, run: seq<Timed>, i: nat)
    requires Monotone(t0, run) && i < |run|
    ensures run[i].at <= Clock(t0, run)
  {
    if i < |run| - 1 {
      ClockGrows(t0, run[..|run| - 1], i);
    }
  }

  ghost predicate SweptTx(t: Tx, now: nat, id: nat) {
    id in t.msgs ==> id in t.started && now <= t.started[id].at + 500
  }

  ghost predicate SweptRx(r: Rx, now: nat, id: nat) {
    && (id in r.msgs ==> now <= r.msgs[id].lastActive + 500)
    && (id in r.replay <==> Of(r.ended, id) != [] && now < LastAt(Of(r.ended, id)) + 1200)
  }

  /** After a Tick nothing stays beyond its time: pending and partial messages 500 ms, filtered ids 1200 ms. */
  lemma TickSweeps(h: HashFn, t0: nat, run: seq<Timed>, now: nat, id: nat)
    requires Monotone(t0, run) && Clock(t0, run) <= now
    ensures SweptTx(Act(h, Alone(h, t0, run), Tick, now).tx, now, id)
    ensures SweptRx(Act(h, Alone(h, t0, run), Tick, now).rx, now, id)
  {
    AloneRecorded(h, t0, run);
    AloneLocal(h, t0, run);
    var p := Alone(h, t0, run);
    assert PendingOk(h, p.tx, id);
    LaterFiltered(p.rx, Clock(t0, run), now);
    assert Filtered(p.rx, now, id);
    SweepTx(h, p.tx, now, id);
    SweepRx(p.rx, now, id);
  }

  lemma SweepTx(h: HashFn, t: Tx, now: nat, id: nat)
    requires PendingOk(h, t, id)
    ensures SweptTx(TxTick(t, now).t, now, id)
  {
  }

  lemma SweepRx(r: Rx, now: nat, id: nat)
    requires Filtered(r, now, id)
    ensures SweptRx(RxTick(r, now).r, now, id)
  {
    TickFilteredOne(r, now, id);
    var r' := RxTick(r, now).r;
    assert id in r'.replay ==> now < r'.replay[id] + REPLAY_WINDOW;
  }
}
