/**
 * What one IWP session guarantees on its own, whatever packets its peer sends: completion
 * handlers fire exactly once, the send queue is bounded, and an id is done with at most once
 * per replay window.
 */
module IwpLocal {
  import opened Bytes
  import opened IwpMessage
  import opened IwpProtocol
  import opened IwpNetwork

  // ---------------------------------------------------------------- conservation of completions

  /** An accepted message is pending with its handler unfired, or gone with it fired once. */
  ghost predicate Conserved(t: Tx, id: nat) {
    && (id in t.started <==> id < t.nextId)
    && (id in t.msgs ==>
         && id in t.started
         && t.msgs[id].handler == t.started[id].handler
         && Of(t.outcomes, id) == [])
    && (id in t.started && id !in t.msgs ==>
         |Of(t.outcomes, id)| == if t.started[id].handler then 1 else 0)
    && (id !in t.started ==> Of(t.outcomes, id) == [])
  }

  ghost predicate TxLocal(t: Tx) {
    && |t.msgs| <= MAX_SEND_QUEUE
    && forall id: nat :: Conserved(t, id)
  }

  lemma MapMinusShrinks<K, V>(m: map<K, V>, ids: set<K>)
    ensures |m - ids| <= |m|
  {
    var r := m - ids;
    assert r.Keys <= m.Keys;
    SubsetSize(r.Keys, m.Keys);
  }

  lemma MapPlusGrows<K, V>(m: map<K, V>, k: K, v: V)
    requires k !in m
    ensures |m[k := v]| == |m| + 1
  {
    assert m[k := v].Keys == m.Keys + {k};
  }

  lemma FinishConservesOne(t: Tx, ids: set<nat>, success: bool, now: nat, id: nat)
    requires Conserved(t, id)
    ensures Conserved(Finish(t, ids, success, now), id)
  {
    var r := Finish(t, ids, success, now);
    if id in ids && id in t.msgs {
      assert Of(r.outcomes, id) == if t.msgs[id].handler then [Outcome(success, now)] else [];
    } else {
      assert Of(r.outcomes, id) == Of(t.outcomes, id);
    }
  }

  lemma FinishConserves(t: Tx, ids: set<nat>, success: bool, now: nat)
    requires TxLocal(t)
    ensures TxLocal(Finish(t, ids, success, now))
  {
    MapMinusShrinks(t.msgs, ids);
    var r := Finish(t, ids, success, now);
    forall id: nat
      ensures Conserved(r, id)
    {
      FinishConservesOne(t, ids, success, now, id);
    }
  }

  lemma SendConservesOne(h: HashFn, t: Tx, data: seq<Byte>, handler: bool, now: nat, id: nat)
    requires TxLocal(t)
    ensures Conserved(Send(h, t, data, handler, now).t, id)
  {
    assert Conserved(t, id);
  }

  lemma SendConserves(h: HashFn, t: Tx, data: seq<Byte>, handler: bool, now: nat)
    requires TxLocal(t)
    ensures TxLocal(Send(h, t, data, handler, now).t)
  {
    var r := Send(h, t, data, handler, now).t;
    if Accepts(t) {
      assert Conserved(t, t.nextId);
      MapPlusGrows(t.msgs, t.nextId, r.msgs[t.nextId]);
    }
    forall id: nat
      ensures Conserved(r, id)
    {
      SendConservesOne(h, t, data, handler, now, id);
    }
  }

  /** An update of the pending messages that keeps their ids and handlers. */
  lemma UpdateConserves(t: Tx, r: Tx)
    requires TxLocal(t)
    requires r == t.(msgs := r.msgs) && r.msgs.Keys == t.msgs.Keys
    requires forall id :: id in t.msgs ==> r.msgs[id].handler == t.msgs[id].handler
    ensures TxLocal(r)
  {
    assert |r.msgs| == |r.msgs.Keys| == |t.msgs.Keys|;
    forall id: nat
      ensures Conserved(r, id)
    {
      assert Conserved(t, id);
    }
  }

  lemma AcksConserves(t: Tx, id: nat, mask: set<nat>, now: nat)
    requires TxLocal(t)
    ensures TxLocal(GotAcks(t, id, mask, now).t)
  {
    if id in t.msgs {
      if Covers(mask, |t.msgs[id].data|) {
        FinishConserves(t, {id}, true, now);
      } else {
        UpdateConserves(t, GotAcks(t, id, mask, now).t);
      }
    }
  }

  lemma TxActConserves(h: HashFn, me: Peer, action: Action, now: nat)
    requires TxLocal(me.tx)
    ensures TxLocal(TxAct(h, me, action, now).t)
  {
    var t := me.tx;
    match action
    case Submit(data, handler) => SendConserves(h, t, data, handler, now);
    case Recv(p) =>
      match p.pkt {
        case Acks(id, mask) => AcksConserves(t, id, mask, now);
        case Mack(ids) => FinishConserves(t, set id | id in ids, true, now);
        case _ =>
      }
    case Pump => if me.open { UpdateConserves(t, Flush(t, now).t); }
    case Tick => FinishConserves(t, set id | id in t.msgs && TxTimedOut(t.msgs[id], now), false, now);
    case _ =>
  }

  // ---------------------------------------------------------------- replay gap

  /** Consecutive or not, two endings of one id are a replay window apart. */
  ghost predicate Spaced(s: seq<Ending>) {
    forall i, j :: 0 <= i < j < |s| ==> s[i].at + REPLAY_WINDOW <= s[j].at
  }

  /** The filter holds an id from its ending until at least a replay window later. */
  ghost predicate Filtered(r: Rx, now: nat, id: nat) {
    var s := Of(r.ended, id);
    && Spaced(s)
    && (forall i :: 0 <= i < |s| ==> s[i].at <= now)
    && (id in r.replay ==> id !in r.msgs && s != [] && r.replay[id] == s[|s| - 1].at)
    && (id !in r.replay && s != [] ==> s[|s| - 1].at + REPLAY_WINDOW <= now)
  }

  ghost predicate RxLocal(r: Rx, now: nat) {
    forall id: nat :: Filtered(r, now, id)
  }

  lemma LaterFiltered(r: Rx, now: nat, later: nat)
    requires RxLocal(r, now) && now <= later
    ensures RxLocal(r, later)
  {
    forall id: nat
      ensures Filtered(r, later, id)
    {
      assert Filtered(r, now, id);
    }
  }

  lemma HandUpFiltered(r: Rx, id: nat, data: seq<Byte>, now: nat)
    requires RxLocal(r, now) && id !in r.replay
    ensures RxLocal(HandUp(r, id, data, now), now)
  {
    var r' := HandUp(r, id, data, now);
    forall x: nat
      ensures Filtered(r', now, x)
    {
      assert Filtered(r, now, x);
      if x == id && Of(r.ended, id) != [] {
        assert Spaced(Of(r.ended, id));
      }
    }
  }

  lemma UpdateFiltered(r: Rx, r': Rx, now: nat)
    requires RxLocal(r, now)
    requires r'.replay == r.replay && r'.ended == r.ended && r'.msgs.Keys !! r'.replay.Keys
    ensures RxLocal(r', now)
  {
    forall id: nat
      ensures Filtered(r', now, id)
    {
      assert Filtered(r, now, id);
    }
  }

  lemma DisjointFiltered(r: Rx, now: nat)
    requires RxLocal(r, now)
    ensures r.msgs.Keys !! r.replay.Keys
  {
    forall id | id in r.msgs.Keys
      ensures id !in r.replay.Keys
    {
      assert Filtered(r, now, id);
    }
  }

  lemma TickFilteredOne(r: Rx, now: nat, id: nat)
    requires Filtered(r, now, id)
    ensures Filtered(RxTick(r, now).r, now, id)
  {
    var r' := RxTick(r, now).r;
    var s, s' := Of(r.ended, id), Of(r'.ended, id);
    if id in r.msgs && RxTimedOut(r.msgs[id], now) {
      assert s' == s + [GivenUp(now)];
      assert id !in r.replay;
      assert id in r'.replay && r'.replay[id] == now;
    } else {
      assert s' == s;
      assert id in r'.replay ==> id in r.replay && r'.replay[id] == r.replay[id];
    }
  }

  lemma TickFiltered(r: Rx, now: nat)
    requires RxLocal(r, now)
    ensures RxLocal(RxTick(r, now).r, now)
  {
    forall id: nat
      ensures Filtered(RxTick(r, now).r, now, id)
    {
      TickFilteredOne(r, now, id);
    }
  }

  lemma RxActFiltered(h: HashFn, me: Peer, action: Action, now: nat)
    requires RxLocal(me.rx, now)
    ensures RxLocal(RxAct(h, me, action, now).r, now)
  {
    var r := me.rx;
    DisjointFiltered(r, now);
    match action
    case Recv(p) =>
      match p.pkt {
        case Xmit(id, size, digest, inline) =>
          if id !in r.replay && id !in r.msgs {
            var m := NewInbound(id, size, digest, now);
            if inline.Some? && Covers(HandleData(m, 0, inline.value, now).acks, size)
               && Verify(h, HandleData(m, 0, inline.value, now)) {
              HandUpFiltered(r, id, HandleData(m, 0, inline.value, now).data, now);
            } else {
              UpdateFiltered(r, GotXmit(h, r, id, size, digest, inline, now).r, now);
            }
          } else {
            UpdateFiltered(r, GotXmit(h, r, id, size, digest, inline, now).r, now);
          }
        case Data(id, offset, bytes) =>
          if id in r.msgs && Covers(HandleData(r.msgs[id], offset, bytes, now).acks, |r.msgs[id].data|)
             && Verify(h, HandleData(r.msgs[id], offset, bytes, now)) {
            HandUpFiltered(r, id, HandleData(r.msgs[id], offset, bytes, now).data, now);
          } else {
            UpdateFiltered(r, GotData(h, r, id, offset, bytes, now).r, now);
          }
        case _ =>
      }
    case MackRound(split) => UpdateFiltered(r, SendMacks(r, split).r, now);
    case Pump => if me.open { UpdateFiltered(r, SendAcks(r, now).r, now); }
    case Tick => TickFiltered(r, now);
    case _ =>
  }

  // ---------------------------------------------------------------- runs against any peer

  datatype Timed = Timed(at: nat, action: Action)

  /** One session fed with any actions and any packets, on a clock that does not run back. */
  ghost function Alone(h: HashFn, t0: nat, run: seq<Timed>): (p: Peer) {
    if run == [] then NewPeer(t0)
    else Act(h, Alone(h, t0, run[..|run| - 1]), run[|run| - 1].action, run[|run| - 1].at)
  }

  function Clock(t0: nat, run: seq<Timed>): (now: nat) {
    if run == [] then t0 else run[|run| - 1].at
  }

  ghost predicate Monotone(t0: nat, run: seq<Timed>) {
    run == [] || (Monotone(t0, run[..|run| - 1]) && Clock(t0, run[..|run| - 1]) <= run[|run| - 1].at)
  }

  lemma {:induction false} AloneLocal(h: HashFn, t0: nat, run: seq<Timed>)
    requires Monotone(t0, run)
    ensures TxLocal(Alone(h, t0, run).tx)
    ensures RxLocal(Alone(h, t0, run).rx, Clock(t0, run))
  {
    if run == [] {
      forall id: nat
        ensures Conserved(EMPTY_TX, id) && Filtered(EMPTY_RX, t0, id)
      {
      }
    } else {
      var init, last := run[..|run| - 1], run[|run| - 1];
      AloneLocal(h, t0, init);
      var p := Alone(h, t0, init);
      LaterFiltered(p.rx, Clock(t0, init), last.at);
      TxActConserves(h, p, last.action, last.at);
      RxActFiltered(h, p, last.action, last.at);
    }
  }

  /**
   * Conservation of completions, for every run against any peer: an accepted message is
   * either pending with its handler unfired, or its handler fired exactly once (or was
   * absent); a message never accepted fires nothing; the queue holds at most 1024 messages.
   */
  lemma CompletionsConserved(h: HashFn, t0: nat, run: seq<Timed>, id: nat)
    requires Monotone(t0, run)
    ensures var t := Alone(h, t0, run).tx;
      && |t.msgs| <= 1024
      && (id in t.started <==> id < t.nextId)
      && (id !in t.started ==> id !in t.msgs && Of(t.outcomes, id) == [])
      && (id in t.started && id in t.msgs ==> Of(t.outcomes, id) == [])
      && (id in t.started && id !in t.msgs ==>
           |Of(t.outcomes, id)| == if t.started[id].handler then 1 else 0)
  {
    AloneLocal(h, t0, run);
    assert Conserved(Alone(h, t0, run).tx, id);
  }

  /** No id is both in reassembly and filtered, and the endings of an id are 1200 ms apart. */
  ghost predicate GapKept(r: Rx, id: nat) {
    && r.msgs.Keys !! r.replay.Keys
    && forall i, j :: 0 <= i < j < |Of(r.ended, id)| ==>
         Of(r.ended, id)[i].at + 1200 <= Of(r.ended, id)[j].at
  }

  lemma LocalGap(r: Rx, now: nat, id: nat)
    requires RxLocal(r, now)
    ensures GapKept(r, id)
  {
    DisjointFiltered(r, now);
    assert Filtered(r, now, id);
  }

  /** The replay gap holds in every run against any peer. */
  lemma ReplayGap(h: HashFn, t0: nat, run: seq<Timed>, id: nat)
    requires Monotone(t0, run)
    ensures GapKept(Alone(h, t0, run).rx, id)
  {
    AloneLocal(h, t0, run);
    LocalGap(Alone(h, t0, run).rx, Clock(t0, run), id);
  }
}
