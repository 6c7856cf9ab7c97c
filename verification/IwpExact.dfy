/**
 * The timing condition of at-most-once delivery is exact: whenever it fails, some run hands
 * the same message up twice. The run announces a one-octet message, lets a fragment overtake
 * the announcement so that a negative acknowledgement is in flight, delivers, and answers
 * that acknowledgement so late that the new announcement arrives after the replay window.
 */
module IwpExact {
  import opened Bytes
  import opened IwpMessage
  import opened IwpProtocol
  import opened IwpNetwork
  import opened IwpTheorems
  import opened IwpTimed

  /** The start of the run: late enough for the first flush to be due at once. */
  const T: nat := TX_FLUSH_INTERVAL

  const BODY: seq<Byte> := [7]

  /** A Tick, a submission or a pump, or a batch of packets handled as HandlePlaintext does. */
  datatype Batch =
    | Alone(step: Step)
    | Packets(atA: bool, at: nat, ps: seq<Stamped>, split: seq<seq<nat>>)

  function Receipts(atA: bool, at: nat, ps: seq<Stamped>): (run: seq<Step>) {
    if ps == [] then [] else Receipts(atA, at, ps[..|ps| - 1]) + [Step(atA, at, Recv(ps[|ps| - 1]))]
  }

  function StepsOf(b: Batch): (run: seq<Step>) {
    match b
    case Alone(step) => [step]
    case Packets(atA, at, ps, split) =>
      Receipts(atA, at, ps) + [Step(atA, at, MackRound(split))] + [Step(atA, at, Pump)]
  }

  function Steps(bs: seq<Batch>): (run: seq<Step>) {
    if bs == [] then [] else Steps(bs[..|bs| - 1]) + StepsOf(bs[|bs| - 1])
  }

  /** Packets are only handled in batches. */
  ghost predicate Whole(bs: seq<Batch>) {
    forall i :: 0 <= i < |bs| && bs[i].Alone? ==> !bs[i].step.action.Recv? && !bs[i].step.action.MackRound?
  }

  /** Multi-acknowledgements and a pump follow every batch of received packets. */
  ghost predicate InBatches(run: seq<Step>) {
    exists bs :: Whole(bs) && run == Steps(bs)
  }

  ghost predicate Reaches(h: HashFn, P: nat, L: nat, run: seq<Step>, s: Sys) {
    LegalTimed(h, P, L, T, run) && After(h, T, run) == s
  }

  ghost predicate Can(h: HashFn, P: nat, L: nat, s: Sys) {
    exists bs :: Whole(bs) && Reaches(h, P, L, Steps(bs), s)
  }

  /** Part way through a batch at one end. */
  ghost predicate Handling(h: HashFn, P: nat, L: nat, s: Sys, atA: bool, at: nat) {
    exists bs, ps :: Whole(bs) && Reaches(h, P, L, Steps(bs) + Receipts(atA, at, ps), s)
  }

  lemma LongerRun(h: HashFn, P: nat, L: nat, run: seq<Step>, s: Sys, step: Step)
    requires Reaches(h, P, L, run, s) && Enabled(s, step) && Timely(P, L, s, step)
    ensures Reaches(h, P, L, run + [step], Apply(h, s, step))
  {
    assert (run + [step])[..|run|] == run;
  }

  lemma Extend(h: HashFn, P: nat, L: nat, s: Sys, step: Step)
    requires Can(h, P, L, s) && Enabled(s, step) && Timely(P, L, s, step)
    requires !step.action.Recv? && !step.action.MackRound?
    ensures Can(h, P, L, Apply(h, s, step))
  {
    var bs :| Whole(bs) && Reaches(h, P, L, Steps(bs), s);
    LongerRun(h, P, L, Steps(bs), s, step);
    AddBatch(bs, Alone(step));
  }

  lemma AddBatch(bs: seq<Batch>, b: Batch)
    requires Whole(bs) && (b.Alone? ==> !b.step.action.Recv? && !b.step.action.MackRound?)
    ensures Whole(bs + [b]) && Steps(bs + [b]) == Steps(bs) + StepsOf(b)
  {
    assert (bs + [b])[..|bs|] == bs;
  }

  lemma BeginBatch(h: HashFn, P: nat, L: nat, s: Sys, atA: bool, at: nat)
    requires Can(h, P, L, s)
    ensures Handling(h, P, L, s, atA, at)
  {
    var bs :| Whole(bs) && Reaches(h, P, L, Steps(bs), s);
    assert Steps(bs) + Receipts(atA, at, []) == Steps(bs);
  }

  lemma OneMoreReceipt(bs: seq<Batch>, atA: bool, at: nat, ps: seq<Stamped>, p: Stamped)
    ensures Steps(bs) + Receipts(atA, at, ps + [p]) == Steps(bs) + Receipts(atA, at, ps) + [Step(atA, at, Recv(p))]
  {
    assert (ps + [p])[..|ps|] == ps;
  }

  lemma Handle(h: HashFn, P: nat, L: nat, s: Sys, atA: bool, at: nat, p: Stamped)
    requires Handling(h, P, L, s, atA, at)
    requires Enabled(s, Step(atA, at, Recv(p))) && Timely(P, L, s, Step(atA, at, Recv(p)))
    ensures Handling(h, P, L, Apply(h, s, Step(atA, at, Recv(p))), atA, at)
  {
    var bs, ps :| Whole(bs) && Reaches(h, P, L, Steps(bs) + Receipts(atA, at, ps), s);
    LongerRun(h, P, L, Steps(bs) + Receipts(atA, at, ps), s, Step(atA, at, Recv(p)));
    OneMoreReceipt(bs, atA, at, ps, p);
  }

  /** The state in which a batch leaves the two ends. */
  ghost function Ended(h: HashFn, s: Sys, atA: bool, at: nat, split: seq<seq<nat>>): (s': Sys) {
    Apply(h, Apply(h, s, Step(atA, at, MackRound(split))), Step(atA, at, Pump))
  }

  lemma EndOfRun(h: HashFn, P: nat, L: nat, run: seq<Step>, s: Sys, atA: bool, at: nat, split: seq<seq<nat>>)
    requires Reaches(h, P, L, run, s) && at == s.now <= s.a.ticked + P && at <= s.b.ticked + P
    requires IsSplit(split, (if atA then s.a else s.b).rx.macks)
    ensures var all := run + [Step(atA, at, MackRound(split))] + [Step(atA, at, Pump)];
      Reaches(h, P, L, all, Ended(h, s, atA, at, split))
  {
    var ack := Step(atA, at, MackRound(split));
    LongerRun(h, P, L, run, s, ack);
    LongerRun(h, P, L, run + [ack], Apply(h, s, ack), Step(atA, at, Pump));
  }

  lemma Regroup(a: seq<Step>, b: seq<Step>, c: seq<Step>, d: seq<Step>)
    ensures a + (b + c + d) == a + b + c + d
  {
  }

  lemma WholeBatch(bs: seq<Batch>, atA: bool, at: nat, ps: seq<Stamped>, split: seq<seq<nat>>)
    returns (all: seq<Batch>)
    requires Whole(bs)
    ensures Whole(all) && Steps(all) ==
      Steps(bs) + Receipts(atA, at, ps) + [Step(atA, at, MackRound(split))] + [Step(atA, at, Pump)]
  {
    var b := Packets(atA, at, ps, split);
    all := bs + [b];
    AddBatch(bs, b);
    Regroup(Steps(bs), Receipts(atA, at, ps), [Step(atA, at, MackRound(split))], [Step(atA, at, Pump)]);
  }

  /** The end of a batch: acknowledgements of what was handed up, then a pump. */
  lemma EndBatch(h: HashFn, P: nat, L: nat, s: Sys, atA: bool, at: nat, split: seq<seq<nat>>)
    requires Handling(h, P, L, s, atA, at) && at == s.now <= s.a.ticked + P && at <= s.b.ticked + P
    requires IsSplit(split, (if atA then s.a else s.b).rx.macks)
    ensures Can(h, P, L, Ended(h, s, atA, at, split))
  {
    var bs, ps :| Whole(bs) && Reaches(h, P, L, Steps(bs) + Receipts(atA, at, ps), s);
    EndOfRun(h, P, L, Steps(bs) + Receipts(atA, at, ps), s, atA, at, split);
    var all := WholeBatch(bs, atA, at, ps, split);
    assert Whole(all) && Reaches(h, P, L, Steps(all), Ended(h, s, atA, at, split));
  }

  function Pending(h: HashFn, lastFlush: nat): (m: Outbound) {
    Outbound(BODY, 0, {}, true, lastFlush, h(BODY), T)
  }

  function Announce(h: HashFn): (p: Packet) {
    Xmit(0, 1, h(BODY), None)
  }

  const FRAGMENT: Packet := Data(0, 0, BODY)

  ghost predicate Clocks(s: Sys, now: nat, tickA: nat, tickB: nat) {
    s.now == now && s.a.ticked == tickA && s.b.ticked == tickB && s.a.open && s.a.rx.macks == {}
  }

  /** Nothing in reassembly and nothing left to acknowledge. */
  ghost predicate Idle(r: Rx) {
    r.msgs == map[] && r.macks == {}
  }

  /** Delivered once; the sender, whose message is pending, has not heard of it. */
  ghost predicate Mid(h: HashFn, s: Sys, now: nat, tickA: nat, tickB: nat) {
    && Clocks(s, now, tickA, tickB)
    && s.a.tx.msgs == map[0 := Pending(h, T)]
    && Idle(s.b.rx) && s.b.rx.replay == map[0 := T]
    && Of(s.b.rx.ended, 0) == [HandedUp(BODY, T)]
    && Stamped(Nack(0), T) in s.b.net
  }

  lemma FlushOne(h: HashFn, t: Tx, lastFlush: nat, now: nat)
    requires t.msgs == map[0 := Pending(h, lastFlush)] && now >= lastFlush + TX_FLUSH_INTERVAL
    ensures Flush(t, now).t.msgs == map[0 := Pending(h, now)]
    ensures FRAGMENT in Flush(t, now).sent
  {
    var m := Pending(h, lastFlush);
    assert 0 * FRAGMENT_SIZE < |m.data| && 0 !in m.acks;
    assert DataOf(m, 0) in Unacked(m);
    assert DataOf(m, 0) == FRAGMENT;
    assert 0 in t.msgs && t.msgs[0] == m;
  }

  /** The sender flushes its fragment. */
  lemma Reflush(h: HashFn, P: nat, L: nat, s: Sys, lastFlush: nat, now: nat, tickA: nat, tickB: nat) returns (s': Sys)
    requires Can(h, P, L, s) && Clocks(s, now, tickA, tickB) && now <= tickA + P && now <= tickB + P
    requires s.a.tx.msgs == map[0 := Pending(h, lastFlush)] && now >= lastFlush + TX_FLUSH_INTERVAL
    ensures Can(h, P, L, s') && Clocks(s', now, tickA, tickB) && s'.b == s.b && s.a.net <= s'.a.net
    ensures s'.a.tx.msgs == map[0 := Pending(h, now)]
    ensures Stamped(FRAGMENT, now) in s'.a.net
  {
    var pump := Step(true, now, Pump);
    Extend(h, P, L, s, pump);
    FlushOne(h, s.a.tx, lastFlush, now);
    s' := Apply(h, s, pump);
    assert TxAct(h, s.a, Pump, now) == Flush(s.a.tx, now);
  }

  lemma FirstSend(h: HashFn)
    ensures var e := Send(h, EMPTY_TX, BODY, true, T);
      e.t.msgs == map[0 := Pending(h, 0)] && e.sent == {Announce(h)}
  {
  }

  lemma FirstState(h: HashFn, P: nat, L: nat)
    ensures Can(h, P, L, Init(T))
  {
    assert Steps([]) == [] && Whole([]) && Reaches(h, P, L, Steps([]), Init(T));
  }

  lemma SubmitFirst(h: HashFn, P: nat, L: nat) returns (s: Sys)
    ensures Can(h, P, L, s) && Clocks(s, T, T, T)
    ensures s.a.tx.msgs == map[0 := Pending(h, 0)] && s.b == NewPeer(T)
    ensures Stamped(Announce(h), T) in s.a.net
  {
    var submit := Step(true, T, Submit(BODY, true));
    FirstState(h, P, L);
    Extend(h, P, L, Init(T), submit);
    s := Apply(h, Init(T), submit);
    FirstSend(h);
    assert TxAct(h, Init(T).a, submit.action, T) == Send(h, EMPTY_TX, BODY, true, T);
  }

  lemma XmitOpens(h: HashFn, r: Rx, now: nat)
    requires r.msgs == map[] && 0 !in r.replay
    ensures GotXmit(h, r, 0, 1, h(BODY), None, now) ==
      RxStep(r.(msgs := map[0 := NewInbound(0, 1, h(BODY), now)]), {})
  {
  }

  lemma DataCompletes(h: HashFn, r: Rx, now: nat, since: nat)
    requires r.msgs == map[0 := NewInbound(0, 1, h(BODY), since)]
    ensures GotData(h, r, 0, 0, BODY, now) == RxStep(HandUp(r, 0, BODY, now), {})
  {
    var m := HandleData(r.msgs[0], 0, BODY, now);
    assert m.data == BODY;
    assert Covers(m.acks, 1);
  }

  /** The end of a batch at the receiver, which may have handed the message up. */
  lemma FinishB(h: HashFn, P: nat, L: nat, s: Sys, now: nat, tickA: nat, tickB: nat) returns (s': Sys)
    requires Handling(h, P, L, s, false, now) && Clocks(s, now, tickA, tickB) && now <= tickA + P && now <= tickB + P
    requires s.b.rx.msgs == map[] && s.b.rx.macks <= {0}
    ensures Can(h, P, L, s') && Clocks(s', now, tickA, tickB)
    ensures s'.a == s.a && s.b.net <= s'.b.net && s'.b.rx == s.b.rx.(macks := {})
  {
    var split: seq<seq<nat>> := if s.b.rx.macks == {} then [] else [[0]];
    SplitOf(s.b.rx.macks);
    EndBatch(h, P, L, s, false, now, split);
    s' := Ended(h, s, false, now, split);
    var r := SendMacks(s.b.rx, split).r;
    assert SendAcks(r, now).r.msgs == map[];
  }

  lemma SplitOf(macks: set<nat>)
    requires macks <= {0}
    ensures IsSplit(if macks == {} then [] else [[0]], macks)
  {
    if macks != {} {
      assert [[0]][..0] == [] && Join([[0]]) == [0];
      assert macks == {0};
    }
  }

  lemma RoundKeeps(h: HashFn, me: Peer, now: nat)
    requires me.rx.macks == {}
    ensures var me' := Act(h, me, MackRound([]), now);
      me'.rx.macks == {} && me.net <= me'.net && me'.open == me.open && me'.ticked == me.ticked
  {
  }

  lemma PumpKeeps(h: HashFn, me: Peer, now: nat)
    ensures var me' := Act(h, me, Pump, now);
      me'.rx.macks == me.rx.macks && me.net <= me'.net && me'.open == me.open && me'.ticked == me.ticked
  {
  }

  /** The end of a batch at the sender, which has nothing to acknowledge. */
  lemma FinishA(h: HashFn, P: nat, L: nat, s: Sys, now: nat, tickA: nat, tickB: nat) returns (s': Sys)
    requires Handling(h, P, L, s, true, now) && Clocks(s, now, tickA, tickB) && now <= tickA + P && now <= tickB + P
    ensures Can(h, P, L, s') && Clocks(s', now, tickA, tickB) && s'.b == s.b && s.a.net <= s'.a.net
  {
    SplitOf({});
    EndBatch(h, P, L, s, true, now, []);
    s' := Ended(h, s, true, now, []);
    RoundKeeps(h, s.a, now);
    PumpKeeps(h, Act(h, s.a, MackRound([]), now), now);
  }

  lemma Open(h: HashFn, P: nat, L: nat, s: Sys, x: Stamped, now: nat, tickA: nat, tickB: nat) returns (s': Sys)
    requires Handling(h, P, L, s, false, now) && Clocks(s, now, tickA, tickB)
    requires now <= tickA + P && now <= tickB + P
    requires x.pkt == Announce(h) && x in s.a.net && now <= x.at + L
    requires Idle(s.b.rx) && 0 !in s.b.rx.replay
    ensures Handling(h, P, L, s', false, now) && Clocks(s', now, tickA, tickB)
    ensures s'.a == s.a && s.b.net <= s'.b.net
    ensures s'.b.rx == s.b.rx.(msgs := map[0 := NewInbound(0, 1, h(BODY), now)])
  {
    Handle(h, P, L, s, false, now, x);
    s' := Apply(h, s, Step(false, now, Recv(x)));
    XmitOpens(h, s.b.rx, now);
  }

  /** The receiver opens reassembly on the announcement and completes on the fragment. */
  lemma Deliver(h: HashFn, P: nat, L: nat, s: Sys, x: Stamped, d: Stamped, now: nat, tickA: nat, tickB: nat)
    returns (s': Sys)
    requires Can(h, P, L, s) && Clocks(s, now, tickA, tickB)
    requires now <= tickA + P && now <= tickB + P
    requires x.pkt == Announce(h) && x in s.a.net && now <= x.at + L
    requires d.pkt == FRAGMENT && d in s.a.net && now <= d.at + L
    requires Idle(s.b.rx) && 0 !in s.b.rx.replay
    ensures Can(h, P, L, s') && Clocks(s', now, tickA, tickB)
    ensures s'.a == s.a && s.b.net <= s'.b.net
    ensures Idle(s'.b.rx) && s'.b.rx.replay == s.b.rx.replay[0 := now]
    ensures Of(s'.b.rx.ended, 0) == Of(s.b.rx.ended, 0) + [HandedUp(BODY, now)]
  {
    BeginBatch(h, P, L, s, false, now);
    var s1 := Open(h, P, L, s, x, now, tickA, tickB);
    Handle(h, P, L, s1, false, now, d);
    DataCompletes(h, s1.b.rx, now, now);
    s' := FinishB(h, P, L, Apply(h, s1, Step(false, now, Recv(d))), now, tickA, tickB);
  }

  /** A fragment of an unknown message provokes a negative acknowledgement. */
  lemma Complain(h: HashFn, P: nat, L: nat, s: Sys, d: Stamped, now: nat, tickA: nat, tickB: nat) returns (s': Sys)
    requires Can(h, P, L, s) && Clocks(s, now, tickA, tickB)
    requires now <= tickA + P && now <= tickB + P
    requires d.pkt == FRAGMENT && d in s.a.net && now <= d.at + L
    requires Idle(s.b.rx) && 0 !in s.b.rx.replay
    ensures Can(h, P, L, s') && Clocks(s', now, tickA, tickB)
    ensures s'.a == s.a && s'.b.rx == s.b.rx && Stamped(Nack(0), now) in s'.b.net
  {
    BeginBatch(h, P, L, s, false, now);
    Handle(h, P, L, s, false, now, d);
    var s1 := Apply(h, s, Step(false, now, Recv(d)));
    assert GotData(h, s.b.rx, 0, 0, BODY, now) == RxStep(s.b.rx, {Nack(0)});
    s' := FinishB(h, P, L, s1, now, tickA, tickB);
  }

  /** The common beginning: a negative acknowledgement in flight, then the first delivery. */
  lemma FirstDelivery(h: HashFn, P: nat, L: nat) returns (s: Sys)
    ensures Can(h, P, L, s) && Mid(h, s, T, T, T)
  {
    var s0 := SubmitFirst(h, P, L);
    var s1 := Reflush(h, P, L, s0, 0, T, T, T);
    var d := Stamped(FRAGMENT, T);
    var s2 := Complain(h, P, L, s1, d, T, T, T);
    s := Deliver(h, P, L, s2, Stamped(Announce(h), T), d, T, T, T);
  }

  lemma TickA(h: HashFn, P: nat, L: nat, s: Sys, now: nat, tickA: nat, tickB: nat, t: nat) returns (s': Sys)
    requires Can(h, P, L, s) && Mid(h, s, now, tickA, tickB)
    requires now <= t <= T + DELIVERY_TIMEOUT && t <= tickA + P && t <= tickB + P
    ensures Can(h, P, L, s') && Mid(h, s', t, t, tickB)
  {
    var step := Step(true, t, Tick);
    Extend(h, P, L, s, step);
    s' := Apply(h, s, step);
    assert s'.a.tx.msgs == s.a.tx.msgs;
  }

  lemma TickB(h: HashFn, P: nat, L: nat, s: Sys, now: nat, tickA: nat, tickB: nat, t: nat) returns (s': Sys)
    requires Can(h, P, L, s) && Mid(h, s, now, tickA, tickB)
    requires now <= t < T + REPLAY_WINDOW && t <= tickA + P && t <= tickB + P
    ensures Can(h, P, L, s') && Mid(h, s', t, tickA, t)
  {
    var step := Step(false, t, Tick);
    Extend(h, P, L, s, step);
    s' := Apply(h, s, step);
    assert s'.b.rx.replay == s.b.rx.replay;
    assert Of(s'.b.rx.ended, 0) == Of(s.b.rx.ended, 0);
  }

  /** Both ends tick every millisecond up to the delivery timeout. */
  lemma Together(h: HashFn, P: nat, L: nat) returns (s: Sys)
    requires P >= 1
    ensures Can(h, P, L, s) && Mid(h, s, T + DELIVERY_TIMEOUT, T + DELIVERY_TIMEOUT, T + DELIVERY_TIMEOUT)
  {
    s := FirstDelivery(h, P, L);
    var t := T;
    while t < T + DELIVERY_TIMEOUT
      invariant t <= T + DELIVERY_TIMEOUT
      invariant Can(h, P, L, s) && Mid(h, s, t, t, t)
    {
      s := TickA(h, P, L, s, t, t, t, t + 1);
      s := TickB(h, P, L, s, t + 1, t + 1, t, t + 1);
      t := t + 1;
    }
  }

  /** Then the sender stops ticking for up to P, so its message stays pending. */
  lemma Apart(h: HashFn, P: nat, L: nat, until: nat) returns (s: Sys)
    requires P >= 1 && T + DELIVERY_TIMEOUT <= until <= T + DELIVERY_TIMEOUT + P && until < T + REPLAY_WINDOW
    ensures Can(h, P, L, s) && Mid(h, s, until, T + DELIVERY_TIMEOUT, until)
  {
    s := Together(h, P, L);
    var t := T + DELIVERY_TIMEOUT;
    while t < until
      invariant t <= until
      invariant Can(h, P, L, s) && Mid(h, s, t, T + DELIVERY_TIMEOUT, t)
    {
      s := TickB(h, P, L, s, t, T + DELIVERY_TIMEOUT, t, t + 1);
      t := t + 1;
    }
  }

  /** The sender answers a negative acknowledgement. */
  lemma Resend(h: HashFn, P: nat, L: nat, s: Sys, n: Stamped, lastFlush: nat, now: nat, tickA: nat, tickB: nat)
    returns (s': Sys)
    requires Can(h, P, L, s) && Clocks(s, now, tickA, tickB) && now <= tickA + P && now <= tickB + P
    requires s.a.tx.msgs == map[0 := Pending(h, lastFlush)]
    requires n in s.b.net && n.pkt == Nack(0) && now <= n.at + L
    ensures Can(h, P, L, s') && Clocks(s', now, tickA, tickB) && s'.b == s.b && s.a.net <= s'.a.net
    ensures Stamped(Announce(h), now) in s'.a.net
  {
    BeginBatch(h, P, L, s, true, now);
    Handle(h, P, L, s, true, now, n);
    assert XmitOf(Pending(h, lastFlush)) == Announce(h);
    s' := FinishA(h, P, L, Apply(h, s, Step(true, now, Recv(n))), now, tickA, tickB);
  }

  ghost predicate Twice(s: Sys) {
    exists t1, t2 :: Of(s.b.rx.ended, 0) == [HandedUp(BODY, t1), HandedUp(BODY, t2)]
  }

  // ---------------------------------------------------------------- Ticks too far apart

  /** The Tick that lets the id leave the receiver's filter. */
  lemma Forget(h: HashFn, P: nat, L: nat, s: Sys, tickA: nat) returns (s': Sys)
    requires Can(h, P, L, s) && Mid(h, s, T + REPLAY_WINDOW - 1, tickA, T + REPLAY_WINDOW - 1)
    requires P >= 1 && T + REPLAY_WINDOW <= tickA + P
    ensures Can(h, P, L, s') && Clocks(s', T + REPLAY_WINDOW, tickA, T + REPLAY_WINDOW) && s'.a == s.a
    ensures Idle(s'.b.rx) && s'.b.rx.replay == map[]
    ensures Of(s'.b.rx.ended, 0) == [HandedUp(BODY, T)]
  {
    var step := Step(false, T + REPLAY_WINDOW, Tick);
    Extend(h, P, L, s, step);
    s' := Apply(h, s, step);
    assert s'.b.rx.replay == map[];
    assert Of(s'.b.rx.ended, 0) == Of(s.b.rx.ended, 0);
  }

  /** The sender still holds the message when its id has left the receiver's filter. */
  lemma SlowTicks(h: HashFn, P: nat, L: nat) returns (s: Sys)
    requires DELIVERY_TIMEOUT + P >= REPLAY_WINDOW
    ensures Can(h, P, L, s) && Twice(s)
  {
    var now, tickA := T + REPLAY_WINDOW, T + DELIVERY_TIMEOUT;
    var s0 := Apart(h, P, L, now - 1);
    var s1 := Forget(h, P, L, s0, tickA);
    var s2 := Reflush(h, P, L, s1, T, now, tickA, now);
    var d := Stamped(FRAGMENT, now);
    var s3 := Complain(h, P, L, s2, d, now, tickA, now);
    var s4 := Resend(h, P, L, s3, Stamped(Nack(0), now), now, now, tickA, now);
    s := Deliver(h, P, L, s4, Stamped(Announce(h), now), d, now, tickA, now);
  }

  // ---------------------------------------------------------------- packets too old

  /** The second announcement and fragment are in flight; the receiver's filter may still hold the id. */
  ghost predicate Late(h: HashFn, s: Sys, now: nat, sent: nat) {
    && Clocks(s, now, now, now)
    && Idle(s.b.rx)
    && (forall id :: id in s.b.rx.replay ==> s.b.rx.replay[id] == T && now < T + REPLAY_WINDOW)
    && Of(s.b.rx.ended, 0) == [HandedUp(BODY, T)]
    && Stamped(Announce(h), sent) in s.a.net && Stamped(FRAGMENT, sent) in s.a.net
  }

  lemma TickBoth(h: HashFn, P: nat, L: nat, s: Sys, now: nat, sent: nat) returns (s': Sys)
    requires P >= 1 && Can(h, P, L, s) && Late(h, s, now, sent)
    ensures Can(h, P, L, s') && Late(h, s', now + 1, sent)
  {
    var s1 := TickSender(h, P, L, s, now, sent);
    s' := TickReceiver(h, P, L, s1, now, sent);
  }

  lemma TickSender(h: HashFn, P: nat, L: nat, s: Sys, now: nat, sent: nat) returns (s': Sys)
    requires P >= 1 && Can(h, P, L, s) && Late(h, s, now, sent)
    ensures Can(h, P, L, s') && Clocks(s', now + 1, now + 1, now) && s'.b == s.b
    ensures Stamped(Announce(h), sent) in s'.a.net && Stamped(FRAGMENT, sent) in s'.a.net
  {
    var tick := Step(true, now + 1, Tick);
    Extend(h, P, L, s, tick);
    s' := Apply(h, s, tick);
  }

  lemma TickReceiver(h: HashFn, P: nat, L: nat, s: Sys, now: nat, sent: nat) returns (s': Sys)
    requires P >= 1 && Can(h, P, L, s) && Clocks(s, now + 1, now + 1, now)
    requires Idle(s.b.rx) && forall id :: id in s.b.rx.replay ==> s.b.rx.replay[id] == T
    requires Of(s.b.rx.ended, 0) == [HandedUp(BODY, T)]
    requires Stamped(Announce(h), sent) in s.a.net && Stamped(FRAGMENT, sent) in s.a.net
    ensures Can(h, P, L, s') && Late(h, s', now + 1, sent)
  {
    var tick := Step(false, now + 1, Tick);
    Extend(h, P, L, s, tick);
    s' := Apply(h, s, tick);
    assert Of(s'.b.rx.ended, 0) == Of(s.b.rx.ended, 0);
  }

  lemma SlowPackets(h: HashFn, P: nat, L: nat) returns (s: Sys)
    requires P >= 1 && DELIVERY_TIMEOUT + P < REPLAY_WINDOW
    requires DELIVERY_TIMEOUT + P + L >= REPLAY_WINDOW && 2 * L >= REPLAY_WINDOW
    ensures Can(h, P, L, s) && Twice(s)
  {
    var sent: nat := Min(T + L, T + DELIVERY_TIMEOUT + P);
    var s0 := SentLate(h, P, L, sent);
    var s1 := WaitLate(h, P, L, s0, sent);
    var t := sent + L;
    s := Deliver(h, P, L, s1, Stamped(Announce(h), sent), Stamped(FRAGMENT, sent), t, t, t);
  }

  /** The first complaint is answered as late as possible. */
  lemma SentLate(h: HashFn, P: nat, L: nat, sent: nat) returns (s: Sys)
    requires P >= 1 && DELIVERY_TIMEOUT + P < REPLAY_WINDOW && sent <= T + L
    requires T + DELIVERY_TIMEOUT <= sent <= T + DELIVERY_TIMEOUT + P
    ensures Can(h, P, L, s) && Late(h, s, sent, sent)
  {
    var tickA := T + DELIVERY_TIMEOUT;
    var s0 := Apart(h, P, L, sent);
    var s1 := Reflush(h, P, L, s0, T, sent, tickA, sent);
    var s2 := Resend(h, P, L, s1, Stamped(Nack(0), T), sent, sent, tickA, sent);
    s := TickLate(h, P, L, s2, sent, tickA);
  }

  lemma TickLate(h: HashFn, P: nat, L: nat, s: Sys, sent: nat, tickA: nat) returns (s': Sys)
    requires Can(h, P, L, s) && Clocks(s, sent, tickA, sent) && sent <= tickA + P
    requires Idle(s.b.rx) && s.b.rx.replay == map[0 := T] && T <= sent < T + REPLAY_WINDOW
    requires Of(s.b.rx.ended, 0) == [HandedUp(BODY, T)]
    requires Stamped(Announce(h), sent) in s.a.net && Stamped(FRAGMENT, sent) in s.a.net
    ensures Can(h, P, L, s') && Late(h, s', sent, sent)
  {
    var tick := Step(true, sent, Tick);
    Extend(h, P, L, s, tick);
    s' := Apply(h, s, tick);
  }

  lemma WaitLate(h: HashFn, P: nat, L: nat, s: Sys, sent: nat) returns (s': Sys)
    requires P >= 1 && Can(h, P, L, s) && Late(h, s, sent, sent)
    ensures Can(h, P, L, s') && Late(h, s', sent + L, sent)
  {
    s' := s;
    for t := sent to sent + L
      invariant Can(h, P, L, s') && Late(h, s', t, sent)
    {
      s' := TickBoth(h, P, L, s', t, sent);
    }
  }

  ghost predicate HandedUpTwice(r: Rx, id: nat) {
    exists i, j :: 0 <= i < j < |Of(r.ended, id)| && Of(r.ended, id)[i].HandedUp? && Of(r.ended, id)[j].HandedUp?
  }

  lemma NoneTwice(h: HashFn, P: nat, L: nat, t0: nat, run: seq<Step>, aToB: bool, id: nat)
    requires Safe(P, L) && LegalTimed(h, P, L, t0, run)
    ensures !HandedUpTwice(To(After(h, t0, run), aToB).rx, id)
  {
    AtMostOnce(h, P, L, t0, run, aToB, id);
  }

  /** Otherwise a message is handed up twice, in a run in which every batch ends as the code ends it. */
  lemma SomeTwice(h: HashFn, P: nat, L: nat) returns (run: seq<Step>)
    requires P >= 1 && !Safe(P, L)
    ensures LegalTimed(h, P, L, T, run) && InBatches(run) && HandedUpTwice(To(After(h, T, run), true).rx, 0)
  {
    var s: Sys;
    if DELIVERY_TIMEOUT + P >= REPLAY_WINDOW {
      s := SlowTicks(h, P, L);
    } else {
      s := SlowPackets(h, P, L);
    }
    var bs :| Whole(bs) && Reaches(h, P, L, Steps(bs), s);
    run := Steps(bs);
    var e := Of(s.b.rx.ended, 0);
    assert e[0].HandedUp? && e[1].HandedUp?;
  }

  /** In every timed run, in both directions, no message is handed up twice. */
  ghost predicate DeliversAtMostOnce(h: HashFn, P: nat, L: nat) {
    forall t0: nat, run: seq<Step>, aToB: bool, id: nat :: LegalTimed(h, P, L, t0, run) ==>
      !HandedUpTwice(To(After(h, t0, run), aToB).rx, id)
  }

  /** The same of the runs in which packets are handled in batches. */
  ghost predicate BatchesDeliverAtMostOnce(h: HashFn, P: nat, L: nat) {
    forall t0: nat, run: seq<Step>, aToB: bool, id: nat :: LegalTimed(h, P, L, t0, run) && InBatches(run) ==>
      !HandedUpTwice(To(After(h, t0, run), aToB).rx, id)
  }

  /**
   * The exact condition: with Ticks at least every P ms and packets handled within L ms, no
   * run hands a message up twice if and only if Safe(P, L). Restricting the runs to those in
   * which every batch of packets is followed by acknowledgements and a pump changes nothing.
   */
  lemma ExactTiming(h: HashFn, P: nat, L: nat)
    requires P >= 1
    ensures DeliversAtMostOnce(h, P, L) <==> Safe(P, L)
    ensures BatchesDeliverAtMostOnce(h, P, L) <==> Safe(P, L)
  {
    if Safe(P, L) {
      forall t0: nat, run: seq<Step>, aToB: bool, id: nat | LegalTimed(h, P, L, t0, run)
        ensures !HandedUpTwice(To(After(h, t0, run), aToB).rx, id)
      {
        NoneTwice(h, P, L, t0, run, aToB, id);
      }
    } else {
      var run := SomeTwice(h, P, L);
      var r := To(After(h, T, run), true).rx;
      assert HandedUpTwice(r, 0);
    }
  }
}
