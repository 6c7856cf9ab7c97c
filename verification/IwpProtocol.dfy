/**
 * The steps of one IWP session as functions on values. A session has an outgoing half (Tx)
 * and an incoming half (Rx); every packet kind and every timer touches them separately.
 *
 * The histories `started`, `outcomes` and `ended` record, per message id, what was accepted
 * for sending, the completion callbacks that fired, and how the receiving side was done with
 * the message (handed up, or given up on a receive timeout). The steps only append to them.
 */
module IwpProtocol {
  import opened Bytes
  import opened IwpMessage

  const MAX_SEND_QUEUE: nat := 1024
  const MAX_ACKS_IN_MACK: nat := 128

  datatype Started = Started(data: seq<Byte>, handler: bool, at: nat)
  datatype Outcome = Outcome(success: bool, at: nat)
  datatype Ending = HandedUp(data: seq<Byte>, at: nat) | GivenUp(at: nat)

  datatype Tx = Tx(
    nextId: nat, msgs: map<nat, Outbound>,
    started: map<nat, Started>, outcomes: map<nat, seq<Outcome>>)

  datatype Rx = Rx(
    msgs: map<nat, Inbound>, replay: map<nat, nat>, macks: set<nat>,
    ended: map<nat, seq<Ending>>)

  datatype TxStep = TxStep(t: Tx, sent: set<Packet>)
  datatype RxStep = RxStep(r: Rx, sent: set<Packet>)

  const EMPTY_TX := Tx(0, map[], map[], map[])
  const EMPTY_RX := Rx(map[], map[], {}, map[])

  /** The history of one id. */
  function Of<T>(m: map<nat, seq<T>>, id: nat): (s: seq<T>) {
    if id in m then m[id] else []
  }

  function Append<T>(m: map<nat, seq<T>>, id: nat, x: T): (r: map<nat, seq<T>>) {
    m[id := Of(m, id) + [x]]
  }

  // ---------------------------------------------------------------- outgoing half

  function Accepts(t: Tx): (b: bool) {
    |t.msgs| < MAX_SEND_QUEUE
  }

  /**
   * Queue a message and announce it. The fragments follow with the next flush: the length
   * test that would flush at once looks at the buffer after its contents were moved away.
   */
  function Send(h: HashFn, t: Tx, data: seq<Byte>, handler: bool, now: nat): (e: TxStep) {
    if !Accepts(t) then
      TxStep(t, {})
    else
      var m := NewOutbound(h, t.nextId, data, handler, now);
      TxStep(t.(nextId := t.nextId + 1,
                msgs := t.msgs[t.nextId := m],
                started := t.started[t.nextId := Started(data, handler, now)]),
             {XmitOf(m)})
  }

  /** Remove messages and fire their completion handlers, where they have one. */
  function Finish(t: Tx, ids: set<nat>, success: bool, now: nat): (r: Tx) {
    var fired := set id | id in ids && id in t.msgs && t.msgs[id].handler;
    t.(msgs := t.msgs - ids,
       outcomes := map id | id in t.outcomes.Keys + fired ::
         if id in fired then Of(t.outcomes, id) + [Outcome(success, now)] else Of(t.outcomes, id))
  }

  /** ACKS replaces the acknowledged set; a complete set completes the message. */
  ghost function GotAcks(t: Tx, id: nat, mask: set<nat>, now: nat): (e: TxStep) {
    if id !in t.msgs then
      TxStep(t, {})
    else
      var m := t.msgs[id].(acks := mask);
      if Covers(mask, |m.data|) then
        TxStep(Finish(t, {id}, true, now), {})
      else
        TxStep(t.(msgs := t.msgs[id := m.(lastFlush := now)]), Unacked(m))
  }

  function GotNack(t: Tx, id: nat): (e: TxStep) {
    TxStep(t, if id in t.msgs then {XmitOf(t.msgs[id])} else {})
  }

  function GotMack(t: Tx, ids: seq<nat>, now: nat): (e: TxStep) {
    TxStep(Finish(t, set id | id in ids, true, now), {})
  }

  /** Retransmission: flush every message whose flush interval has passed. */
  function Flush(t: Tx, now: nat): (e: TxStep) {
    TxStep(
      t.(msgs := map id | id in t.msgs ::
           if ShouldFlush(t.msgs[id], now) then t.msgs[id].(lastFlush := now) else t.msgs[id]),
      set id, p | id in t.msgs && ShouldFlush(t.msgs[id], now) && p in Unacked(t.msgs[id]) :: p)
  }

  function TxTick(t: Tx, now: nat): (e: TxStep) {
    TxStep(Finish(t, set id | id in t.msgs && TxTimedOut(t.msgs[id], now), false, now), {})
  }

  // ---------------------------------------------------------------- incoming half

  function HandUp(r: Rx, id: nat, data: seq<Byte>, now: nat): (r': Rx) {
    r.(msgs := r.msgs - {id},
       replay := r.replay[id := now],
       macks := r.macks + {id},
       ended := Append(r.ended, id, HandedUp(data, now)))
  }

  ghost function GotXmit(h: HashFn, r: Rx, id: nat, size: nat, digest: Digest,
                         inline: Option<seq<Byte>>, now: nat): (e: RxStep)
  {
    if id in r.replay then
      RxStep(r.(macks := r.macks + {id}), {})
    else if id in r.msgs then
      RxStep(r, {})
    else
      var m := NewInbound(id, size, digest, now);
      match inline
      case None => RxStep(r.(msgs := r.msgs[id := m]), {})
      case Some(bytes) =>
        var m' := HandleData(m, 0, bytes, now);
        if Covers(m'.acks, |m'.data|) && Verify(h, m') then
          RxStep(HandUp(r, id, m'.data, now), {})
        else
          RxStep(r.(msgs := r.msgs[id := m']), {})
  }

  ghost function GotData(h: HashFn, r: Rx, id: nat, offset: nat, bytes: seq<Byte>, now: nat): (e: RxStep) {
    if id !in r.msgs then
      if id in r.replay then RxStep(r.(macks := r.macks + {id}), {}) else RxStep(r, {Nack(id)})
    else
      var m := HandleData(r.msgs[id], offset, bytes, now);
      if !Covers(m.acks, |m.data|) then
        RxStep(r.(msgs := r.msgs[id := m]), {})
      else if Verify(h, m) then
        RxStep(HandUp(r, id, m.data, now), {})
      else
        RxStep(r.(msgs := r.msgs - {id}), {})
  }

  /** Acknowledge every message in reassembly whose resend interval has passed. */
  function SendAcks(r: Rx, now: nat): (e: RxStep) {
    RxStep(
      r.(msgs := map id | id in r.msgs ::
           if ShouldSendAcks(r.msgs[id], now) then r.msgs[id].(lastAckSent := now) else r.msgs[id]),
      set id | id in r.msgs && ShouldSendAcks(r.msgs[id], now) :: Acks(id, r.msgs[id].acks))
  }

  function Join(split: seq<seq<nat>>): (all: seq<nat>) {
    if split == [] then [] else Join(split[..|split| - 1]) + split[|split| - 1]
  }

  /**
   * A division of the queued ids into multi-acknowledgements: as many entries as there are
   * ids and every id among them, so each id exactly once.
   */
  ghost predicate IsSplit(split: seq<seq<nat>>, ids: set<nat>) {
    && (forall i :: 0 <= i < |split| ==> 0 < |split[i]| <= MAX_ACKS_IN_MACK)
    && |Join(split)| == |ids|
    && (set id | id in Join(split)) == ids
  }

  lemma {:induction false} JoinHas(split: seq<seq<nat>>, i: nat, id: nat)
    requires i < |split| && id in split[i]
    ensures id in Join(split)
  {
    if i < |split| - 1 {
      JoinHas(split[..|split| - 1], i, id);
    }
  }

  function SendMacks(r: Rx, split: seq<seq<nat>>): (e: RxStep) {
    RxStep(r.(macks := {}), set i | 0 <= i < |split| :: Mack(split[i]))
  }

  /** Give up on messages in reassembly, remembering their ids. */
  function GiveUp(r: Rx, ids: set<nat>, now: nat): (r': Rx) {
    r.(msgs := r.msgs - ids,
       replay := (map id | id in ids :: now) + r.replay,
       ended := map id | id in r.ended.Keys + ids ::
         if id in ids then Of(r.ended, id) + [GivenUp(now)] else Of(r.ended, id))
  }

  /** Let ids leave the replay filter when their window has passed. */
  function Decay(r: Rx, now: nat): (r': Rx) {
    r.(replay := map id | id in r.replay && !(r.replay[id] + REPLAY_WINDOW <= now) :: r.replay[id])
  }

  function RxTick(r: Rx, now: nat): (e: RxStep) {
    var stale := set id | id in r.msgs && RxTimedOut(r.msgs[id], now);
    RxStep(Decay(GiveUp(r, stale, now), now), {})
  }
}
