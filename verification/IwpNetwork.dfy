/**
 * Two IWP sessions and the network between them. Everything an end ever sent stays available
 * for delivery, at any later time, in any order and any number of times, or never: packets
 * are lost, duplicated, reordered and delayed without bound.
 */
module IwpNetwork {
  import opened Bytes
  import opened IwpMessage
  import opened IwpProtocol

  datatype Stamped = Stamped(pkt: Packet, at: nat)

  /** One end: its session, every packet it has sent, and the time of its last Tick. */
  datatype Peer = Peer(tx: Tx, rx: Rx, open: bool, net: set<Stamped>, ticked: nat)

  datatype Sys = Sys(a: Peer, b: Peer, now: nat)

  datatype Action =
    | Submit(data: seq<Byte>, handler: bool)
    | Recv(p: Stamped)
    | MackRound(split: seq<seq<nat>>)
    | Pump
    | Tick
    | Close

  datatype Step = Step(atA: bool, at: nat, action: Action)

  function Stamp(sent: set<Packet>, at: nat): (s: set<Stamped>) {
    set p | p in sent :: Stamped(p, at)
  }

  function NewPeer(now: nat): (p: Peer) {
    Peer(EMPTY_TX, EMPTY_RX, true, {}, now)
  }

  function Init(now: nat): (s: Sys) {
    Sys(NewPeer(now), NewPeer(now), now)
  }

  ghost function TxAct(h: HashFn, me: Peer, action: Action, now: nat): (e: TxStep) {
    match action
    case Submit(data, handler) => Send(h, me.tx, data, handler, now)
    case Recv(p) => (
      match p.pkt
      case Acks(id, mask) => GotAcks(me.tx, id, mask, now)
      case Nack(id) => GotNack(me.tx, id)
      case Mack(ids) => GotMack(me.tx, ids, now)
      case _ => TxStep(me.tx, {}))
    case Pump => if me.open then Flush(me.tx, now) else TxStep(me.tx, {})
    case Tick => TxTick(me.tx, now)
    case _ => TxStep(me.tx, {})
  }

  ghost function RxAct(h: HashFn, me: Peer, action: Action, now: nat): (e: RxStep) {
    match action
    case Recv(p) => (
      match p.pkt
      case Xmit(id, size, digest, inline) => GotXmit(h, me.rx, id, size, digest, inline, now)
      case Data(id, offset, bytes) => GotData(h, me.rx, id, offset, bytes, now)
      case _ => RxStep(me.rx, {}))
    case MackRound(split) => SendMacks(me.rx, split)
    case Pump => if me.open then SendAcks(me.rx, now) else RxStep(me.rx, {})
    case Tick => RxTick(me.rx, now)
    case _ => RxStep(me.rx, {})
  }

  predicate Closes(action: Action) {
    action.Close? || (action.Recv? && action.p.pkt.Clos?)
  }

  ghost function Act(h: HashFn, me: Peer, action: Action, now: nat): (me': Peer) {
    var t, r := TxAct(h, me, action, now), RxAct(h, me, action, now);
    var bye := if Closes(action) && me.open then {Clos} else {};
    Peer(t.t, r.r, me.open && !Closes(action),
         me.net + Stamp(t.sent + r.sent + bye, now),
         if action.Tick? then now else me.ticked)
  }

  /** What an honest caller may do next: time does not run back, packets come from the peer. */
  ghost predicate Allowed(me: Peer, other: Peer, action: Action) {
    match action
    case Submit(data, _) => |data| <= MAX_LINK_MSG_SIZE
    case Recv(p) => p in other.net
    case MackRound(split) => IsSplit(split, me.rx.macks)
    case _ => true
  }

  ghost predicate Enabled(s: Sys, step: Step) {
    && s.now <= step.at
    && (if step.atA then Allowed(s.a, s.b, step.action) else Allowed(s.b, s.a, step.action))
  }

  ghost function Apply(h: HashFn, s: Sys, step: Step): (s': Sys) {
    if step.atA then
      Sys(Act(h, s.a, step.action, step.at), s.b, step.at)
    else
      Sys(s.a, Act(h, s.b, step.action, step.at), step.at)
  }

  /** The state after a run from time t0. */
  ghost function After(h: HashFn, t0: nat, run: seq<Step>): (s: Sys) {
    if run == [] then Init(t0) else Apply(h, After(h, t0, run[..|run| - 1]), run[|run| - 1])
  }

  ghost predicate Legal(h: HashFn, t0: nat, run: seq<Step>) {
    run == [] || (Legal(h, t0, run[..|run| - 1]) && Enabled(After(h, t0, run[..|run| - 1]), run[|run| - 1]))
  }
}
