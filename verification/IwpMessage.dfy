/**
 * One message of an IWP session on its way out or in: fragments, the acknowledged set,
 * the retransmission and timeout clocks.
 *
 * The source keeps these records by value inside the session's hash maps, so they are
 * values here and an update yields the new value of the map entry.
 */
module IwpMessage {
  import opened Bytes

  const FRAGMENT_SIZE: nat := 1024
  const MAX_LINK_MSG_SIZE: nat := 8192

  // milliseconds
  const DELIVERY_TIMEOUT: nat := 500
  const RECEIVAL_TIMEOUT: nat := DELIVERY_TIMEOUT * 8 / 5
  const REPLAY_WINDOW: nat := RECEIVAL_TIMEOUT * 3 / 2
  const ACK_RESEND_INTERVAL: nat := DELIVERY_TIMEOUT / 2
  const TX_FLUSH_INTERVAL: nat := DELIVERY_TIMEOUT / 5 * 4

  type Digest = seq<Byte>

  /** The short hash is an uninterpreted function; no property of it is used. */
  type HashFn = seq<Byte> -> Digest

  /**
   * Plaintext packets between established peers. `inline` holds the octets an XMIT handler
   * passes on to the new message: it is Some exactly when the packet ends with the digest.
   */
  datatype Packet =
    | Xmit(id: nat, size: nat, digest: Digest, inline: Option<seq<Byte>>)
    | Data(id: nat, offset: nat, bytes: seq<Byte>)
    | Acks(id: nat, mask: set<nat>)
    | Nack(id: nat)
    | Mack(ids: seq<nat>)
    | Ping
    | Clos

  datatype Outbound = Outbound(
    data: seq<Byte>, id: nat, acks: set<nat>, handler: bool,
    lastFlush: nat, digest: Digest, startedAt: nat)

  datatype Inbound = Inbound(
    data: seq<Byte>, digest: Digest, id: nat,
    lastAckSent: nat, lastActive: nat, acks: set<nat>)

  /** Does an acknowledged set cover every fragment of a message of n octets? */
  ghost predicate Covers(acks: set<nat>, n: nat) {
    forall k: nat :: k * FRAGMENT_SIZE < n ==> k in acks
  }

  function FragmentEnd(n: nat, k: nat): (e: nat) {
    Min((k + 1) * FRAGMENT_SIZE, n)
  }

  function Fragment(data: seq<Byte>, k: nat): (f: seq<Byte>)
    requires k * FRAGMENT_SIZE < |data|
  {
    data[k * FRAGMENT_SIZE .. FragmentEnd(|data|, k)]
  }

  function NewOutbound(h: HashFn, id: nat, data: seq<Byte>, handler: bool, now: nat): (m: Outbound) {
    Outbound(data, id, {}, handler, 0, h(data), now)
  }

  function NewInbound(id: nat, size: nat, digest: Digest, now: nat): (m: Inbound) {
    Inbound(Zeros(size), digest, id, 0, now, {})
  }

  /**
   * The announcement of a message. It also carries the first fragment, which a receiver
   * skips; only the announcement of the empty message ends with the digest.
   */
  function XmitOf(m: Outbound): (p: Packet) {
    Xmit(m.id, |m.data|, m.digest, if m.data == [] then Some([]) else None)
  }

  function DataOf(m: Outbound, k: nat): (p: Packet)
    requires k * FRAGMENT_SIZE < |m.data|
  {
    Data(m.id, k * FRAGMENT_SIZE, Fragment(m.data, k))
  }

  /** The DATA packets of one flush: one for each fragment not yet acknowledged. */
  function Unacked(m: Outbound): (p: set<Packet>) {
    set k: nat | k < |m.data| && k * FRAGMENT_SIZE < |m.data| && k !in m.acks :: DataOf(m, k)
  }

  function ShouldFlush(m: Outbound, now: nat): (b: bool) {
    now - m.lastFlush >= TX_FLUSH_INTERVAL
  }

  function TxTimedOut(m: Outbound, now: nat): (b: bool) {
    now > m.startedAt && now - m.startedAt > DELIVERY_TIMEOUT
  }

  /** The source compares with the delivery timeout here, not with the receival timeout. */
  function RxTimedOut(m: Inbound, now: nat): (b: bool) {
    now > m.lastActive && now - m.lastActive > DELIVERY_TIMEOUT
  }

  function ShouldSendAcks(m: Inbound, now: nat): (b: bool) {
    now > m.lastAckSent + ACK_RESEND_INTERVAL
  }

  function HandleData(m: Inbound, offset: nat, bytes: seq<Byte>, now: nat): (r: Inbound)
    ensures |r.data| == |m.data| && r.digest == m.digest && r.id == m.id && m.acks <= r.acks
  {
    if offset + |bytes| > |m.data| then
      m
    else
      m.(data := m.data[..offset] + bytes + m.data[offset + |bytes|..],
         acks := m.acks + {offset / FRAGMENT_SIZE},
         lastActive := now)
  }

  function Verify(h: HashFn, m: Inbound): (b: bool) {
    h(m.data) == m.digest
  }

  /** The acknowledgement bits of a message; asking for or setting any other throws. */
  const ACK_BITS: nat := MAX_LINK_MSG_SIZE / FRAGMENT_SIZE

  /** The loop of IsTransmitted and IsCompleted: test the bit of every fragment offset. */
  method AllAcked(acks: set<nat>, n: nat) returns (thrown: bool, all: bool)
    ensures thrown <==> n > MAX_LINK_MSG_SIZE && Covers(acks, MAX_LINK_MSG_SIZE)
    ensures !thrown ==> (all <==> Covers(acks, n))
  {
    var idx, k := 0, 0;
    while idx < n
      invariant idx == k * FRAGMENT_SIZE && k <= ACK_BITS
      invariant forall j: nat :: j < k ==> j in acks
    {
      if k == ACK_BITS {
        return true, false;
      }
      if idx / FRAGMENT_SIZE !in acks {
        return false, false;
      }
      idx, k := idx + FRAGMENT_SIZE, k + 1;
    }
    return false, true;
  }

  /** Setting the bit of a fragment that fits the message throws. */
  predicate SetThrows(m: Inbound, offset: nat, bytes: seq<Byte>) {
    offset + |bytes| <= |m.data| && offset >= MAX_LINK_MSG_SIZE
  }

  /** Handling a fragment throws: in setting its bit, or in looking at the bits of a message that has too many. */
  ghost predicate Overruns(m: Inbound, offset: nat, bytes: seq<Byte>, now: nat) {
    || SetThrows(m, offset, bytes)
    || (|m.data| > MAX_LINK_MSG_SIZE && Covers(HandleData(m, offset, bytes, now).acks, MAX_LINK_MSG_SIZE))
  }

  /** The message that an exception then leaves behind. */
  function Overrun(m: Inbound, offset: nat, bytes: seq<Byte>, now: nat): (r: Inbound)
    ensures |r.data| == |m.data|
  {
    if SetThrows(m, offset, bytes) then m.(data := HandleData(m, offset, bytes, now).data)
    else HandleData(m, offset, bytes, now)
  }

  /** Handling throws exactly when a bit beyond the eight is set, or looked at because the eight are all set. */
  lemma OverrunsExact(m: Inbound, offset: nat, bytes: seq<Byte>, now: nat)
    ensures Overruns(m, offset, bytes, now) <==>
      || (offset + |bytes| <= |m.data| && offset / 1024 >= 8)
      || (|m.data| > 8 * 1024 && forall k: nat :: k < 8 ==>
            k in m.acks || (k == offset / 1024 && offset + |bytes| <= |m.data|))
  {
    var acks := HandleData(m, offset, bytes, now).acks;
    assert forall k: nat :: k in acks <==> k in m.acks || (k == offset / 1024 && offset + |bytes| <= |m.data|);
    assert forall k: nat :: k < 8 <==> k * FRAGMENT_SIZE < MAX_LINK_MSG_SIZE;
    assert (forall k: nat :: k < 8 ==> k in acks) ==> Covers(acks, MAX_LINK_MSG_SIZE);
  }

  /** An exception leaves the octets of the fragment behind, and no bit beyond the eight. */
  lemma OverrunLeaves(m: Inbound, offset: nat, bytes: seq<Byte>, now: nat)
    requires Overruns(m, offset, bytes, now) && forall k :: k in m.acks ==> k < 8
    ensures var r := Overrun(m, offset, bytes, now);
      && (forall k :: k in r.acks ==> k < 8) && m.acks <= r.acks
      && (offset + |bytes| <= |m.data| ==> r.data[offset..offset + |bytes|] == bytes && |r.data| == |m.data|)
      && (offset + |bytes| > |m.data| ==> r == m)
  {
  }

  /** The missing fragments among the first k, in order of offset. */
  function UnackedList(m: Outbound, k: nat): (l: seq<Packet>) {
    if k == 0 then
      []
    else
      var rest := UnackedList(m, k - 1);
      if (k - 1) * FRAGMENT_SIZE < |m.data| && k - 1 !in m.acks then rest + [DataOf(m, k - 1)] else rest
  }

  /** DATA packets by strictly increasing offset, so without repetition. */
  ghost predicate ByOffset(l: seq<Packet>) {
    && (forall i :: 0 <= i < |l| ==> l[i].Data?)
    && (forall i, j :: 0 <= i < j < |l| ==> l[i].offset < l[j].offset)
  }

  /** The list holds each packet of the flush exactly once. */
  lemma {:induction false} UnackedListed(m: Outbound, k: nat)
    ensures forall p :: p in UnackedList(m, k) <==>
      exists j: nat :: j < k && j * FRAGMENT_SIZE < |m.data| && j !in m.acks && p == DataOf(m, j)
    ensures ByOffset(UnackedList(m, k))
  {
    if k > 0 {
      UnackedListed(m, k - 1);
      var l := UnackedList(m, k - 1);
      forall i | 0 <= i < |l|
        ensures l[i].Data? && l[i].offset < (k - 1) * FRAGMENT_SIZE
      {
        assert l[i] in l;
      }
    }
  }

  /** FlushUnAcked walks the offsets and emits each missing fragment once, in order. */
  method FlushUnAcked(m: Outbound, now: nat) returns (m': Outbound, sent: seq<Packet>)
    ensures m' == m.(lastFlush := now)
    ensures (set p | p in sent) == Unacked(m)
    ensures ByOffset(sent)
  {
    sent := [];
    var idx, k: nat := 0, 0;
    while idx < |m.data|
      invariant idx == k * FRAGMENT_SIZE
      invariant sent == UnackedList(m, k)
    {
      if idx / FRAGMENT_SIZE !in m.acks {
        sent := sent + [Data(m.id, idx, m.data[idx .. FragmentEnd(|m.data|, k)])];
      }
      idx, k := idx + FRAGMENT_SIZE, k + 1;
    }
    UnackedListed(m, k);
    m' := m.(lastFlush := now);
  }
}
