/**
 * The octet layout of IWP packets: 32 octets of keyed hash and 32 of nonce, then the version,
 * the command, the fields of the command and random padding.
 */
module IwpWire {
  import opened Bytes
  import opened IwpMessage

  const PACKET_OVERHEAD: nat := 64
  const COMMAND_OVERHEAD: nat := 2
  const DIGEST_SIZE: nat := 32
  const PROTO_VERSION: Byte := 0

  const PING: Byte := 0
  const XMIT: Byte := 1
  const DATA: Byte := 2
  const ACKS: Byte := 3
  const NACK: Byte := 4
  const MACK: Byte := 5
  const CLOS: Byte := 0xff

  /** CreatePacket: the header octets and the padding are random or filled in later. */
  function CreatePacket(head: seq<Byte>, cmd: Byte, plain: seq<Byte>, pad: seq<Byte>): (pkt: seq<Byte>) {
    head + [PROTO_VERSION, cmd] + plain + pad
  }

  predicate IsHead(head: seq<Byte>) {
    |head| == PACKET_OVERHEAD
  }

  // ---------------------------------------------------------------- acknowledged sets as octets

  /** Two to the power k. */
  function Bit(k: nat): (b: nat)
    ensures b > 0
  {
    if k == 0 then 1 else 2 * Bit(k - 1)
  }

  /** The bits below n of a set, as a number. */
  function MaskValue(mask: set<nat>, n: nat): (v: nat)
    ensures v < Bit(n)
  {
    if n == 0 then 0 else MaskValue(mask, n - 1) + (if n - 1 in mask then Bit(n - 1) else 0)
  }

  function MaskByte(mask: set<nat>): (b: Byte) {
    EightBits();
    MaskValue(mask, 8)
  }

  function MaskOf(b: Byte): (mask: set<nat>) {
    set k: nat | k < 8 && b / Bit(k) % 2 == 1
  }

  lemma EightBits()
    ensures Bit(0) == 1 && Bit(1) == 2 && Bit(2) == 4 && Bit(3) == 8
    ensures Bit(4) == 16 && Bit(5) == 32 && Bit(6) == 64 && Bit(7) == 128 && Bit(8) == 256
  {
    assert Bit(3) == 2 * Bit(2);
    assert Bit(4) == 2 * Bit(3);
    assert Bit(5) == 2 * Bit(4);
    assert Bit(6) == 2 * Bit(5);
    assert Bit(7) == 2 * Bit(6);
  }

  /** Bit k of the value of a set says whether k is in the set. */
  lemma {:induction false} MaskBit(mask: set<nat>, n: nat, k: nat)
    requires k < n
    ensures MaskValue(mask, n) / Bit(k) % 2 == if k in mask then 1 else 0
  {
    var low := MaskValue(mask, n - 1);
    if k == n - 1 {
      if k in mask {
        DivOf(low + Bit(k), 1, Bit(k), low);
      } else {
        DivOf(low, 0, Bit(k), low);
      }
    } else {
      MaskBit(mask, n - 1, k);
      if n - 1 in mask {
        var q := BitMultiple(k, n - 1);
        DivShift(low, q, Bit(k));
      }
    }
  }

  lemma DivOf(n: nat, q: nat, m: nat, d: nat)
    requires d < m && n == q * m + d
    ensures n / m == q
  {
    ModOf(n, q, m, d);
    MulAway(n / m - q, m);
  }

  lemma {:induction false} BitMultiple(k: nat, n: nat) returns (q: nat)
    requires k < n
    ensures Bit(n) == 2 * q * Bit(k)
  {
    if n == k + 1 {
      q := 1;
    } else {
      var q' := BitMultiple(k, n - 1);
      q := 2 * q';
    }
  }

  lemma DivShift(low: nat, q: nat, m: nat)
    requires m > 0
    ensures (low + 2 * q * m) / m % 2 == low / m % 2
  {
    var d := low % m;
    assert low == (low / m) * m + d;
    assert low + 2 * q * m == (low / m + 2 * q) * m + d;
    DivOf(low + 2 * q * m, low / m + 2 * q, m, d);
  }

  /** The octet of an acknowledged set of eight fragments gives the set back. */
  lemma MaskRoundTrip(mask: set<nat>)
    requires forall k :: k in mask ==> k < 8
    ensures MaskOf(MaskByte(mask)) == mask
  {
    forall k: nat | k < 8
      ensures k in MaskOf(MaskByte(mask)) <==> k in mask
    {
      MaskBit(mask, 8, k);
    }
  }

  // ---------------------------------------------------------------- building

  function BuildXmit(head: seq<Byte>, m: Outbound): (pkt: seq<Byte>) {
    CreatePacket(head, XMIT,
      ToBE(|m.data|, 2) + ToBE(m.id, 8) + m.digest + m.data[..Min(|m.data|, FRAGMENT_SIZE)], [])
  }

  function BuildData(head: seq<Byte>, id: nat, offset: nat, bytes: seq<Byte>): (pkt: seq<Byte>) {
    CreatePacket(head, DATA, ToBE(offset, 2) + ToBE(id, 8) + bytes, [])
  }

  function BuildAcks(head: seq<Byte>, id: nat, mask: set<nat>, pad: seq<Byte>): (pkt: seq<Byte>) {
    CreatePacket(head, ACKS, ToBE(id, 8) + [MaskByte(mask)], pad)
  }

  function BuildNack(head: seq<Byte>, id: nat, pad: seq<Byte>): (pkt: seq<Byte>) {
    CreatePacket(head, NACK, ToBE(id, 8), pad)
  }

  function Words(ids: seq<nat>): (b: seq<Byte>)
    ensures |b| == 8 * |ids|
  {
    if ids == [] then [] else Words(ids[..|ids| - 1]) + ToBE(ids[|ids| - 1], 8)
  }

  function BuildMack(head: seq<Byte>, ids: seq<nat>, pad: seq<Byte>): (pkt: seq<Byte>)
    requires |ids| < 256
  {
    CreatePacket(head, MACK, [|ids|] + Words(ids), pad)
  }

  // ---------------------------------------------------------------- parsing

  function Word(pkt: seq<Byte>, at: nat, width: nat): (n: nat)
    requires at + width <= |pkt|
  {
    FromBE(pkt[at .. at + width])
  }

  function ReadWords(pkt: seq<Byte>, at: nat, count: nat): (ids: seq<nat>)
    requires at + 8 * count <= |pkt|
    ensures |ids| == count
  {
    if count == 0 then [] else ReadWords(pkt, at, count - 1) + [Word(pkt, at + 8 * (count - 1), 8)]
  }

  // What the handler of each command reads from a decrypted packet; None when it drops it.

  /**
   * An announcement that ends with its digest makes the handler take the last octets of the
   * packet itself as data, as many as the announced size.
   */
  function ParseXmit(pkt: seq<Byte>): (p: Option<Packet>)
    requires InBounds(pkt) && (|pkt| == 108 ==> pkt[65] == XMIT)
  {
    if |pkt| < 108 then None
    else Some(Xmit(Word(pkt, 68, 8), Word(pkt, 66, 2), pkt[76..108],
                   if |pkt| == 108 then Some(pkt[|pkt| - Min(Word(pkt, 66, 2), FRAGMENT_SIZE)..]) else None))
  }

  function ParseData(pkt: seq<Byte>): (p: Option<Packet>) {
    if |pkt| < 76 then None else Some(Data(Word(pkt, 68, 8), Word(pkt, 66, 2), pkt[76..]))
  }

  function ParseAcks(pkt: seq<Byte>): (p: Option<Packet>) {
    if |pkt| < 75 then None else Some(Acks(Word(pkt, 66, 8), MaskOf(pkt[74])))
  }

  function ParseNack(pkt: seq<Byte>): (p: Option<Packet>) {
    if |pkt| < 74 then None else Some(Nack(Word(pkt, 66, 8)))
  }

  function ParseMack(pkt: seq<Byte>): (p: Option<Packet>) {
    if |pkt| < 67 then None
    else
      var count: nat := pkt[66];
      if |pkt| < 67 + 8 * count then None else Some(Mack(ReadWords(pkt, 67, count)))
  }

  /** The dispatch on version and command. */
  function Parse(pkt: seq<Byte>): (p: Option<Packet>)
    requires |pkt| >= PACKET_OVERHEAD + COMMAND_OVERHEAD && InBounds(pkt)
  {
    var cmd := pkt[65];
    if pkt[64] != PROTO_VERSION then None
    else if cmd == XMIT then ParseXmit(pkt)
    else if cmd == DATA then ParseData(pkt)
    else if cmd == ACKS then ParseAcks(pkt)
    else if cmd == NACK then ParseNack(pkt)
    else if cmd == MACK then ParseMack(pkt)
    else if cmd == PING then Some(Ping)
    else if cmd == CLOS then Some(Clos)
    else None
  }

  /** The source reads outside the packet otherwise. */
  predicate InBounds(pkt: seq<Byte>) {
    |pkt| == 108 ==> Min(Word(pkt, 66, 2), FRAGMENT_SIZE) <= |pkt| || pkt[65] != XMIT
  }

  // ---------------------------------------------------------------- round trips

  lemma WordAt(a: seq<Byte>, n: nat, width: nat, b: seq<Byte>)
    requires n < Range(width)
    ensures Word(a + ToBE(n, width) + b, |a|, width) == n
  {
    var pkt := a + ToBE(n, width) + b;
    assert pkt[|a| .. |a| + width] == ToBE(n, width);
    FromToBE(n, width);
    ModOf(n, 0, Range(width), n);
  }

  lemma XmitRoundTrip(head: seq<Byte>, m: Outbound)
    requires IsHead(head) && |m.data| <= MAX_LINK_MSG_SIZE && |m.digest| == DIGEST_SIZE && m.id < Range(8)
    ensures var pkt := BuildXmit(head, m);
      |pkt| >= 108 && InBounds(pkt) && Parse(pkt) == Some(XmitOf(m)) && pkt[108..] == m.data[..Min(|m.data|, 1024)]
  {
    RangeValues();
    var pkt, extra := BuildXmit(head, m), m.data[..Min(|m.data|, FRAGMENT_SIZE)];
    var a := head + [PROTO_VERSION, XMIT];
    assert pkt == a + ToBE(|m.data|, 2) + (ToBE(m.id, 8) + m.digest + extra);
    WordAt(a, |m.data|, 2, ToBE(m.id, 8) + m.digest + extra);
    var b := a + ToBE(|m.data|, 2);
    assert pkt == b + ToBE(m.id, 8) + (m.digest + extra);
    WordAt(b, m.id, 8, m.digest + extra);
    assert pkt[76..108] == m.digest;
    assert |pkt| == 108 + |extra| && pkt[108..] == extra;
  }

  lemma DataRoundTrip(head: seq<Byte>, id: nat, offset: nat, bytes: seq<Byte>)
    requires IsHead(head) && id < Range(8) && offset < Range(2)
    ensures var pkt := BuildData(head, id, offset, bytes);
      |pkt| >= 66 && InBounds(pkt) && Parse(pkt) == Some(Data(id, offset, bytes))
  {
    var pkt, a := BuildData(head, id, offset, bytes), head + [PROTO_VERSION, DATA];
    assert pkt == a + ToBE(offset, 2) + (ToBE(id, 8) + bytes);
    WordAt(a, offset, 2, ToBE(id, 8) + bytes);
    var b := a + ToBE(offset, 2);
    assert pkt == b + ToBE(id, 8) + bytes;
    WordAt(b, id, 8, bytes);
    assert pkt[76..] == bytes;
  }

  lemma AcksRoundTrip(head: seq<Byte>, id: nat, mask: set<nat>, pad: seq<Byte>)
    requires IsHead(head) && id < Range(8) && forall k :: k in mask ==> k < 8
    ensures var pkt := BuildAcks(head, id, mask, pad);
      |pkt| >= 66 && InBounds(pkt) && Parse(pkt) == Some(Acks(id, mask))
  {
    var pkt, a := BuildAcks(head, id, mask, pad), head + [PROTO_VERSION, ACKS];
    assert pkt == a + ToBE(id, 8) + ([MaskByte(mask)] + pad);
    WordAt(a, id, 8, [MaskByte(mask)] + pad);
    MaskRoundTrip(mask);
  }

  lemma NackRoundTrip(head: seq<Byte>, id: nat, pad: seq<Byte>)
    requires IsHead(head) && id < Range(8)
    ensures var pkt := BuildNack(head, id, pad);
      |pkt| >= 66 && InBounds(pkt) && Parse(pkt) == Some(Nack(id))
  {
    var pkt, a := BuildNack(head, id, pad), head + [PROTO_VERSION, NACK];
    assert pkt == a + ToBE(id, 8) + pad;
    WordAt(a, id, 8, pad);
  }

  lemma Regroup(a: seq<Byte>, b: seq<Byte>, c: seq<Byte>, d: seq<Byte>)
    ensures a + (b + c) + d == a + b + (c + d) && a + (b + c) + d == a + b + c + d
  {
  }

  lemma {:induction false} WordsRoundTrip(a: seq<Byte>, ids: seq<nat>, b: seq<Byte>)
    requires forall i :: 0 <= i < |ids| ==> ids[i] < Range(8)
    ensures ReadWords(a + Words(ids) + b, |a|, |ids|) == ids
  {
    if ids != [] {
      var init, last := ids[..|ids| - 1], ids[|ids| - 1];
      Regroup(a, Words(init), ToBE(last, 8), b);
      WordsRoundTrip(a, init, ToBE(last, 8) + b);
      WordAt(a + Words(init), last, 8, b);
      assert ids == init + [last];
    }
  }

  lemma ParseMackIs(pkt: seq<Byte>, ids: seq<nat>)
    requires |pkt| >= 67 + 8 * |ids| && pkt[64] == PROTO_VERSION && pkt[65] == MACK && pkt[66] == |ids|
    requires ReadWords(pkt, 67, |ids|) == ids
    ensures InBounds(pkt) && Parse(pkt) == Some(Mack(ids))
  {
  }

  lemma MackRoundTrip(head: seq<Byte>, ids: seq<nat>, pad: seq<Byte>)
    requires IsHead(head) && |ids| < 256 && forall i :: 0 <= i < |ids| ==> ids[i] < Range(8)
    ensures var pkt := BuildMack(head, ids, pad);
      |pkt| >= 66 && InBounds(pkt) && Parse(pkt) == Some(Mack(ids))
  {
    var pkt, a := BuildMack(head, ids, pad), head + [PROTO_VERSION, MACK, |ids|];
    assert pkt == a + Words(ids) + pad;
    WordsRoundTrip(a, ids, pad);
    ParseMackIs(pkt, ids);
  }

  // ---------------------------------------------------------------- the layout of any packet

  /** The octets of a field of a packet. */
  ghost predicate Field(pkt: seq<Byte>, at: nat, width: nat, n: nat) {
    n < Range(width) && at + width <= |pkt| && pkt[at .. at + width] == ToBE(n, width)
  }

  /** The bits of an octet, least significant first. */
  ghost predicate Bits(b: Byte, mask: set<nat>) {
    var values := [1, 2, 4, 8, 16, 32, 64, 128];
    forall k: nat :: k in mask <==> k < 8 && b / values[k] % 2 == 1
  }

  /** The octets of a decrypted packet that carries p, position by position. */
  ghost predicate Layout(pkt: seq<Byte>, p: Packet)
    requires |pkt| >= 66
  {
    && pkt[64] == 0
    && match p
       case Ping => pkt[65] == 0
       case Xmit(id, size, digest, inline) =>
         && pkt[65] == 1 && |pkt| >= 108
         && Field(pkt, 66, 2, size) && Field(pkt, 68, 8, id) && pkt[76..108] == digest
         && (|pkt| > 108 ==> inline == None)
         && (|pkt| == 108 ==>
              && inline.Some? && |inline.value| == Min(size, 1024) <= 108
              && pkt[108 - |inline.value|..] == inline.value)
       case Data(id, offset, bytes) =>
         pkt[65] == 2 && Field(pkt, 66, 2, offset) && Field(pkt, 68, 8, id) && pkt[76..] == bytes
       case Acks(id, mask) => pkt[65] == 3 && Field(pkt, 66, 8, id) && |pkt| >= 75 && Bits(pkt[74], mask)
       case Nack(id) => pkt[65] == 4 && Field(pkt, 66, 8, id)
       case Mack(ids) =>
         && pkt[65] == 5 && |pkt| >= 67 && pkt[66] == |ids|
         && forall i :: 0 <= i < |ids| ==> Field(pkt, 67 + 8 * i, 8, ids[i])
       case Clos => pkt[65] == 255
  }

  lemma FieldIsWord(pkt: seq<Byte>, at: nat, width: nat, n: nat)
    requires at + width <= |pkt|
    ensures Field(pkt, at, width, n) <==> Word(pkt, at, width) == n
  {
    var b := pkt[at .. at + width];
    FromBEBelow(b);
    ToFromBE(b);
    FromToBE(n, width);
    if n < Range(width) {
      ModOf(n, 0, Range(width), n);
    }
  }

  lemma BitsAre(b: Byte, mask: set<nat>)
    ensures Bits(b, mask) <==> mask == MaskOf(b)
  {
    EightBits();
    var values := [1, 2, 4, 8, 16, 32, 64, 128];
    assert forall k: nat :: k < 8 ==> values[k] == Bit(k);
    assert forall k: nat :: k in MaskOf(b) <==> k < 8 && b / Bit(k) % 2 == 1;
  }

  /** The ids of a multi-acknowledgement that fits are read from their places. */
  lemma {:induction false} ReadWordsAre(pkt: seq<Byte>, at: nat, count: nat, i: nat)
    requires at + 8 * count <= |pkt| && i < count
    ensures ReadWords(pkt, at, count)[i] == Word(pkt, at + 8 * i, 8)
  {
    if i < count - 1 {
      ReadWordsAre(pkt, at, count - 1, i);
    }
  }

  lemma MackFits(pkt: seq<Byte>, ids: seq<nat>)
    requires |pkt| >= 67 && forall i :: 0 <= i < |ids| ==> Field(pkt, 67 + 8 * i, 8, ids[i])
    ensures 67 + 8 * |ids| <= |pkt|
  {
    if ids != [] {
      assert Field(pkt, 67 + 8 * (|ids| - 1), 8, ids[|ids| - 1]);
    }
  }

  lemma MackExact(pkt: seq<Byte>, ids: seq<nat>)
    requires |pkt| >= 67
    ensures ParseMack(pkt) == Some(Mack(ids)) <==>
      pkt[66] == |ids| && forall i :: 0 <= i < |ids| ==> Field(pkt, 67 + 8 * i, 8, ids[i])
  {
    if pkt[66] == |ids| && 67 + 8 * |ids| <= |pkt| {
      var read := ReadWords(pkt, 67, |ids|);
      forall i | 0 <= i < |ids|
        ensures Field(pkt, 67 + 8 * i, 8, ids[i]) <==> read[i] == ids[i]
      {
        ReadWordsAre(pkt, 67, |ids|, i);
        FieldIsWord(pkt, 67 + 8 * i, 8, ids[i]);
      }
      assert (forall i :: 0 <= i < |ids| ==> read[i] == ids[i]) ==> read == ids;
    } else if pkt[66] == |ids| && forall i :: 0 <= i < |ids| ==> Field(pkt, 67 + 8 * i, 8, ids[i]) {
      MackFits(pkt, ids);
    }
  }

  lemma XmitExact(pkt: seq<Byte>, p: Packet)
    requires |pkt| >= 66 && InBounds(pkt) && pkt[64] == 0 && pkt[65] == 1 && p.Xmit?
    ensures ParseXmit(pkt) == Some(p) <==> Layout(pkt, p)
  {
    if |pkt| >= 108 {
      FieldIsWord(pkt, 66, 2, p.size);
      FieldIsWord(pkt, 68, 8, p.id);
    }
  }

  lemma ShortExact(pkt: seq<Byte>, p: Packet)
    requires |pkt| >= 66 && InBounds(pkt) && pkt[64] == 0 && (p.Data? || p.Acks? || p.Nack?)
    ensures Parse(pkt) == Some(p) <==> Layout(pkt, p)
  {
    match p
    case Data(id, offset, bytes) =>
      if |pkt| >= 76 {
        FieldIsWord(pkt, 66, 2, offset);
        FieldIsWord(pkt, 68, 8, id);
      }
    case Acks(id, mask) =>
      if |pkt| >= 75 {
        FieldIsWord(pkt, 66, 8, id);
        BitsAre(pkt[74], mask);
      }
    case Nack(id) =>
      if |pkt| >= 74 {
        FieldIsWord(pkt, 66, 8, id);
      }
  }

  /** A packet is read as p exactly when its octets are laid out as those of p; any other packet is dropped. */
  lemma ParseExact(pkt: seq<Byte>, p: Packet)
    requires |pkt| >= 66 && InBounds(pkt)
    ensures Parse(pkt) == Some(p) <==> Layout(pkt, p)
  {
    if pkt[64] == 0 {
      match p
      case Xmit(_, _, _, _) => if pkt[65] == 1 { XmitExact(pkt, p); }
      case Mack(ids) => if |pkt| >= 67 { MackExact(pkt, ids); }
      case Ping =>
      case Clos =>
      case _ => ShortExact(pkt, p);
    }
  }
}
