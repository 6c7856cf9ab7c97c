/** The DNS wire format of sections 3.1 and 4.1 of RFC 1035, as the encoder writes and the decoder reads it. */
module DnsWire {
  import opened Bytes

  type U16 = n: nat | n < 0x1_0000
  type U32 = n: nat | n < 0x1_0000_0000
  type Name = seq<Byte>

  /** The octets of what could be encoded. */
  type Encoded = Option<seq<Byte>>

  const DOT: Byte := 46
  const MAX_LABEL: nat := 63

  datatype Question = Question(qname: Name, qtype: U16, qclass: U16)

  datatype ResourceRecord = ResourceRecord(name: Name, rrtype: U16, rrclass: U16, ttl: U32, rdata: seq<Byte>)

  datatype Header = Header(id: U16, fields: U16, qdCount: U16, anCount: U16, nsCount: U16, arCount: U16)

  datatype Message = Message(id: U16, fields: U16, questions: seq<Question>, answers: seq<ResourceRecord>,
                             authorities: seq<ResourceRecord>, additional: seq<ResourceRecord>)

  // ---------------------------------------------------------------- names

  /** Position of the first dot, or the length if there is none. */
  function FirstDot(s: Name): (i: nat)
    ensures i <= |s|
  {
    if s == [] || s[0] == DOT then 0 else 1 + FirstDot(s[1..])
  }

  lemma {:induction false} FirstDotIs(s: Name)
    ensures DOT !in s[..FirstDot(s)] && (FirstDot(s) < |s| ==> s[FirstDot(s)] == DOT)
  {
    if s != [] && s[0] != DOT {
      FirstDotIs(s[1..]);
      assert s[..1 + FirstDot(s[1..])] == [s[0]] + s[1..][..FirstDot(s[1..])];
    }
  }

  /** The parts that repeated reading up to a dot yields; a trailing dot yields no empty part. */
  function Parts(s: Name): (p: seq<Name>) {
    if s == [] then []
    else if FirstDot(s) == |s| then [s]
    else [s[..FirstDot(s)]] + Parts(s[FirstDot(s) + 1..])
  }

  /** A name without its last dot. */
  function Strip(n: Name): (s: Name) {
    if n != [] && n[|n| - 1] == DOT then n[..|n| - 1] else n
  }

  /** Length-prefixed labels; an empty one ends the name with two zero octets. */
  function EncParts(parts: seq<Name>): (b: Encoded) {
    if parts == [] then Some([0])
    else if |parts[0]| > MAX_LABEL then None
    else if |parts[0]| == 0 then Some([0, 0])
    else
      var rest :- EncParts(parts[1..]);
      Some([|parts[0]|] + parts[0] + rest)
  }

  function EncName(n: Name): (b: Encoded) {
    EncParts(Parts(Strip(n)))
  }

  /** Every label followed by a dot. */
  function Join(labels: seq<Name>): (n: Name) {
    if labels == [] then [] else labels[0] + [DOT] + Join(labels[1..])
  }

  predicate IsLabel(l: Name) {
    0 < |l| <= MAX_LABEL && DOT !in l
  }

  ghost predicate AreLabels(labels: seq<Name>) {
    forall i :: 0 <= i < |labels| ==> IsLabel(labels[i])
  }

  /** Trailing-dot form: labels of 1 to 63 octets without dots, each followed by a dot. */
  ghost predicate Canonical(n: Name) {
    exists labels :: AreLabels(labels) && n == Join(labels)
  }

  // ---------------------------------------------------------------- encoding

  /** Data behind its length, which is truncated to 16 bits. */
  function EncRData(d: seq<Byte>): (b: seq<Byte>) {
    ToBE(|d| % 0x1_0000, 2) + d[..|d| % 0x1_0000]
  }

  /** 16-bit fields, one after the other. */
  function EncWords(ws: seq<U16>): (b: seq<Byte>)
    ensures |b| == 2 * |ws|
  {
    if ws == [] then [] else EncWords(ws[..|ws| - 1]) + ToBE(ws[|ws| - 1], 2)
  }

  function EncQuestion(q: Question): (b: Encoded) {
    var n :- EncName(q.qname);
    Some(n + EncWords([q.qtype, q.qclass]))
  }

  /** A record behind its name. */
  function EncFields(r: ResourceRecord): (b: seq<Byte>) {
    EncWords([r.rrtype, r.rrclass]) + (ToBE(r.ttl, 4) + EncRData(r.rdata))
  }

  function EncResource(r: ResourceRecord): (b: Encoded) {
    var n :- EncName(r.name);
    if |r.rdata| > 0x1_0000 then None
    else Some(n + EncFields(r))
  }

  /** One section: its entries one after the other. */
  function EncAll<T>(enc: T -> Encoded, xs: seq<T>): (b: Encoded) {
    if xs == [] then Some([])
    else
      var before :- EncAll(enc, xs[..|xs| - 1]);
      var last :- enc(xs[|xs| - 1]);
      Some(before + last)
  }

  /** The counts are truncated to 16 bits. */
  function HeaderOf(m: Message): (h: Header) {
    Header(m.id, m.fields, |m.questions| % 0x1_0000, |m.answers| % 0x1_0000,
           |m.authorities| % 0x1_0000, |m.additional| % 0x1_0000)
  }

  function EncHeader(h: Header): (b: seq<Byte>)
    ensures |b| == 12
  {
    EncWords([h.id, h.fields, h.qdCount, h.anCount, h.nsCount, h.arCount])
  }

  /** The four sections, for given encoders of their entries. */
  function EncBody(eq: Question -> Encoded, er: ResourceRecord -> Encoded, m: Message): (b: Encoded) {
    var q :- EncAll(eq, m.questions);
    var an :- EncAll(er, m.answers);
    var ns :- EncAll(er, m.authorities);
    var ar :- EncAll(er, m.additional);
    Some(q + (an + (ns + ar)))
  }

  function EncMessage(m: Message): (b: Encoded) {
    var body :- EncBody(EncQuestion, EncResource, m);
    Some(EncHeader(HeaderOf(m)) + body)
  }

  // ---------------------------------------------------------------- decoding

  /** The octets from a buffer's start, and the buffer's size; names may touch two octets more. */
  datatype Octets = Octets(octets: seq<Byte>, sz: nat)

  type Mem = m: Octets | m.sz + 2 <= |m.octets| witness Octets([0, 0], 0)

  function SizeLeft(m: Mem, c: nat): (n: nat) {
    if c > m.sz then 0 else m.sz - c
  }

  /** What a decoder gets at a cursor: a value and the cursor behind it, or nothing. */
  type Got<T> = Option<(T, nat)>

  function Read(m: Mem, c: nat, width: nat): (n: Got<nat>)
    requires width > 0
    ensures n.Some? ==> n.value.0 < Range(width) && n.value.1 == c + width <= m.sz
  {
    if SizeLeft(m, c) < width then None
    else
      FromBEBelow(m.octets[c..c + width]);
      Some((FromBE(m.octets[c..c + width]), c + width))
  }

  function DecLabels(m: Mem, c: nat): (r: Got<Name>)
    requires c <= m.sz
    ensures r.Some? ==> c < r.value.1 <= m.sz + 1
    decreases m.sz - c
  {
    var l := m.octets[c];
    if l == 0 then Some(([], c + 1))
    else if l > MAX_LABEL then None
    else if SizeLeft(m, c + 1) < l then None
    else
      var rest :- DecLabels(m, c + 1 + l);
      Some((m.octets[c + 1..c + 1 + l] + [DOT] + rest.0, rest.1))
  }

  function DecName(m: Mem, c: nat): (r: Got<Name>)
    ensures r.Some? ==> c < r.value.1 <= m.sz + 1
  {
    if SizeLeft(m, c) < 1 then None else DecLabels(m, c)
  }

  function DecRData(m: Mem, c: nat): (r: Got<seq<Byte>>)
    ensures r.Some? ==> c <= r.value.1 <= m.sz
  {
    var len :- Read(m, c, 2);
    if SizeLeft(m, len.1) < len.0 then None
    else Some((m.octets[len.1..len.1 + len.0], len.1 + len.0))
  }

  /** The rest of a question with the given name. */
  function DecTypes(m: Mem, c: nat, n: Name): (r: Got<Question>)
    ensures r.Some? ==> r.value.0.qname == n
  {
    RangeValues();
    var t :- Read(m, c, 2);
    var cl :- Read(m, t.1, 2);
    Some((Question(n, t.0, cl.0), cl.1))
  }

  function DecQuestion(m: Mem, c: nat): (r: Got<Question>) {
    var n :- DecName(m, c);
    DecTypes(m, n.1, n.0)
  }

  /** The rest of a record with the given name. */
  function DecFields(m: Mem, c: nat, n: Name): (r: Got<ResourceRecord>)
    ensures r.Some? ==> r.value.0.name == n
  {
    RangeValues();
    var t :- Read(m, c, 2);
    var cl :- Read(m, t.1, 2);
    var ttl :- Read(m, cl.1, 4);
    var d :- DecRData(m, ttl.1);
    Some((ResourceRecord(n, t.0, cl.0, ttl.0, d.0), d.1))
  }

  function DecResource(m: Mem, c: nat): (r: Got<ResourceRecord>) {
    var n :- DecName(m, c);
    DecFields(m, n.1, n.0)
  }

  function DecAll<T>(dec: nat -> Got<T>, c: nat, count: nat): (r: Got<seq<T>>)
    ensures r.Some? ==> |r.value.0| == count
  {
    if count == 0 then Some(([], c))
    else
      var before :- DecAll(dec, c, count - 1);
      var last :- dec(before.1);
      Some((before.0 + [last.0], last.1))
  }

  function Questions(m: Mem): (dec: nat -> Got<Question>) {
    c => DecQuestion(m, c)
  }

  function Resources(m: Mem): (dec: nat -> Got<ResourceRecord>) {
    c => DecResource(m, c)
  }

  function DecHeader(m: Mem, c: nat): (r: Got<Header>)
    ensures r.Some? ==> r.value.1 == c + 12 <= m.sz
  {
    RangeValues();
    var id :- Read(m, c, 2);
    var fields :- Read(m, id.1, 2);
    var qd :- Read(m, fields.1, 2);
    var an :- Read(m, qd.1, 2);
    var ns :- Read(m, an.1, 2);
    var ar :- Read(m, ns.1, 2);
    Some((Header(id.0, fields.0, qd.0, an.0, ns.0, ar.0), ar.1))
  }

  /** The four sections, for given decoders of their entries. */
  function DecBody(dq: nat -> Got<Question>, dr: nat -> Got<ResourceRecord>, c: nat, h: Header): (r: Got<Message>) {
    var q :- DecAll(dq, c, h.qdCount);
    var an :- DecAll(dr, q.1, h.anCount);
    var ns :- DecAll(dr, an.1, h.nsCount);
    var ar :- DecAll(dr, ns.1, h.arCount);
    Some((Message(h.id, h.fields, q.0, an.0, ns.0, ar.0), ar.1))
  }

  /** A message whose header has been read, or could not be. */
  function DecRest(h: Got<Header>, dq: nat -> Got<Question>, dr: nat -> Got<ResourceRecord>): (r: Got<Message>) {
    var header :- h;
    DecBody(dq, dr, header.1, header.0)
  }

  function DecMessage(m: Mem, c: nat): (r: Got<Message>) {
    DecRest(DecHeader(m, c), Questions(m), Resources(m))
  }
}
