/** Decoding what was encoded: exactly which messages come back, and that every octet is consumed. */
module DnsRoundTrip {
  import opened Bytes
  import opened DnsWire

  /** The octets b lie in the buffer at c. */
  ghost predicate At(m: Mem, c: nat, b: seq<Byte>) {
    c + |b| <= m.sz && forall i :: 0 <= i < |b| ==> b[i] == m.octets[c + i]
  }

  lemma AtSplit(m: Mem, c: nat, a: seq<Byte>, b: seq<Byte>)
    requires At(m, c, a + b)
    ensures At(m, c, a) && At(m, c + |a|, b)
  {
    forall i | 0 <= i < |a|
      ensures a[i] == m.octets[c + i]
    {
      assert (a + b)[i] == a[i];
    }
    forall i | 0 <= i < |b|
      ensures b[i] == m.octets[c + |a| + i]
    {
      assert (a + b)[|a| + i] == b[i];
    }
  }

  lemma AtSlice(m: Mem, c: nat, b: seq<Byte>)
    requires At(m, c, b)
    ensures m.octets[c..c + |b|] == b
  {
  }

  /** The decoder got x and stopped at next. */
  ghost predicate Is<T(!new)>(d: Got<T>, x: T, next: nat) {
    d.Some? && d.value.0 == x && d.value.1 == next
  }

  lemma ReadBack(m: Mem, c: nat, n: nat, width: nat)
    requires At(m, c, ToBE(n, width)) && width > 0
    ensures Is(Read(m, c, width), n % Range(width), c + width)
  {
    FromToBE(n, width);
    AtSlice(m, c, ToBE(n, width));
  }

  lemma WordBack(m: Mem, c: nat, w: U16)
    requires At(m, c, ToBE(w, 2))
    ensures Is(Read(m, c, 2), w, c + 2)
  {
    RangeValues();
    ReadBack(m, c, w, 2);
  }

  /** The word at position i of some that lie in the buffer. */
  lemma {:induction false} WordsBack(m: Mem, c: nat, ws: seq<U16>, i: nat)
    requires At(m, c, EncWords(ws)) && i < |ws|
    ensures Is(Read(m, c + 2 * i, 2), ws[i], c + 2 * i + 2)
    decreases |ws|
  {
    var init, last := ws[..|ws| - 1], ws[|ws| - 1];
    AtSplit(m, c, EncWords(init), ToBE(last, 2));
    if i < |init| {
      WordsBack(m, c, init, i);
    } else {
      WordBack(m, c + 2 * i, last);
    }
  }

  // ---------------------------------------------------------------- names

  /** The parts before the first empty one. */
  function UpToEmpty(parts: seq<Name>): (p: seq<Name>) {
    if parts == [] || parts[0] == [] then [] else [parts[0]] + UpToEmpty(parts[1..])
  }

  lemma LabelAt(m: Mem, c: nat, p: Name, rest: seq<Byte>)
    requires 0 < |p| <= MAX_LABEL && At(m, c, [|p|] + p + rest)
    ensures m.octets[c] == |p| && m.octets[c + 1..c + 1 + |p|] == p && At(m, c + 1 + |p|, rest)
  {
    AtSplit(m, c, [|p|] + p, rest);
    AtSplit(m, c, [|p|], p);
    AtSlice(m, c + 1, p);
    FirstAt(m, c, [|p|]);
  }

  lemma FirstAt(m: Mem, c: nat, b: seq<Byte>)
    requires At(m, c, b) && b != []
    ensures m.octets[c] == b[0]
  {
    assert b[0] == m.octets[c + 0];
  }

  /** What the decoder makes of encoded parts: those before an empty one, whose second zero it leaves. */
  lemma {:induction false} LabelsBack(m: Mem, c: nat, parts: seq<Name>)
    requires EncParts(parts).Some? && At(m, c, EncParts(parts).value)
    ensures DecLabels(m, c) ==
      Some((Join(UpToEmpty(parts)), c + |EncParts(parts).value| - if UpToEmpty(parts) == parts then 0 else 1))
    decreases |parts|
  {
    if parts == [] || parts[0] == [] {
      FirstAt(m, c, EncParts(parts).value);
    } else {
      var rest := EncParts(parts[1..]).value;
      LabelAt(m, c, parts[0], rest);
      LabelsBack(m, c + 1 + |parts[0]|, parts[1..]);
      ConsParts(parts);
      OneLabel(m, c, parts[0], Join(UpToEmpty(parts[1..])),
               c + 1 + |parts[0]| + |rest| - if UpToEmpty(parts[1..]) == parts[1..] then 0 else 1);
    }
  }

  lemma OneLabel(m: Mem, c: nat, p: Name, rest: Name, next: nat)
    requires 0 < |p| <= MAX_LABEL && c + 1 + |p| <= m.sz
    requires m.octets[c] == |p| && m.octets[c + 1..c + 1 + |p|] == p
    requires DecLabels(m, c + 1 + |p|) == Some((rest, next))
    ensures DecLabels(m, c) == Some((p + [DOT] + rest, next))
  {
  }

  lemma ConsParts(parts: seq<Name>)
    requires parts != [] && parts[0] != []
    ensures Join(UpToEmpty(parts)) == parts[0] + [DOT] + Join(UpToEmpty(parts[1..]))
    ensures UpToEmpty(parts) == parts <==> UpToEmpty(parts[1..]) == parts[1..]
  {
    var up := UpToEmpty(parts[1..]);
    assert ([parts[0]] + up)[1..] == up;
    assert [parts[0]] + parts[1..] == parts;
  }

  lemma {:induction false} PartsDotFree(s: Name)
    ensures forall i :: 0 <= i < |Parts(s)| ==> DOT !in Parts(s)[i]
  {
    if s != [] {
      FirstDotIs(s);
      assert s[..|s|] == s;
      if FirstDot(s) < |s| {
        PartsDotFree(s[FirstDot(s) + 1..]);
      }
    }
  }

  lemma {:induction false} UpToEmptyLabels(parts: seq<Name>)
    requires EncParts(parts).Some? && forall i :: 0 <= i < |parts| ==> DOT !in parts[i]
    ensures AreLabels(UpToEmpty(parts))
  {
    if parts != [] && parts[0] != [] {
      UpToEmptyLabels(parts[1..]);
    }
  }

  lemma {:induction false} FirstDotAt(l: Name, rest: Name)
    requires DOT !in l
    ensures FirstDot(l + [DOT] + rest) == |l|
  {
    if l != [] {
      FirstDotAt(l[1..], rest);
      assert (l + [DOT] + rest)[1..] == l[1..] + [DOT] + rest;
    }
  }

  lemma {:induction false} JoinEnds(labels: seq<Name>)
    requires labels != []
    ensures Join(labels) != [] && Join(labels)[|Join(labels)| - 1] == DOT
  {
    if |labels| > 1 {
      JoinEnds(labels[1..]);
    }
  }

  /** Splitting the trailing-dot form of some labels gives the labels. */
  lemma {:induction false} PartsOfJoin(labels: seq<Name>)
    requires AreLabels(labels)
    ensures Parts(Strip(Join(labels))) == labels
  {
    if labels != [] {
      var l, tail := labels[0], labels[1..];
      var n := Join(labels);
      JoinEnds(labels);
      assert IsLabel(l);
      if tail == [] {
        assert Strip(n) == l;
        FirstDotIs(l);
        assert labels == [l];
      } else {
        JoinEnds(tail);
        PartsOfJoin(tail);
        assert Strip(n) == l + [DOT] + Strip(Join(tail));
        FirstDotAt(l, Strip(Join(tail)));
        assert Strip(n)[..|l|] == l && Strip(n)[|l| + 1..] == Strip(Join(tail));
        assert labels == [l] + tail;
      }
    }
  }

  lemma {:induction false} LabelsEncode(labels: seq<Name>)
    requires AreLabels(labels)
    ensures EncParts(labels).Some? && UpToEmpty(labels) == labels
  {
    if labels != [] {
      assert IsLabel(labels[0]);
      LabelsEncode(labels[1..]);
      assert labels == [labels[0]] + labels[1..];
    }
  }

  lemma CanonicalEncodes(n: Name)
    requires Canonical(n)
    ensures EncName(n).Some? && UpToEmpty(Parts(Strip(n))) == Parts(Strip(n)) && Join(Parts(Strip(n))) == n
  {
    var labels :| AreLabels(labels) && n == Join(labels);
    PartsOfJoin(labels);
    LabelsEncode(labels);
  }

  /** A name comes back, with all its octets consumed, exactly when it is in trailing-dot form. */
  lemma NameRoundTrip(m: Mem, c: nat, n: Name)
    requires EncName(n).Some? && At(m, c, EncName(n).value)
    ensures DecName(m, c).Some?
    ensures Canonical(n) <==> DecName(m, c).value.0 == n
    ensures Canonical(n) ==> DecName(m, c).value.1 == c + |EncName(n).value|
  {
    var parts := Parts(Strip(n));
    assert |EncName(n).value| > 0;
    LabelsBack(m, c, parts);
    PartsDotFree(Strip(n));
    UpToEmptyLabels(parts);
    if Canonical(n) {
      CanonicalEncodes(n);
    }
  }

  /** The same of a decoded name in its own right, n being the encoded one. */
  lemma NameBack(m: Mem, c: nat, name: Name, n: seq<Byte>, canonical: bool, next: nat) returns (d: Got<Name>)
    requires EncName(name) == Some(n) && At(m, c, n) && canonical == Canonical(name) && next == c + |n|
    ensures d == DecName(m, c) && d.Some? && (canonical <==> d.value.0 == name) && (canonical ==> d.value.1 == next)
  {
    NameRoundTrip(m, c, name);
    d := DecName(m, c);
  }

  /** A lone dot is encoded like the root, which decodes to the empty name. */
  lemma LoneDot()
    ensures EncName([DOT]) == EncName([]) == Some([0]) && Canonical([]) && !Canonical([DOT])
  {
    assert Strip([DOT]) == [] && Strip([]) == [];
    assert AreLabels([]) && Join([]) == [];
    if Canonical([DOT]) {
      CanonicalEncodes([DOT]);
    }
  }

  // ---------------------------------------------------------------- records

  ghost predicate GoodQuestion(q: Question) {
    Canonical(q.qname)
  }

  /** What a caller must give for a record to survive: a trailing-dot name, data of at most 65535 octets. */
  ghost predicate GoodResource(r: ResourceRecord) {
    Canonical(r.name) && |r.rdata| <= 0xffff
  }

  /** What was decoded is x, ending at next, if x is good, and otherwise is not x. */
  ghost predicate Back<T(!new)>(d: Got<T>, x: T, good: bool, next: nat) {
    if good then Is(d, x, next) else d.None? || d.value.0 != x
  }

  lemma TwoWordsBack(m: Mem, c: nat, t: U16, cl: U16)
    requires At(m, c, EncWords([t, cl]))
    ensures Is(Read(m, c, 2), t, c + 2) && Is(Read(m, c + 2, 2), cl, c + 4)
  {
    WordsBack(m, c, [t, cl], 0);
    WordsBack(m, c, [t, cl], 1);
  }

  lemma RDataBack(m: Mem, c: nat, d: seq<Byte>)
    requires At(m, c, EncRData(d))
    ensures Is(DecRData(m, c), d[..|d| % 0x1_0000], c + |EncRData(d)|)
  {
    var len: U16 := |d| % 0x1_0000;
    AtSplit(m, c, ToBE(len, 2), d[..len]);
    AtSlice(m, c + 2, d[..len]);
    WordBack(m, c, len);
  }

  lemma TypesBack(m: Mem, c: nat, q: Question)
    requires At(m, c, EncWords([q.qtype, q.qclass]))
    ensures Is(DecTypes(m, c, q.qname), q, c + 4)
  {
    TwoWordsBack(m, c, q.qtype, q.qclass);
  }

  /** A question whose name was decoded as it should be, or not as its name. */
  lemma NamedQuestion(m: Mem, c: nat, q: Question, name: Got<Name>, canonical: bool, mid: nat)
    requires name == DecName(m, c) && name.Some? && (canonical <==> name.value.0 == q.qname)
    requires canonical ==> name.value.1 == mid
    requires Is(DecTypes(m, mid, q.qname), q, mid + 4)
    ensures Back(DecQuestion(m, c), q, canonical, mid + 4)
  {
  }

  /** A question comes back exactly when its name is in trailing-dot form. */
  lemma QuestionRoundTrip(m: Mem, c: nat, q: Question)
    requires EncQuestion(q).Some? && At(m, c, EncQuestion(q).value)
    ensures Back(Questions(m)(c), q, GoodQuestion(q), c + |EncQuestion(q).value|)
  {
    var n := EncName(q.qname).value;
    QuestionBackAs(m, c, q, n, GoodQuestion(q), c + |n|);
  }

  lemma QuestionBackAs(m: Mem, c: nat, q: Question, n: seq<Byte>, canonical: bool, mid: nat)
    requires EncName(q.qname) == Some(n) && canonical == Canonical(q.qname)
    requires At(m, c, n + EncWords([q.qtype, q.qclass])) && mid == c + |n|
    ensures Back(DecQuestion(m, c), q, canonical, mid + 4)
  {
    AtSplit(m, c, n, EncWords([q.qtype, q.qclass]));
    TypesBack(m, mid, q);
    var name := NameBack(m, c, q.qname, n, canonical, mid);
    NamedQuestion(m, c, q, name, canonical, mid);
  }

  /** Everything of a record but its name comes back, except that the data may lose 65536 octets. */
  lemma FieldsBack(m: Mem, c: nat, r: ResourceRecord)
    requires At(m, c, EncFields(r))
    ensures Is(DecFields(m, c, r.name), Kept(r), c + |EncFields(r)|)
  {
    AtSplit(m, c, EncWords([r.rrtype, r.rrclass]), ToBE(r.ttl, 4) + EncRData(r.rdata));
    AtSplit(m, c + 4, ToBE(r.ttl, 4), EncRData(r.rdata));
    TwoWordsBack(m, c, r.rrtype, r.rrclass);
    TtlBack(m, c + 4, r.ttl);
    RDataBack(m, c + 8, r.rdata);
  }

  lemma TtlBack(m: Mem, c: nat, ttl: U32)
    requires At(m, c, ToBE(ttl, 4))
    ensures Is(Read(m, c, 4), ttl, c + 4)
  {
    RangeValues();
    ReadBack(m, c, ttl, 4);
  }

  /** A record with the data whose length the length field can tell. */
  function Kept(r: ResourceRecord): (k: ResourceRecord) {
    r.(rdata := r.rdata[..|r.rdata| % 0x1_0000])
  }

  lemma KeptIs(r: ResourceRecord)
    requires |r.rdata| <= 0x1_0000
    ensures Kept(r) == r <==> |r.rdata| <= 0xffff
    ensures |r.rdata| == 0x1_0000 ==> Kept(r) == r.(rdata := [])
  {
    if |r.rdata| <= 0xffff {
      assert r.rdata[..|r.rdata| % 0x1_0000] == r.rdata;
    }
  }

  /** A record whose name was decoded as it should be, or not as its name. */
  lemma NamedResource(m: Mem, c: nat, r: ResourceRecord, name: Got<Name>, canonical: bool, mid: nat,
                      fields: Got<ResourceRecord>, kept: ResourceRecord, next: nat)
    requires name == DecName(m, c) && name.Some? && (canonical <==> name.value.0 == r.name)
    requires canonical ==> name.value.1 == mid
    requires fields == DecFields(m, mid, r.name) && Is(fields, kept, next)
    ensures Back(DecResource(m, c), r, canonical && kept == r, next)
    ensures canonical ==> Is(DecResource(m, c), kept, next)
  {
  }

  lemma FieldsBackAs(m: Mem, c: nat, r: ResourceRecord, next: nat)
    returns (d: Got<ResourceRecord>, kept: ResourceRecord)
    requires At(m, c, EncFields(r)) && next == c + |EncFields(r)|
    ensures d == DecFields(m, c, r.name) && kept == Kept(r) && Is(d, kept, next)
  {
    FieldsBack(m, c, r);
    d, kept := DecFields(m, c, r.name), Kept(r);
  }

  /** What an encoded record decodes to, n being its encoded name. */
  lemma ResourceBackAs(m: Mem, c: nat, r: ResourceRecord, n: seq<Byte>, canonical: bool, next: nat)
    requires EncName(r.name) == Some(n) && canonical == Canonical(r.name)
    requires At(m, c, n + EncFields(r)) && next == c + |n| + |EncFields(r)|
    ensures Back(DecResource(m, c), r, canonical && Kept(r) == r, next)
    ensures canonical ==> Is(DecResource(m, c), Kept(r), next)
  {
    AtSplit(m, c, n, EncFields(r));
    var mid := c + |n|;
    var fields, kept := FieldsBackAs(m, mid, r, next);
    var name := NameBack(m, c, r.name, n, canonical, mid);
    NamedResource(m, c, r, name, canonical, mid, fields, kept, next);
  }

  /** A record comes back exactly when its name is in trailing-dot form and its data fit the length. */
  lemma ResourceRoundTrip(m: Mem, c: nat, r: ResourceRecord)
    requires EncResource(r).Some? && At(m, c, EncResource(r).value)
    ensures Back(Resources(m)(c), r, GoodResource(r), c + |EncResource(r).value|)
  {
    KeptIs(r);
    ResourceBackAs(m, c, r, EncName(r.name).value, Canonical(r.name), c + |EncResource(r).value|);
  }

  /** Data of 65536 octets is accepted by the encoder and lost, its length being written as zero. */
  lemma LongDataLost(m: Mem, c: nat, r: ResourceRecord)
    requires |r.rdata| == 0x1_0000 && Canonical(r.name)
    ensures EncResource(r).Some?
    ensures At(m, c, EncResource(r).value) ==>
      Is(DecResource(m, c), r.(rdata := []), c + |EncResource(r).value|)
  {
    CanonicalEncodes(r.name);
    if At(m, c, EncResource(r).value) {
      KeptIs(r);
      ResourceBackAs(m, c, r, EncName(r.name).value, Canonical(r.name), c + |EncResource(r).value|);
    }
  }

  // ---------------------------------------------------------------- sections

  ghost predicate AllGood<T(!new)>(good: T -> bool, xs: seq<T>) {
    forall i :: 0 <= i < |xs| ==> good(xs[i])
  }

  lemma AllGoodSnoc<T(!new)>(good: T -> bool, xs: seq<T>)
    requires xs != []
    ensures AllGood(good, xs) <==> AllGood(good, xs[..|xs| - 1]) && good(xs[|xs| - 1])
  {
    if AllGood(good, xs[..|xs| - 1]) && good(xs[|xs| - 1]) {
      assert xs == xs[..|xs| - 1] + [xs[|xs| - 1]];
    }
  }

  /** An entry encoded in the buffer comes back exactly when it is good. */
  ghost predicate EntryBack<T(!new)>(
    m: Mem, enc: T -> Encoded, dec: nat -> Got<T>, good: T -> bool, c: nat, x: T) {
    enc(x).Some? && At(m, c, enc(x).value) ==> Back(dec(c), x, good(x), c + |enc(x).value|)
  }

  ghost predicate EntriesBack<T(!new)>(m: Mem, enc: T -> Encoded, dec: nat -> Got<T>, good: T -> bool) {
    forall c: nat, x :: EntryBack(m, enc, dec, good, c, x)
  }

  lemma {:induction false} SectionRoundTrip<T(!new)>(
    m: Mem, c: nat, enc: T -> Encoded, dec: nat -> Got<T>, good: T -> bool, xs: seq<T>)
    requires EntriesBack(m, enc, dec, good)
    requires EncAll(enc, xs).Some? && At(m, c, EncAll(enc, xs).value)
    ensures Back(DecAll(dec, c, |xs|), xs, AllGood(good, xs), c + |EncAll(enc, xs).value|)
    decreases |xs|
  {
    if xs != [] {
      var init, last := xs[..|xs| - 1], xs[|xs| - 1];
      var b := EncAll(enc, init).value;
      AtSplit(m, c, b, enc(last).value);
      SectionRoundTrip(m, c, enc, dec, good, init);
      assert EntryBack(m, enc, dec, good, c + |b|, last);
      SnocBack(good, xs, DecAll(dec, c, |init|), dec, c + |b|, c + |EncAll(enc, xs).value|);
    }
  }

  lemma SnocBack<T(!new)>(
    good: T -> bool, xs: seq<T>, d: Got<seq<T>>, dec: nat -> Got<T>, mid: nat, next: nat)
    requires xs != [] && Back(d, xs[..|xs| - 1], AllGood(good, xs[..|xs| - 1]), mid)
    requires Back(dec(mid), xs[|xs| - 1], good(xs[|xs| - 1]), next)
    ensures var e := if d.None? || dec(d.value.1).None? then None
      else Some((d.value.0 + [dec(d.value.1).value.0], dec(d.value.1).value.1));
      Back(e, xs, AllGood(good, xs), next)
  {
    AllGoodSnoc(good, xs);
    assert xs == xs[..|xs| - 1] + [xs[|xs| - 1]];
    if d.Some? && dec(d.value.1).Some? {
      var e := d.value.0 + [dec(d.value.1).value.0];
      assert d.value.0 == e[..|e| - 1] && dec(d.value.1).value.0 == e[|e| - 1];
    }
  }

  lemma {:induction false} AllEncode<T(!new)>(enc: T -> Encoded, xs: seq<T>)
    requires forall i :: 0 <= i < |xs| ==> enc(xs[i]).Some?
    ensures EncAll(enc, xs).Some?
  {
    if xs != [] {
      AllEncode(enc, xs[..|xs| - 1]);
    }
  }

  // ---------------------------------------------------------------- messages

  /** Good entries, and at most 65535 of them in each section. */
  ghost predicate GoodBody(gq: Question -> bool, gr: ResourceRecord -> bool, m: Message) {
    && AllGood(gq, m.questions) && AllGood(gr, m.answers) && AllGood(gr, m.authorities) && AllGood(gr, m.additional)
    && |m.questions| <= 0xffff && |m.answers| <= 0xffff && |m.authorities| <= 0xffff && |m.additional| <= 0xffff
  }

  ghost predicate GoodMessage(m: Message) {
    GoodBody(GoodQuestion, GoodResource, m)
  }

  lemma HeaderRoundTrip(m: Mem, c: nat, h: Header)
    requires At(m, c, EncHeader(h))
    ensures Is(DecHeader(m, c), h, c + 12)
  {
    var ws := [h.id, h.fields, h.qdCount, h.anCount, h.nsCount, h.arCount];
    WordsBack(m, c, ws, 0);
    WordsBack(m, c, ws, 1);
    WordsBack(m, c, ws, 2);
    WordsBack(m, c, ws, 3);
    WordsBack(m, c, ws, 4);
    WordsBack(m, c, ws, 5);
  }

  /** The sections lie one after the other. */
  lemma SectionsAt(m: Mem, c: nat, msg: Message, eq: Question -> Encoded, er: ResourceRecord -> Encoded)
    requires EncBody(eq, er, msg).Some? && At(m, c, EncBody(eq, er, msg).value)
    ensures var q, an, ns, ar := EncAll(eq, msg.questions).value, EncAll(er, msg.answers).value,
        EncAll(er, msg.authorities).value, EncAll(er, msg.additional).value;
      && At(m, c, q) && At(m, c + |q|, an) && At(m, c + |q| + |an|, ns) && At(m, c + |q| + |an| + |ns|, ar)
      && |EncBody(eq, er, msg).value| == |q| + |an| + |ns| + |ar|
  {
    var q, an, ns, ar := EncAll(eq, msg.questions).value, EncAll(er, msg.answers).value,
      EncAll(er, msg.authorities).value, EncAll(er, msg.additional).value;
    AtSplit(m, c, q, an + (ns + ar));
    AtSplit(m, c + |q|, an, ns + ar);
    AtSplit(m, c + |q| + |an|, ns, ar);
  }

  /** If each section comes back where it lies exactly when it is good, so does the whole. */
  lemma BodyFromSections(
    msg: Message, dq: nat -> Got<Question>, dr: nat -> Got<ResourceRecord>,
    gq: Question -> bool, gr: ResourceRecord -> bool, c: nat, c1: nat, c2: nat, c3: nat, c4: nat)
    requires Back(DecAll(dq, c, |msg.questions|), msg.questions, AllGood(gq, msg.questions), c1)
    requires Back(DecAll(dr, c1, |msg.answers|), msg.answers, AllGood(gr, msg.answers), c2)
    requires Back(DecAll(dr, c2, |msg.authorities|), msg.authorities, AllGood(gr, msg.authorities), c3)
    requires Back(DecAll(dr, c3, |msg.additional|), msg.additional, AllGood(gr, msg.additional), c4)
    ensures Back(DecBody(dq, dr, c, HeaderOf(msg)), msg, GoodBody(gq, gr, msg), c4)
  {
    var d, h := DecBody(dq, dr, c, HeaderOf(msg)), HeaderOf(msg);
    if d.Some? && d.value.0 == msg {
      DecBodyCounts(dq, dr, c, h);
    }
  }

  lemma DecBodyCounts(dq: nat -> Got<Question>, dr: nat -> Got<ResourceRecord>, c: nat, h: Header)
    requires DecBody(dq, dr, c, h).Some?
    ensures var m := DecBody(dq, dr, c, h).value.0;
      && |m.questions| == h.qdCount && |m.answers| == h.anCount
      && |m.authorities| == h.nsCount && |m.additional| == h.arCount
  {
  }

  /** The sections of an encoded message come back exactly when all are good. */
  lemma BodyRoundTrip(
    m: Mem, c: nat, msg: Message,
    eq: Question -> Encoded, dq: nat -> Got<Question>, gq: Question -> bool,
    er: ResourceRecord -> Encoded, dr: nat -> Got<ResourceRecord>, gr: ResourceRecord -> bool)
    requires EntriesBack(m, eq, dq, gq) && EntriesBack(m, er, dr, gr)
    requires EncBody(eq, er, msg).Some? && At(m, c, EncBody(eq, er, msg).value)
    ensures Back(DecBody(dq, dr, c, HeaderOf(msg)), msg, GoodBody(gq, gr, msg), c + |EncBody(eq, er, msg).value|)
  {
    SectionsAt(m, c, msg, eq, er);
    var c1 := c + |EncAll(eq, msg.questions).value|;
    var c2 := c1 + |EncAll(er, msg.answers).value|;
    var c3 := c2 + |EncAll(er, msg.authorities).value|;
    SectionRoundTrip(m, c, eq, dq, gq, msg.questions);
    SectionRoundTrip(m, c1, er, dr, gr, msg.answers);
    SectionRoundTrip(m, c2, er, dr, gr, msg.authorities);
    SectionRoundTrip(m, c3, er, dr, gr, msg.additional);
    BodyFromSections(msg, dq, dr, gq, gr, c, c1, c2, c3, c + |EncBody(eq, er, msg).value|);
  }

  lemma QuestionBack(m: Mem, c: nat, q: Question)
    ensures EntryBack(m, EncQuestion, Questions(m), GoodQuestion, c, q)
  {
    if EncQuestion(q).Some? && At(m, c, EncQuestion(q).value) {
      QuestionRoundTrip(m, c, q);
    }
  }

  lemma QuestionsBack(m: Mem)
    ensures EntriesBack(m, EncQuestion, Questions(m), GoodQuestion)
  {
    forall c: nat, q
      ensures EntryBack(m, EncQuestion, Questions(m), GoodQuestion, c, q)
    {
      QuestionBack(m, c, q);
    }
  }

  lemma ResourceBack(m: Mem, c: nat, r: ResourceRecord)
    ensures EntryBack(m, EncResource, Resources(m), GoodResource, c, r)
  {
    if EncResource(r).Some? && At(m, c, EncResource(r).value) {
      ResourceRoundTrip(m, c, r);
    }
  }

  lemma ResourcesBack(m: Mem)
    ensures EntriesBack(m, EncResource, Resources(m), GoodResource)
  {
    forall c: nat, r
      ensures EntryBack(m, EncResource, Resources(m), GoodResource, c, r)
    {
      ResourceBack(m, c, r);
    }
  }

  lemma BodyEncodes(
    msg: Message,
    eq: Question -> Encoded, gq: Question -> bool,
    er: ResourceRecord -> Encoded, gr: ResourceRecord -> bool)
    requires forall q :: gq(q) ==> eq(q).Some?
    requires forall r :: gr(r) ==> er(r).Some?
    requires GoodBody(gq, gr, msg)
    ensures EncBody(eq, er, msg).Some?
  {
    AllEncode(eq, msg.questions);
    AllEncode(er, msg.answers);
    AllEncode(er, msg.authorities);
    AllEncode(er, msg.additional);
  }

  /** Every good message can be encoded. */
  lemma GoodEncodes(msg: Message)
    requires GoodMessage(msg)
    ensures EncMessage(msg).Some?
  {
    forall q | GoodQuestion(q)
      ensures EncQuestion(q).Some?
    {
      CanonicalEncodes(q.qname);
    }
    forall r | GoodResource(r)
      ensures EncResource(r).Some?
    {
      CanonicalEncodes(r.name);
    }
    BodyEncodes(msg, EncQuestion, GoodQuestion, EncResource, GoodResource);
  }

  /** The message theorem for any entries that come back exactly when they are good. */
  lemma RestRoundTrip(
    m: Mem, c: nat, msg: Message, h: Got<Header>, b: seq<Byte>, end: nat, d: Got<Message>, good: bool,
    eq: Question -> Encoded, dq: nat -> Got<Question>, gq: Question -> bool,
    er: ResourceRecord -> Encoded, dr: nat -> Got<ResourceRecord>, gr: ResourceRecord -> bool)
    requires EntriesBack(m, eq, dq, gq) && EntriesBack(m, er, dr, gr)
    requires Is(h, HeaderOf(msg), c) && EncBody(eq, er, msg) == Some(b) && At(m, c, b)
    requires end == c + |b| && d == DecRest(h, dq, dr) && good == GoodBody(gq, gr, msg)
    ensures good <==> d == Some((msg, end))
  {
    BodyRoundTrip(m, c, msg, eq, dq, gq, er, dr, gr);
  }

  lemma HeaderAt(m: Mem, c: nat, msg: Message, b: seq<Byte>)
    requires At(m, c, EncHeader(HeaderOf(msg)) + b)
    ensures Is(DecHeader(m, c), HeaderOf(msg), c + 12) && At(m, c + 12, b)
  {
    AtSplit(m, c, EncHeader(HeaderOf(msg)), b);
    HeaderRoundTrip(m, c, HeaderOf(msg));
  }

  /**
   * An encoded message, wherever it lies in a buffer that holds it, decodes to itself with
   * exactly its octets consumed if and only if it is good.
   */
  lemma MessageRoundTrip(m: Mem, c: nat, msg: Message, b: seq<Byte>, end: nat)
    requires EncMessage(msg) == Some(b) && At(m, c, b) && end == c + |b|
    ensures GoodMessage(msg) <==> DecMessage(m, c) == Some((msg, end))
  {
    var body := EncBody(EncQuestion, EncResource, msg).value;
    HeaderAt(m, c, msg, body);
    QuestionsBack(m);
    ResourcesBack(m);
    RestRoundTrip(m, c + 12, msg, DecHeader(m, c), body, end, DecMessage(m, c), GoodMessage(msg),
                  EncQuestion, Questions(m), GoodQuestion, EncResource, Resources(m), GoodResource);
  }
}
