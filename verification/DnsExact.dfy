/**
 * The DNS decoder on any octets: it succeeds exactly on the encodings of good names, questions,
 * records and messages, and then yields what is encoded there and stops behind it.
 */
module DnsExact {
  import opened Bytes
  import opened DnsWire
  import opened DnsRoundTrip

  // ---------------------------------------------------------------- fields

  /** Two octets as a number, the most significant first. */
  function Word(high: nat, low: nat): (n: nat) {
    256 * high + low
  }

  /** A field of two octets is there exactly when both lie in the buffer, and is read most significant first. */
  lemma WordExact(m: Mem, c: nat)
    ensures Read(m, c, 2).Some? <==> c + 2 <= m.sz
    ensures c + 2 <= m.sz ==> Is(Read(m, c, 2), Word(m.octets[c], m.octets[c + 1]), c + 2)
  {
    if c + 2 <= m.sz {
      var b := m.octets[c..c + 2];
      assert b[..1] == [b[0]] && b[..1][..0] == [];
      assert FromBE(b[..1]) == b[0];
    }
  }

  /** What was read is what encoding it would put there. */
  lemma ReadSound(m: Mem, c: nat, width: nat)
    requires width > 0 && Read(m, c, width).Some?
    ensures At(m, c, ToBE(Read(m, c, width).value.0, width))
  {
    ToFromBE(m.octets[c..c + width]);
  }

  /** Data are there exactly when their length and as many octets as it says lie in the buffer. */
  lemma RDataExact(m: Mem, c: nat)
    ensures DecRData(m, c).Some? <==>
      c + 2 <= m.sz && c + 2 + Word(m.octets[c], m.octets[c + 1]) <= m.sz
    ensures DecRData(m, c).Some? ==>
      var end := c + 2 + Word(m.octets[c], m.octets[c + 1]);
      DecRData(m, c) == Some((m.octets[c + 2..end], end))
  {
    WordExact(m, c);
  }

  lemma AtJoin(m: Mem, c: nat, a: seq<Byte>, b: seq<Byte>)
    requires At(m, c, a) && At(m, c + |a|, b)
    ensures At(m, c, a + b)
  {
    forall i | 0 <= i < |a + b|
      ensures (a + b)[i] == m.octets[c + i]
    {
      if i >= |a| {
        assert (a + b)[i] == b[i - |a|];
        assert b[i - |a|] == m.octets[c + |a| + (i - |a|)];
      }
    }
  }

  lemma RDataSound(m: Mem, c: nat, d: seq<Byte>, end: nat)
    requires Is(DecRData(m, c), d, end)
    ensures |d| <= 0xffff && At(m, c, EncRData(d)) && end == c + |EncRData(d)|
  {
    RangeValues();
    var len := Read(m, c, 2).value.0;
    ReadSound(m, c, 2);
    assert d == m.octets[c + 2..c + 2 + len] && d[..len] == d;
    AtJoin(m, c, ToBE(len, 2), d);
  }

  // ---------------------------------------------------------------- names

  /** The octets b lie in the memory behind c; names may end one octet behind the buffer. */
  ghost predicate Lies(m: Mem, c: nat, b: seq<Byte>) {
    c + |b| <= |m.octets| && m.octets[c..c + |b|] == b
  }

  /** A name: its labels behind their lengths, then a zero octet. */
  ghost predicate NameAt(m: Mem, c: nat, labels: seq<Name>, end: nat)
    decreases |labels|
  {
    if labels == [] then
      c <= m.sz && m.octets[c] == 0 && end == c + 1
    else
      && IsOctets(labels[0]) && c + 1 + |labels[0]| <= m.sz
      && m.octets[c] == |labels[0]| && m.octets[c + 1..c + 1 + |labels[0]|] == labels[0]
      && NameAt(m, c + 1 + |labels[0]|, labels[1..], end)
  }

  /** A label as the decoder takes it; it may hold any octets, also dots. */
  predicate IsOctets(l: Name) {
    0 < |l| <= MAX_LABEL
  }

  lemma {:induction false} FindLabels(m: Mem, c: nat) returns (labels: seq<Name>)
    requires c <= m.sz && DecLabels(m, c).Some?
    ensures NameAt(m, c, labels, DecLabels(m, c).value.1) && DecLabels(m, c).value.0 == Join(labels)
    decreases m.sz - c
  {
    var l: nat := m.octets[c];
    if l == 0 {
      labels := [];
    } else {
      var rest := FindLabels(m, c + 1 + l);
      labels := [m.octets[c + 1..c + 1 + l]] + rest;
      assert labels[1..] == rest;
    }
  }

  lemma {:induction false} LabelsFound(m: Mem, c: nat, labels: seq<Name>, end: nat)
    requires NameAt(m, c, labels, end)
    ensures c <= m.sz && Is(DecLabels(m, c), Join(labels), end)
    decreases |labels|
  {
    if labels != [] {
      LabelsFound(m, c + 1 + |labels[0]|, labels[1..], end);
    }
  }

  /** The decoder gets a name exactly where its labels lie, and stops behind its zero octet. */
  lemma NameExact(m: Mem, c: nat, n: Name, end: nat)
    ensures Is(DecName(m, c), n, end) <==>
      c < m.sz && exists labels :: NameAt(m, c, labels, end) && n == Join(labels)
  {
    if Is(DecName(m, c), n, end) {
      var labels := FindLabels(m, c);
      assert NameAt(m, c, labels, end) && n == Join(labels);
    }
    if c < m.sz {
      forall labels | NameAt(m, c, labels, end) && n == Join(labels)
        ensures Is(DecName(m, c), n, end)
      {
        LabelsFound(m, c, labels, end);
      }
    }
  }

  /** A place has only one name. */
  lemma {:induction false} LabelsUnique(m: Mem, c: nat, a: seq<Name>, b: seq<Name>, end: nat, end': nat)
    requires NameAt(m, c, a, end) && NameAt(m, c, b, end')
    ensures a == b && end == end'
    decreases |a|
  {
    if a != [] && b != [] {
      LabelsUnique(m, c + 1 + |a[0]|, a[1..], b[1..], end, end');
      assert a == [a[0]] + a[1..] && b == [b[0]] + b[1..];
    }
  }

  /** No label of the name at a place holds a dot. */
  ghost predicate PlainName(m: Mem, c: nat) {
    forall labels, end :: NameAt(m, c, labels, end) ==> DotFree(labels)
  }

  ghost predicate DotFree(labels: seq<Name>) {
    forall i :: 0 <= i < |labels| ==> DOT !in labels[i]
  }

  lemma {:induction false} NameEncoded(m: Mem, c: nat, labels: seq<Name>, end: nat)
    requires NameAt(m, c, labels, end) && end <= m.sz && DotFree(labels)
    ensures AreLabels(labels) && EncParts(labels).Some?
    ensures At(m, c, EncParts(labels).value) && end == c + |EncParts(labels).value|
    decreases |labels|
  {
    if labels != [] {
      var l, rest := labels[0], labels[1..];
      NameEncoded(m, c + 1 + |l|, rest, end);
      assert AreLabels(labels) by {
        assert labels == [l] + rest;
      }
      AtJoin(m, c, [|l|], l);
      AtJoin(m, c, [|l|] + l, EncParts(rest).value);
    }
  }

  lemma {:induction false} EncodedName(m: Mem, c: nat, labels: seq<Name>)
    requires AreLabels(labels) && EncParts(labels).Some? && At(m, c, EncParts(labels).value)
    ensures NameAt(m, c, labels, c + |EncParts(labels).value|)
    decreases |labels|
  {
    if labels == [] {
      FirstAt(m, c, [0]);
    } else {
      assert IsLabel(labels[0]);
      LabelAt(m, c, labels[0], EncParts(labels[1..]).value);
      EncodedName(m, c + 1 + |labels[0]|, labels[1..]);
    }
  }

  /** A decoded name encodes to the octets it was decoded from exactly when none of its labels holds a dot. */
  lemma NameSound(m: Mem, c: nat, n: Name, end: nat)
    requires Is(DecName(m, c), n, end) && end <= m.sz
    ensures PlainName(m, c) <==>
      Canonical(n) && EncName(n).Some? && At(m, c, EncName(n).value) && end == c + |EncName(n).value|
  {
    NameExact(m, c, n, end);
    var labels :| NameAt(m, c, labels, end) && n == Join(labels);
    if PlainName(m, c) {
      NameEncoded(m, c, labels, end);
      PartsOfJoin(labels);
    }
    if Canonical(n) && EncName(n).Some? && At(m, c, EncName(n).value) {
      EncodedPlain(m, c, n);
    }
  }

  lemma EncodedPlain(m: Mem, c: nat, n: Name)
    requires Canonical(n) && EncName(n).Some? && At(m, c, EncName(n).value)
    ensures PlainName(m, c)
  {
    var parts :| AreLabels(parts) && n == Join(parts);
    PartsOfJoin(parts);
    PlainParts(m, c, parts, EncName(n).value);
  }

  lemma PlainParts(m: Mem, c: nat, parts: seq<Name>, b: seq<Byte>)
    requires AreLabels(parts) && EncParts(parts) == Some(b) && At(m, c, b)
    ensures PlainName(m, c)
  {
    EncodedName(m, c, parts);
    LabelsDotFree(parts);
    OnlyName(m, c, parts, c + |b|);
  }

  lemma OnlyName(m: Mem, c: nat, parts: seq<Name>, end: nat)
    requires NameAt(m, c, parts, end) && DotFree(parts)
    ensures PlainName(m, c)
  {
    forall labels, end' | NameAt(m, c, labels, end')
      ensures DotFree(labels)
    {
      LabelsUnique(m, c, parts, labels, end, end');
    }
  }

  lemma LabelsDotFree(labels: seq<Name>)
    requires AreLabels(labels)
    ensures DotFree(labels)
  {
    assert forall i :: 0 <= i < |labels| ==> IsLabel(labels[i]);
  }

  /** A label with a dot in it decodes to the same name as two labels, so the octets do not come back. */
  lemma DottedLabel(m: Mem, c: nat)
    requires At(m, c, [3, 97, DOT, 98, 0])
    ensures Is(DecName(m, c), [97, DOT, 98, DOT], c + 5) && EncName([97, DOT, 98, DOT]) == Some([1, 97, 1, 98, 0])
  {
    var l: Name := [97, DOT, 98];
    assert [3, 97, DOT, 98, 0] == [3] + l + [0];
    AtSplit(m, c, [3] + l, [0]);
    AtSplit(m, c, [3], l);
    AtSlice(m, c + 1, l);
    FirstAt(m, c, [3]);
    FirstAt(m, c + 4, [0]);
    var labels: seq<Name> := [l];
    assert |labels[1..]| == 0 && NameAt(m, c + 4, labels[1..], c + 5);
    assert NameAt(m, c, labels, c + 5);
    LabelsFound(m, c, labels, c + 5);
    assert Join(labels) == l + [DOT] + Join(labels[1..]) && Join(labels) == [97, DOT, 98, DOT];
    TwoLabels();
  }

  lemma TwoLabels()
    ensures EncName([97, DOT, 98, DOT]) == Some([1, 97, 1, 98, 0])
  {
    var a: Name, b: Name := [97], [98];
    var both: seq<Name>, one: seq<Name>, none: seq<Name> := [a, b], [b], [];
    assert IsLabel(a) && IsLabel(b) && AreLabels(both) && both[1..] == one && one[1..] == none;
    assert Join(none) == [] && EncParts(none) == Some([0]);
    assert Join(one) == [98] + [DOT] + [] && Join(one) == [98, DOT];
    assert Join(both) == [97] + [DOT] + Join(one);
    PartsOfJoin(both);
    assert EncParts(one) == Some([1] + [98] + [0]) && [1] + [98] + [0] == [1, 98, 0];
    assert EncParts(both) == Some([1] + [97] + [1, 98, 0]) && [1] + [97] + [1, 98, 0] == [1, 97, 1, 98, 0];
    assert Join(both) == [97, DOT, 98, DOT];
  }

  // ---------------------------------------------------------------- questions and records

  /** What was decoded at a place encodes to the octets it was decoded from. */
  ghost predicate Encodes<T(!new)>(m: Mem, c: nat, enc: T -> Encoded, x: T, end: nat) {
    enc(x).Some? && At(m, c, enc(x).value) && end == c + |enc(x).value|
  }

  lemma TwoWordsSound(m: Mem, c: nat)
    requires Read(m, c, 2).Some? && Read(m, c + 2, 2).Some?
    ensures var t, cl := Read(m, c, 2).value.0, Read(m, c + 2, 2).value.0;
      t < 0x1_0000 && cl < 0x1_0000 && At(m, c, EncWords([t, cl]))
  {
    RangeValues();
    ReadSound(m, c, 2);
    ReadSound(m, c + 2, 2);
    var t, cl := Read(m, c, 2).value.0, Read(m, c + 2, 2).value.0;
    AtJoin(m, c, ToBE(t, 2), ToBE(cl, 2));
    TwoWords(t, cl);
  }

  lemma TwoWords(t: U16, cl: U16)
    ensures EncWords([t, cl]) == ToBE(t, 2) + ToBE(cl, 2)
  {
    assert [t, cl][..1] == [t] && [t][..0] == [];
    assert EncWords([t]) == [] + ToBE(t, 2);
  }

  /** A question as it lies in the buffer: the labels of its name, then two fields of two octets. */
  ghost predicate QuestionAt(m: Mem, c: nat, q: Question, labels: seq<Name>, mid: nat, end: nat) {
    && c < m.sz && NameAt(m, c, labels, mid) && q.qname == Join(labels) && end == mid + 4 <= m.sz
    && q.qtype == Word(m.octets[mid], m.octets[mid + 1]) && q.qclass == Word(m.octets[mid + 2], m.octets[mid + 3])
  }

  /** The decoder gets a question exactly where one lies. */
  lemma QuestionExact(m: Mem, c: nat, q: Question, end: nat)
    ensures Is(DecQuestion(m, c), q, end) <==> exists labels, mid: nat :: QuestionAt(m, c, q, labels, mid, end)
  {
    if Is(DecQuestion(m, c), q, end) {
      var n := DecName(m, c).value;
      NameExact(m, c, n.0, n.1);
      var labels :| NameAt(m, c, labels, n.1) && n.0 == Join(labels);
      WordExact(m, n.1);
      WordExact(m, n.1 + 2);
      assert QuestionAt(m, c, q, labels, n.1, end);
    }
    forall labels, mid: nat | QuestionAt(m, c, q, labels, mid, end)
      ensures Is(DecQuestion(m, c), q, end)
    {
      QuestionThere(m, c, q, labels, mid, end);
    }
  }

  lemma QuestionThere(m: Mem, c: nat, q: Question, labels: seq<Name>, mid: nat, end: nat)
    requires QuestionAt(m, c, q, labels, mid, end)
    ensures Is(DecQuestion(m, c), q, end)
  {
    LabelsFound(m, c, labels, mid);
    WordExact(m, mid);
    WordExact(m, mid + 2);
  }

  /** Four octets as a number. */
  function Long(high: nat, low: nat): (n: nat) {
    0x1_0000 * high + low
  }

  lemma LongExact(m: Mem, c: nat)
    ensures Read(m, c, 4).Some? <==> c + 4 <= m.sz
    ensures c + 4 <= m.sz ==>
      Is(Read(m, c, 4), Long(Word(m.octets[c], m.octets[c + 1]), Word(m.octets[c + 2], m.octets[c + 3])), c + 4)
  {
    if c + 4 <= m.sz {
      var b := m.octets[c..c + 4];
      assert b[..3][..2] == b[..2] && b[..2][..1] == b[..1] && b[..1][..0] == [];
      assert FromBE(b[..1]) == b[0];
      assert FromBE(b[..2]) == 256 * FromBE(b[..1]) + b[1];
      assert FromBE(b[..3]) == 256 * FromBE(b[..2]) + b[2];
    }
  }

  /** The fields of a record behind its name: type, class, time to live, and data behind their length. */
  ghost predicate FieldsAt(m: Mem, mid: nat, r: ResourceRecord, end: nat) {
    && mid + 10 <= end <= m.sz && end == mid + 10 + Word(m.octets[mid + 8], m.octets[mid + 9])
    && r.rrtype == Word(m.octets[mid], m.octets[mid + 1]) && r.rrclass == Word(m.octets[mid + 2], m.octets[mid + 3])
    && r.ttl == Long(Word(m.octets[mid + 4], m.octets[mid + 5]), Word(m.octets[mid + 6], m.octets[mid + 7]))
    && r.rdata == m.octets[mid + 10..end]
  }

  lemma FieldsExact(m: Mem, mid: nat, r: ResourceRecord, end: nat)
    ensures Is(DecFields(m, mid, r.name), r, end) <==> FieldsAt(m, mid, r, end)
  {
    WordExact(m, mid);
    WordExact(m, mid + 2);
    LongExact(m, mid + 4);
    RDataExact(m, mid + 8);
  }

  ghost predicate ResourceAt(m: Mem, c: nat, r: ResourceRecord, labels: seq<Name>, mid: nat, end: nat) {
    c < m.sz && NameAt(m, c, labels, mid) && r.name == Join(labels) && FieldsAt(m, mid, r, end)
  }

  /** The decoder gets a record exactly where one lies. */
  lemma ResourceExact(m: Mem, c: nat, r: ResourceRecord, end: nat)
    ensures Is(DecResource(m, c), r, end) <==> exists labels, mid: nat :: ResourceAt(m, c, r, labels, mid, end)
  {
    if Is(DecResource(m, c), r, end) {
      var n := DecName(m, c).value;
      NameExact(m, c, n.0, n.1);
      var labels :| NameAt(m, c, labels, n.1) && n.0 == Join(labels);
      FieldsExact(m, n.1, r, end);
      assert ResourceAt(m, c, r, labels, n.1, end);
    }
    forall labels, mid: nat | ResourceAt(m, c, r, labels, mid, end)
      ensures Is(DecResource(m, c), r, end)
    {
      LabelsFound(m, c, labels, mid);
      FieldsExact(m, mid, r, end);
    }
  }

  lemma QuestionSound(m: Mem, c: nat, q: Question, end: nat)
    requires Is(DecQuestion(m, c), q, end)
    ensures PlainName(m, c) <==> GoodQuestion(q) && Encodes(m, c, EncQuestion, q, end)
  {
    var n := DecName(m, c).value;
    WordExact(m, n.1);
    TwoWordsSound(m, n.1);
    NameSound(m, c, n.0, n.1);
    QuestionSoundAs(m, c, q, end, n.1, EncWords([q.qtype, q.qclass]));
  }

  lemma QuestionSoundAs(m: Mem, c: nat, q: Question, end: nat, mid: nat, words: seq<Byte>)
    requires words == EncWords([q.qtype, q.qclass]) && At(m, mid, words) && end == mid + 4 && mid <= m.sz
    requires PlainName(m, c) <==>
      Canonical(q.qname) && EncName(q.qname).Some? && At(m, c, EncName(q.qname).value)
      && mid == c + |EncName(q.qname).value|
    ensures PlainName(m, c) <==> GoodQuestion(q) && Encodes(m, c, EncQuestion, q, end)
  {
    if PlainName(m, c) {
      AtJoin(m, c, EncName(q.qname).value, words);
    }
    if GoodQuestion(q) && Encodes(m, c, EncQuestion, q, end) {
      AtSplit(m, c, EncName(q.qname).value, words);
    }
  }

  lemma FieldsSound(m: Mem, c: nat, r: ResourceRecord, end: nat)
    requires Is(DecFields(m, c, r.name), r, end)
    ensures |r.rdata| <= 0xffff && At(m, c, EncFields(r)) && end == c + |EncFields(r)|
  {
    WordExact(m, c);
    TwoWordsSound(m, c);
    ReadSound(m, c + 4, 4);
    RDataSound(m, c + 8, r.rdata, end);
    AtJoin(m, c + 4, ToBE(r.ttl, 4), EncRData(r.rdata));
    AtJoin(m, c, EncWords([r.rrtype, r.rrclass]), ToBE(r.ttl, 4) + EncRData(r.rdata));
  }

  lemma ResourceSound(m: Mem, c: nat, r: ResourceRecord, end: nat)
    requires Is(DecResource(m, c), r, end)
    ensures PlainName(m, c) <==> GoodResource(r) && Encodes(m, c, EncResource, r, end)
  {
    var n := DecName(m, c).value;
    WordExact(m, n.1);
    FieldsSound(m, n.1, r, end);
    NameSound(m, c, n.0, n.1);
    ResourceSoundAs(m, c, r, end, n.1, EncFields(r));
  }

  lemma ResourceSoundAs(m: Mem, c: nat, r: ResourceRecord, end: nat, mid: nat, f: seq<Byte>)
    requires f == EncFields(r) && At(m, mid, f) && end == mid + |f| && |r.rdata| <= 0xffff
    requires PlainName(m, c) <==>
      Canonical(r.name) && EncName(r.name).Some? && At(m, c, EncName(r.name).value)
      && mid == c + |EncName(r.name).value|
    ensures PlainName(m, c) <==> GoodResource(r) && Encodes(m, c, EncResource, r, end)
  {
    if PlainName(m, c) {
      AtJoin(m, c, EncName(r.name).value, f);
    }
    if GoodResource(r) && Encodes(m, c, EncResource, r, end) {
      AtSplit(m, c, EncName(r.name).value, f);
    }
  }

  // ---------------------------------------------------------------- sections

  /** Entries one after the other: where each begins, and where the last ends. */
  ghost predicate InARow<T(!new)>(dec: nat -> Got<T>, xs: seq<T>, ps: seq<nat>) {
    |ps| == |xs| + 1 && forall i :: 0 <= i < |xs| ==> EntryAt(dec, xs, ps, i)
  }

  ghost predicate EntryAt<T(!new)>(dec: nat -> Got<T>, xs: seq<T>, ps: seq<nat>, i: nat)
    requires i < |xs| && i + 1 < |ps|
  {
    Is(dec(ps[i]), xs[i], ps[i + 1])
  }

  /** A section of a given count decodes exactly when as many entries follow each other. */
  lemma {:induction false} SectionExact<T(!new)>(dec: nat -> Got<T>, c: nat, xs: seq<T>, end: nat)
    ensures Is(DecAll(dec, c, |xs|), xs, end) <==>
      exists ps :: InARow(dec, xs, ps) && ps[0] == c && ps[|xs|] == end
    decreases |xs|
  {
    if Is(DecAll(dec, c, |xs|), xs, end) {
      var ps := Places(dec, c, xs, end);
      assert InARow(dec, xs, ps) && ps[0] == c && ps[|xs|] == end;
    }
    forall ps | InARow(dec, xs, ps) && ps[0] == c && ps[|xs|] == end
      ensures Is(DecAll(dec, c, |xs|), xs, end)
    {
      RowDecodes(dec, c, xs, ps);
    }
  }

  lemma {:induction false} Places<T(!new)>(dec: nat -> Got<T>, c: nat, xs: seq<T>, end: nat) returns (ps: seq<nat>)
    requires Is(DecAll(dec, c, |xs|), xs, end)
    ensures InARow(dec, xs, ps) && ps[0] == c && ps[|xs|] == end
    decreases |xs|
  {
    if xs == [] {
      ps := [c];
    } else {
      var init, last := xs[..|xs| - 1], xs[|xs| - 1];
      var d := DecAll(dec, c, |init|).value;
      assert d.0 + [last] == xs && d.0 == init;
      var rest := Places(dec, c, init, d.1);
      ps := rest + [end];
      forall i: nat | i < |xs|
        ensures EntryAt(dec, xs, ps, i)
      {
        if i < |init| {
          assert EntryAt(dec, init, rest, i);
        }
      }
    }
  }

  lemma {:induction false} RowDecodes<T(!new)>(dec: nat -> Got<T>, c: nat, xs: seq<T>, ps: seq<nat>)
    requires InARow(dec, xs, ps) && ps[0] == c
    ensures Is(DecAll(dec, c, |xs|), xs, ps[|xs|])
    decreases |xs|
  {
    if xs != [] {
      var init, rest := xs[..|xs| - 1], ps[..|xs|];
      forall i: nat | i < |init|
        ensures EntryAt(dec, init, rest, i)
      {
        assert EntryAt(dec, xs, ps, i);
      }
      RowDecodes(dec, c, init, rest);
      assert EntryAt(dec, xs, ps, |xs| - 1);
      assert init + [xs[|xs| - 1]] == xs;
    }
  }

  /** What is decoded at a place encodes to its octets exactly when the place is plain. */
  ghost predicate EntrySound<T(!new)>(
    m: Mem, enc: T -> Encoded, dec: nat -> Got<T>, good: T -> bool, plain: nat -> bool, c: nat) {
    dec(c).Some? ==>
      var x, end := dec(c).value.0, dec(c).value.1;
      plain(c) <==> good(x) && Encodes(m, c, enc, x, end)
  }

  ghost predicate EntriesSound<T(!new)>(
    m: Mem, enc: T -> Encoded, dec: nat -> Got<T>, good: T -> bool, plain: nat -> bool) {
    forall c: nat :: EntrySound(m, enc, dec, good, plain, c)
  }

  /** All entries of a section begin at plain places. */
  ghost predicate PlainAll<T(!new)>(dec: nat -> Got<T>, plain: nat -> bool, c: nat, count: nat) {
    count == 0 || (PlainAll(dec, plain, c, count - 1) && PlainNext(DecAll(dec, c, count - 1), plain))
  }

  ghost predicate PlainNext<T(!new)>(before: Got<T>, plain: nat -> bool) {
    before.Some? ==> plain(before.value.1)
  }

  lemma {:induction false} SectionSound<T(!new)>(
    m: Mem, c: nat, enc: T -> Encoded, dec: nat -> Got<T>, good: T -> bool, plain: nat -> bool,
    xs: seq<T>, end: nat)
    requires EntriesSound(m, enc, dec, good, plain) && EntriesBack(m, enc, dec, good)
    requires c <= m.sz && Is(DecAll(dec, c, |xs|), xs, end)
    ensures PlainAll(dec, plain, c, |xs|) <==>
      && AllGood(good, xs) && EncAll(enc, xs).Some?
      && At(m, c, EncAll(enc, xs).value) && end == c + |EncAll(enc, xs).value|
    decreases |xs|
  {
    if xs != [] {
      var init, last := xs[..|xs| - 1], xs[|xs| - 1];
      var d := DecAll(dec, c, |init|).value;
      assert d.0 + [last] == xs && d.0 == init;
      SectionSound(m, c, enc, dec, good, plain, init, d.1);
      assert EntrySound(m, enc, dec, good, plain, d.1);
      AllGoodSnoc(good, xs);
      if EncAll(enc, xs).Some? && At(m, c, EncAll(enc, xs).value) {
        AtSplit(m, c, EncAll(enc, init).value, enc(last).value);
        SectionRoundTrip(m, c, enc, dec, good, init);
      }
      if PlainAll(dec, plain, c, |xs|) {
        AtJoin(m, c, EncAll(enc, init).value, enc(last).value);
      }
    }
  }

  // ---------------------------------------------------------------- messages

  /** The header is there exactly when twelve octets are, and they are its encoding. */
  lemma HeaderSound(m: Mem, c: nat)
    ensures DecHeader(m, c).Some? <==> c + 12 <= m.sz
    ensures DecHeader(m, c).Some? ==> At(m, c, EncHeader(DecHeader(m, c).value.0))
  {
    WordExact(m, c);
    WordExact(m, c + 2);
    WordExact(m, c + 4);
    WordExact(m, c + 6);
    WordExact(m, c + 8);
    WordExact(m, c + 10);
    if c + 12 <= m.sz {
      var h := DecHeader(m, c).value.0;
      TwoWordsSound(m, c);
      TwoWordsSound(m, c + 4);
      TwoWordsSound(m, c + 8);
      SixWords(m, c, h);
    }
  }

  /** The header's fields in their places. */
  ghost predicate HeaderIs(m: Mem, c: nat, h: Header) {
    && c + 12 <= m.sz
    && h.id == Word(m.octets[c], m.octets[c + 1]) && h.fields == Word(m.octets[c + 2], m.octets[c + 3])
    && h.qdCount == Word(m.octets[c + 4], m.octets[c + 5]) && h.anCount == Word(m.octets[c + 6], m.octets[c + 7])
    && h.nsCount == Word(m.octets[c + 8], m.octets[c + 9]) && h.arCount == Word(m.octets[c + 10], m.octets[c + 11])
  }

  lemma HeaderExact(m: Mem, c: nat, h: Header)
    ensures Is(DecHeader(m, c), h, c + 12) <==> HeaderIs(m, c, h)
  {
    WordExact(m, c);
    WordExact(m, c + 2);
    WordExact(m, c + 4);
    WordExact(m, c + 6);
    WordExact(m, c + 8);
    WordExact(m, c + 10);
  }

  lemma SixWords(m: Mem, c: nat, h: Header)
    requires At(m, c, EncWords([h.id, h.fields])) && At(m, c + 4, EncWords([h.qdCount, h.anCount]))
    requires At(m, c + 8, EncWords([h.nsCount, h.arCount]))
    ensures At(m, c, EncHeader(h))
  {
    var a, b, d := [h.id, h.fields], [h.qdCount, h.anCount], [h.nsCount, h.arCount];
    AtJoin(m, c, EncWords(a), EncWords(b));
    WordsJoin(a, b);
    AtJoin(m, c, EncWords(a + b), EncWords(d));
    WordsJoin(a + b, d);
    assert a + b + d == [h.id, h.fields, h.qdCount, h.anCount, h.nsCount, h.arCount];
  }

  lemma {:induction false} WordsJoin(a: seq<U16>, b: seq<U16>)
    ensures EncWords(a + b) == EncWords(a) + EncWords(b)
    decreases |b|
  {
    if b == [] {
      assert a + b == a;
    } else {
      WordsJoin(a, b[..|b| - 1]);
      assert (a + b)[..|a + b| - 1] == a + b[..|b| - 1];
    }
  }

  /** All names of the four sections are plain. */
  ghost predicate PlainBody(
    dq: nat -> Got<Question>, dr: nat -> Got<ResourceRecord>, plain: nat -> bool, c: nat, h: Header) {
    && PlainAll(dq, plain, c, h.qdCount)
    && (DecAll(dq, c, h.qdCount).Some? ==>
         var c1 := DecAll(dq, c, h.qdCount).value.1;
         && PlainAll(dr, plain, c1, h.anCount)
         && (DecAll(dr, c1, h.anCount).Some? ==>
              var c2 := DecAll(dr, c1, h.anCount).value.1;
              && PlainAll(dr, plain, c2, h.nsCount)
              && (DecAll(dr, c2, h.nsCount).Some? ==>
                   PlainAll(dr, plain, DecAll(dr, c2, h.nsCount).value.1, h.arCount))))
  }

  ghost function Plain(m: Mem): (plain: nat -> bool) {
    (c: nat) => PlainName(m, c)
  }

  /** No name of the message at a place has a label with a dot in it. */
  ghost predicate PlainMessage(m: Mem, c: nat) {
    var h := DecHeader(m, c);
    h.Some? ==> PlainBody(Questions(m), Resources(m), Plain(m), h.value.1, h.value.0)
  }

  /** A section decoded between two places is good and encodes to the octets between them. */
  ghost predicate SectionIs<T(!new)>(m: Mem, c: nat, enc: T -> Encoded, good: T -> bool, xs: seq<T>, end: nat) {
    && AllGood(good, xs) && EncAll(enc, xs).Some?
    && At(m, c, EncAll(enc, xs).value) && end == c + |EncAll(enc, xs).value|
  }

  ghost predicate Bounded<T(!new)>(m: Mem, dec: nat -> Got<T>) {
    forall c: nat :: dec(c).Some? ==> dec(c).value.1 <= m.sz
  }

  lemma SectionBounded<T(!new)>(m: Mem, dec: nat -> Got<T>, c: nat, count: nat)
    requires Bounded(m, dec) && c <= m.sz && DecAll(dec, c, count).Some?
    ensures DecAll(dec, c, count).value.1 <= m.sz
  {
  }

  /** The cursors between the sections of a decoded body. */
  lemma Cursors(dq: nat -> Got<Question>, dr: nat -> Got<ResourceRecord>, c: nat, h: Header, msg: Message, end: nat)
    returns (c1: nat, c2: nat, c3: nat)
    requires Is(DecBody(dq, dr, c, h), msg, end)
    ensures HeaderOf(msg) == h
    ensures Is(DecAll(dq, c, |msg.questions|), msg.questions, c1)
    ensures Is(DecAll(dr, c1, |msg.answers|), msg.answers, c2)
    ensures Is(DecAll(dr, c2, |msg.authorities|), msg.authorities, c3)
    ensures Is(DecAll(dr, c3, |msg.additional|), msg.additional, end)
  {
    c1 := DecAll(dq, c, h.qdCount).value.1;
    c2 := DecAll(dr, c1, h.anCount).value.1;
    c3 := DecAll(dr, c2, h.nsCount).value.1;
  }

  /** Questions, answers, authorities and additional records follow each other in this order. */
  ghost predicate SectionsIn(
    dq: nat -> Got<Question>, dr: nat -> Got<ResourceRecord>, msg: Message,
    c: nat, c1: nat, c2: nat, c3: nat, end: nat) {
    && Is(DecAll(dq, c, |msg.questions|), msg.questions, c1) && Is(DecAll(dr, c1, |msg.answers|), msg.answers, c2)
    && Is(DecAll(dr, c2, |msg.authorities|), msg.authorities, c3)
    && Is(DecAll(dr, c3, |msg.additional|), msg.additional, end)
  }

  lemma BodyIn(dq: nat -> Got<Question>, dr: nat -> Got<ResourceRecord>, h: Header, msg: Message,
               c: nat, c1: nat, c2: nat, c3: nat, end: nat)
    requires HeaderOf(msg) == h && SectionsIn(dq, dr, msg, c, c1, c2, c3, end)
    requires |msg.questions| <= 0xffff && |msg.answers| <= 0xffff
    requires |msg.authorities| <= 0xffff && |msg.additional| <= 0xffff
    ensures Is(DecBody(dq, dr, c, h), msg, end)
  {
  }

  /**
   * The parts of a decoded message: the header's fields, whose counts are those of the four
   * sections, and behind it the sections in order.
   */
  ghost predicate PartsIn(m: Mem, c: nat, msg: Message, c1: nat, c2: nat, c3: nat, end: nat) {
    && HeaderIs(m, c, Header(msg.id, msg.fields, |msg.questions| % 0x1_0000, |msg.answers| % 0x1_0000,
                             |msg.authorities| % 0x1_0000, |msg.additional| % 0x1_0000))
    && |msg.questions| <= 0xffff && |msg.answers| <= 0xffff
    && |msg.authorities| <= 0xffff && |msg.additional| <= 0xffff
    && SectionsIn(Questions(m), Resources(m), msg, c + 12, c1, c2, c3, end)
  }

  /** The decoder gets a message exactly where its parts lie. */
  lemma MessageParts(m: Mem, c: nat, msg: Message, end: nat)
    ensures Is(DecMessage(m, c), msg, end) <==>
      exists c1: nat, c2: nat, c3: nat :: PartsIn(m, c, msg, c1, c2, c3, end)
  {
    if Is(DecMessage(m, c), msg, end) {
      var c1, c2, c3 := FindParts(m, c, msg, end);
    }
    forall c1: nat, c2: nat, c3: nat | PartsIn(m, c, msg, c1, c2, c3, end)
      ensures Is(DecMessage(m, c), msg, end)
    {
      PartsFound(m, c, msg, c1, c2, c3, end);
    }
  }

  lemma FindParts(m: Mem, c: nat, msg: Message, end: nat) returns (c1: nat, c2: nat, c3: nat)
    requires Is(DecMessage(m, c), msg, end)
    ensures PartsIn(m, c, msg, c1, c2, c3, end)
  {
    var h := DecHeader(m, c).value.0;
    HeaderExact(m, c, h);
    var dq, dr := Questions(m), Resources(m);
    DecBodyCounts(dq, dr, c + 12, h);
    c1, c2, c3 := Cursors(dq, dr, c + 12, h, msg, end);
  }

  lemma PartsFound(m: Mem, c: nat, msg: Message, c1: nat, c2: nat, c3: nat, end: nat)
    requires PartsIn(m, c, msg, c1, c2, c3, end)
    ensures Is(DecMessage(m, c), msg, end)
  {
    HeaderExact(m, c, HeaderOf(msg));
    BodyIn(Questions(m), Resources(m), HeaderOf(msg), msg, c + 12, c1, c2, c3, end);
  }

  /** Four sections one after the other are the body. */
  lemma BodyJoined(
    m: Mem, c: nat, c1: nat, c2: nat, c3: nat, end: nat, msg: Message,
    eq: Question -> Encoded, gq: Question -> bool, er: ResourceRecord -> Encoded, gr: ResourceRecord -> bool)
    requires SectionIs(m, c, eq, gq, msg.questions, c1) && SectionIs(m, c1, er, gr, msg.answers, c2)
    requires SectionIs(m, c2, er, gr, msg.authorities, c3) && SectionIs(m, c3, er, gr, msg.additional, end)
    ensures EncBody(eq, er, msg).Some? && At(m, c, EncBody(eq, er, msg).value)
    ensures end == c + |EncBody(eq, er, msg).value|
  {
    var q, an, ns, ar := EncAll(eq, msg.questions).value, EncAll(er, msg.answers).value,
      EncAll(er, msg.authorities).value, EncAll(er, msg.additional).value;
    AtJoin(m, c2, ns, ar);
    AtJoin(m, c1, an, ns + ar);
    AtJoin(m, c, q, an + (ns + ar));
  }

  /** And the body falls apart into the four sections, where they were decoded. */
  lemma BodyTaken(
    m: Mem, c: nat, c1: nat, c2: nat, c3: nat, end: nat, msg: Message,
    eq: Question -> Encoded, dq: nat -> Got<Question>, gq: Question -> bool,
    er: ResourceRecord -> Encoded, dr: nat -> Got<ResourceRecord>, gr: ResourceRecord -> bool)
    requires EntriesBack(m, eq, dq, gq) && EntriesBack(m, er, dr, gr) && GoodBody(gq, gr, msg)
    requires EncBody(eq, er, msg).Some? && At(m, c, EncBody(eq, er, msg).value)
    requires Is(DecAll(dq, c, |msg.questions|), msg.questions, c1)
    requires Is(DecAll(dr, c1, |msg.answers|), msg.answers, c2)
    requires Is(DecAll(dr, c2, |msg.authorities|), msg.authorities, c3)
    requires Is(DecAll(dr, c3, |msg.additional|), msg.additional, end)
    ensures SectionIs(m, c, eq, gq, msg.questions, c1) && SectionIs(m, c1, er, gr, msg.answers, c2)
    ensures SectionIs(m, c2, er, gr, msg.authorities, c3) && SectionIs(m, c3, er, gr, msg.additional, end)
  {
    SectionsAt(m, c, msg, eq, er);
    SectionRoundTrip(m, c, eq, dq, gq, msg.questions);
    SectionRoundTrip(m, c1, er, dr, gr, msg.answers);
    SectionRoundTrip(m, c2, er, dr, gr, msg.authorities);
    SectionRoundTrip(m, c3, er, dr, gr, msg.additional);
  }

  lemma BodySound(
    m: Mem, c: nat, h: Header, msg: Message, end: nat, plain: nat -> bool,
    eq: Question -> Encoded, dq: nat -> Got<Question>, gq: Question -> bool,
    er: ResourceRecord -> Encoded, dr: nat -> Got<ResourceRecord>, gr: ResourceRecord -> bool)
    requires EntriesBack(m, eq, dq, gq) && EntriesBack(m, er, dr, gr) && Bounded(m, dq) && Bounded(m, dr)
    requires EntriesSound(m, eq, dq, gq, plain) && EntriesSound(m, er, dr, gr, plain)
    requires c <= m.sz && Is(DecBody(dq, dr, c, h), msg, end)
    ensures HeaderOf(msg) == h
    ensures PlainBody(dq, dr, plain, c, h) <==>
      && GoodBody(gq, gr, msg) && EncBody(eq, er, msg).Some?
      && At(m, c, EncBody(eq, er, msg).value) && end == c + |EncBody(eq, er, msg).value|
  {
    var c1, c2, c3 := Cursors(dq, dr, c, h, msg, end);
    SectionBounded(m, dq, c, |msg.questions|);
    SectionBounded(m, dr, c1, |msg.answers|);
    SectionBounded(m, dr, c2, |msg.authorities|);
    SectionSound(m, c, eq, dq, gq, plain, msg.questions, c1);
    SectionSound(m, c1, er, dr, gr, plain, msg.answers, c2);
    SectionSound(m, c2, er, dr, gr, plain, msg.authorities, c3);
    SectionSound(m, c3, er, dr, gr, plain, msg.additional, end);
    BodyEither(m, c, c1, c2, c3, end, msg, eq, dq, gq, er, dr, gr);
  }

  /** The whole is the good encoding of the body exactly when each section is that of its own. */
  lemma BodyEither(
    m: Mem, c: nat, c1: nat, c2: nat, c3: nat, end: nat, msg: Message,
    eq: Question -> Encoded, dq: nat -> Got<Question>, gq: Question -> bool,
    er: ResourceRecord -> Encoded, dr: nat -> Got<ResourceRecord>, gr: ResourceRecord -> bool)
    requires EntriesBack(m, eq, dq, gq) && EntriesBack(m, er, dr, gr)
    requires |msg.questions| <= 0xffff && |msg.answers| <= 0xffff
    requires |msg.authorities| <= 0xffff && |msg.additional| <= 0xffff
    requires Is(DecAll(dq, c, |msg.questions|), msg.questions, c1)
    requires Is(DecAll(dr, c1, |msg.answers|), msg.answers, c2)
    requires Is(DecAll(dr, c2, |msg.authorities|), msg.authorities, c3)
    requires Is(DecAll(dr, c3, |msg.additional|), msg.additional, end)
    ensures (SectionIs(m, c, eq, gq, msg.questions, c1) && SectionIs(m, c1, er, gr, msg.answers, c2) &&
             SectionIs(m, c2, er, gr, msg.authorities, c3) && SectionIs(m, c3, er, gr, msg.additional, end)) <==>
      (GoodBody(gq, gr, msg) && EncBody(eq, er, msg).Some? && At(m, c, EncBody(eq, er, msg).value) &&
       end == c + |EncBody(eq, er, msg).value|)
  {
    if SectionIs(m, c, eq, gq, msg.questions, c1) && SectionIs(m, c1, er, gr, msg.answers, c2) &&
       SectionIs(m, c2, er, gr, msg.authorities, c3) && SectionIs(m, c3, er, gr, msg.additional, end) {
      BodyJoined(m, c, c1, c2, c3, end, msg, eq, gq, er, gr);
    } else if GoodBody(gq, gr, msg) && EncBody(eq, er, msg).Some? && At(m, c, EncBody(eq, er, msg).value) {
      BodyTaken(m, c, c1, c2, c3, end, msg, eq, dq, gq, er, dr, gr);
    }
  }

  lemma QuestionsSound(m: Mem)
    ensures EntriesSound(m, EncQuestion, Questions(m), GoodQuestion, Plain(m)) && Bounded(m, Questions(m))
  {
    forall c: nat
      ensures EntrySound(m, EncQuestion, Questions(m), GoodQuestion, Plain(m), c)
      ensures Questions(m)(c).Some? ==> Questions(m)(c).value.1 <= m.sz
    {
      if DecQuestion(m, c).Some? {
        QuestionSound(m, c, DecQuestion(m, c).value.0, DecQuestion(m, c).value.1);
      }
    }
  }

  lemma ResourcesSound(m: Mem)
    ensures EntriesSound(m, EncResource, Resources(m), GoodResource, Plain(m)) && Bounded(m, Resources(m))
  {
    forall c: nat
      ensures EntrySound(m, EncResource, Resources(m), GoodResource, Plain(m), c)
      ensures Resources(m)(c).Some? ==> Resources(m)(c).value.1 <= m.sz
    {
      if DecResource(m, c).Some? {
        ResourceSound(m, c, DecResource(m, c).value.0, DecResource(m, c).value.1);
      }
    }
  }

  /** The message's own encoding lies between the two places. */
  ghost predicate MessageAt(m: Mem, c: nat, msg: Message, end: nat) {
    GoodMessage(msg) && EncMessage(msg).Some? && At(m, c, EncMessage(msg).value) && end == c + |EncMessage(msg).value|
  }

  /**
   * Whatever the octets: a decoded message is good and encodes to the octets it was decoded
   * from exactly when none of its labels holds a dot.
   */
  lemma MessageSound(m: Mem, c: nat, msg: Message, end: nat)
    requires Is(DecMessage(m, c), msg, end)
    ensures PlainMessage(m, c) <==> MessageAt(m, c, msg, end)
  {
    HeaderSound(m, c);
    QuestionsSound(m);
    ResourcesSound(m);
    QuestionsBack(m);
    ResourcesBack(m);
    var h := DecHeader(m, c).value.0;
    BodySound(m, c + 12, h, msg, end, Plain(m), EncQuestion, Questions(m), GoodQuestion,
              EncResource, Resources(m), GoodResource);
    var body := EncBody(EncQuestion, EncResource, msg);
    EncodedAs(msg, body);
    HeadAndBody(m, c, EncMessage(msg), EncHeader(h), body, GoodMessage(msg), end);
  }

  /** A message lies where its header and, behind it, its body lie. */
  lemma HeadAndBody(m: Mem, c: nat, whole: Encoded, head: seq<Byte>, body: Encoded, good: bool, end: nat)
    requires whole == (if body.None? then None else Some(head + body.value)) && At(m, c, head) && |head| == 12
    ensures good && whole.Some? && At(m, c, whole.value) && end == c + |whole.value| <==>
      good && body.Some? && At(m, c + 12, body.value) && end == c + 12 + |body.value|
  {
    if body.Some? {
      AtBoth(m, c, head, body.value);
    }
  }

  lemma EncodedAs(msg: Message, body: Encoded)
    requires body == EncBody(EncQuestion, EncResource, msg)
    ensures EncMessage(msg) == if body.None? then None else Some(EncHeader(HeaderOf(msg)) + body.value)
  {
  }

  lemma AtBoth(m: Mem, c: nat, a: seq<Byte>, b: seq<Byte>)
    requires At(m, c, a)
    ensures At(m, c, a + b) <==> At(m, c + |a|, b)
  {
    if At(m, c + |a|, b) {
      AtJoin(m, c, a, b);
    }
    if At(m, c, a + b) {
      AtSplit(m, c, a, b);
    }
  }

  /**
   * The decoder on any octets, exactly: it yields a message whose labels hold no dots, and
   * stops behind it, if and only if the encoding of that good message lies there.
   */
  lemma MessageExact(m: Mem, c: nat, msg: Message, end: nat)
    ensures Is(DecMessage(m, c), msg, end) && PlainMessage(m, c) <==> MessageAt(m, c, msg, end)
  {
    if Is(DecMessage(m, c), msg, end) {
      MessageSound(m, c, msg, end);
    } else if MessageAt(m, c, msg, end) {
      MessageRoundTrip(m, c, msg, EncMessage(msg).value, end);
    }
  }
}
