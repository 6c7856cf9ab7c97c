/** The DNS encoder and decoder working through the cursor of a buffer. */
module DnsBuffer {
  import opened Bytes
  import opened DnsWire
  import opened DnsRoundTrip

  /** The memory with b written over it from c. */
  function Splice(m: seq<Byte>, c: nat, b: seq<Byte>): (s: seq<Byte>)
    requires c + |b| <= |m|
    ensures |s| == |m|
  {
    if b == [] then m else Splice(m, c, b[..|b| - 1])[c + |b| - 1 := b[|b| - 1]]
  }

  lemma {:induction false} SpliceIs(m: seq<Byte>, c: nat, b: seq<Byte>)
    requires c + |b| <= |m|
    ensures Splice(m, c, b) == m[..c] + b + m[c + |b|..]
    decreases |b|
  {
    if b != [] {
      SpliceIs(m, c, b[..|b| - 1]);
      assert b == b[..|b| - 1] + [b[|b| - 1]];
    } else {
      assert m == m[..c] + [] + m[c..];
    }
  }

  lemma SpliceMore(m: seq<Byte>, c: nat, a: seq<Byte>, b: seq<Byte>)
    requires c + |a| + |b| <= |m|
    ensures Splice(Splice(m, c, a), c + |a|, b) == Splice(m, c, a + b)
  {
    SpliceIs(m, c, a);
    SpliceIs(Splice(m, c, a), c + |a|, b);
    SpliceIs(m, c, a + b);
  }

  lemma SpliceKeeps(m: seq<Byte>, c: nat, b: seq<Byte>)
    requires c + |b| <= |m|
    ensures Splice(m, c, b)[..c] == m[..c]
  {
    SpliceIs(m, c, b);
  }

  lemma SpliceAt(m: seq<Byte>, c: nat, b: seq<Byte>, sz: nat)
    requires c + |b| <= sz && sz + 2 <= |m|
    ensures At(Octets(Splice(m, c, b), sz), c, b)
  {
    SpliceIs(m, c, b);
  }

  /** How many of a name's last octets are written without a look at the space left. */
  function Unchecked(parts: seq<Name>): (n: nat) {
    if parts == [] then 1 else if parts[0] == [] then 2 else Unchecked(parts[1..])
  }

  lemma {:induction false} UncheckedFits(parts: seq<Name>)
    requires EncParts(parts).Some?
    ensures 1 <= Unchecked(parts) <= 2 && Unchecked(parts) <= |EncParts(parts).value|
  {
    if parts != [] && parts[0] != [] {
      UncheckedFits(parts[1..]);
    }
  }

  /** done followed by the encoding of the parts of what is left. */
  function Resume(done: seq<Byte>, left: Name): (b: Encoded) {
    var rest :- EncParts(Parts(left));
    Some(done + rest)
  }

  lemma ResumeStart(left: Name)
    ensures Resume([], left) == EncParts(Parts(left))
  {
    if EncParts(Parts(left)).Some? {
      assert [] + EncParts(Parts(left)).value == EncParts(Parts(left)).value;
    }
  }

  /** ss in front of a decoded rest of a name. */
  function After(ss: Name, r: Got<Name>): (a: Got<Name>) {
    match r
    case None => None
    case Some(n) => Some((ss + n.0, n.1))
  }

  lemma AfterLabel(m: Mem, c: nat, ss: Name)
    requires c < m.sz && 0 < m.octets[c] <= MAX_LABEL && c + 1 + m.octets[c] <= m.sz
    ensures After(ss, DecLabels(m, c)) ==
      After(ss + (m.octets[c + 1..c + 1 + m.octets[c]] + [DOT]), DecLabels(m, c + 1 + m.octets[c]))
  {
    var l := m.octets[c];
    var rest := DecLabels(m, c + 1 + l);
    if rest.Some? {
      var part := m.octets[c + 1..c + 1 + l] + [DOT];
      assert ss + (part + rest.value.0) == ss + part + rest.value.0;
    }
  }

  /** A decoded name is empty or ends with a dot. */
  lemma DecodedDot(m: Mem, c: nat)
    requires DecName(m, c).Some?
    ensures var n := DecName(m, c).value.0; n != [] ==> n[|n| - 1] == DOT
  {
    LabelsDot(m, c);
  }

  lemma {:induction false} LabelsDot(m: Mem, c: nat)
    requires c <= m.sz && DecLabels(m, c).Some?
    ensures var n := DecLabels(m, c).value.0; n != [] ==> n[|n| - 1] == DOT
    decreases m.sz - c
  {
    var l: nat := m.octets[c];
    if 0 < l {
      LabelsDot(m, c + 1 + l);
    }
  }

  lemma AfterNothing(r: Got<Name>)
    ensures After([], r) == r
  {
    if r.Some? {
      assert [] + r.value.0 == r.value.0;
    }
  }

  lemma PartsStep(s: Name, part: Name, rest: Name)
    requires s != [] && part == s[..FirstDot(s)]
    requires rest == if FirstDot(s) == |s| then [] else s[FirstDot(s) + 1..]
    ensures Parts(s) == [part] + Parts(rest)
  {
    if FirstDot(s) == |s| {
      assert part == s && Parts([]) == [];
    }
  }

  lemma ResumeStep(done: seq<Byte>, s: Name, part: Name, rest: Name)
    requires s != [] && Parts(s) == [part] + Parts(rest)
    ensures |part| > MAX_LABEL ==> Resume(done, s) == None
    ensures part == [] ==> Resume(done, s) == Some(done + ([|part|] + part) + [0]) && Unchecked(Parts(s)) == 2
    ensures 0 < |part| <= MAX_LABEL ==>
      Resume(done, s) == Resume(done + ([|part|] + part), rest) && Unchecked(Parts(s)) == Unchecked(Parts(rest))
  {
    assert Parts(s)[1..] == Parts(rest);
    if part == [] {
      assert done + [0, 0] == done + ([0] + part) + [0];
    } else if |part| <= MAX_LABEL && EncParts(Parts(rest)).Some? {
      var b := EncParts(Parts(rest)).value;
      assert done + ([|part|] + part + b) == done + ([|part|] + part) + b;
    }
  }

  /** One part of a name and what follows its dot, as a line is read up to a delimiter. */
  method GetLine(s: Name) returns (part: Name, rest: Name)
    requires s != []
    ensures Parts(s) == [part] + Parts(rest) && |rest| < |s|
  {
    var i := 0;
    while i < |s| && s[i] != DOT
      invariant i <= |s| && FirstDot(s) == i + FirstDot(s[i..])
    {
      assert s[i..][1..] == s[i + 1..];
      i := i + 1;
    }
    part := s[..i];
    rest := if i == |s| then [] else s[i + 1..];
    PartsStep(s, part, rest);
  }

  class Buffer {
    const mem: array<Byte>
    const sz: nat
    var cur: nat

    predicate Valid()
      reads this
    {
      sz + 2 <= mem.Length && cur <= sz + 2
    }

    ghost function View(): (m: Mem)
      requires sz + 2 <= mem.Length
      reads this, mem
    {
      Octets(mem[..], sz)
    }

    constructor (mem: array<Byte>, sz: nat)
      requires sz + 2 <= mem.Length
      ensures Valid() && this.mem == mem && this.sz == sz && cur == 0
    {
      this.mem, this.sz, cur := mem, sz, 0;
    }

    /** From start, what the memory held has been overwritten up to the cursor with the given octets. */
    ghost predicate Written(was: seq<Byte>, start: nat, done: seq<Byte>)
      reads this, mem
    {
      sz + 2 <= mem.Length && cur == start + |done| <= sz && |was| == mem.Length && mem[..] == Splice(was, start, done)
    }

    function Left(): (n: nat)
      reads this
    {
      if cur > sz then 0 else sz - cur
    }

    /** Copy octets to the cursor, and move it past them. */
    method Copy(b: seq<Byte>)
      requires Valid() && cur + |b| <= sz + 2
      modifies mem, `cur
      ensures Valid() && cur == old(cur) + |b| && mem[..] == Splice(old(mem[..]), old(cur), b)
    {
      ghost var was := mem[..];
      for i := 0 to |b|
        invariant cur == old(cur) && mem[..] == Splice(was, cur, b[..i])
      {
        SpliceMore(was, cur, b[..i], [b[i]]);
        assert b[..i + 1] == b[..i] + [b[i]];
        mem[cur + i] := b[i];
        assert mem[..] == Splice(Splice(was, cur, b[..i]), cur + i, [b[i]]);
      }
      assert b[..|b|] == b;
      cur := cur + |b|;
    }

    /** put_uint16 and put_uint32. */
    method PutUint(n: nat, width: nat) returns (ok: bool)
      requires Valid() && width > 0
      modifies mem, `cur
      ensures Valid() && (ok <==> old(cur) + width <= sz)
      ensures ok ==> cur == old(cur) + width && mem[..] == Splice(old(mem[..]), old(cur), ToBE(n, width))
      ensures !ok ==> cur == old(cur) && mem[..] == old(mem[..])
    {
      ok := Left() >= width;
      if ok {
        Copy(ToBE(n, width));
      }
    }

    /** read_uint16 and read_uint32. */
    method ReadUint(width: nat) returns (ok: bool, n: nat)
      requires Valid() && width > 0
      modifies `cur
      ensures Valid() && n < Range(width)
      ensures Read(View(), old(cur), width) == if ok then Some((n, cur)) else None
    {
      RangeAbove(width);
      ok, n := Left() >= width, 0;
      if ok {
        for i := 0 to width
          invariant n == FromBE(mem[cur..cur + i])
        {
          assert mem[cur..cur + i + 1][..i] == mem[cur..cur + i];
          n := 256 * n + mem[cur + i];
        }
        assert mem[cur..cur + width] == View().octets[cur..cur + width];
        FromBEBelow(mem[cur..cur + width]);
        cur := cur + width;
      }
    }

    /** A label behind its length octet, which is written before the space for the label is checked. */
    method PutLabel(part: Name) returns (ok: bool)
      requires Valid() && cur <= sz && |part| <= MAX_LABEL
      modifies mem, `cur
      ensures Valid() && (ok <==> part == [] || old(cur) + 1 + |part| <= sz)
      ensures ok ==> cur == old(cur) + 1 + |part| && mem[..] == Splice(old(mem[..]), old(cur), [|part|] + part)
      ensures !ok ==> mem[..old(cur)] == old(mem[..cur])
    {
      ghost var was, start := mem[..], cur;
      Copy([|part|]);
      ok := Left() >= |part|;
      if ok {
        SpliceMore(was, start, [|part|], part);
        Copy(part);
      } else {
        SpliceKeeps(was, start, [|part|]);
      }
    }

    /** The next part of a name, if it may be a label and there is space for it. */
    method PutPart(left: Name, ghost was: seq<Byte>, ghost start: nat, ghost done: seq<Byte>)
      returns (ok: bool, part: Name, rest: Name, ghost done': seq<Byte>)
      requires left != [] && cur <= sz && sz + 2 <= mem.Length
      requires cur == start + |done| && |was| == mem.Length && mem[..] == Splice(was, start, done)
      modifies mem, `cur
      ensures Valid() && |rest| < |left| && Parts(left) == [part] + Parts(rest)
      ensures ok <==> part == [] || (|part| <= MAX_LABEL && start + |done| + 1 + |part| <= sz)
      ensures ok ==> done' == done + ([|part|] + part) && cur == start + |done'| && mem[..] == Splice(was, start, done')
      ensures !ok ==> mem[..start] == was[..start]
    {
      part, rest := GetLine(left);
      done' := done;
      SpliceKeeps(was, start, done);
      ok := |part| <= MAX_LABEL;
      if ok {
        ok := PutLabel(part);
        if ok {
          SpliceMore(was, start, done, [|part|] + part);
          done' := done + ([|part|] + part);
        } else {
          SameStart(Splice(was, start, done), mem[..], start, start + |done|);
        }
      }
    }

    /** The parts of a name and its end; total stands for what they encode to. */
    method PutParts(name: Name, ghost total: Encoded, ghost unchecked: nat) returns (ok: bool)
      requires Valid() && cur <= sz
      requires total == EncParts(Parts(name)) && unchecked == Unchecked(Parts(name))
      modifies mem, `cur
      ensures Valid() && mem[..old(cur)] == old(mem[..cur])
      ensures ok <==> total.Some? && old(cur) + |total.value| <= sz + unchecked
      ensures ok ==> cur == old(cur) + |total.value| && mem[..] == Splice(old(mem[..]), old(cur), total.value)
    {
      ghost var was, start := mem[..], cur;
      ghost var done: seq<Byte> := [];
      var left := name;
      ResumeStart(left);
      while left != []
        invariant cur == start + |done| <= sz && mem[..] == Splice(was, start, done)
        invariant Resume(done, left) == total && unchecked == Unchecked(Parts(left))
        decreases |left|
      {
        var part, rest;
        ghost var done';
        ok, part, rest, done' := PutPart(left, was, start, done);
        ResumeStep(done, left, part, rest);
        if !ok {
          if |part| <= MAX_LABEL {
            TooLong(done, part, rest, sz, start);
          }
          return;
        }
        done, left := done', rest;
        if part == [] {
          break;
        }
      }
      PutEnd(was, start, done);
      return true;
    }

    method PutEnd(ghost was: seq<Byte>, ghost start: nat, ghost done: seq<Byte>)
      requires Valid() && cur <= sz + 1
      requires cur == start + |done| && |was| == mem.Length && mem[..] == Splice(was, start, done)
      modifies mem, `cur
      ensures Valid() && cur == start + |done + [0]| && mem[..] == Splice(was, start, done + [0])
      ensures mem[..start] == was[..start]
    {
      SpliceMore(was, start, done, [0]);
      SpliceKeeps(was, start, done + [0]);
      Copy([0]);
    }

    method EncodeName(name: Name) returns (ok: bool)
      requires Valid() && cur <= sz
      modifies mem, `cur
      ensures Valid() && mem[..old(cur)] == old(mem[..cur])
      ensures ok <==> EncName(name).Some? && old(cur) + |EncName(name).value| <= sz + Unchecked(Parts(Strip(name)))
      ensures ok ==> cur == old(cur) + |EncName(name).value|
      ensures ok ==> mem[..] == Splice(old(mem[..]), old(cur), EncName(name).value)
    {
      if |name| > 0 && name[|name| - 1] == DOT {
        ok := PutParts(name[..|name| - 1], EncName(name), Unchecked(Parts(Strip(name))));
      } else {
        ok := PutParts(name, EncName(name), Unchecked(Parts(Strip(name))));
      }
    }

    /** One round of the decoder's loop: the end of a name, an error, or a label and its dot. */
    method GetLabel() returns (r: Option<Name>, end: bool)
      requires Valid() && cur <= sz
      modifies `cur
      ensures Valid()
      ensures r.None? ==> DecLabels(View(), old(cur)) == None
      ensures r.Some? && end ==> r.value == [] && DecLabels(View(), old(cur)) == Some(([], cur))
      ensures r.Some? && !end ==> old(cur) < cur <= sz
      ensures r.Some? && !end ==> forall ss ::
        After(ss, DecLabels(View(), old(cur))) == After(ss + r.value, DecLabels(View(), cur))
    {
      ghost var m, start := View(), cur;
      var l: nat := mem[cur];
      cur := cur + 1;
      if l == 0 {
        return Some([]), true;
      }
      if l > MAX_LABEL || Left() < l {
        return None, true;
      }
      r, end := Some(mem[cur..cur + l] + [DOT]), false;
      cur := cur + l;
      forall ss
        ensures After(ss, DecLabels(m, start)) == After(ss + r.value, DecLabels(m, cur))
      {
        AfterLabel(m, start, ss);
      }
    }

    method DecodeName(trimTrailingDot: bool) returns (ok: bool, name: Name)
      requires Valid()
      modifies `cur
      ensures Valid() && (ok <==> DecName(View(), old(cur)).Some?)
      ensures ok ==> cur == DecName(View(), old(cur)).value.1
      ensures ok ==>
        var full := DecName(View(), old(cur)).value.0;
        name == if trimTrailingDot then Strip(full) else full
    {
      ok, name := ReadName();
      if ok && trimTrailingDot {
        DecodedDot(View(), old(cur));
        DotInTails(name);
        name := TrimLastDot(name);
      }
    }

    /** Everything before the last dot, or the whole name if it has none. */
    static method TrimLastDot(name: Name) returns (r: Name)
      ensures DOT !in name ==> r == name
      ensures DOT in name ==>
        |r| < |name| && r == name[..|r|] && name[|r|] == DOT && DOT !in name[|r| + 1..]
    {
      var i := |name|;
      while i > 0 && name[i - 1] != DOT
        invariant 0 <= i <= |name| && DOT !in name[i..]
      {
        i := i - 1;
      }
      r := if i == 0 then name else name[..i - 1];
    }

    /** The loop over the labels of a name, each with its dot. */
    method ReadName() returns (ok: bool, name: Name)
      requires Valid()
      modifies `cur
      ensures Valid() && (ok <==> DecName(View(), old(cur)).Some?)
      ensures ok ==> DecName(View(), old(cur)) == Some((name, cur))
    {
      ok, name := false, [];
      if Left() < 1 {
        return;
      }
      ghost var m, start := View(), cur;
      AfterNothing(DecLabels(m, start));
      while !ok
        invariant ok ==> Valid() && DecLabels(m, start) == Some((name, cur))
        invariant !ok ==> cur <= sz && DecLabels(m, start) == After(name, DecLabels(m, cur))
        decreases sz - cur
      {
        var part, end := GetLabel();
        if part.None? {
          return;
        }
        assert name + [] == name;
        name := name + part.value;
        ok := end;
      }
    }

    /** Copy octets behind a written field if there is space for them. */
    method CopyIfFits(b: seq<Byte>, ghost was: seq<Byte>, ghost start: nat, ghost done: seq<Byte>) returns (ok: bool)
      requires Written(was, start, done)
      modifies mem, `cur
      ensures Valid() && mem[..start] == was[..start]
      ensures ok <==> start + |done| + |b| <= sz
      ensures ok ==> Written(was, start, done + b)
    {
      ok := Left() >= |b|;
      if ok {
        SpliceMore(was, start, done, b);
        SpliceKeeps(was, start, done + b);
        Copy(b);
      } else {
        SpliceKeeps(was, start, done);
      }
    }

    method EncodeRData(v: seq<Byte>) returns (ok: bool)
      requires Valid()
      modifies mem, `cur
      ensures Valid() && (ok <==> |v| <= 0x1_0000 && old(cur) + |EncRData(v)| <= sz)
      ensures ok ==> cur == old(cur) + |EncRData(v)| && mem[..] == Splice(old(mem[..]), old(cur), EncRData(v))
      ensures mem[..old(cur)] == old(mem[..cur])
    {
      if |v| > 0x1_0000 {
        return false;
      }
      ghost var was, start := mem[..], cur;
      var len := |v| % 0x1_0000;
      ok := PutUint(len, 2);
      if ok {
        ok := CopyIfFits(v[..len], was, start, ToBE(len, 2));
      }
    }

    method DecodeRData() returns (ok: bool, v: seq<Byte>)
      requires Valid()
      modifies `cur
      ensures Valid() && (ok <==> DecRData(View(), old(cur)).Some?)
      ensures ok ==> DecRData(View(), old(cur)) == Some((v, cur))
    {
      v := [];
      var len;
      ok, len := ReadUint(2);
      if ok {
        ok := Left() >= len;
        if ok {
          v := mem[cur..cur + len];
          cur := cur + len;
        }
      }
    }

    /** The fixed-width fields in the given order. */
    method PutWords(ws: seq<U16>) returns (ok: bool)
      requires Valid()
      modifies mem, `cur
      ensures Valid() && (ok <==> old(cur) + 2 * |ws| <= sz || ws == [])
      ensures ok ==> cur == old(cur) + 2 * |ws| && mem[..] == Splice(old(mem[..]), old(cur), EncWords(ws))
      ensures mem[..old(cur)] == old(mem[..cur])
    {
      ghost var was, start := mem[..], cur;
      for i := 0 to |ws|
        invariant Valid() && cur == start + 2 * i && (i > 0 ==> cur <= sz)
        invariant mem[..] == Splice(was, start, EncWords(ws[..i])) && mem[..start] == was[..start]
      {
        ok := PutUint(ws[i], 2);
        if !ok {
          return;
        }
        WordsSnoc(ws, i);
        SpliceMore(was, start, EncWords(ws[..i]), ToBE(ws[i], 2));
        SpliceKeeps(was, start, EncWords(ws[..i + 1]));
      }
      assert ws[..|ws|] == ws;
      return true;
    }

    method EncodeQuestion(q: Question) returns (ok: bool)
      requires Valid() && cur <= sz
      modifies mem, `cur
      ensures Valid() && mem[..old(cur)] == old(mem[..cur])
      ensures ok <==> EncQuestion(q).Some? && old(cur) + |EncQuestion(q).value| <= sz
      ensures ok ==> cur == old(cur) + |EncQuestion(q).value|
      ensures ok ==> mem[..] == Splice(old(mem[..]), old(cur), EncQuestion(q).value)
    {
      ghost var was, start := mem[..], cur;
      NameLength(q.qname);
      ok := EncodeName(q.qname);
      if ok {
        ghost var n := EncName(q.qname).value;
        ghost var mid := mem[..];
        ok := PutWords([q.qtype, q.qclass]);
        SameStart(mid, mem[..], start, start + |n|);
        if ok {
          SpliceMore(was, start, n, EncWords([q.qtype, q.qclass]));
        }
      }
    }

    method DecodeQuestion() returns (ok: bool, q: Question)
      requires Valid()
      modifies `cur
      ensures Valid() && (ok <==> DecQuestion(View(), old(cur)).Some?)
      ensures ok ==> DecQuestion(View(), old(cur)) == Some((q, cur))
    {
      RangeValues();
      q := Question([], 0, 0);
      var name, qtype, qclass;
      ok, name := DecodeName(false);
      if ok {
        ok, qtype := ReadUint(2);
        if ok {
          ok, qclass := ReadUint(2);
          q := Question(name, qtype, qclass);
        }
      }
    }

    /** Type, class and time to live. */
    method PutFixed(r: ResourceRecord) returns (ok: bool)
      requires Valid()
      modifies mem, `cur
      ensures Valid() && mem[..old(cur)] == old(mem[..cur]) && (ok <==> old(cur) + 8 <= sz)
      ensures ok ==> cur == old(cur) + 8 && mem[..] == Splice(old(mem[..]), old(cur), EncFixed(r))
    {
      ghost var was, start := mem[..], cur;
      ghost var words := EncWords([r.rrtype, r.rrclass]);
      ok := PutWords([r.rrtype, r.rrclass]);
      if ok {
        ok := PutUint(r.ttl, 4);
        if ok {
          SpliceMore(was, start, words, ToBE(r.ttl, 4));
          SpliceKeeps(was, start, words + ToBE(r.ttl, 4));
        }
      }
    }

    /** Type, class, time to live and data; f stands for what they encode to. */
    method PutFields(r: ResourceRecord, ghost f: seq<Byte>) returns (ok: bool)
      requires Valid() && f == EncFields(r)
      modifies mem, `cur
      ensures Valid() && mem[..old(cur)] == old(mem[..cur])
      ensures ok <==> |r.rdata| <= 0x1_0000 && old(cur) + |f| <= sz
      ensures ok ==> cur == old(cur) + |f| && mem[..] == Splice(old(mem[..]), old(cur), f)
    {
      ghost var was, start := mem[..], cur;
      AssocThree(EncWords([r.rrtype, r.rrclass]), ToBE(r.ttl, 4), EncRData(r.rdata));
      ok := PutFixed(r);
      if ok {
        ghost var mid := mem[..];
        ok := EncodeRData(r.rdata);
        SameStart(mid, mem[..], start, start + 8);
        if ok {
          SpliceMore(was, start, EncFixed(r), EncRData(r.rdata));
        }
      }
    }

    /** Name and fields; n and f stand for what they encode to. */
    method PutNamed(r: ResourceRecord, ghost n: Encoded, ghost f: seq<Byte>) returns (ok: bool)
      requires Valid() && cur <= sz && n == EncName(r.name) && f == EncFields(r)
      modifies mem, `cur
      ensures Valid() && mem[..old(cur)] == old(mem[..cur])
      ensures ok <==> n.Some? && |r.rdata| <= 0x1_0000 && old(cur) + |n.value| + |f| <= sz
      ensures ok ==> cur == old(cur) + |n.value| + |f|
      ensures ok ==> mem[..] == Splice(old(mem[..]), old(cur), n.value + f)
    {
      ghost var was, start := mem[..], cur;
      NameLength(r.name);
      ok := EncodeName(r.name);
      if ok {
        ghost var mid := mem[..];
        ok := PutFields(r, f);
        SameStart(mid, mem[..], start, start + |n.value|);
        if ok {
          SpliceMore(was, start, n.value, f);
        }
      }
    }

    method EncodeResource(r: ResourceRecord) returns (ok: bool)
      requires Valid() && cur <= sz
      modifies mem, `cur
      ensures Valid() && mem[..old(cur)] == old(mem[..cur])
      ensures ok <==> EncResource(r).Some? && old(cur) + |EncResource(r).value| <= sz
      ensures ok ==> cur == old(cur) + |EncResource(r).value|
      ensures ok ==> mem[..] == Splice(old(mem[..]), old(cur), EncResource(r).value)
    {
      ok := PutNamed(r, EncName(r.name), EncFields(r));
    }

    method DecodeResource() returns (ok: bool, r: ResourceRecord)
      requires Valid()
      modifies `cur
      ensures Valid() && (ok <==> DecResource(View(), old(cur)).Some?)
      ensures ok ==> DecResource(View(), old(cur)) == Some((r, cur))
    {
      r := ResourceRecord([], 0, 0, 0, []);
      var name;
      ok, name := DecodeName(false);
      if ok {
        ok, r := DecodeFields(name);
      }
    }

    method DecodeFields(name: Name) returns (ok: bool, r: ResourceRecord)
      requires Valid()
      modifies `cur
      ensures Valid() && (ok <==> DecFields(View(), old(cur), name).Some?)
      ensures ok ==> DecFields(View(), old(cur), name) == Some((r, cur))
    {
      RangeValues();
      r := ResourceRecord([], 0, 0, 0, []);
      var rrtype, rrclass, ttl, rdata;
      ok, rrtype := ReadUint(2);
      if ok {
        ok, rrclass := ReadUint(2);
        if ok {
          ok, ttl := ReadUint(4);
          if ok {
            ok, rdata := DecodeRData();
            r := ResourceRecord(name, rrtype, rrclass, ttl, rdata);
          }
        }
      }
    }

    /** An entry behind what has been written so far; e stands for what it encodes to. */
    method PutQuestion(q: Question, ghost e: Encoded, ghost was: seq<Byte>,
                    ghost start: nat, ghost done: seq<Byte>) returns (ok: bool)
      requires Written(was, start, done) && e == EncQuestion(q)
      modifies mem, `cur
      ensures Valid() && mem[..start] == was[..start]
      ensures ok <==> e.Some? && start + |done| + |e.value| <= sz
      ensures ok ==> Written(was, start, done + e.value)
    {
      ghost var mid, here := mem[..], cur;
      SpliceKeeps(was, start, done);
      ok := EncodeQuestion(q);
      SameStart(mid, mem[..], start, here);
      if ok {
        SpliceMore(was, start, done, e.value);
      }
    }

    /** A section behind what has been written so far; total stands for what it encodes to. */
    method EncodeQuestions(qs: seq<Question>, ghost total: Encoded, ghost was: seq<Byte>,
                    ghost start: nat, ghost done: seq<Byte>) returns (ok: bool)
      requires Written(was, start, done) && total == EncAll(EncQuestion, qs)
      modifies mem, `cur
      ensures Valid() && mem[..start] == was[..start]
      ensures ok <==> total.Some? && start + |done| + |total.value| <= sz
      ensures ok ==> Written(was, start, done + total.value)
    {
      ghost var bs := seq(|qs|, i requires 0 <= i < |qs| => EncQuestion(qs[i]));
      ConcatIs(EncQuestion, qs, bs);
      ok := PutQuestions(qs, bs, total, was, start, done);
    }

    method PutQuestions(qs: seq<Question>, ghost bs: seq<Encoded>, ghost total: Encoded,
                    ghost was: seq<Byte>, ghost start: nat, ghost done: seq<Byte>)
      returns (ok: bool)
      requires Written(was, start, done) && total == Concat(bs)
      requires |bs| == |qs| && forall i :: 0 <= i < |bs| ==> bs[i] == EncQuestion(qs[i])
      modifies mem, `cur
      ensures Valid() && mem[..start] == was[..start]
      ensures ok <==> total.Some? && start + |done| + |total.value| <= sz
      ensures ok ==> Written(was, start, done + total.value)
    {
      ghost var sofar: seq<Byte> := [];
      assert done + [] == done;
      SpliceKeeps(was, start, done);
      for i := 0 to |qs|
        invariant Concat(bs[..i]) == Some(sofar) && Written(was, start, done + sofar) && mem[..start] == was[..start]
      {
        ConcatSnoc(bs, i, sofar, total);
        ok := PutQuestion(qs[i], bs[i], was, start, done + sofar);
        if !ok {
          return;
        }
        AssocThree(done, sofar, bs[i].value);
        sofar := sofar + bs[i].value;
      }
      assert bs[..|qs|] == bs;
      return true;
    }

    method NextQuestion(ghost dec: nat -> Got<Question>) returns (ok: bool, q: Question)
      requires Valid() && dec == Questions(View())
      modifies `cur
      ensures Valid() && dec == Questions(View())
      ensures dec(old(cur)) == if ok then Some((q, cur)) else None
    {
      ok, q := DecodeQuestion();
    }

    method DecodeQuestions(count: nat, ghost dec: nat -> Got<Question>) returns (ok: bool, qs: seq<Question>)
      requires Valid() && dec == Questions(View())
      modifies `cur
      ensures Valid()
      ensures DecAll(dec, old(cur), count) == if ok then Some((qs, cur)) else None
    {
      ghost var start := cur;
      qs := [];
      for i := 0 to count
        invariant Valid() && dec == Questions(View()) && DecAll(dec, start, i) == Some((qs, cur))
      {
        var x;
        AllStep(dec, start, i, qs, cur);
        ok, x := NextQuestion(dec);
        if !ok {
          NoMore(dec, start, i, count);
          return;
        }
        qs := qs + [x];
      }
      return true, qs;
    }

    /** An entry behind what has been written so far; e stands for what it encodes to. */
    method PutResourceRecord(r: ResourceRecord, ghost e: Encoded, ghost was: seq<Byte>,
                    ghost start: nat, ghost done: seq<Byte>) returns (ok: bool)
      requires Written(was, start, done) && e == EncResource(r)
      modifies mem, `cur
      ensures Valid() && mem[..start] == was[..start]
      ensures ok <==> e.Some? && start + |done| + |e.value| <= sz
      ensures ok ==> Written(was, start, done + e.value)
    {
      ghost var mid, here := mem[..], cur;
      SpliceKeeps(was, start, done);
      ok := EncodeResource(r);
      SameStart(mid, mem[..], start, here);
      if ok {
        SpliceMore(was, start, done, e.value);
      }
    }

    /** A section behind what has been written so far; total stands for what it encodes to. */
    method EncodeResources(rs: seq<ResourceRecord>, ghost total: Encoded, ghost was: seq<Byte>,
                    ghost start: nat, ghost done: seq<Byte>) returns (ok: bool)
      requires Written(was, start, done) && total == EncAll(EncResource, rs)
      modifies mem, `cur
      ensures Valid() && mem[..start] == was[..start]
      ensures ok <==> total.Some? && start + |done| + |total.value| <= sz
      ensures ok ==> Written(was, start, done + total.value)
    {
      ghost var bs := seq(|rs|, i requires 0 <= i < |rs| => EncResource(rs[i]));
      ConcatIs(EncResource, rs, bs);
      ok := PutResources(rs, bs, total, was, start, done);
    }

    method PutResources(rs: seq<ResourceRecord>, ghost bs: seq<Encoded>, ghost total: Encoded,
                    ghost was: seq<Byte>, ghost start: nat, ghost done: seq<Byte>)
      returns (ok: bool)
      requires Written(was, start, done) && total == Concat(bs)
      requires |bs| == |rs| && forall i :: 0 <= i < |bs| ==> bs[i] == EncResource(rs[i])
      modifies mem, `cur
      ensures Valid() && mem[..start] == was[..start]
      ensures ok <==> total.Some? && start + |done| + |total.value| <= sz
      ensures ok ==> Written(was, start, done + total.value)
    {
      ghost var sofar: seq<Byte> := [];
      assert done + [] == done;
      SpliceKeeps(was, start, done);
      for i := 0 to |rs|
        invariant Concat(bs[..i]) == Some(sofar) && Written(was, start, done + sofar) && mem[..start] == was[..start]
      {
        ConcatSnoc(bs, i, sofar, total);
        ok := PutResourceRecord(rs[i], bs[i], was, start, done + sofar);
        if !ok {
          return;
        }
        AssocThree(done, sofar, bs[i].value);
        sofar := sofar + bs[i].value;
      }
      assert bs[..|rs|] == bs;
      return true;
    }

    method NextResourceRecord(ghost dec: nat -> Got<ResourceRecord>) returns (ok: bool, r: ResourceRecord)
      requires Valid() && dec == Resources(View())
      modifies `cur
      ensures Valid() && dec == Resources(View())
      ensures dec(old(cur)) == if ok then Some((r, cur)) else None
    {
      ok, r := DecodeResource();
    }

    method DecodeResources(count: nat, ghost dec: nat -> Got<ResourceRecord>)
      returns (ok: bool, rs: seq<ResourceRecord>)
      requires Valid() && dec == Resources(View())
      modifies `cur
      ensures Valid()
      ensures DecAll(dec, old(cur), count) == if ok then Some((rs, cur)) else None
    {
      ghost var start := cur;
      rs := [];
      for i := 0 to count
        invariant Valid() && dec == Resources(View()) && DecAll(dec, start, i) == Some((rs, cur))
      {
        var x;
        AllStep(dec, start, i, rs, cur);
        ok, x := NextResourceRecord(dec);
        if !ok {
          NoMore(dec, start, i, count);
          return;
        }
        rs := rs + [x];
      }
      return true, rs;
    }

    method EncodeHeader(h: Header) returns (ok: bool)
      requires Valid()
      modifies mem, `cur
      ensures Valid() && mem[..old(cur)] == old(mem[..cur])
      ensures ok <==> old(cur) + 12 <= sz
      ensures ok ==> cur == old(cur) + 12 && mem[..] == Splice(old(mem[..]), old(cur), EncHeader(h))
    {
      ok := PutWords([h.id, h.fields, h.qdCount, h.anCount, h.nsCount, h.arCount]);
    }

    method DecodeHeader() returns (ok: bool, h: Header)
      requires Valid()
      modifies `cur
      ensures Valid() && (ok <==> DecHeader(View(), old(cur)).Some?)
      ensures ok ==> DecHeader(View(), old(cur)) == Some((h, cur))
    {
      RangeValues();
      h := Header(0, 0, 0, 0, 0, 0);
      var id, fields, qd, an, ns, ar;
      ok, id := ReadUint(2);
      if !ok { return; }
      ok, fields := ReadUint(2);
      if !ok { return; }
      ok, qd := ReadUint(2);
      if !ok { return; }
      ok, an := ReadUint(2);
      if !ok { return; }
      ok, ns := ReadUint(2);
      if !ok { return; }
      ok, ar := ReadUint(2);
      if !ok { return; }
      h := Header(id, fields, qd, an, ns, ar);
    }

    /** The sections of a message behind its header; q to ar stand for what they encode to. */
    method EncodeBody(msg: Message, ghost q: Encoded, ghost an: Encoded, ghost ns: Encoded,
                      ghost ar: Encoded, ghost was: seq<Byte>, ghost start: nat, ghost done: seq<Byte>)
      returns (ok: bool)
      requires Written(was, start, done)
      requires q == EncAll(EncQuestion, msg.questions) && an == EncAll(EncResource, msg.answers)
      requires ns == EncAll(EncResource, msg.authorities) && ar == EncAll(EncResource, msg.additional)
      modifies mem, `cur
      ensures Valid() && mem[..start] == was[..start]
      ensures ok <==> (
        && q.Some? && an.Some? && ns.Some? && ar.Some?
        && start + |done| + |q.value| + |an.value| + |ns.value| + |ar.value| <= sz)
      ensures ok ==> Written(was, start, done + q.value + an.value + ns.value + ar.value)
    {
      ok := EncodeQuestions(msg.questions, q, was, start, done);
      if !ok { return; }
      ok := EncodeResources(msg.answers, an, was, start, done + q.value);
      if !ok { return; }
      ok := EncodeResources(msg.authorities, ns, was, start, done + q.value + an.value);
      if !ok { return; }
      ok := EncodeResources(msg.additional, ar, was, start, done + q.value + an.value + ns.value);
    }

    /** Encode succeeds exactly when every part can be encoded and all of it fits. */
    method EncodeMessage(msg: Message) returns (ok: bool)
      requires Valid() && cur <= sz
      modifies mem, `cur
      ensures Valid() && mem[..old(cur)] == old(mem[..cur])
      ensures ok <==> EncMessage(msg).Some? && old(cur) + |EncMessage(msg).value| <= sz
      ensures ok ==> cur == old(cur) + |EncMessage(msg).value| && At(View(), old(cur), EncMessage(msg).value)
      ensures ok ==> mem[..] == Splice(old(mem[..]), old(cur), EncMessage(msg).value)
    {
      ghost var was, start, total := mem[..], cur, EncMessage(msg);
      ghost var q, an := EncAll(EncQuestion, msg.questions), EncAll(EncResource, msg.answers);
      ghost var ns, ar := EncAll(EncResource, msg.authorities), EncAll(EncResource, msg.additional);
      var h := Header(msg.id, msg.fields, |msg.questions| % 0x1_0000, |msg.answers| % 0x1_0000,
                      |msg.authorities| % 0x1_0000, |msg.additional| % 0x1_0000);
      MessageIs(msg, h, q, an, ns, ar, total);
      ok := EncodeHeader(h);
      if ok {
        ok := EncodeBody(msg, q, an, ns, ar, was, start, EncHeader(h));
        if ok {
          SpliceAt(was, start, total.value, sz);
        }
      }
    }

    /** Read the header, then sections of the sizes it gives. */
    method DecodeMessage() returns (ok: bool, msg: Message)
      requires Valid()
      modifies `cur
      ensures Valid() && (ok <==> DecMessage(View(), old(cur)).Some?)
      ensures ok ==> DecMessage(View(), old(cur)) == Some((msg, cur))
    {
      msg := Message(0, 0, [], [], [], []);
      var h;
      ok, h := DecodeHeader();
      if ok {
        ok, msg := DecodeBody(h, Questions(View()), Resources(View()));
      }
    }

    method DecodeBody(h: Header, ghost dq: nat -> Got<Question>, ghost dr: nat -> Got<ResourceRecord>)
      returns (ok: bool, msg: Message)
      requires Valid() && dq == Questions(View()) && dr == Resources(View())
      modifies `cur
      ensures Valid()
      ensures DecBody(dq, dr, old(cur), h) == if ok then Some((msg, cur)) else None
    {
      msg := Message(0, 0, [], [], [], []);
      var q, an, ns, ar;
      ok, q := DecodeQuestions(h.qdCount, dq);
      if !ok { return; }
      ok, an := DecodeResources(h.anCount, dr);
      if !ok { return; }
      ok, ns := DecodeResources(h.nsCount, dr);
      if !ok { return; }
      ok, ar := DecodeResources(h.arCount, dr);
      if !ok { return; }
      msg := Message(h.id, h.fields, q, an, ns, ar);
    }
  }

  lemma MessageIs(msg: Message, h: Header, q: Encoded, an: Encoded, ns: Encoded,
                  ar: Encoded, total: Encoded)
    requires h == HeaderOf(msg) && total == EncMessage(msg)
    requires q == EncAll(EncQuestion, msg.questions) && an == EncAll(EncResource, msg.answers)
    requires ns == EncAll(EncResource, msg.authorities) && ar == EncAll(EncResource, msg.additional)
    ensures total.Some? <==> q.Some? && an.Some? && ns.Some? && ar.Some?
    ensures total.Some? ==> total.value == EncHeader(h) + q.value + an.value + ns.value + ar.value
  {
    if q.Some? && an.Some? && ns.Some? && ar.Some? {
      Assoc(EncHeader(h), q.value, an.value, ns.value, ar.value);
    }
  }

  lemma AssocThree(a: seq<Byte>, b: seq<Byte>, c: seq<Byte>)
    ensures a + b + c == a + (b + c)
  {
  }

  lemma Assoc(a: seq<Byte>, b: seq<Byte>, c: seq<Byte>, d: seq<Byte>, e: seq<Byte>)
    ensures a + (b + (c + (d + e))) == a + b + c + d + e
  {
  }

  /** Encodings one after the other, if all there. */
  function Concat(bs: seq<Encoded>): (b: Encoded) {
    if bs == [] then Some([])
    else
      var before :- Concat(bs[..|bs| - 1]);
      var last :- bs[|bs| - 1];
      Some(before + last)
  }

  lemma {:induction false} ConcatIs<T(!new)>(enc: T -> Encoded, xs: seq<T>, bs: seq<Encoded>)
    requires |bs| == |xs| && forall i :: 0 <= i < |bs| ==> bs[i] == enc(xs[i])
    ensures EncAll(enc, xs) == Concat(bs)
    decreases |xs|
  {
    if xs != [] {
      ConcatIs(enc, xs[..|xs| - 1], bs[..|bs| - 1]);
    }
  }

  lemma ConcatSnoc(bs: seq<Encoded>, i: nat, sofar: seq<Byte>, total: Encoded)
    requires i < |bs| && Concat(bs[..i]) == Some(sofar) && total == Concat(bs)
    ensures bs[i].Some? ==> Concat(bs[..i + 1]) == Some(sofar + bs[i].value)
    ensures total.Some? ==> bs[i].Some? && |sofar| + |bs[i].value| <= |total.value|
  {
    assert bs[..i + 1][..i] == bs[..i];
    ConcatPrefix(bs, i + 1);
  }

  lemma {:induction false} ConcatPrefix(bs: seq<Encoded>, i: nat)
    requires i <= |bs|
    ensures Concat(bs).Some? ==> Concat(bs[..i]).Some? && |Concat(bs[..i]).value| <= |Concat(bs).value|
  {
    if i == |bs| {
      assert bs[..i] == bs;
    } else {
      ConcatPrefix(bs[..|bs| - 1], i);
      assert bs[..|bs| - 1][..i] == bs[..i];
    }
  }

  lemma AllStep<T(!new)>(dec: nat -> Got<T>, c: nat, i: nat, xs: seq<T>, mid: nat)
    requires DecAll(dec, c, i) == Some((xs, mid))
    ensures DecAll(dec, c, i + 1) == match dec(mid)
      case None => None
      case Some(x) => Some((xs + [x.0], x.1))
  {
  }

  lemma {:induction false} NoMore<T(!new)>(dec: nat -> Got<T>, c: nat, i: nat, count: nat)
    requires i < count && DecAll(dec, c, i + 1).None?
    ensures DecAll(dec, c, count).None?
    decreases count
  {
    if i + 1 < count {
      NoMore(dec, c, i, count - 1);
    }
  }

  /** A name that ends in a dot has no last dot but that one. */
  lemma DotInTails(n: Name)
    requires n == [] || n[|n| - 1] == DOT
    ensures n != [] ==> DOT in n
    ensures forall k :: 0 <= k < |n| ==> DOT in n[k..]
  {
    forall k | 0 <= k < |n|
      ensures DOT in n[k..]
    {
      assert n[k..][|n| - 1 - k] == DOT;
    }
  }

  /** The fields of a record that have a fixed width. */
  function EncFixed(r: ResourceRecord): (b: seq<Byte>)
    ensures |b| == 8
  {
    EncWords([r.rrtype, r.rrclass]) + ToBE(r.ttl, 4)
  }

  lemma NameLength(n: Name)
    ensures EncName(n).Some? ==> 1 <= Unchecked(Parts(Strip(n))) <= 2
    ensures EncName(n).Some? ==> Unchecked(Parts(Strip(n))) <= |EncName(n).value|
  {
    if EncName(n).Some? {
      UncheckedFits(Parts(Strip(n)));
    }
  }

  lemma WordsSnoc(ws: seq<U16>, i: nat)
    requires i < |ws|
    ensures EncWords(ws[..i + 1]) == EncWords(ws[..i]) + ToBE(ws[i], 2)
  {
    assert ws[..i + 1][..i] == ws[..i];
  }

  lemma RangeAbove(width: nat)
    ensures Range(width) >= 1
  {
  }

  lemma SameStart(m: seq<Byte>, n: seq<Byte>, start: nat, end: nat)
    requires start <= end <= |m| == |n|
    ensures m[..end] == n[..end] ==> m[..start] == n[..start]
  {
    if m[..end] == n[..end] {
      assert m[..start] == m[..end][..start];
    }
  }

  /** A label that does not fit leaves a name that does not. */
  lemma TooLong(done: seq<Byte>, part: Name, rest: Name, sz: nat, start: nat)
    requires 0 < |part| <= MAX_LABEL && start + |done| + 1 + |part| > sz
    ensures var b := Resume(done + ([|part|] + part), rest);
      b.Some? ==> start + |b.value| > sz + Unchecked(Parts(rest))
  {
    if EncParts(Parts(rest)).Some? {
      UncheckedFits(Parts(rest));
    }
  }
}
