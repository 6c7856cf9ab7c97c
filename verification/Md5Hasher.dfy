/** Streaming MD5: a bit counter in two words, a block buffer and a state, fed piece by piece. */
module Md5Hasher {
  import opened Bytes
  import opened Md5Reference
  import opened Md5

  const TWO32: nat := 0x1_0000_0000
  const TWO64: nat := 0x1_0000_0000_0000_0000

  // ---------------------------------------------------------------- the counter

  /** The two counter words hold eight times the length, modulo 2 to the 64. */
  ghost predicate Counts(i0: nat, i1: nat, len: nat) {
    i0 < TWO32 && i1 < TWO32 && i0 + TWO32 * i1 == 8 * len % TWO64
  }

  lemma ModAdd(x: nat, y: nat, m: nat)
    requires m > 0
    ensures (x % m + y) % m == (x + y) % m
  {
    var q := x / m;
    assert x == q * m + x % m;
    ModShift(x % m + y, q, m);
  }

  lemma ModShift(x: nat, q: nat, m: nat)
    requires m > 0
    ensures (q * m + x) % m == x % m
  {
    assert q * m + x == (q + x / m) * m + x % m;
    ModOf(q * m + x, q + x / m, m, x % m);
  }

  /** The sum of a counter and a length in bits, with the carry as the code finds it. */
  lemma CarryIsRight(i0: nat, i1: nat, n: nat)
    requires i0 < TWO32 && i1 < TWO32 && n < TWO32
    ensures var lo := 8 * n % TWO32;
      var carry := if (i0 + lo) % TWO32 < i0 then 1 else 0;
      (i0 + lo) % TWO32 + TWO32 * ((i1 + carry + n / 0x2000_0000) % TWO32) == (i0 + TWO32 * i1 + 8 * n) % TWO64
  {
    var lo, hi := 8 * n % TWO32, n / 0x2000_0000;
    assert 8 * n == lo + TWO32 * hi;
    var carry := if i0 + lo >= TWO32 then 1 else 0;
    assert (i0 + lo) % TWO32 == i0 + lo - TWO32 * carry;
    var low, high := i0 + lo - TWO32 * carry, i1 + carry + hi;
    assert i0 + TWO32 * i1 + 8 * n == low + TWO32 * high;
    Wrap(low, high);
  }

  lemma Wrap(low: nat, high: nat)
    requires low < TWO32
    ensures (low + TWO32 * high) % TWO64 == low + TWO32 * (high % TWO32)
  {
    var q, r := high / TWO32, high % TWO32;
    assert high == TWO32 * q + r;
    assert low + TWO32 * high == q * TWO64 + (low + TWO32 * r);
    ModShift(low + TWO32 * r, q, TWO64);
  }

  lemma CountsMore(i0: nat, i1: nat, len: nat, n: nat)
    requires Counts(i0, i1, len) && n < TWO32
    ensures var lo := 8 * n % TWO32;
      var carry := if (i0 + lo) % TWO32 < i0 then 1 else 0;
      Counts((i0 + lo) % TWO32, (i1 + carry + n / 0x2000_0000) % TWO32, len + n)
  {
    CarryIsRight(i0, i1, n);
    ModAdd(8 * len, 8 * n, TWO64);
  }

  lemma CountsSame(i0: nat, i1: nat, len: nat, n: nat)
    requires Counts(i0, i1, len) && len == n
    ensures Counts(i0, i1, n)
  {
  }

  /** What the counter tells of the length. */
  lemma CountsTell(i0: nat, i1: nat, len: nat)
    requires Counts(i0, i1, len)
    ensures i0 == 8 * len % TWO32 && i1 == 8 * len / TWO32 % TWO32 && i0 / 8 % 64 == len % 64
  {
    var bits := 8 * len;
    Wrap(bits % TWO32, bits / TWO32);
    assert bits == bits % TWO32 + TWO32 * (bits / TWO32);
    SplitUnique(i0, i1, bits % TWO32, bits / TWO32 % TWO32);
    LowBits(len);
  }

  lemma SplitUnique(a: nat, b: nat, c: nat, d: nat)
    requires a < TWO32 && c < TWO32 && a + TWO32 * b == c + TWO32 * d
    ensures a == c && b == d
  {
  }

  lemma LowBits(len: nat)
    ensures 8 * len % TWO32 / 8 % 64 == len % 64
  {
    var q, r := len / 0x2000_0000, len % 0x2000_0000;
    assert len == 0x2000_0000 * q + r;
    assert 8 * len == q * TWO32 + 8 * r;
    ModShift(8 * r, q, TWO32);
    assert len == (0x80_0000 * q) * 64 + r;
    ModShift(r, 0x80_0000 * q, 64);
  }

  // ---------------------------------------------------------------- the blocks

  lemma Whole(n: nat)
    requires n % 64 == 0
    ensures n % 4 == 0 && n / 4 % 16 == 0
  {
    var q := n / 64;
    assert n == 4 * (16 * q) && n / 4 == 16 * q;
  }

  /** The state after a number of whole blocks of octets. */
  ghost function After(mix: Mixer, front: seq<Octet>): (s: State)
    requires |front| % 64 == 0
  {
    Whole(|front|);
    Fold(mix, Words(front))
  }

  lemma AfterBlock(mix: Mixer, front: seq<Octet>, block: seq<Octet>)
    requires |front| % 64 == 0 && |block| == 64
    ensures |front + block| % 64 == 0
    ensures After(mix, front + block) == Block(mix, After(mix, front), Words(block))
  {
    Whole(|front|);
    Whole(|front + block|);
    WordsAppend(front, block);
    FoldBlock(mix, Words(front), Words(block));
  }

  /** The data are whole blocks, of which s is the state, and a tail shorter than a block. */
  ghost predicate Absorbed(mix: Mixer, data: seq<Octet>, front: seq<Octet>, s: State, tail: seq<Octet>) {
    |front| % 64 == 0 && |tail| < 64 && data == front + tail && s == After(mix, front)
  }

  lemma WordsSnoc(a: seq<Octet>, b0: Octet, b1: Octet, b2: Octet, b3: Octet)
    requires |a| % 4 == 0
    ensures Words(a + [b0, b1, b2, b3]) == Words(a) + [WordOf(b0, b1, b2, b3)]
  {
    var b := a + [b0, b1, b2, b3];
    assert b[..|b| - 4] == a;
    assert b[|b| - 4] == b0 && b[|b| - 3] == b1 && b[|b| - 2] == b2 && b[|b| - 1] == b3;
  }

  lemma {:induction false} WordsAppend(a: seq<Octet>, b: seq<Octet>)
    requires |a| % 4 == 0 && |b| % 4 == 0
    ensures Words(a + b) == Words(a) + Words(b)
    decreases |b|
  {
    if b == [] {
      assert a + b == a;
    } else {
      var n := |b|;
      var init, b0, b1, b2, b3 := b[..n - 4], b[n - 4], b[n - 3], b[n - 2], b[n - 1];
      assert b == init + [b0, b1, b2, b3] && a + b == (a + init) + [b0, b1, b2, b3];
      WordsSnoc(init, b0, b1, b2, b3);
      WordsSnoc(a + init, b0, b1, b2, b3);
      WordsAppend(a, init);
      AppendOne(Words(a), Words(init), WordOf(b0, b1, b2, b3));
    }
  }

  lemma AppendOne(a: seq<Word>, b: seq<Word>, w: Word)
    ensures a + b + [w] == a + (b + [w])
  {
  }

  lemma FoldBlock(mix: Mixer, ws: seq<Word>, block: seq<Word>)
    requires |ws| % 16 == 0 && |block| == 16
    ensures Fold(mix, ws + block) == Block(mix, Fold(mix, ws), block)
  {
    var all := ws + block;
    assert all[..|all| - 16] == ws && all[|all| - 16..] == block;
  }

  lemma AbsorbMore(mix: Mixer, data: seq<Octet>, front: seq<Octet>, s: State, tail: seq<Octet>, o: Octet)
    requires Absorbed(mix, data, front, s, tail) && |tail| < 63
    ensures Absorbed(mix, data + [o], front, s, tail + [o])
  {
    assert data + [o] == front + (tail + [o]);
  }

  lemma AbsorbBlock(mix: Mixer, data: seq<Octet>, front: seq<Octet>, s: State, tail: seq<Octet>, o: Octet)
    requires Absorbed(mix, data, front, s, tail) && |tail| == 63
    ensures Absorbed(mix, data + [o], data + [o], Block(mix, s, Words(tail + [o])), [])
  {
    var block := tail + [o];
    AfterBlock(mix, front, block);
    assert data + [o] == front + block;
    assert data + [o] == data + [o] + [];
  }

  lemma TailLength(front: nat, tail: nat)
    requires front % 64 == 0 && tail < 64
    ensures (front + tail) % 64 == tail
  {
  }

  /** The words of a padded message, split where its last block begins. */
  lemma MessageSplit(data: seq<Octet>, front: seq<Octet>, tail: seq<Octet>)
    requires |front| % 64 == 0 && |tail| < 64 && data + Pad(|data|) == front + tail
    ensures |tail| == 56 && |front| % 4 == 0 && Message(data) == Words(front) + (Words(tail) + LengthWords(|data|))
  {
    TailLength(|front|, |tail|);
    assert |front| + |tail| == |data| + |Pad(|data|)|;
    assert |tail| == 56;
    Whole(|front|);
    WordsAppend(front, tail);
  }

  /** The last block: the rest of the padded data and the two length words. */
  lemma LastBlock(mix: Mixer, data: seq<Octet>, front: seq<Octet>, s: State, tail: seq<Octet>)
    requires Absorbed(mix, data + Pad(|data|), front, s, tail)
    ensures |tail| == 56 && Fold(mix, Message(data)) == Block(mix, s, Words(tail) + LengthWords(|data|))
  {
    MessageSplit(data, front, tail);
    Whole(|front|);
    FoldBlock(mix, Words(front), Words(tail) + LengthWords(|data|));
  }

  // ---------------------------------------------------------------- octets

  lemma JoinedOctets(b0: Octet, b1: Octet, b2: Octet, b3: Octet)
    ensures ((b3 as bv32) << 24) | ((b2 as bv32) << 16) | ((b1 as bv32) << 8) | (b0 as bv32) == WordOf(b0, b1, b2, b3)
  {
  }

  /** The digest's octets, taken as words, are the four registers. */
  lemma OutputWords(s: State)
    ensures Words(Output(s)) == [s.a, s.b, s.c, s.d]
  {
    WordsAppend(OctetsOf(s.a) + OctetsOf(s.b) + OctetsOf(s.c), OctetsOf(s.d));
    WordsAppend(OctetsOf(s.a) + OctetsOf(s.b), OctetsOf(s.c));
    WordsAppend(OctetsOf(s.a), OctetsOf(s.b));
    OneWord(s.a);
    OneWord(s.b);
    OneWord(s.c);
    OneWord(s.d);
  }

  lemma OneWord(w: Word)
    ensures Words(OctetsOf(w)) == [w]
  {
    var b := OctetsOf(w);
    SplitWord(w);
    assert Words(b[..0]) == [];
  }

  lemma SplitWord(w: Word)
    ensures var b0, b1 := (w & 0xff) as bv8, ((w >> 8) & 0xff) as bv8;
      var b2, b3 := ((w >> 16) & 0xff) as bv8, ((w >> 24) & 0xff) as bv8;
      WordOf(b0, b1, b2, b3) == w
  {
  }

  // ---------------------------------------------------------------- the hasher

  const PADDING: seq<Octet> := [0x80] + ZeroOctets(63)

  lemma {:induction false} ZerosPrefix(n: nat, k: nat)
    requires k <= n
    ensures ZeroOctets(n)[..k] == ZeroOctets(k)
  {
    if k < n {
      ZerosPrefix(n - 1, k);
      assert ZeroOctets(n)[..k] == ZeroOctets(n - 1)[..k];
    } else {
      assert ZeroOctets(n)[..n] == ZeroOctets(n);
    }
  }

  /** The padding length that the code computes gives the standard's padding. */
  lemma PaddingIsPad(len: nat, padLen: nat)
    requires padLen == if len % 64 < 56 then 56 - len % 64 else 120 - len % 64
    ensures 1 <= padLen <= 64 && PADDING[..padLen] == Pad(len)
  {
    ZerosPrefix(63, padLen - 1);
    assert (119 - len % 64) % 64 == padLen - 1;
    assert PADDING[..padLen] == [0x80] + ZeroOctets(63)[..padLen - 1];
  }

  lemma NextOctet(a: seq<Octet>, b: seq<Octet>, j: nat)
    requires j < |b|
    ensures a + b[..j] + [b[j]] == a + b[..j + 1]
  {
  }

  class MD5 {
    const mix: Mixer
    var i0: nat
    var i1: nat
    const buf: array<Word>
    const block: array<Octet>
    /** Everything the hasher was given, and its part in whole blocks. */
    ghost var data: seq<Octet>
    ghost var front: seq<Octet>

    /** The buffer holds what has not been transformed yet. */
    ghost predicate Holds(mdi: nat)
      reads this, buf, block
    {
      buf.Length == 4 && block.Length == 64 && mdi < 64 && Absorbed(mix, data, front, StateOf(buf[..]), block[..mdi])
    }

    ghost predicate Valid()
      reads this, buf, block
    {
      Counts(i0, i1, |data|) && Holds(|data| % 64)
    }

    constructor (mix: Mixer)
      ensures Valid() && data == [] && this.mix == mix && fresh(buf) && fresh(block)
    {
      this.mix := mix;
      i0, i1, data, front := 0, 0, [], [];
      buf := new Word[4][0x67452301, 0xefcdab89, 0x98badcfe, 0x10325476];
      block := new Octet[64];
    }

    /** The first n words of the buffer, low-order octet first. */
    method Gather(n: nat) returns (input: seq<Word>)
      requires block.Length == 64 && n <= 16
      ensures input == Words(block[..4 * n])
    {
      input := [];
      for j := 0 to n
        invariant input == Words(block[..4 * j])
      {
        var jj := 4 * j;
        JoinedOctets(block[jj], block[jj + 1], block[jj + 2], block[jj + 3]);
        assert block[..jj + 4][..jj] == block[..jj];
        input := input + [((block[jj + 3] as bv32) << 24) | ((block[jj + 2] as bv32) << 16)
                          | ((block[jj + 1] as bv32) << 8) | (block[jj] as bv32)];
      }
    }

    /** One octet into the buffer; a full buffer is transformed. */
    method Push(mdi: nat, o: Octet) returns (mdi': nat)
      requires Holds(mdi)
      modifies this`data, this`front, buf, block
      ensures Holds(mdi') && data == old(data) + [o]
    {
      ghost var s, tail := StateOf(buf[..]), block[..mdi];
      block[mdi] := o;
      assert block[..mdi + 1] == tail + [o];
      mdi' := mdi + 1;
      data := data + [o];
      if mdi' == 64 {
        var input := Gather(16);
        AbsorbBlock(mix, old(data), front, s, tail, o);
        Transform(mix, buf, input);
        front := data;
        mdi' := 0;
        assert block[..0] == [];
      } else {
        AbsorbMore(mix, old(data), front, s, tail, o);
      }
    }

    /** Add a number of octets to the count of bits, carrying into the second word. */
    method Count(n: nat, ghost len: nat)
      requires Counts(i0, i1, len) && n < TWO32
      modifies `i0, `i1
      ensures Counts(i0, i1, len + n)
    {
      CountsMore(i0, i1, len, n);
      var lo := 8 * n % TWO32;
      ghost var carry := if (i0 + lo) % TWO32 < i0 then 1 else 0;
      ModAdd(i1 + carry, n / 0x2000_0000, TWO32);
      if (i0 + lo) % TWO32 < i0 {
        i1 := (i1 + 1) % TWO32;
      }
      i0 := (i0 + lo) % TWO32;
      i1 := (i1 + n / 0x2000_0000) % TWO32;
    }

    method Absorb(mdi: nat, inBuf: seq<Octet>)
      requires Holds(mdi)
      modifies this`data, this`front, buf, block
      ensures data == old(data) + inBuf && Holds(|data| % 64)
    {
      var m := mdi;
      for j := 0 to |inBuf|
        invariant Holds(m) && data == old(data) + inBuf[..j]
      {
        NextOctet(old(data), inBuf, j);
        m := Push(m, inBuf[j]);
      }
      assert inBuf[..|inBuf|] == inBuf;
      TailLength(|front|, m);
    }

    method Update(inBuf: seq<Octet>)
      requires Valid() && |inBuf| < TWO32
      modifies this, buf, block
      ensures Valid() && data == old(data) + inBuf
    {
      CountsTell(i0, i1, |data|);
      var mdi := i0 / 8 % 64;
      ghost var len := |data| + |inBuf|;
      Count(|inBuf|, |data|);
      ghost var c0, c1 := i0, i1;
      assert Counts(c0, c1, len);
      Absorb(mdi, inBuf);
      CountsSame(c0, c1, len, |data|);
    }

    /** The state as octets, each word's low-order one first. */
    method Emit() returns (digest: seq<Octet>)
      requires buf.Length == 4
      ensures digest == Output(StateOf(buf[..]))
    {
      digest := [];
      for j := 0 to 4
        invariant |digest| == 4 * j && digest == Output(StateOf(buf[..]))[..4 * j]
      {
        digest := digest + OctetsOf(buf[j]);
      }
    }

    /** The last block, whose last two words are the counter before padding. */
    method LastTransform(lo: Word, hi: Word, ghost all: seq<Octet>)
      requires Valid() && data == all + Pad(|all|) && [lo, hi] == LengthWords(|all|)
      modifies buf
      ensures StateOf(buf[..]) == Fold(mix, Message(all))
    {
      LastBlock(mix, all, front, StateOf(buf[..]), block[..|data| % 64]);
      var input := Gather(14);
      Transform(mix, buf, input + [lo, hi]);
    }

    method AddPadding()
      requires Valid()
      modifies this, buf, block
      ensures Valid() && data == old(data) + Pad(|old(data)|)
    {
      CountsTell(i0, i1, |data|);
      var mdi := i0 / 8 % 64;
      var padLen := if mdi < 56 then 56 - mdi else 120 - mdi;
      PaddingIsPad(|data|, padLen);
      Update(PADDING[..padLen]);
    }

    /** Final: the digest of all the data, however it was split among the calls of Update. */
    method Final() returns (digest: seq<Octet>)
      requires Valid()
      modifies this, buf, block
      ensures digest == DigestWith(mix, old(data))
    {
      ghost var all := data;
      CountsTell(i0, i1, |data|);
      var lo, hi := i0 as bv32, i1 as bv32;
      AddPadding();
      LastTransform(lo, hi, all);
      digest := Emit();
    }
  }

  method SumWith(mix: Mixer, str: seq<Octet>) returns (digest: seq<Octet>)
    requires |str| < TWO32
    ensures digest == DigestWith(mix, str)
  {
    var m := new MD5(mix);
    assert [] + str == str;
    m.Update(str);
    digest := m.Final();
  }

  /**
   * The digest of one string, with the operations as the code writes them. The length is
   * passed as a word of 32 bits, so of a longer string only a prefix is hashed.
   */
  method Sum(str: seq<Octet>) returns (digest: seq<Octet>)
    ensures digest == Digest(str[..|str| % TWO32])
    ensures |str| < TWO32 ==> digest == Digest(str)
  {
    var hashed := str[..|str| % TWO32];
    assert |str| < TWO32 ==> hashed == str;
    digest := SumWith(Macro, hashed);
    MacroDigest(hashed);
  }
}
