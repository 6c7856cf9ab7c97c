/** The incremental MD5 hasher, proved to compute the digest of everything it was given. */
module Md5 {
  import opened Md5Reference

  // ---------------------------------------------------------------- the operations

  /** ROTATE_LEFT. */
  function Rotate(x: Word, n: Bits): (w: Word) {
    (x << n) | (x >> (32 - n))
  }

  /** FF, GG, HH and II: add to a, rotate it, add b. */
  function Macro(round: Round, s: State, x: Word, shift: Bits, ac: Word): (w: Word) {
    Plus(Rotate(Plus(s.a, Plus(Plus(Aux(round, s.b, s.c, s.d), x), ac)), shift), s.b)
  }

  /** Two shifts joined are a circular shift. */
  lemma RotateIsCircular(x: Word, n: Bits)
    ensures Rotate(x, n) == Circular(x, n)
  {
    RotateBy4(x, n);
    RotateBy8(x, n);
    RotateBy12(x, n);
    RotateBy16(x, n);
    RotateBy20(x, n);
  }

  lemma RotateBy4(x: Word, n: Bits)
    ensures 4 <= n <= 7 ==> Rotate(x, n) == Circular(x, n)
  {
    match n
    case 4 => assert (x << 4) | (x >> 28) == x.RotateLeft(4);
    case 5 => assert (x << 5) | (x >> 27) == x.RotateLeft(5);
    case 6 => assert (x << 6) | (x >> 26) == x.RotateLeft(6);
    case 7 => assert (x << 7) | (x >> 25) == x.RotateLeft(7);
    case _ =>
  }

  lemma RotateBy8(x: Word, n: Bits)
    ensures 8 <= n <= 11 ==> Rotate(x, n) == Circular(x, n)
  {
    match n
    case 8 => assert (x << 8) | (x >> 24) == x.RotateLeft(8);
    case 9 => assert (x << 9) | (x >> 23) == x.RotateLeft(9);
    case 10 => assert (x << 10) | (x >> 22) == x.RotateLeft(10);
    case 11 => assert (x << 11) | (x >> 21) == x.RotateLeft(11);
    case _ =>
  }

  lemma RotateBy12(x: Word, n: Bits)
    ensures 12 <= n <= 15 ==> Rotate(x, n) == Circular(x, n)
  {
    match n
    case 12 => assert (x << 12) | (x >> 20) == x.RotateLeft(12);
    case 13 => assert (x << 13) | (x >> 19) == x.RotateLeft(13);
    case 14 => assert (x << 14) | (x >> 18) == x.RotateLeft(14);
    case 15 => assert (x << 15) | (x >> 17) == x.RotateLeft(15);
    case _ =>
  }

  lemma RotateBy16(x: Word, n: Bits)
    ensures 16 <= n <= 19 ==> Rotate(x, n) == Circular(x, n)
  {
    match n
    case 16 => assert (x << 16) | (x >> 16) == x.RotateLeft(16);
    case 17 => assert (x << 17) | (x >> 15) == x.RotateLeft(17);
    case 18 => assert (x << 18) | (x >> 14) == x.RotateLeft(18);
    case 19 => assert (x << 19) | (x >> 13) == x.RotateLeft(19);
    case _ =>
  }

  lemma RotateBy20(x: Word, n: Bits)
    ensures 20 <= n <= 23 ==> Rotate(x, n) == Circular(x, n)
  {
    match n
    case 20 => assert (x << 20) | (x >> 12) == x.RotateLeft(20);
    case 21 => assert (x << 21) | (x >> 11) == x.RotateLeft(21);
    case 22 => assert (x << 22) | (x >> 10) == x.RotateLeft(22);
    case 23 => assert (x << 23) | (x >> 9) == x.RotateLeft(23);
    case _ =>
  }

  lemma Commute(a: Word, b: Word)
    ensures Plus(a, b) == Plus(b, a)
  {
  }

  /** Each macro computes what the standard prescribes. */
  lemma MacroIsStandard(round: Round, s: State, x: Word, shift: Bits, ac: Word)
    ensures Macro(round, s, x, shift, ac) == Standard(round, s, x, shift, ac)
  {
    var f := Aux(round, s.b, s.c, s.d);
    var sum := Plus(s.a, Plus(Plus(f, x), ac));
    RotateIsCircular(sum, shift);
    Commute(Circular(sum, shift), s.b);
  }

  /** The same message gives the same digest whichever of two equal operations computes it. */
  lemma {:induction false} OpsSame(m: Mixer, n: Mixer, k: nat, s: State, x: seq<Word>)
    requires k <= 64 && |x| == 16
    requires forall r, q, w, b, t :: m(r, q, w, b, t) == n(r, q, w, b, t)
    ensures Ops(m, k, s, x) == Ops(n, k, s, x)
  {
    if k > 0 {
      OpsSame(m, n, k - 1, s, x);
    }
  }

  lemma {:induction false} FoldSame(m: Mixer, n: Mixer, ws: seq<Word>)
    requires |ws| % 16 == 0
    requires forall r, q, w, b, t :: m(r, q, w, b, t) == n(r, q, w, b, t)
    ensures Fold(m, ws) == Fold(n, ws)
    decreases |ws|
  {
    if ws != [] {
      FoldSame(m, n, ws[..|ws| - 16]);
      OpsSame(m, n, 64, Fold(n, ws[..|ws| - 16]), ws[|ws| - 16..]);
    }
  }

  /** Hashing with the macros is the standard's digest. */
  lemma MacroDigest(data: seq<Octet>)
    ensures DigestWith(Macro, data) == Digest(data)
  {
    forall r, q, w, b, t
      ensures Macro(r, q, w, b, t) == Standard(r, q, w, b, t)
    {
      MacroIsStandard(r, q, w, b, t);
    }
    FoldSame(Macro, Standard, Message(data));
  }

  // ---------------------------------------------------------------- one block

  /** States from s on, each the result of the operation of its entry on the one before. */
  ghost predicate IsRun(mix: Mixer, s: State, x: seq<Word>, es: seq<Entry>, at: seq<State>) {
    && |x| == 16 && |es| == 64 && |at| == 65 && at[0] == s
    && (forall i :: 0 <= i < 64 ==> es[i].k < 16)
    && (forall i :: 0 <= i < 64 ==> at[i + 1] == Op(mix, es[i], at[i], x))
  }

  /** The entries that the standard's formulas give. */
  ghost predicate IsSchedule(es: seq<Entry>) {
    |es| == 64 && forall i :: 0 <= i < 64 ==> es[i] == EntryOf(i)
  }

  /** One macro call, which has its place in the schedule. */
  method Apply(mix: Mixer, round: Round, a: Word, b: Word, c: Word, d: Word, w: Word, shift: Bits, ac: Word,
               ghost i: nat, ghost k: nat, ghost s: State, ghost x: seq<Word>,
               ghost es: seq<Entry>, ghost at: seq<State>) returns (a': Word)
    requires i < 64 && IsRun(mix, s, x, es, at) && at[i] == State(a, b, c, d)
    requires es[i] == Entry(round, k, shift, ac) && w == x[k]
    ensures at[i + 1] == State(d, a', b, c)
  {
    a' := mix(round, State(a, b, c, d), w, shift, ac);
  }

  /** The entries of calls 1 to 4. */
  ghost predicate Calls0(es: seq<Entry>)
    requires |es| == 64
  {
    && es[0] == Entry(One, 0, 7, 3614090360)
    && es[1] == Entry(One, 1, 12, 3905402710)
    && es[2] == Entry(One, 2, 17, 606105819)
    && es[3] == Entry(One, 3, 22, 3250441966)
  }

  lemma Calls0Hold(es: seq<Entry>)
    requires IsSchedule(es)
    ensures Calls0(es)
  {
  }

  /** The entries of calls 5 to 8. */
  ghost predicate Calls4(es: seq<Entry>)
    requires |es| == 64
  {
    && es[4] == Entry(One, 4, 7, 4118548399)
    && es[5] == Entry(One, 5, 12, 1200080426)
    && es[6] == Entry(One, 6, 17, 2821735955)
    && es[7] == Entry(One, 7, 22, 4249261313)
  }

  lemma Calls4Hold(es: seq<Entry>)
    requires IsSchedule(es)
    ensures Calls4(es)
  {
  }

  /** The entries of calls 9 to 12. */
  ghost predicate Calls8(es: seq<Entry>)
    requires |es| == 64
  {
    && es[8] == Entry(One, 8, 7, 1770035416)
    && es[9] == Entry(One, 9, 12, 2336552879)
    && es[10] == Entry(One, 10, 17, 4294925233)
    && es[11] == Entry(One, 11, 22, 2304563134)
  }

  lemma Calls8Hold(es: seq<Entry>)
    requires IsSchedule(es)
    ensures Calls8(es)
  {
  }

  /** The entries of calls 13 to 16. */
  ghost predicate Calls12(es: seq<Entry>)
    requires |es| == 64
  {
    && es[12] == Entry(One, 12, 7, 1804603682)
    && es[13] == Entry(One, 13, 12, 4254626195)
    && es[14] == Entry(One, 14, 17, 2792965006)
    && es[15] == Entry(One, 15, 22, 1236535329)
  }

  lemma Calls12Hold(es: seq<Entry>)
    requires IsSchedule(es)
    ensures Calls12(es)
  {
  }

  ghost predicate Table1(es: seq<Entry>)
    requires |es| == 64
  {
    Calls0(es) && Calls4(es) && Calls8(es) && Calls12(es)
  }

  method Round1(mix: Mixer, s: State, x: seq<Word>, ghost s0: State, ghost es: seq<Entry>, ghost at: seq<State>)
    returns (s': State)
    requires IsRun(mix, s0, x, es, at) && Table1(es) && s == at[0]
    ensures s' == at[16]
  {
    var a, b, c, d := s.a, s.b, s.c, s.d;
    a := Apply(mix, One, a, b, c, d, x[0], 7, 3614090360, 0, 0, s0, x, es, at);
    d := Apply(mix, One, d, a, b, c, x[1], 12, 3905402710, 1, 1, s0, x, es, at);
    c := Apply(mix, One, c, d, a, b, x[2], 17, 606105819, 2, 2, s0, x, es, at);
    b := Apply(mix, One, b, c, d, a, x[3], 22, 3250441966, 3, 3, s0, x, es, at);
    a := Apply(mix, One, a, b, c, d, x[4], 7, 4118548399, 4, 4, s0, x, es, at);
    d := Apply(mix, One, d, a, b, c, x[5], 12, 1200080426, 5, 5, s0, x, es, at);
    c := Apply(mix, One, c, d, a, b, x[6], 17, 2821735955, 6, 6, s0, x, es, at);
    b := Apply(mix, One, b, c, d, a, x[7], 22, 4249261313, 7, 7, s0, x, es, at);
    a := Apply(mix, One, a, b, c, d, x[8], 7, 1770035416, 8, 8, s0, x, es, at);
    d := Apply(mix, One, d, a, b, c, x[9], 12, 2336552879, 9, 9, s0, x, es, at);
    c := Apply(mix, One, c, d, a, b, x[10], 17, 4294925233, 10, 10, s0, x, es, at);
    b := Apply(mix, One, b, c, d, a, x[11], 22, 2304563134, 11, 11, s0, x, es, at);
    a := Apply(mix, One, a, b, c, d, x[12], 7, 1804603682, 12, 12, s0, x, es, at);
    d := Apply(mix, One, d, a, b, c, x[13], 12, 4254626195, 13, 13, s0, x, es, at);
    c := Apply(mix, One, c, d, a, b, x[14], 17, 2792965006, 14, 14, s0, x, es, at);
    b := Apply(mix, One, b, c, d, a, x[15], 22, 1236535329, 15, 15, s0, x, es, at);
    return State(a, b, c, d);
  }

  /** The entries of calls 17 to 20. */
  ghost predicate Calls16(es: seq<Entry>)
    requires |es| == 64
  {
    && es[16] == Entry(Two, 1, 5, 4129170786)
    && es[17] == Entry(Two, 6, 9, 3225465664)
    && es[18] == Entry(Two, 11, 14, 643717713)
    && es[19] == Entry(Two, 0, 20, 3921069994)
  }

  lemma Calls16Hold(es: seq<Entry>)
    requires IsSchedule(es)
    ensures Calls16(es)
  {
  }

  /** The entries of calls 21 to 24. */
  ghost predicate Calls20(es: seq<Entry>)
    requires |es| == 64
  {
    && es[20] == Entry(Two, 5, 5, 3593408605)
    && es[21] == Entry(Two, 10, 9, 38016083)
    && es[22] == Entry(Two, 15, 14, 3634488961)
    && es[23] == Entry(Two, 4, 20, 3889429448)
  }

  lemma Calls20Hold(es: seq<Entry>)
    requires IsSchedule(es)
    ensures Calls20(es)
  {
  }

  /** The entries of calls 25 to 28. */
  ghost predicate Calls24(es: seq<Entry>)
    requires |es| == 64
  {
    && es[24] == Entry(Two, 9, 5, 568446438)
    && es[25] == Entry(Two, 14, 9, 3275163606)
    && es[26] == Entry(Two, 3, 14, 4107603335)
    && es[27] == Entry(Two, 8, 20, 1163531501)
  }

  lemma Calls24Hold(es: seq<Entry>)
    requires IsSchedule(es)
    ensures Calls24(es)
  {
  }

  /** The entries of calls 29 to 32. */
  ghost predicate Calls28(es: seq<Entry>)
    requires |es| == 64
  {
    && es[28] == Entry(Two, 13, 5, 2850285829)
    && es[29] == Entry(Two, 2, 9, 4243563512)
    && es[30] == Entry(Two, 7, 14, 1735328473)
    && es[31] == Entry(Two, 12, 20, 2368359562)
  }

  lemma Calls28Hold(es: seq<Entry>)
    requires IsSchedule(es)
    ensures Calls28(es)
  {
  }

  ghost predicate Table2(es: seq<Entry>)
    requires |es| == 64
  {
    Calls16(es) && Calls20(es) && Calls24(es) && Calls28(es)
  }

  method Round2(mix: Mixer, s: State, x: seq<Word>, ghost s0: State, ghost es: seq<Entry>, ghost at: seq<State>)
    returns (s': State)
    requires IsRun(mix, s0, x, es, at) && Table2(es) && s == at[16]
    ensures s' == at[32]
  {
    var a, b, c, d := s.a, s.b, s.c, s.d;
    a := Apply(mix, Two, a, b, c, d, x[1], 5, 4129170786, 16, 1, s0, x, es, at);
    d := Apply(mix, Two, d, a, b, c, x[6], 9, 3225465664, 17, 6, s0, x, es, at);
    c := Apply(mix, Two, c, d, a, b, x[11], 14, 643717713, 18, 11, s0, x, es, at);
    b := Apply(mix, Two, b, c, d, a, x[0], 20, 3921069994, 19, 0, s0, x, es, at);
    a := Apply(mix, Two, a, b, c, d, x[5], 5, 3593408605, 20, 5, s0, x, es, at);
    d := Apply(mix, Two, d, a, b, c, x[10], 9, 38016083, 21, 10, s0, x, es, at);
    c := Apply(mix, Two, c, d, a, b, x[15], 14, 3634488961, 22, 15, s0, x, es, at);
    b := Apply(mix, Two, b, c, d, a, x[4], 20, 3889429448, 23, 4, s0, x, es, at);
    a := Apply(mix, Two, a, b, c, d, x[9], 5, 568446438, 24, 9, s0, x, es, at);
    d := Apply(mix, Two, d, a, b, c, x[14], 9, 3275163606, 25, 14, s0, x, es, at);
    c := Apply(mix, Two, c, d, a, b, x[3], 14, 4107603335, 26, 3, s0, x, es, at);
    b := Apply(mix, Two, b, c, d, a, x[8], 20, 1163531501, 27, 8, s0, x, es, at);
    a := Apply(mix, Two, a, b, c, d, x[13], 5, 2850285829, 28, 13, s0, x, es, at);
    d := Apply(mix, Two, d, a, b, c, x[2], 9, 4243563512, 29, 2, s0, x, es, at);
    c := Apply(mix, Two, c, d, a, b, x[7], 14, 1735328473, 30, 7, s0, x, es, at);
    b := Apply(mix, Two, b, c, d, a, x[12], 20, 2368359562, 31, 12, s0, x, es, at);
    return State(a, b, c, d);
  }

  /** The entries of calls 33 to 36. */
  ghost predicate Calls32(es: seq<Entry>)
    requires |es| == 64
  {
    && es[32] == Entry(Three, 5, 4, 4294588738)
    && es[33] == Entry(Three, 8, 11, 2272392833)
    && es[34] == Entry(Three, 11, 16, 1839030562)
    && es[35] == Entry(Three, 14, 23, 4259657740)
  }

  lemma Calls32Hold(es: seq<Entry>)
    requires IsSchedule(es)
    ensures Calls32(es)
  {
  }

  /** The entries of calls 37 to 40. */
  ghost predicate Calls36(es: seq<Entry>)
    requires |es| == 64
  {
    && es[36] == Entry(Three, 1, 4, 2763975236)
    && es[37] == Entry(Three, 4, 11, 1272893353)
    && es[38] == Entry(Three, 7, 16, 4139469664)
    && es[39] == Entry(Three, 10, 23, 3200236656)
  }

  lemma Calls36Hold(es: seq<Entry>)
    requires IsSchedule(es)
    ensures Calls36(es)
  {
  }

  /** The entries of calls 41 to 44. */
  ghost predicate Calls40(es: seq<Entry>)
    requires |es| == 64
  {
    && es[40] == Entry(Three, 13, 4, 681279174)
    && es[41] == Entry(Three, 0, 11, 3936430074)
    && es[42] == Entry(Three, 3, 16, 3572445317)
    && es[43] == Entry(Three, 6, 23, 76029189)
  }

  lemma Calls40Hold(es: seq<Entry>)
    requires IsSchedule(es)
    ensures Calls40(es)
  {
  }

  /** The entries of calls 45 to 48. */
  ghost predicate Calls44(es: seq<Entry>)
    requires |es| == 64
  {
    && es[44] == Entry(Three, 9, 4, 3654602809)
    && es[45] == Entry(Three, 12, 11, 3873151461)
    && es[46] == Entry(Three, 15, 16, 530742520)
    && es[47] == Entry(Three, 2, 23, 3299628645)
  }

  lemma Calls44Hold(es: seq<Entry>)
    requires IsSchedule(es)
    ensures Calls44(es)
  {
  }

  ghost predicate Table3(es: seq<Entry>)
    requires |es| == 64
  {
    Calls32(es) && Calls36(es) && Calls40(es) && Calls44(es)
  }

  method Round3(mix: Mixer, s: State, x: seq<Word>, ghost s0: State, ghost es: seq<Entry>, ghost at: seq<State>)
    returns (s': State)
    requires IsRun(mix, s0, x, es, at) && Table3(es) && s == at[32]
    ensures s' == at[48]
  {
    var a, b, c, d := s.a, s.b, s.c, s.d;
    a := Apply(mix, Three, a, b, c, d, x[5], 4, 4294588738, 32, 5, s0, x, es, at);
    d := Apply(mix, Three, d, a, b, c, x[8], 11, 2272392833, 33, 8, s0, x, es, at);
    c := Apply(mix, Three, c, d, a, b, x[11], 16, 1839030562, 34, 11, s0, x, es, at);
    b := Apply(mix, Three, b, c, d, a, x[14], 23, 4259657740, 35, 14, s0, x, es, at);
    a := Apply(mix, Three, a, b, c, d, x[1], 4, 2763975236, 36, 1, s0, x, es, at);
    d := Apply(mix, Three, d, a, b, c, x[4], 11, 1272893353, 37, 4, s0, x, es, at);
    c := Apply(mix, Three, c, d, a, b, x[7], 16, 4139469664, 38, 7, s0, x, es, at);
    b := Apply(mix, Three, b, c, d, a, x[10], 23, 3200236656, 39, 10, s0, x, es, at);
    a := Apply(mix, Three, a, b, c, d, x[13], 4, 681279174, 40, 13, s0, x, es, at);
    d := Apply(mix, Three, d, a, b, c, x[0], 11, 3936430074, 41, 0, s0, x, es, at);
    c := Apply(mix, Three, c, d, a, b, x[3], 16, 3572445317, 42, 3, s0, x, es, at);
    b := Apply(mix, Three, b, c, d, a, x[6], 23, 76029189, 43, 6, s0, x, es, at);
    a := Apply(mix, Three, a, b, c, d, x[9], 4, 3654602809, 44, 9, s0, x, es, at);
    d := Apply(mix, Three, d, a, b, c, x[12], 11, 3873151461, 45, 12, s0, x, es, at);
    c := Apply(mix, Three, c, d, a, b, x[15], 16, 530742520, 46, 15, s0, x, es, at);
    b := Apply(mix, Three, b, c, d, a, x[2], 23, 3299628645, 47, 2, s0, x, es, at);
    return State(a, b, c, d);
  }

  /** The entries of calls 49 to 52. */
  ghost predicate Calls48(es: seq<Entry>)
    requires |es| == 64
  {
    && es[48] == Entry(Four, 0, 6, 4096336452)
    && es[49] == Entry(Four, 7, 10, 1126891415)
    && es[50] == Entry(Four, 14, 15, 2878612391)
    && es[51] == Entry(Four, 5, 21, 4237533241)
  }

  lemma Calls48Hold(es: seq<Entry>)
    requires IsSchedule(es)
    ensures Calls48(es)
  {
  }

  /** The entries of calls 53 to 56. */
  ghost predicate Calls52(es: seq<Entry>)
    requires |es| == 64
  {
    && es[52] == Entry(Four, 12, 6, 1700485571)
    && es[53] == Entry(Four, 3, 10, 2399980690)
    && es[54] == Entry(Four, 10, 15, 4293915773)
    && es[55] == Entry(Four, 1, 21, 2240044497)
  }

  lemma Calls52Hold(es: seq<Entry>)
    requires IsSchedule(es)
    ensures Calls52(es)
  {
  }

  /** The entries of calls 57 to 60. */
  ghost predicate Calls56(es: seq<Entry>)
    requires |es| == 64
  {
    && es[56] == Entry(Four, 8, 6, 1873313359)
    && es[57] == Entry(Four, 15, 10, 4264355552)
    && es[58] == Entry(Four, 6, 15, 2734768916)
    && es[59] == Entry(Four, 13, 21, 1309151649)
  }

  lemma Calls56Hold(es: seq<Entry>)
    requires IsSchedule(es)
    ensures Calls56(es)
  {
  }

  /** The entries of calls 61 to 64. */
  ghost predicate Calls60(es: seq<Entry>)
    requires |es| == 64
  {
    && es[60] == Entry(Four, 4, 6, 4149444226)
    && es[61] == Entry(Four, 11, 10, 3174756917)
    && es[62] == Entry(Four, 2, 15, 718787259)
    && es[63] == Entry(Four, 9, 21, 3951481745)
  }

  lemma Calls60Hold(es: seq<Entry>)
    requires IsSchedule(es)
    ensures Calls60(es)
  {
  }

  ghost predicate Table4(es: seq<Entry>)
    requires |es| == 64
  {
    Calls48(es) && Calls52(es) && Calls56(es) && Calls60(es)
  }

  method Round4(mix: Mixer, s: State, x: seq<Word>, ghost s0: State, ghost es: seq<Entry>, ghost at: seq<State>)
    returns (s': State)
    requires IsRun(mix, s0, x, es, at) && Table4(es) && s == at[48]
    ensures s' == at[64]
  {
    var a, b, c, d := s.a, s.b, s.c, s.d;
    a := Apply(mix, Four, a, b, c, d, x[0], 6, 4096336452, 48, 0, s0, x, es, at);
    d := Apply(mix, Four, d, a, b, c, x[7], 10, 1126891415, 49, 7, s0, x, es, at);
    c := Apply(mix, Four, c, d, a, b, x[14], 15, 2878612391, 50, 14, s0, x, es, at);
    b := Apply(mix, Four, b, c, d, a, x[5], 21, 4237533241, 51, 5, s0, x, es, at);
    a := Apply(mix, Four, a, b, c, d, x[12], 6, 1700485571, 52, 12, s0, x, es, at);
    d := Apply(mix, Four, d, a, b, c, x[3], 10, 2399980690, 53, 3, s0, x, es, at);
    c := Apply(mix, Four, c, d, a, b, x[10], 15, 4293915773, 54, 10, s0, x, es, at);
    b := Apply(mix, Four, b, c, d, a, x[1], 21, 2240044497, 55, 1, s0, x, es, at);
    a := Apply(mix, Four, a, b, c, d, x[8], 6, 1873313359, 56, 8, s0, x, es, at);
    d := Apply(mix, Four, d, a, b, c, x[15], 10, 4264355552, 57, 15, s0, x, es, at);
    c := Apply(mix, Four, c, d, a, b, x[6], 15, 2734768916, 58, 6, s0, x, es, at);
    b := Apply(mix, Four, b, c, d, a, x[13], 21, 1309151649, 59, 13, s0, x, es, at);
    a := Apply(mix, Four, a, b, c, d, x[4], 6, 4149444226, 60, 4, s0, x, es, at);
    d := Apply(mix, Four, d, a, b, c, x[11], 10, 3174756917, 61, 11, s0, x, es, at);
    c := Apply(mix, Four, c, d, a, b, x[2], 15, 718787259, 62, 2, s0, x, es, at);
    b := Apply(mix, Four, b, c, d, a, x[9], 21, 3951481745, 63, 9, s0, x, es, at);
    return State(a, b, c, d);
  }

  /** The standard's operations on a block are a run whose entries are those of the calls. */
  lemma StandardRun(mix: Mixer, s: State, x: seq<Word>) returns (es: seq<Entry>, at: seq<State>)
    requires |x| == 16
    ensures IsRun(mix, s, x, es, at) && at[64] == Ops(mix, 64, s, x)
    ensures Table1(es) && Table2(es) && Table3(es) && Table4(es)
  {
    es := seq(64, i requires 0 <= i < 64 => EntryOf(i));
    at := seq(65, i requires 0 <= i < 65 => Ops(mix, i, s, x));
    FirstTables(es);
    LastTables(es);
  }

  lemma FirstTables(es: seq<Entry>)
    requires IsSchedule(es)
    ensures Table1(es) && Table2(es)
  {
    Calls0Hold(es);
    Calls4Hold(es);
    Calls8Hold(es);
    Calls12Hold(es);
    Calls16Hold(es);
    Calls20Hold(es);
    Calls24Hold(es);
    Calls28Hold(es);
  }

  lemma LastTables(es: seq<Entry>)
    requires IsSchedule(es)
    ensures Table3(es) && Table4(es)
  {
    Calls32Hold(es);
    Calls36Hold(es);
    Calls40Hold(es);
    Calls44Hold(es);
    Calls48Hold(es);
    Calls52Hold(es);
    Calls56Hold(es);
    Calls60Hold(es);
  }

  ghost function StateOf(buf: seq<Word>): (s: State)
    requires |buf| == 4
  {
    State(buf[0], buf[1], buf[2], buf[3])
  }

  /** Transform: the 64 operations written out, then the old state added. */
  method Transform(mix: Mixer, buf: array<Word>, x: seq<Word>)
    requires buf.Length == 4 && |x| == 16
    modifies buf
    ensures StateOf(buf[..]) == Block(mix, StateOf(old(buf[..])), x)
  {
    ghost var s0 := StateOf(buf[..]);
    ghost var es, at := StandardRun(mix, s0, x);
    var s := State(buf[0], buf[1], buf[2], buf[3]);
    s := Round1(mix, s, x, s0, es, at);
    s := Round2(mix, s, x, s0, es, at);
    s := Round3(mix, s, x, s0, es, at);
    s := Round4(mix, s, x, s0, es, at);
    buf[0] := Plus(buf[0], s.a);
    buf[1] := Plus(buf[1], s.b);
    buf[2] := Plus(buf[2], s.c);
    buf[3] := Plus(buf[3], s.d);
  }
}
