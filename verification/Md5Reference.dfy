/** The MD5 message digest as sections 3.1 to 3.5 of RFC 1321 define it. */
module Md5Reference {
  type Word = bv32
  type Octet = bv8

  datatype State = State(a: Word, b: Word, c: Word, d: Word)

  /** Section 3.3. */
  const INIT := State(0x67452301, 0xefcdab89, 0x98badcfe, 0x10325476)

  datatype Round = One | Two | Three | Four

  /** Amounts of bits to rotate by: those that occur lie between 4 and 23. */
  type Bits = n: nat | 4 <= n <= 23 witness 4

  /** What an operation makes of its register a, from all four registers, a word, a shift and a constant. */
  type Mixer = (Round, State, Word, Bits, Word) -> Word

  /** The auxiliary functions F, G, H and I of section 3.4. */
  function Aux(round: Round, x: Word, y: Word, z: Word): (w: Word) {
    match round
    case One => (x & y) | (!x & z)
    case Two => (x & z) | (y & !z)
    case Three => x ^ y ^ z
    case Four => y ^ (x | !z)
  }

  /** Addition modulo 2 to the 32. */
  function Plus(x: Word, y: Word): (w: Word) {
    x + y
  }

  function Circular(x: Word, n: Bits): (w: Word) {
    x.RotateLeft(n)
  }

  /** The operation of section 3.4: b + ((a + f(b, c, d) + x + t) <<< shift). */
  function Standard(round: Round, s: State, x: Word, shift: Bits, t: Word): (w: Word) {
    Plus(s.b, Circular(Plus(s.a, Plus(Plus(Aux(round, s.b, s.c, s.d), x), t)), shift))
  }

  function RoundOf(i: nat): (r: Round) {
    match i / 16
    case 0 => One
    case 1 => Two
    case 2 => Three
    case _ => Four
  }

  /** Which message word operation i takes. */
  function K(i: nat): (k: nat)
    requires i < 64
    ensures k < 16
  {
    match i / 16
    case 0 => i % 16
    case 1 => (5 * i + 1) % 16
    case 2 => (3 * i + 5) % 16
    case _ => 7 * i % 16
  }

  /** By how many bits operation i rotates. */
  function S(i: nat): (s: Bits)
    requires i < 64
  {
    match (i / 16, i % 4)
    case (0, 0) => 7
    case (0, 1) => 12
    case (0, 2) => 17
    case (0, _) => 22
    case (1, 0) => 5
    case (1, 1) => 9
    case (1, 2) => 14
    case (1, _) => 20
    case (2, 0) => 4
    case (2, 1) => 11
    case (2, 2) => 16
    case (2, _) => 23
    case (_, 0) => 6
    case (_, 1) => 10
    case (_, 2) => 15
    case (_, _) => 21
  }

  /** The table of section 3.4, round by round: the integer part of 4294967296 times abs(sin(i)), i from 1 to 64. */
  function T1(j: nat): (t: Word)
    requires j < 16
  {
    match j
    case 0 => 3614090360
    case 1 => 3905402710
    case 2 => 606105819
    case 3 => 3250441966
    case 4 => 4118548399
    case 5 => 1200080426
    case 6 => 2821735955
    case 7 => 4249261313
    case 8 => 1770035416
    case 9 => 2336552879
    case 10 => 4294925233
    case 11 => 2304563134
    case 12 => 1804603682
    case 13 => 4254626195
    case 14 => 2792965006
    case _ => 1236535329
  }

  function T2(j: nat): (t: Word)
    requires j < 16
  {
    match j
    case 0 => 4129170786
    case 1 => 3225465664
    case 2 => 643717713
    case 3 => 3921069994
    case 4 => 3593408605
    case 5 => 38016083
    case 6 => 3634488961
    case 7 => 3889429448
    case 8 => 568446438
    case 9 => 3275163606
    case 10 => 4107603335
    case 11 => 1163531501
    case 12 => 2850285829
    case 13 => 4243563512
    case 14 => 1735328473
    case _ => 2368359562
  }

  function T3(j: nat): (t: Word)
    requires j < 16
  {
    match j
    case 0 => 4294588738
    case 1 => 2272392833
    case 2 => 1839030562
    case 3 => 4259657740
    case 4 => 2763975236
    case 5 => 1272893353
    case 6 => 4139469664
    case 7 => 3200236656
    case 8 => 681279174
    case 9 => 3936430074
    case 10 => 3572445317
    case 11 => 76029189
    case 12 => 3654602809
    case 13 => 3873151461
    case 14 => 530742520
    case _ => 3299628645
  }

  function T4(j: nat): (t: Word)
    requires j < 16
  {
    match j
    case 0 => 4096336452
    case 1 => 1126891415
    case 2 => 2878612391
    case 3 => 4237533241
    case 4 => 1700485571
    case 5 => 2399980690
    case 6 => 4293915773
    case 7 => 2240044497
    case 8 => 1873313359
    case 9 => 4264355552
    case 10 => 2734768916
    case 11 => 1309151649
    case 12 => 4149444226
    case 13 => 3174756917
    case 14 => 718787259
    case _ => 3951481745
  }

  function T(i: nat): (t: Word)
    requires i < 64
  {
    match i / 16
    case 0 => T1(i % 16)
    case 1 => T2(i % 16)
    case 2 => T3(i % 16)
    case _ => T4(i % 16)
  }

  /** What operation i takes: its round, which message word, the shift and the constant. */
  datatype Entry = Entry(round: Round, k: nat, shift: Bits, t: Word)

  function EntryOf(i: nat): (e: Entry)
    requires i < 64
    ensures e.k < 16
  {
    Entry(RoundOf(i), K(i), S(i), T(i))
  }

  /** The operation of a schedule entry, after which the four registers change places. */
  function Op(mix: Mixer, e: Entry, s: State, x: seq<Word>): (s': State)
    requires e.k < 16 && |x| == 16
  {
    State(s.d, mix(e.round, s, x[e.k], e.shift, e.t), s.b, s.c)
  }

  /** The first n operations on a block. */
  function Ops(mix: Mixer, n: nat, s: State, x: seq<Word>): (s': State)
    requires n <= 64 && |x| == 16
  {
    if n == 0 then s else Op(mix, EntryOf(n - 1), Ops(mix, n - 1, s, x), x)
  }

  function Added(s: State, t: State): (u: State) {
    State(Plus(s.a, t.a), Plus(s.b, t.b), Plus(s.c, t.c), Plus(s.d, t.d))
  }

  function Block(mix: Mixer, s: State, x: seq<Word>): (s': State)
    requires |x| == 16
  {
    Added(s, Ops(mix, 64, s, x))
  }

  /** The state after all blocks of a message of words. */
  function Fold(mix: Mixer, ws: seq<Word>): (s: State)
    requires |ws| % 16 == 0
    decreases |ws|
  {
    if ws == [] then INIT else Block(mix, Fold(mix, ws[..|ws| - 16]), ws[|ws| - 16..])
  }

  /** Section 2: the low-order octet of a word comes first. */
  function WordOf(b0: Octet, b1: Octet, b2: Octet, b3: Octet): (w: Word) {
    (b0 as bv32) + 256 * (b1 as bv32) + 65536 * (b2 as bv32) + 16777216 * (b3 as bv32)
  }

  function Words(b: seq<Octet>): (ws: seq<Word>)
    requires |b| % 4 == 0
    ensures |ws| == |b| / 4
  {
    var n := |b|;
    if n == 0 then [] else Words(b[..n - 4]) + [WordOf(b[n - 4], b[n - 3], b[n - 2], b[n - 1])]
  }

  function ZeroOctets(n: nat): (z: seq<Octet>)
    ensures |z| == n
  {
    if n == 0 then [] else ZeroOctets(n - 1) + [0]
  }

  /** Section 3.1: a one bit and zeros until the length is 56 modulo 64. */
  function Pad(len: nat): (p: seq<Octet>)
    ensures 1 <= |p| <= 64 && (len + |p|) % 64 == 56
  {
    [0x80] + ZeroOctets((119 - len % 64) % 64)
  }

  /** Section 3.2: the length in bits modulo 2 to the 64, its low-order word first. */
  function LengthWords(len: nat): (ws: seq<Word>)
    ensures |ws| == 2
  {
    [(8 * len % 0x1_0000_0000) as bv32, (8 * len / 0x1_0000_0000 % 0x1_0000_0000) as bv32]
  }

  function Message(data: seq<Octet>): (ws: seq<Word>)
    ensures |ws| % 16 == 0
  {
    PaddedLength(|data| + |Pad(|data|)|);
    Words(data + Pad(|data|)) + LengthWords(|data|)
  }

  lemma PaddedLength(n: nat)
    requires n % 64 == 56
    ensures n % 4 == 0 && (n / 4 + 2) % 16 == 0
  {
  }

  function OctetsOf(w: Word): (b: seq<Octet>)
    ensures |b| == 4
  {
    [(w & 0xff) as bv8, ((w >> 8) & 0xff) as bv8, ((w >> 16) & 0xff) as bv8, ((w >> 24) & 0xff) as bv8]
  }

  /** Section 3.5. */
  function Output(s: State): (b: seq<Octet>)
    ensures |b| == 16
  {
    OctetsOf(s.a) + OctetsOf(s.b) + OctetsOf(s.c) + OctetsOf(s.d)
  }

  function DigestWith(mix: Mixer, data: seq<Octet>): (b: seq<Octet>)
    ensures |b| == 16
  {
    Output(Fold(mix, Message(data)))
  }

  /** The message digest. */
  function Digest(data: seq<Octet>): (b: seq<Octet>)
    ensures |b| == 16
  {
    DigestWith(Standard, data)
  }
}
