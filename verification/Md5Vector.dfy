/** A digest of the test suite of RFC 1321, section A.5, computed from the definition operation by operation. */
module Md5Vector {
  import opened Md5Reference
  import opened Md5

  /** The lower-case letters, four in a row. */
  function Letters(): (b: seq<Octet>) {
    FirstLetters() + [0x79, 0x7a]
  }

  function FirstLetters(): (b: seq<Octet>)
    ensures |b| == 24
  {
    Twelve() + [0x6d, 0x6e, 0x6f, 0x70] + [0x71, 0x72, 0x73, 0x74] + [0x75, 0x76, 0x77, 0x78]
  }

  function Twelve(): (b: seq<Octet>)
    ensures |b| == 12
  {
    [0x61, 0x62, 0x63, 0x64] + [0x65, 0x66, 0x67, 0x68] + [0x69, 0x6a, 0x6b, 0x6c]
  }

  /** The words of their one block: letters, a one bit, zeros and the length of 208 bits. */
  ghost predicate IsBlock(x: seq<Word>) {
    && |x| == 16
    && x[0] == 0x64636261 && x[1] == 0x68676665 && x[2] == 0x6c6b6a69 && x[3] == 0x706f6e6d
    && x[4] == 0x74737271 && x[5] == 0x78777675 && x[6] == 0x00807a79 && x[7] == 0x00000000
    && x[8] == 0x00000000 && x[9] == 0x00000000 && x[10] == 0x00000000 && x[11] == 0x00000000
    && x[12] == 0x00000000 && x[13] == 0x00000000 && x[14] == 0x000000d0 && x[15] == 0x00000000
  }

  /** The registers before an operation. */
  ghost predicate Before(at: seq<State>, i: nat, s: State) {
    i < |at| && at[i] == s
  }

  ghost predicate Running(x: seq<Word>, es: seq<Entry>, at: seq<State>) {
    IsBlock(x) && IsRun(Standard, INIT, x, es, at)
  }

  lemma Next(x: seq<Word>, es: seq<Entry>, at: seq<State>, i: nat, s: State, e: Entry, v: Word, w: Word)
    requires Running(x, es, at) && i < 64 && Before(at, i, s) && es[i] == e && e.k < 16 && x[e.k] == v
    requires Standard(e.round, s, v, e.shift, e.t) == w
    ensures Before(at, i + 1, State(s.d, w, s.b, s.c))
  {
    assert at[i + 1] == Op(Standard, es[i], at[i], x);
  }

  lemma Four0(x: seq<Word>, es: seq<Entry>, at: seq<State>)
    requires Running(x, es, at) && Calls0(es)
    requires Before(at, 0, State(0x67452301, 0xefcdab89, 0x98badcfe, 0x10325476))
    ensures Before(at, 4, State(0xd6d117a6, 0x4503b812, 0x227d8cf1, 0xaab1aaaa))
  {
    Next(x, es, at, 0, State(0x67452301, 0xefcdab89, 0x98badcfe, 0x10325476),
         Entry(One, 0, 7, 3614090360), 0x64636261, 0xd6d117a6);
    Next(x, es, at, 1, State(0x10325476, 0xd6d117a6, 0xefcdab89, 0x98badcfe),
         Entry(One, 1, 12, 3905402710), 0x68676665, 0xaab1aaaa);
    Next(x, es, at, 2, State(0x98badcfe, 0xaab1aaaa, 0xd6d117a6, 0xefcdab89),
         Entry(One, 2, 17, 606105819), 0x6c6b6a69, 0x227d8cf1);
    Next(x, es, at, 3, State(0xefcdab89, 0x227d8cf1, 0xaab1aaaa, 0xd6d117a6),
         Entry(One, 3, 22, 3250441966), 0x706f6e6d, 0x4503b812);
  }

  lemma Four4(x: seq<Word>, es: seq<Entry>, at: seq<State>)
    requires Running(x, es, at) && Calls4(es)
    requires Before(at, 4, State(0xd6d117a6, 0x4503b812, 0x227d8cf1, 0xaab1aaaa))
    ensures Before(at, 8, State(0xfe15f787, 0xda9bbb0d, 0xb71122fc, 0xa811b278))
  {
    Next(x, es, at, 4, State(0xd6d117a6, 0x4503b812, 0x227d8cf1, 0xaab1aaaa),
         Entry(One, 4, 7, 4118548399), 0x74737271, 0xfe15f787);
    Next(x, es, at, 5, State(0xaab1aaaa, 0xfe15f787, 0x4503b812, 0x227d8cf1),
         Entry(One, 5, 12, 1200080426), 0x78777675, 0xa811b278);
    Next(x, es, at, 6, State(0x227d8cf1, 0xa811b278, 0xfe15f787, 0x4503b812),
         Entry(One, 6, 17, 2821735955), 0x00807a79, 0xb71122fc);
    Next(x, es, at, 7, State(0x4503b812, 0xb71122fc, 0xa811b278, 0xfe15f787),
         Entry(One, 7, 22, 4249261313), 0x00000000, 0xda9bbb0d);
  }

  lemma Four8(x: seq<Word>, es: seq<Entry>, at: seq<State>)
    requires Running(x, es, at) && Calls8(es)
    requires Before(at, 8, State(0xfe15f787, 0xda9bbb0d, 0xb71122fc, 0xa811b278))
    ensures Before(at, 12, State(0xae752899, 0x56cfa5cb, 0x7d4bd80b, 0x2bbe757f))
  {
    Next(x, es, at, 8, State(0xfe15f787, 0xda9bbb0d, 0xb71122fc, 0xa811b278),
         Entry(One, 8, 7, 1770035416), 0x00000000, 0xae752899);
    Next(x, es, at, 9, State(0xa811b278, 0xae752899, 0xda9bbb0d, 0xb71122fc),
         Entry(One, 9, 12, 2336552879), 0x00000000, 0x2bbe757f);
    Next(x, es, at, 10, State(0xb71122fc, 0x2bbe757f, 0xae752899, 0xda9bbb0d),
         Entry(One, 10, 17, 4294925233), 0x00000000, 0x7d4bd80b);
    Next(x, es, at, 11, State(0xda9bbb0d, 0x7d4bd80b, 0x2bbe757f, 0xae752899),
         Entry(One, 11, 22, 2304563134), 0x00000000, 0x56cfa5cb);
  }

  lemma Four12(x: seq<Word>, es: seq<Entry>, at: seq<State>)
    requires Running(x, es, at) && Calls12(es)
    requires Before(at, 12, State(0xae752899, 0x56cfa5cb, 0x7d4bd80b, 0x2bbe757f))
    ensures Before(at, 16, State(0x1754a316, 0x608d6b7e, 0x00df74d5, 0x85567d90))
  {
    Next(x, es, at, 12, State(0xae752899, 0x56cfa5cb, 0x7d4bd80b, 0x2bbe757f),
         Entry(One, 12, 7, 1804603682), 0x00000000, 0x1754a316);
    Next(x, es, at, 13, State(0x2bbe757f, 0x1754a316, 0x56cfa5cb, 0x7d4bd80b),
         Entry(One, 13, 12, 4254626195), 0x00000000, 0x85567d90);
    Next(x, es, at, 14, State(0x7d4bd80b, 0x85567d90, 0x1754a316, 0x56cfa5cb),
         Entry(One, 14, 17, 2792965006), 0x000000d0, 0x00df74d5);
    Next(x, es, at, 15, State(0x56cfa5cb, 0x00df74d5, 0x85567d90, 0x1754a316),
         Entry(One, 15, 22, 1236535329), 0x00000000, 0x608d6b7e);
  }

  lemma Four16(x: seq<Word>, es: seq<Entry>, at: seq<State>)
    requires Running(x, es, at) && Calls16(es)
    requires Before(at, 16, State(0x1754a316, 0x608d6b7e, 0x00df74d5, 0x85567d90))
    ensures Before(at, 20, State(0x2d8071cc, 0x4c2145b3, 0xedfe7e4b, 0x5dcee119))
  {
    Next(x, es, at, 16, State(0x1754a316, 0x608d6b7e, 0x00df74d5, 0x85567d90),
         Entry(Two, 1, 5, 4129170786), 0x68676665, 0x2d8071cc);
    Next(x, es, at, 17, State(0x85567d90, 0x2d8071cc, 0x608d6b7e, 0x00df74d5),
         Entry(Two, 6, 9, 3225465664), 0x00807a79, 0x5dcee119);
    Next(x, es, at, 18, State(0x00df74d5, 0x5dcee119, 0x2d8071cc, 0x608d6b7e),
         Entry(Two, 11, 14, 643717713), 0x00000000, 0xedfe7e4b);
    Next(x, es, at, 19, State(0x608d6b7e, 0xedfe7e4b, 0x5dcee119, 0x2d8071cc),
         Entry(Two, 0, 20, 3921069994), 0x64636261, 0x4c2145b3);
  }

  lemma Four20(x: seq<Word>, es: seq<Entry>, at: seq<State>)
    requires Running(x, es, at) && Calls20(es)
    requires Before(at, 20, State(0x2d8071cc, 0x4c2145b3, 0xedfe7e4b, 0x5dcee119))
    ensures Before(at, 24, State(0x570c43e0, 0xc9f162d4, 0xc28ab49d, 0x977efd2a))
  {
    Next(x, es, at, 20, State(0x2d8071cc, 0x4c2145b3, 0xedfe7e4b, 0x5dcee119),
         Entry(Two, 5, 5, 3593408605), 0x78777675, 0x570c43e0);
    Next(x, es, at, 21, State(0x5dcee119, 0x570c43e0, 0x4c2145b3, 0xedfe7e4b),
         Entry(Two, 10, 9, 38016083), 0x00000000, 0x977efd2a);
    Next(x, es, at, 22, State(0xedfe7e4b, 0x977efd2a, 0x570c43e0, 0x4c2145b3),
         Entry(Two, 15, 14, 3634488961), 0x00000000, 0xc28ab49d);
    Next(x, es, at, 23, State(0x4c2145b3, 0xc28ab49d, 0x977efd2a, 0x570c43e0),
         Entry(Two, 4, 20, 3889429448), 0x74737271, 0xc9f162d4);
  }

  lemma Four24(x: seq<Word>, es: seq<Entry>, at: seq<State>)
    requires Running(x, es, at) && Calls24(es)
    requires Before(at, 24, State(0x570c43e0, 0xc9f162d4, 0xc28ab49d, 0x977efd2a))
    ensures Before(at, 28, State(0x25bfae3b, 0xe6d3b398, 0xf8c8365f, 0x89980104))
  {
    Next(x, es, at, 24, State(0x570c43e0, 0xc9f162d4, 0xc28ab49d, 0x977efd2a),
         Entry(Two, 9, 5, 568446438), 0x00000000, 0x25bfae3b);
    Next(x, es, at, 25, State(0x977efd2a, 0x25bfae3b, 0xc9f162d4, 0xc28ab49d),
         Entry(Two, 14, 9, 3275163606), 0x000000d0, 0x89980104);
    Next(x, es, at, 26, State(0xc28ab49d, 0x89980104, 0x25bfae3b, 0xc9f162d4),
         Entry(Two, 3, 14, 4107603335), 0x706f6e6d, 0xf8c8365f);
    Next(x, es, at, 27, State(0xc9f162d4, 0xf8c8365f, 0x89980104, 0x25bfae3b),
         Entry(Two, 8, 20, 1163531501), 0x00000000, 0xe6d3b398);
  }

  lemma Four28(x: seq<Word>, es: seq<Entry>, at: seq<State>)
    requires Running(x, es, at) && Calls28(es)
    requires Before(at, 28, State(0x25bfae3b, 0xe6d3b398, 0xf8c8365f, 0x89980104))
    ensures Before(at, 32, State(0xf54d8710, 0xaeb35766, 0x2e69afc7, 0x927b72e2))
  {
    Next(x, es, at, 28, State(0x25bfae3b, 0xe6d3b398, 0xf8c8365f, 0x89980104),
         Entry(Two, 13, 5, 2850285829), 0x00000000, 0xf54d8710);
    Next(x, es, at, 29, State(0x89980104, 0xf54d8710, 0xe6d3b398, 0xf8c8365f),
         Entry(Two, 2, 9, 4243563512), 0x6c6b6a69, 0x927b72e2);
    Next(x, es, at, 30, State(0xf8c8365f, 0x927b72e2, 0xf54d8710, 0xe6d3b398),
         Entry(Two, 7, 14, 1735328473), 0x00000000, 0x2e69afc7);
    Next(x, es, at, 31, State(0xe6d3b398, 0x2e69afc7, 0x927b72e2, 0xf54d8710),
         Entry(Two, 12, 20, 2368359562), 0x00000000, 0xaeb35766);
  }

  lemma Four32(x: seq<Word>, es: seq<Entry>, at: seq<State>)
    requires Running(x, es, at) && Calls32(es)
    requires Before(at, 32, State(0xf54d8710, 0xaeb35766, 0x2e69afc7, 0x927b72e2))
    ensures Before(at, 36, State(0xb4bf680e, 0x06a5e211, 0x2361ed0a, 0x4c8ffa80))
  {
    Next(x, es, at, 32, State(0xf54d8710, 0xaeb35766, 0x2e69afc7, 0x927b72e2),
         Entry(Three, 5, 4, 4294588738), 0x78777675, 0xb4bf680e);
    Next(x, es, at, 33, State(0x927b72e2, 0xb4bf680e, 0xaeb35766, 0x2e69afc7),
         Entry(Three, 8, 11, 2272392833), 0x00000000, 0x4c8ffa80);
    Next(x, es, at, 34, State(0x2e69afc7, 0x4c8ffa80, 0xb4bf680e, 0xaeb35766),
         Entry(Three, 11, 16, 1839030562), 0x00000000, 0x2361ed0a);
    Next(x, es, at, 35, State(0xaeb35766, 0x2361ed0a, 0x4c8ffa80, 0xb4bf680e),
         Entry(Three, 14, 23, 4259657740), 0x000000d0, 0x06a5e211);
  }

  lemma Four36(x: seq<Word>, es: seq<Entry>, at: seq<State>)
    requires Running(x, es, at) && Calls36(es)
    requires Before(at, 36, State(0xb4bf680e, 0x06a5e211, 0x2361ed0a, 0x4c8ffa80))
    ensures Before(at, 40, State(0xb9c0c733, 0x8d41bf99, 0x23a9451b, 0xf1e6dc7a))
  {
    Next(x, es, at, 36, State(0xb4bf680e, 0x06a5e211, 0x2361ed0a, 0x4c8ffa80),
         Entry(Three, 1, 4, 2763975236), 0x68676665, 0xb9c0c733);
    Next(x, es, at, 37, State(0x4c8ffa80, 0xb9c0c733, 0x06a5e211, 0x2361ed0a),
         Entry(Three, 4, 11, 1272893353), 0x74737271, 0xf1e6dc7a);
    Next(x, es, at, 38, State(0x2361ed0a, 0xf1e6dc7a, 0xb9c0c733, 0x06a5e211),
         Entry(Three, 7, 16, 4139469664), 0x00000000, 0x23a9451b);
    Next(x, es, at, 39, State(0x06a5e211, 0x23a9451b, 0xf1e6dc7a, 0xb9c0c733),
         Entry(Three, 10, 23, 3200236656), 0x00000000, 0x8d41bf99);
  }

  lemma Four40(x: seq<Word>, es: seq<Entry>, at: seq<State>)
    requires Running(x, es, at) && Calls40(es)
    requires Before(at, 40, State(0xb9c0c733, 0x8d41bf99, 0x23a9451b, 0xf1e6dc7a))
    ensures Before(at, 44, State(0xa3e88ead, 0x90a35af5, 0x66f6468d, 0x02c0b11c))
  {
    Next(x, es, at, 40, State(0xb9c0c733, 0x8d41bf99, 0x23a9451b, 0xf1e6dc7a),
         Entry(Three, 13, 4, 681279174), 0x00000000, 0xa3e88ead);
    Next(x, es, at, 41, State(0xf1e6dc7a, 0xa3e88ead, 0x8d41bf99, 0x23a9451b),
         Entry(Three, 0, 11, 3936430074), 0x64636261, 0x02c0b11c);
    Next(x, es, at, 42, State(0x23a9451b, 0x02c0b11c, 0xa3e88ead, 0x8d41bf99),
         Entry(Three, 3, 16, 3572445317), 0x706f6e6d, 0x66f6468d);
    Next(x, es, at, 43, State(0x8d41bf99, 0x66f6468d, 0x02c0b11c, 0xa3e88ead),
         Entry(Three, 6, 23, 76029189), 0x00807a79, 0x90a35af5);
  }

  lemma Four44(x: seq<Word>, es: seq<Entry>, at: seq<State>)
    requires Running(x, es, at) && Calls44(es)
    requires Before(at, 44, State(0xa3e88ead, 0x90a35af5, 0x66f6468d, 0x02c0b11c))
    ensures Before(at, 48, State(0xb5d41f9c, 0x71d10367, 0x703d54d8, 0xa04b4904))
  {
    Next(x, es, at, 44, State(0xa3e88ead, 0x90a35af5, 0x66f6468d, 0x02c0b11c),
         Entry(Three, 9, 4, 3654602809), 0x00000000, 0xb5d41f9c);
    Next(x, es, at, 45, State(0x02c0b11c, 0xb5d41f9c, 0x90a35af5, 0x66f6468d),
         Entry(Three, 12, 11, 3873151461), 0x00000000, 0xa04b4904);
    Next(x, es, at, 46, State(0x66f6468d, 0xa04b4904, 0xb5d41f9c, 0x90a35af5),
         Entry(Three, 15, 16, 530742520), 0x00000000, 0x703d54d8);
    Next(x, es, at, 47, State(0x90a35af5, 0x703d54d8, 0xa04b4904, 0xb5d41f9c),
         Entry(Three, 2, 23, 3299628645), 0x6c6b6a69, 0x71d10367);
  }

  lemma Four48(x: seq<Word>, es: seq<Entry>, at: seq<State>)
    requires Running(x, es, at) && Calls48(es)
    requires Before(at, 48, State(0xb5d41f9c, 0x71d10367, 0x703d54d8, 0xa04b4904))
    ensures Before(at, 52, State(0xfc32dd6e, 0x33edb197, 0xb35602cb, 0x65456b34))
  {
    Next(x, es, at, 48, State(0xb5d41f9c, 0x71d10367, 0x703d54d8, 0xa04b4904),
         Entry(Four, 0, 6, 4096336452), 0x64636261, 0xfc32dd6e);
    Next(x, es, at, 49, State(0xa04b4904, 0xfc32dd6e, 0x71d10367, 0x703d54d8),
         Entry(Four, 7, 10, 1126891415), 0x00000000, 0x65456b34);
    Next(x, es, at, 50, State(0x703d54d8, 0x65456b34, 0xfc32dd6e, 0x71d10367),
         Entry(Four, 14, 15, 2878612391), 0x000000d0, 0xb35602cb);
    Next(x, es, at, 51, State(0x71d10367, 0xb35602cb, 0x65456b34, 0xfc32dd6e),
         Entry(Four, 5, 21, 4237533241), 0x78777675, 0x33edb197);
  }

  lemma Four52(x: seq<Word>, es: seq<Entry>, at: seq<State>)
    requires Running(x, es, at) && Calls52(es)
    requires Before(at, 52, State(0xfc32dd6e, 0x33edb197, 0xb35602cb, 0x65456b34))
    ensures Before(at, 56, State(0xc1e942f1, 0x83877d1b, 0x23a68048, 0xd9bb987c))
  {
    Next(x, es, at, 52, State(0xfc32dd6e, 0x33edb197, 0xb35602cb, 0x65456b34),
         Entry(Four, 12, 6, 1700485571), 0x00000000, 0xc1e942f1);
    Next(x, es, at, 53, State(0x65456b34, 0xc1e942f1, 0x33edb197, 0xb35602cb),
         Entry(Four, 3, 10, 2399980690), 0x706f6e6d, 0xd9bb987c);
    Next(x, es, at, 54, State(0xb35602cb, 0xd9bb987c, 0xc1e942f1, 0x33edb197),
         Entry(Four, 10, 15, 4293915773), 0x00000000, 0x23a68048);
    Next(x, es, at, 55, State(0x33edb197, 0x23a68048, 0xd9bb987c, 0xc1e942f1),
         Entry(Four, 1, 21, 2240044497), 0x68676665, 0x83877d1b);
  }

  lemma Four56(x: seq<Word>, es: seq<Entry>, at: seq<State>)
    requires Running(x, es, at) && Calls56(es)
    requires Before(at, 56, State(0xc1e942f1, 0x83877d1b, 0x23a68048, 0xd9bb987c))
    ensures Before(at, 60, State(0x0077c208, 0x5e6bc930, 0xa3e2247f, 0x847fc2e7))
  {
    Next(x, es, at, 56, State(0xc1e942f1, 0x83877d1b, 0x23a68048, 0xd9bb987c),
         Entry(Four, 8, 6, 1873313359), 0x00000000, 0x0077c208);
    Next(x, es, at, 57, State(0xd9bb987c, 0x0077c208, 0x83877d1b, 0x23a68048),
         Entry(Four, 15, 10, 4264355552), 0x00000000, 0x847fc2e7);
    Next(x, es, at, 58, State(0x23a68048, 0x847fc2e7, 0x0077c208, 0x83877d1b),
         Entry(Four, 6, 15, 2734768916), 0x00807a79, 0xa3e2247f);
    Next(x, es, at, 59, State(0x83877d1b, 0xa3e2247f, 0x847fc2e7, 0x0077c208),
         Entry(Four, 13, 21, 1309151649), 0x00000000, 0x5e6bc930);
  }

  lemma Four60(x: seq<Word>, es: seq<Entry>, at: seq<State>)
    requires Running(x, es, at) && Calls60(es)
    requires Before(at, 60, State(0x0077c208, 0x5e6bc930, 0xa3e2247f, 0x847fc2e7))
    ensures Before(at, 64, State(0x708ed9c2, 0x1116e6d8, 0xd38f1e7f, 0x2baf1354))
  {
    Next(x, es, at, 60, State(0x0077c208, 0x5e6bc930, 0xa3e2247f, 0x847fc2e7),
         Entry(Four, 4, 6, 4149444226), 0x74737271, 0x708ed9c2);
    Next(x, es, at, 61, State(0x847fc2e7, 0x708ed9c2, 0x5e6bc930, 0xa3e2247f),
         Entry(Four, 11, 10, 3174756917), 0x00000000, 0x2baf1354);
    Next(x, es, at, 62, State(0xa3e2247f, 0x2baf1354, 0x708ed9c2, 0x5e6bc930),
         Entry(Four, 2, 15, 718787259), 0x6c6b6a69, 0xd38f1e7f);
    Next(x, es, at, 63, State(0x5e6bc930, 0xd38f1e7f, 0x2baf1354, 0x708ed9c2),
         Entry(Four, 9, 21, 3951481745), 0x00000000, 0x1116e6d8);
  }

  lemma Ran(x: seq<Word>, es: seq<Entry>, at: seq<State>)
    requires Running(x, es, at) && Table1(es) && Table2(es) && Table3(es) && Table4(es)
    ensures Before(at, 64, State(0x708ed9c2, 0x1116e6d8, 0xd38f1e7f, 0x2baf1354))
  {
    Four0(x, es, at);
    Four4(x, es, at);
    Four8(x, es, at);
    Four12(x, es, at);
    Four16(x, es, at);
    Four20(x, es, at);
    Four24(x, es, at);
    Four28(x, es, at);
    Four32(x, es, at);
    Four36(x, es, at);
    Four40(x, es, at);
    Four44(x, es, at);
    Four48(x, es, at);
    Four52(x, es, at);
    Four56(x, es, at);
    Four60(x, es, at);
  }

  lemma BlockDone(x: seq<Word>)
    requires IsBlock(x)
    ensures Block(Standard, INIT, x) == State(0xd7d3fcc3, 0x00e49261, 0x6c49fb7d, 0x3be167ca)
  {
    var es, at := StandardRun(Standard, INIT, x);
    Ran(x, es, at);
  }

  // ---------------------------------------------------------------- the block

  lemma Push(p: seq<Octet>, b0: Octet, b1: Octet, b2: Octet, b3: Octet, ws: seq<Word>, w: Word)
    requires |p| % 4 == 0 && Words(p) == ws && WordOf(b0, b1, b2, b3) == w
    ensures |p + [b0, b1, b2, b3]| % 4 == 0 && Words(p + [b0, b1, b2, b3]) == ws + [w]
  {
    var b := p + [b0, b1, b2, b3];
    assert b[..|b| - 4] == p;
  }

  /** Three words of letters behind some. */
  lemma Push3(p: seq<Octet>, a: seq<Octet>, b: seq<Octet>, c: seq<Octet>, ws: seq<Word>, u: Word, v: Word, w: Word)
    requires |p| % 4 == 0 && Words(p) == ws && |a| == |b| == |c| == 4
    requires WordOf(a[0], a[1], a[2], a[3]) == u && WordOf(b[0], b[1], b[2], b[3]) == v
    requires WordOf(c[0], c[1], c[2], c[3]) == w
    ensures |p + a + b + c| % 4 == 0 && Words(p + a + b + c) == ws + [u] + [v] + [w]
  {
    PushSeq(p, a, ws, u);
    PushSeq(p + a, b, ws + [u], v);
    PushSeq(p + a + b, c, ws + [u] + [v], w);
  }

  lemma PushSeq(p: seq<Octet>, a: seq<Octet>, ws: seq<Word>, u: Word)
    requires |p| % 4 == 0 && Words(p) == ws && |a| == 4 && WordOf(a[0], a[1], a[2], a[3]) == u
    ensures |p + a| % 4 == 0 && Words(p + a) == ws + [u]
  {
    Push(p, a[0], a[1], a[2], a[3], ws, u);
    assert a == [a[0], a[1], a[2], a[3]];
  }

  lemma TwelveWords()
    ensures Words(Twelve()) == [0x64636261, 0x68676665, 0x6c6b6a69]
  {
    Push3([], [0x61, 0x62, 0x63, 0x64], [0x65, 0x66, 0x67, 0x68], [0x69, 0x6a, 0x6b, 0x6c],
          [], 0x64636261, 0x68676665, 0x6c6b6a69);
    assert [] + [0x61, 0x62, 0x63, 0x64] == [0x61, 0x62, 0x63, 0x64];
    assert [] + [0x64636261] + [0x68676665] + [0x6c6b6a69] == [0x64636261, 0x68676665, 0x6c6b6a69];
  }

  lemma FirstWords()
    ensures Words(FirstLetters()) == [0x64636261, 0x68676665, 0x6c6b6a69, 0x706f6e6d, 0x74737271, 0x78777675]
  {
    TwelveWords();
    var ws := [0x64636261, 0x68676665, 0x6c6b6a69];
    Push3(Twelve(), [0x6d, 0x6e, 0x6f, 0x70], [0x71, 0x72, 0x73, 0x74], [0x75, 0x76, 0x77, 0x78],
          ws, 0x706f6e6d, 0x74737271, 0x78777675);
    assert ws + [0x706f6e6d] + [0x74737271] + [0x78777675] ==
      [0x64636261, 0x68676665, 0x6c6b6a69, 0x706f6e6d, 0x74737271, 0x78777675];
  }

  function Nulls(n: nat): (z: seq<Word>)
    ensures |z| == n && forall i :: 0 <= i < n ==> z[i] == 0
  {
    if n == 0 then [] else Nulls(n - 1) + [0]
  }

  /** Zeros in whole words. */
  lemma {:induction false} ZeroWords(p: seq<Octet>, ws: seq<Word>, n: nat)
    requires |p| % 4 == 0 && Words(p) == ws
    ensures |p + ZeroOctets(4 * n)| % 4 == 0 && Words(p + ZeroOctets(4 * n)) == ws + Nulls(n)
    decreases n
  {
    if n == 0 {
      assert p + ZeroOctets(0) == p && ws + Nulls(0) == ws;
    } else {
      var z := ZeroOctets(4 * n - 4);
      ZeroWords(p, ws, n - 1);
      FourZeros(n);
      ZeroWord(p + z, ws + Nulls(n - 1));
      Assoc(p, z, [0, 0, 0, 0]);
      Assoc(ws, Nulls(n - 1), [0]);
    }
  }

  lemma ZeroWord(p: seq<Octet>, ws: seq<Word>)
    requires |p| % 4 == 0 && Words(p) == ws
    ensures |p + [0, 0, 0, 0]| % 4 == 0 && Words(p + [0, 0, 0, 0]) == ws + [0]
  {
    Push(p, 0, 0, 0, 0, ws, 0);
  }

  lemma Assoc<X>(a: seq<X>, b: seq<X>, c: seq<X>)
    ensures a + b + c == a + (b + c)
  {
  }

  lemma FourZeros(n: nat)
    requires n > 0
    ensures ZeroOctets(4 * n) == ZeroOctets(4 * n - 4) + [0, 0, 0, 0]
  {
    assert ZeroOctets(4 * n - 1) == ZeroOctets(4 * n - 2) + [0];
    assert ZeroOctets(4 * n - 2) == ZeroOctets(4 * n - 3) + [0];
  }

  lemma {:induction false} ZerosBehind(n: nat)
    ensures ZeroOctets(n + 1) == [0] + ZeroOctets(n)
  {
    if n > 0 {
      ZerosBehind(n - 1);
    }
  }

  /** The letters and their padding, in whole words and zeros. */
  lemma Padded()
    ensures Letters() + Pad(26) == FirstLetters() + [0x79, 0x7a, 0x80, 0x00] + ZeroOctets(28)
  {
    ZerosBehind(28);
    PaddedAs(FirstLetters(), ZeroOctets(28));
  }

  lemma PaddedAs(p: seq<Octet>, z: seq<Octet>)
    ensures p + [0x79, 0x7a] + ([0x80] + ([0] + z)) == p + [0x79, 0x7a, 0x80, 0x00] + z
  {
  }

  lemma LengthOf26()
    ensures LengthWords(26) == [208, 0]
  {
    var low, high := 8 * 26 % 0x1_0000_0000, 8 * 26 / 0x1_0000_0000 % 0x1_0000_0000;
    assert low == 208 && high == 0;
    assert (208 as bv32) == 208 && (0 as bv32) == 0;
  }

  lemma BlockFrom(ws: seq<Word>, z: seq<Word>)
    requires ws == [0x64636261, 0x68676665, 0x6c6b6a69, 0x706f6e6d, 0x74737271, 0x78777675]
    requires |z| == 7 && forall i :: 0 <= i < 7 ==> z[i] == 0
    ensures IsBlock(ws + [0x00807a79] + z + [208, 0])
  {
  }

  /** The padded letters as words. */
  lemma PaddedWords(ws: seq<Word>)
    requires ws == [0x64636261, 0x68676665, 0x6c6b6a69, 0x706f6e6d, 0x74737271, 0x78777675]
    ensures var b := FirstLetters() + [0x79, 0x7a, 0x80, 0x00] + ZeroOctets(28);
      |b| % 4 == 0 && Words(b) == ws + [0x00807a79] + Nulls(7)
  {
    FirstWords();
    var p := FirstLetters();
    Push(p, 0x79, 0x7a, 0x80, 0x00, ws, 0x00807a79);
    ZeroWords(p + [0x79, 0x7a, 0x80, 0x00], ws + [0x00807a79], 7);
  }

  lemma MessageIs()
    ensures IsBlock(Message(Letters()))
  {
    var ws := [0x64636261, 0x68676665, 0x6c6b6a69, 0x706f6e6d, 0x74737271, 0x78777675];
    PaddedWords(ws);
    Padded();
    LengthOf26();
    BlockFrom(ws, Nulls(7));
    MessageOf(Letters(), FirstLetters() + [0x79, 0x7a, 0x80, 0x00] + ZeroOctets(28));
  }

  lemma MessageOf(data: seq<Octet>, padded: seq<Octet>)
    requires padded == data + Pad(|data|) && |padded| % 4 == 0
    ensures Message(data) == Words(padded) + LengthWords(|data|)
  {
  }

  /** The digest of the lower-case letters is the one the standard prints. */
  lemma LettersDigest()
    ensures Digest(Letters()) == [
      0xc3, 0xfc, 0xd3, 0xd7, 0x61, 0x92, 0xe4, 0x00,
      0x7d, 0xfb, 0x49, 0x6c, 0xca, 0x67, 0xe1, 0x3b]
  {
    MessageIs();
    var x := Message(Letters());
    BlockDone(x);
    assert x[..0] == [] && x[0..] == x;
    assert Fold(Standard, x) == Block(Standard, Fold(Standard, x[..0]), x[0..]);
    Printed();
  }

  lemma Printed()
    ensures Output(State(0xd7d3fcc3, 0x00e49261, 0x6c49fb7d, 0x3be167ca)) == [
      0xc3, 0xfc, 0xd3, 0xd7, 0x61, 0x92, 0xe4, 0x00,
      0x7d, 0xfb, 0x49, 0x6c, 0xca, 0x67, 0xe1, 0x3b]
  {
  }
}
