/**
 * DHT keys under the XOR metric, and the bucket's searches for the nodes nearest to a target.
 */
module DhtBucket {
  import opened Bytes

  const KEY_SIZE: nat := 32

  function Fill(n: nat, x: bv8): (s: seq<bv8>)
    ensures |s| == n && forall i :: 0 <= i < n ==> s[i] == x
  {
    if n == 0 then [] else [x] + Fill(n - 1, x)
  }

  type Key = k: seq<bv8> | |k| == KEY_SIZE witness Fill(KEY_SIZE, 0)

  const FAR: Key := Fill(KEY_SIZE, 0xff)

  function XorOctet(a: bv8, b: bv8): (d: bv8) {
    a ^ b
  }

  function XorOctets(a: seq<bv8>, b: seq<bv8>): (d: seq<bv8>)
    requires |a| == |b|
    ensures |d| == |a|
  {
    if a == [] then [] else [XorOctet(a[0], b[0])] + XorOctets(a[1..], b[1..])
  }

  function Xor(a: Key, b: Key): (d: Key) {
    XorOctets(a, b)
  }

  /** The lexicographic order of octet arrays. */
  predicate Less(a: seq<bv8>, b: seq<bv8>)
    requires |a| == |b|
  {
    a != [] && (a[0] < b[0] || (a[0] == b[0] && Less(a[1..], b[1..])))
  }

  /** Is a closer to the target than b? */
  predicate Closer(target: Key, a: Key, b: Key) {
    Less(Xor(a, target), Xor(b, target))
  }

  // ---------------------------------------------------------------- the order

  lemma {:induction false} LessIrreflexive(a: seq<bv8>)
    ensures !Less(a, a)
  {
    if a != [] {
      LessIrreflexive(a[1..]);
    }
  }

  lemma {:induction false} LessTransitive(a: seq<bv8>, b: seq<bv8>, c: seq<bv8>)
    requires |a| == |b| == |c| && Less(a, b) && Less(b, c)
    ensures Less(a, c)
  {
    if a[0] == b[0] == c[0] {
      LessTransitive(a[1..], b[1..], c[1..]);
    }
  }

  lemma {:induction false} LessTotal(a: seq<bv8>, b: seq<bv8>)
    requires |a| == |b|
    ensures Less(a, b) || a == b || Less(b, a)
  {
    if a != [] {
      LessTotal(a[1..], b[1..]);
      if a[0] == b[0] && a[1..] == b[1..] {
        assert a == [a[0]] + a[1..] && b == [b[0]] + b[1..];
      }
    }
  }

  lemma XorInjective(a: Key, b: Key, target: Key)
    requires Xor(a, target) == Xor(b, target)
    ensures a == b
  {
    forall i | 0 <= i < KEY_SIZE
      ensures a[i] == b[i]
    {
      XorSame(a, b, target, i);
    }
  }

  lemma XorSame(a: seq<bv8>, b: seq<bv8>, t: seq<bv8>, i: nat)
    requires |a| == |b| == |t| && i < |a| && XorOctets(a, t) == XorOctets(b, t)
    ensures a[i] == b[i]
  {
    XorAt(a, t, i);
    XorAt(b, t, i);
    XorCancel(a[i], b[i], t[i]);
  }

  lemma {:induction false} XorAt(a: seq<bv8>, t: seq<bv8>, i: nat)
    requires |a| == |t| && i < |a|
    ensures XorOctets(a, t)[i] == XorOctet(a[i], t[i])
  {
    if i > 0 {
      XorAt(a[1..], t[1..], i - 1);
    }
  }

  lemma XorCancel(x: bv8, y: bv8, t: bv8)
    requires XorOctet(x, t) == XorOctet(y, t)
    ensures x == y
  {
    assert (x ^ t) ^ t == x;
    assert (y ^ t) ^ t == y;
  }

  // ---------------------------------------------------------------- the metric, bit by bit

  /** The value of bit j of an octet, the most significant first. */
  function Mask(j: nat): (m: bv8)
    requires j < 8
  {
    if j == 0 then 0x80 else if j == 1 then 0x40 else if j == 2 then 0x20 else if j == 3 then 0x10
    else if j == 4 then 0x08 else if j == 5 then 0x04 else if j == 6 then 0x02 else 0x01
  }

  predicate Bit(x: bv8, j: nat)
    requires j < 8
  {
    Has(x, Mask(j))
  }

  predicate Has(x: bv8, m: bv8) {
    x & m != 0
  }

  /** A bit of the distance is set exactly where the keys differ. */
  lemma XorBits(a: Key, b: Key, i: nat, j: nat)
    requires i < KEY_SIZE && j < 8
    ensures Bit(Xor(a, b)[i], j) <==> Bit(a[i], j) != Bit(b[i], j)
  {
    XorAt(a, b, i);
    XorBit(a[i], b[i], j);
  }

  lemma XorBit(x: bv8, y: bv8, j: nat)
    requires j < 8
    ensures Bit(XorOctet(x, y), j) <==> Bit(x, j) != Bit(y, j)
  {
    OneBit(j);
    XorMask(x, y, XorOctet(x, y), Mask(j), High(j));
  }

  lemma XorMask(x: bv8, y: bv8, d: bv8, m: bv8, high: bv8)
    requires IsMask(m, high) && d == XorOctet(x, y)
    ensures Has(d, m) <==> Has(x, m) != Has(y, m)
  {
  }

  lemma XorSymmetric(a: Key, b: Key)
    ensures Xor(a, b) == Xor(b, a)
  {
    forall i | 0 <= i < KEY_SIZE
      ensures Xor(a, b)[i] == Xor(b, a)[i]
    {
      XorAt(a, b, i);
      XorAt(b, a, i);
      XorOctetLaws(a[i], b[i]);
    }
  }

  /** Applying the distance to one key gives the other. */
  lemma XorUndone(a: Key, b: Key)
    ensures Xor(Xor(a, b), b) == a
  {
    forall i | 0 <= i < KEY_SIZE
      ensures Xor(Xor(a, b), b)[i] == a[i]
    {
      XorAt(a, b, i);
      XorAt(Xor(a, b), b, i);
      XorOctetLaws(a[i], b[i]);
    }
  }

  lemma XorOctetLaws(x: bv8, y: bv8)
    ensures XorOctet(x, y) == XorOctet(y, x) && XorOctet(XorOctet(x, y), y) == x
  {
  }

  /** The order is decided by the first octet that differs. */
  lemma {:induction false} LessExact(a: seq<bv8>, b: seq<bv8>)
    requires |a| == |b|
    ensures Less(a, b) <==> exists i: nat :: i < |a| && DiffersAt(a, b, i)
  {
    if a != [] {
      LessExact(a[1..], b[1..]);
      if Less(a, b) && a[0] == b[0] {
        var i: nat :| i < |a| - 1 && DiffersAt(a[1..], b[1..], i);
        DiffersBehind(a, b, i);
      } else if Less(a, b) {
        assert DiffersAt(a, b, 0);
      }
      forall i: nat | i < |a| && DiffersAt(a, b, i)
        ensures Less(a, b)
      {
        if i > 0 {
          assert a[0] == a[..i][0] == b[..i][0];
          DiffersBehind(a, b, i - 1);
        }
      }
    }
  }

  /** The first octets to differ are those at i, and a's is smaller. */
  predicate DiffersAt(a: seq<bv8>, b: seq<bv8>, i: nat)
    requires i < |a| == |b|
  {
    a[..i] == b[..i] && a[i] < b[i]
  }

  lemma DiffersBehind(a: seq<bv8>, b: seq<bv8>, i: nat)
    requires i + 1 < |a| == |b| && a[0] == b[0]
    ensures DiffersAt(a[1..], b[1..], i) <==> DiffersAt(a, b, i + 1)
  {
    assert a[..i + 1] == [a[0]] + a[1..][..i] && b[..i + 1] == [b[0]] + b[1..][..i];
    assert a[1..][..i] == a[..i + 1][1..] && b[1..][..i] == b[..i + 1][1..];
  }

  /** Bit p of a key, counted from the most significant. */
  predicate BitAt(k: Key, p: nat)
    requires p < 256
  {
    Bit(k[p / 8], p % 8)
  }

  /** At bit p, the first in which they differ, a agrees with the target and b does not. */
  ghost predicate DecidedAt(target: Key, a: Key, b: Key, p: nat)
    requires p < 256
  {
    && (forall q: nat :: q < p ==> BitAt(a, q) == BitAt(b, q))
    && BitAt(a, p) == BitAt(target, p) && BitAt(b, p) != BitAt(target, p)
  }

  /** The same within an octet. */
  ghost predicate OctetDecided(t: bv8, x: bv8, y: bv8, j: nat)
    requires j < 8
  {
    && (forall h: nat :: h < j ==> Bit(x, h) == Bit(y, h))
    && Bit(x, j) == Bit(t, j) && Bit(y, j) != Bit(t, j)
  }

  /** Which bit decides between two octets. */
  lemma OctetDecides(t: bv8, x: bv8, y: bv8) returns (j: nat)
    requires XorOctet(x, t) < XorOctet(y, t)
    ensures j < 8 && OctetDecided(t, x, y, j)
  {
    j := 0;
    while Bit(x, j) == Bit(y, j)
      invariant j < 8 && forall h: nat :: h < j ==> Bit(x, h) == Bit(y, h)
      decreases 8 - j
    {
      if j == 7 {
        SameBits(x, y);
      }
      j := j + 1;
    }
    LessDecides(t, x, y, j);
  }

  lemma SameBits(x: bv8, y: bv8)
    requires forall h: nat :: h < 8 ==> Bit(x, h) == Bit(y, h)
    ensures x == y
  {
    assert Bit(x, 0) == Bit(y, 0) && Bit(x, 1) == Bit(y, 1) && Bit(x, 2) == Bit(y, 2) && Bit(x, 3) == Bit(y, 3);
    assert Bit(x, 4) == Bit(y, 4) && Bit(x, 5) == Bit(y, 5) && Bit(x, 6) == Bit(y, 6) && Bit(x, 7) == Bit(y, 7);
  }

  /** The bits above a position. */
  function High(j: nat): (m: bv8)
    requires j < 8
  {
    if j == 0 then 0 else if j == 1 then 0x80 else if j == 2 then 0xc0 else if j == 3 then 0xe0
    else if j == 4 then 0xf0 else if j == 5 then 0xf8 else if j == 6 then 0xfc else 0xfe
  }

  lemma {:induction false} HighSame(x: bv8, y: bv8, j: nat)
    requires j < 8 && forall h: nat :: h < j ==> Bit(x, h) == Bit(y, h)
    ensures Common(x, y, High(j))
  {
    if j > 0 {
      HighSame(x, y, j - 1);
      HighMore(x, y, j);
    }
  }

  lemma HighMore(x: bv8, y: bv8, j: nat)
    requires 0 < j < 8 && Common(x, y, High(j - 1)) && Bit(x, j - 1) == Bit(y, j - 1)
    ensures Common(x, y, High(j))
  {
  }

  /** Where the octets above bit j agree and bit j differs, that bit decides the order of the distances. */
  lemma LessDecides(t: bv8, x: bv8, y: bv8, j: nat)
    requires j < 8 && (forall h: nat :: h < j ==> Bit(x, h) == Bit(y, h)) && Bit(x, j) != Bit(y, j)
    ensures XorOctet(x, t) < XorOctet(y, t) <==> Bit(x, j) == Bit(t, j)
  {
    HighSame(x, y, j);
    OneBit(j);
    var m := Mask(j);
    MaskDecides(t, x, y, m, High(j), XorOctet(x, t), XorOctet(y, t), Has(x, m), Has(y, m), Has(t, m));
  }

  predicate Common(x: bv8, y: bv8, high: bv8) {
    x & high == y & high
  }

  predicate IsMask(m: bv8, high: bv8) {
    m != 0 && m & (m - 1) == 0 && high == !(m | (m - 1))
  }

  lemma OneBit(j: nat)
    requires j < 8
    ensures IsMask(Mask(j), High(j))
  {
  }

  lemma MaskDecides(t: bv8, x: bv8, y: bv8, m: bv8, high: bv8, dx: bv8, dy: bv8, bx: bool, by': bool, bt: bool)
    requires IsMask(m, high) && Common(x, y, high) && dx == XorOctet(x, t) && dy == XorOctet(y, t)
    requires bx == Has(x, m) && by' == Has(y, m) && bt == Has(t, m) && bx != by'
    ensures dx < dy <==> bx == bt
  {
  }

  /**
   * The metric without its formula: a key is closer to the target than another exactly when
   * it agrees with the target in the first bit in which the two keys differ.
   */
  lemma CloserExact(target: Key, a: Key, b: Key)
    ensures Closer(target, a, b) <==> exists p: nat :: p < 256 && DecidedAt(target, a, b, p)
  {
    if Closer(target, a, b) {
      var p := CloserDecided(target, a, b);
    }
    forall p: nat | p < 256 && DecidedAt(target, a, b, p)
      ensures Closer(target, a, b)
    {
      DecidedCloser(target, a, b, p);
    }
  }

  lemma CloserDecided(target: Key, a: Key, b: Key) returns (p: nat)
    requires Closer(target, a, b)
    ensures p < 256 && DecidedAt(target, a, b, p)
  {
    var da, db := Xor(a, target), Xor(b, target);
    LessExact(da, db);
    var i: nat :| i < KEY_SIZE && DiffersAt(da, db, i);
    forall h | 0 <= h < i
      ensures a[h] == b[h]
    {
      assert da[h] == da[..i][h] == db[..i][h] == db[h];
      XorAt(a, target, h);
      XorAt(b, target, h);
      XorCancel(a[h], b[h], target[h]);
    }
    XorAt(a, target, i);
    XorAt(b, target, i);
    var j := OctetDecides(target[i], a[i], b[i]);
    p := 8 * i + j;
    forall q: nat | q < p
      ensures BitAt(a, q) == BitAt(b, q)
    {
      if q / 8 == i {
        assert q % 8 < j;
      }
    }
    assert p / 8 == i && p % 8 == j;
  }

  lemma DecidedCloser(target: Key, a: Key, b: Key, p: nat)
    requires p < 256 && DecidedAt(target, a, b, p)
    ensures Closer(target, a, b)
  {
    var i, j := p / 8, p % 8;
    var da, db := Xor(a, target), Xor(b, target);
    forall h | 0 <= h < i
      ensures da[h] == db[h]
    {
      forall k: nat | k < 8
        ensures Bit(a[h], k) == Bit(b[h], k)
      {
        BitIndex(h, k);
        assert BitAt(a, 8 * h + k) == BitAt(b, 8 * h + k);
      }
      SameBits(a[h], b[h]);
      XorAt(a, target, h);
      XorAt(b, target, h);
    }
    forall k: nat | k < j
      ensures Bit(a[i], k) == Bit(b[i], k)
    {
      BitIndex(i, k);
      assert BitAt(a, 8 * i + k) == BitAt(b, 8 * i + k);
    }
    LessDecides(target[i], a[i], b[i], j);
    XorAt(a, target, i);
    XorAt(b, target, i);
    assert DiffersAt(da, db, i);
    LessExact(da, db);
  }

  lemma BitIndex(i: nat, j: nat)
    requires j < 8
    ensures (8 * i + j) / 8 == i && (8 * i + j) % 8 == j
  {
  }

  /** The node a search finds agrees with the target where it first differs from any other candidate. */
  lemma NearestByBits(target: Key, among: set<Key>, k: Key)
    ensures IsNearest(target, among, k) <==>
      k in among && forall x :: x in among && x != k ==> exists p: nat :: p < 256 && DecidedAt(target, k, x, p)
  {
    forall x | x in among
      ensures Closer(target, k, x) <==> exists p: nat :: p < 256 && DecidedAt(target, k, x, p)
    {
      CloserExact(target, k, x);
    }
  }

  /** No ties: of two different keys one is closer. */
  lemma CloserTotal(target: Key, a: Key, b: Key)
    requires a != b
    ensures Closer(target, a, b) || Closer(target, b, a)
  {
    LessTotal(Xor(a, target), Xor(b, target));
    if Xor(a, target) == Xor(b, target) {
      XorInjective(a, b, target);
    }
  }

  lemma CloserTransitive(target: Key, a: Key, b: Key, c: Key)
    requires Closer(target, a, b) && Closer(target, b, c)
    ensures Closer(target, a, c)
  {
    LessTransitive(Xor(a, target), Xor(b, target), Xor(c, target));
  }

  lemma CloserIrreflexive(target: Key, a: Key)
    ensures !Closer(target, a, a)
  {
    LessIrreflexive(Xor(a, target));
  }

  /** Every distance but the largest is below it. */
  lemma {:induction false} BelowMax(a: seq<bv8>, max: seq<bv8>)
    requires |a| == |max| && forall i :: 0 <= i < |max| ==> max[i] == 0xff
    ensures Less(a, max) <==> a != max
  {
    if a != [] {
      BelowMax(a[1..], max[1..]);
      assert a == [a[0]] + a[1..] && max == [max[0]] + max[1..];
    }
  }

  lemma CloserNotFar(target: Key, a: Key, b: Key)
    requires Closer(target, a, b)
    ensures Xor(a, target) != FAR
  {
    BelowMax(Xor(b, target), FAR);
    LessIrreflexive(Xor(a, target));
    if Less(Xor(b, target), FAR) && Xor(a, target) == FAR {
      LessTransitive(Xor(a, target), Xor(b, target), FAR);
    }
  }

  // ---------------------------------------------------------------- nearest node

  /** Nodes a search can find: not excluded, and not at the largest distance of all. */
  ghost function Candidates(nodes: set<Key>, target: Key, exclude: set<Key>): (c: set<Key>) {
    set k | k in nodes && k !in exclude && Xor(k, target) != FAR
  }

  ghost predicate IsNearest(target: Key, among: set<Key>, k: Key) {
    k in among && forall x :: x in among && x != k ==> Closer(target, k, x)
  }

  lemma NearestUnique(target: Key, among: set<Key>, a: Key, b: Key)
    requires IsNearest(target, among, a) && IsNearest(target, among, b)
    ensures a == b
  {
    if a != b {
      CloserTransitive(target, a, b, a);
      CloserIrreflexive(target, a);
    }
  }

  lemma {:induction false} NearestExists(target: Key, among: set<Key>) returns (k: Key)
    requires among != {}
    ensures IsNearest(target, among, k)
  {
    var first :| first in among;
    var rest := among - {first};
    if rest == {} {
      k := first;
      assert forall x :: x in among ==> x == first || x in rest;
    } else {
      var b := NearestExists(target, rest);
      CloserTotal(target, first, b);
      k := if Closer(target, b, first) then b else first;
      forall x | x in among && x != k
        ensures Closer(target, k, x)
      {
        if k == first && x != b {
          CloserTransitive(target, first, b, x);
        }
      }
    }
  }

  /** The node a search finds, if any. */
  ghost function Nearest(nodes: set<Key>, target: Key, exclude: set<Key>): (k: Option<Key>)
    ensures k.None? <==> Candidates(nodes, target, exclude) == {}
    ensures k.Some? ==> IsNearest(target, Candidates(nodes, target, exclude), k.value)
  {
    var c := Candidates(nodes, target, exclude);
    if c == {} then None
    else
      assert exists k :: IsNearest(target, c, k) by {
        var k := NearestExists(target, c);
      }
      var k :| IsNearest(target, c, k);
      Some(k)
  }

  /**
   * FindCloseExcluding: the search for the smallest distance, starting from the largest
   * possible one, which no node ever undercuts by being at it.
   */
  method FindCloseExcluding(nodes: set<Key>, target: Key, exclude: set<Key>) returns (found: bool, result: Key)
    ensures found <==> Candidates(nodes, target, exclude) != {}
    ensures found ==> IsNearest(target, Candidates(nodes, target, exclude), result)
  {
    var minDist := FAR;
    result := FAR;
    var todo := nodes;
    ghost var seen: set<Key> := {};
    while todo != {}
      invariant todo <= nodes && seen == nodes - todo
      invariant minDist == FAR <==> Candidates(seen, target, exclude) == {}
      invariant minDist != FAR ==>
        minDist == Xor(result, target) && IsNearest(target, Candidates(seen, target, exclude), result)
      decreases |todo|
    {
      var k :| k in todo;
      todo := todo - {k};
      BelowMax(Xor(k, target), FAR);
      if k !in exclude && Less(Xor(k, target), minDist) {
        NearestMore(target, seen, exclude, k, result, minDist != FAR, true);
        minDist := Xor(k, target);
        result := k;
      } else {
        NearestMore(target, seen, exclude, k, result, minDist != FAR, false);
      }
      seen := seen + {k};
    }
    assert seen == nodes;
    BelowMax(minDist, FAR);
    found := Less(minDist, FAR);
  }

  /** One step of the search: the new key replaces the best so far exactly when it is closer. */
  lemma NearestMore(target: Key, seen: set<Key>, exclude: set<Key>, k: Key, best: Key, some: bool, better: bool)
    requires k !in seen
    requires some <==> Candidates(seen, target, exclude) != {}
    requires some ==> IsNearest(target, Candidates(seen, target, exclude), best)
    requires better <==> k !in exclude && (if some then Closer(target, k, best) else Xor(k, target) != FAR)
    ensures better ==> IsNearest(target, Candidates(seen + {k}, target, exclude), k)
    ensures !better && some ==> IsNearest(target, Candidates(seen + {k}, target, exclude), best)
    ensures !better && !some ==> Candidates(seen + {k}, target, exclude) == {}
    ensures better ==> Xor(k, target) != FAR && Candidates(seen + {k}, target, exclude) != {}
  {
    var old', new' := Candidates(seen, target, exclude), Candidates(seen + {k}, target, exclude);
    assert forall x :: x in new' <==> x in old' || (x == k && k !in exclude && Xor(k, target) != FAR);
    if better {
      if some {
        CloserNotFar(target, k, best);
      }
      forall x | x in new' && x != k
        ensures Closer(target, k, x)
      {
        if x != best {
          CloserTransitive(target, k, best, x);
        }
      }
      assert k in new';
    } else if some && k in new' {
      CloserTotal(target, k, best);
    }
  }

  // ---------------------------------------------------------------- the N nearest

  /** The n nearest of a set: n of them, each closer than any that is left out. */
  ghost predicate IsNearestN(target: Key, among: set<Key>, n: nat, near: set<Key>) {
    && near <= among && |near| == n
    && forall a, b :: a in near && b in among - near ==> Closer(target, a, b)
  }

  /** There is only one such set. */
  lemma NearestNUnique(target: Key, among: set<Key>, n: nat, a: set<Key>, b: set<Key>)
    requires IsNearestN(target, among, n, a) && IsNearestN(target, among, n, b)
    ensures a == b
  {
    if a != b {
      var x, y := Differ(a, b);
      CloserTransitive(target, x, y, x);
      CloserIrreflexive(target, x);
    }
  }

  lemma Differ(a: set<Key>, b: set<Key>) returns (x: Key, y: Key)
    requires |a| == |b| && a != b
    ensures x in a && x !in b && y in b && y !in a
  {
    if a <= b {
      SubsetSameSize(a, b);
    }
    if b <= a {
      SubsetSameSize(b, a);
    }
    x :| x in a && x !in b;
    y :| y in b && y !in a;
  }

  lemma SubsetSameSize(a: set<Key>, b: set<Key>)
    requires a <= b && |a| == |b|
    ensures a == b
  {
    assert b == a + (b - a);
  }

  lemma NearestNMore(target: Key, among: set<Key>, n: nat, near: set<Key>, k: Key)
    requires IsNearestN(target, among, n, near) && IsNearest(target, among - near, k)
    ensures IsNearestN(target, among, n + 1, near + {k})
  {
  }

  /** The search of one round, which excludes what was found before. */
  method FindNext(nodes: set<Key>, target: Key, ghost exclude: set<Key>, s: set<Key>,
                  ghost c: set<Key>, ghost near: set<Key>, ghost k: nat) returns (found: bool, peer: Key)
    requires c == Candidates(nodes, target, exclude) && s == exclude + near && IsNearestN(target, c, k, near)
    ensures found ==> IsNearestN(target, c, k + 1, near + {peer})
    ensures !found ==> near == c
  {
    found, peer := FindCloseExcluding(nodes, target, s);
    CandidatesWithout(nodes, target, exclude, near);
    if found {
      NearestNMore(target, c, k, near, peer);
    }
  }

  lemma UnionOne(a: set<Key>, b: set<Key>, k: Key)
    ensures a + b + {k} == a + (b + {k})
  {
  }

  lemma CandidatesWithout(nodes: set<Key>, target: Key, exclude: set<Key>, near: set<Key>)
    ensures Candidates(nodes, target, exclude + near) == Candidates(nodes, target, exclude) - near
  {
  }

  /**
   * GetManyNearExcluding adds the N nearest candidates to the result and says yes, or adds
   * all candidates and says no, exactly when there are fewer than N.
   */
  method GetManyNearExcluding(nodes: set<Key>, target: Key, given: set<Key>, N: nat, exclude: set<Key>)
    returns (ok: bool, result: set<Key>)
    ensures var c := Candidates(nodes, target, exclude);
      && (ok <==> |c| >= N)
      && (if ok then exists near :: IsNearestN(target, c, N, near) && result == given + near else result == given + c)
  {
    var s := exclude;
    result := given;
    ghost var c, near := Candidates(nodes, target, exclude), {};
    var n := N;
    while n > 0
      invariant 0 <= n <= N && IsNearestN(target, c, N - n, near)
      invariant s == exclude + near && result == given + near
      decreases n
    {
      n := n - 1;
      var found, peer := FindNext(nodes, target, exclude, s, c, near, N - n - 1);
      if !found {
        return false, result;
      }
      UnionOne(exclude, near, peer);
      UnionOne(given, near, peer);
      near := near + {peer};
      s := s + {peer};
      result := result + {peer};
    }
    SubsetSize(near, c);
    return true, result;
  }
}
