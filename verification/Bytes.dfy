/** Octets, options, big-endian integers and sizes of sets, shared by the other modules. */
module Bytes {

  type Byte = x: int | 0 <= x < 256

  datatype Option<+T> = None | Some(value: T) {
    predicate IsFailure() {
      None?
    }

    function PropagateFailure<U>(): (r: Option<U>)
      requires None?
    {
      None
    }

    function Extract(): (v: T)
      requires Some?
    {
      value
    }
  }

  function Min(x: int, y: int): (m: int)
    ensures m <= x && m <= y && (m == x || m == y)
  {
    if x < y then x else y
  }

  function Zeros(n: nat): (z: seq<Byte>)
    ensures |z| == n
  {
    seq(n, _ => 0)
  }

  /** 256 to the power of the width: the number of values of a field of that many octets. */
  function Range(width: nat): (r: nat)
    ensures 0 < r
  {
    if width == 0 then 1 else 256 * Range(width - 1)
  }

  /** Big-endian form of the low `width` octets of n. */
  function ToBE(n: nat, width: nat): (b: seq<Byte>)
    ensures |b| == width
  {
    if width == 0 then [] else ToBE(n / 256, width - 1) + [n % 256]
  }

  function FromBE(b: seq<Byte>): (n: nat) {
    if b == [] then 0 else 256 * FromBE(b[..|b| - 1]) + b[|b| - 1]
  }

  lemma {:induction false} FromBEBelow(b: seq<Byte>)
    ensures FromBE(b) < Range(|b|)
  {
    if b != [] {
      FromBEBelow(b[..|b| - 1]);
    }
  }

  /** Reading back a big-endian field gives the value modulo the field's range. */
  lemma {:induction false} FromToBE(n: nat, width: nat)
    ensures FromBE(ToBE(n, width)) == n % Range(width)
  {
    if width > 0 {
      var b := ToBE(n, width);
      assert b[..|b| - 1] == ToBE(n / 256, width - 1);
      FromToBE(n / 256, width - 1);
      var r := Range(width - 1);
      DivModStep(n, r);
    }
  }

  /** Every octet string is the big-endian form of the number read from it. */
  lemma {:induction false} ToFromBE(b: seq<Byte>)
    ensures ToBE(FromBE(b), |b|) == b
  {
    if b != [] {
      var init, last := b[..|b| - 1], b[|b| - 1];
      ToFromBE(init);
      assert FromBE(b) / 256 == FromBE(init) && FromBE(b) % 256 == last;
      assert b == init + [last];
    }
  }

  /** The octets of a big-endian field are the digits to base 256, the most significant first. */
  lemma {:induction false} BigEndian(n: nat, width: nat, i: nat)
    requires i < width
    ensures ToBE(n, width)[i] == n / Range(width - 1 - i) % 256
    decreases width
  {
    if i < width - 1 {
      BigEndian(n / 256, width - 1, i);
      DivTwice(n, Range(width - 2 - i));
    }
  }

  lemma DivTwice(n: nat, r: nat)
    requires r > 0
    ensures n / 256 / r == n / (256 * r)
  {
    var q, d := n / 256 / r, n / 256 % r;
    assert n / 256 == q * r + d;
    assert n == q * (256 * r) + (256 * d + n % 256);
    assert 256 * d + n % 256 < 256 * r;
    var k := n / (256 * r) - q;
    ModOf(n, q, 256 * r, 256 * d + n % 256);
    assert k * (256 * r) == 0;
    MulAway(k, 256 * r);
  }

  lemma DivModStep(n: nat, r: nat)
    requires r > 0
    ensures 256 * ((n / 256) % r) + n % 256 == n % (256 * r)
  {
    var q, d := n / 256 / r, (n / 256) % r;
    assert n / 256 == q * r + d;
    assert n == 256 * (n / 256) + n % 256;
    assert n == q * (256 * r) + (256 * d + n % 256);
    assert 256 * d + n % 256 < 256 * r;
    ModOf(n, q, 256 * r, 256 * d + n % 256);
  }

  lemma MulAway(k: int, m: int)
    requires m > 0
    ensures k == 0 || k * m >= m || k * m <= -m
  {
  }

  lemma ModOf(n: nat, q: nat, m: nat, d: nat)
    requires d < m && n == q * m + d
    ensures n % m == d
  {
    var k := n / m - q;
    assert k * m == d - n % m;
    MulAway(k, m);
  }

  lemma RangeValues()
    ensures Range(1) == 0x100
    ensures Range(2) == 0x1_0000
    ensures Range(4) == 0x1_0000_0000
    ensures Range(8) == 0x1_0000_0000_0000_0000
  {
    assert Range(2) == 256 * Range(1);
    assert Range(3) == 256 * Range(2);
    assert Range(4) == 256 * Range(3);
    assert Range(5) == 256 * Range(4);
    assert Range(6) == 256 * Range(5);
    assert Range(7) == 256 * Range(6);
  }

  lemma {:induction false} SubsetSize<K>(a: set<K>, b: set<K>)
    requires a <= b
    ensures |a| <= |b|
  {
    if a != {} {
      var x :| x in a;
      SubsetSize(a - {x}, b - {x});
    }
  }
}
