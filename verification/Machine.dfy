/** Machine-level values shared by the models: bytes, the C `long`, and the
    little-endian object representation used by `memcpy`.
 */
module Machine {

  type Byte = b: int | 0 <= b < 256

  const LONG_MIN: int := -0x8000_0000_0000_0000
  const LONG_MAX: int := 0x7FFF_FFFF_FFFF_FFFF

  /** A C `long` on a 64-bit platform. */
  type Long = v: int | LONG_MIN <= v <= LONG_MAX

  /** The number of values of a `long`. */
  const WORD: int := 0x1_0000_0000_0000_0000

  /** Two's-complement reduction of an arithmetic result to a `long`: the one value in
      range that differs by a multiple of the word. */
  function WrapLong(v: int): (r: Long)
    ensures LONG_MIN <= v <= LONG_MAX ==> r == v
    ensures (v - r) % WORD == 0
  {
    var m := v % WORD;
    if m > LONG_MAX then m - WORD else m
  }

  lemma WrapIsUnique(v: int, r: Long)
    requires (v - r) % WORD == 0
    ensures r == WrapLong(v)
  {
    var w := WrapLong(v);
    var i, j := (v - r) / WORD, (v - w) / WORD;
    assert w - r == WORD * (i - j);
  }

  /** C division truncates toward zero; Dafny's is Euclidean. */
  function TruncDiv(a: int, b: int): int
    requires b != 0
  {
    if a >= 0 then a / b else -((-a) / b)
  }

  function Abs(x: int): nat
  {
    if x < 0 then -x else x
  }

  /** `q` is the quotient of section 6.5.5 of ISO C99: what is left is smaller than the
      divisor and has the sign of the dividend. */
  predicate Quotient(a: int, b: int, q: int)
  {
    var r := a - b * q;
    Abs(r) < Abs(b) && (a >= 0 ==> r >= 0) && (a <= 0 ==> r <= 0)
  }

  lemma TruncDivIs(a: int, b: int)
    requires b != 0
    ensures Quotient(a, b, TruncDiv(a, b))
  {
    var c: nat := Abs(a);
    assert c == b * (c / b) + c % b;
    if a < 0 {
      assert TruncDiv(a, b) == -(c / b);
      assert b * -(c / b) == -(b * (c / b));
    }
  }

  lemma MultipleIsBig(b: int, d: int)
    requires d != 0
    ensures Abs(b * d) >= Abs(b)
  {
    if b >= 0 && d >= 1 {
      assert b * d >= b;
    } else if b >= 0 {
      assert b * d <= -b;
    } else if d >= 1 {
      assert b * d <= b;
    } else {
      assert b * d >= -b;
    }
  }

  /** And there is no other such quotient. */
  lemma QuotientIsUnique(a: int, b: int, p: int, q: int)
    requires Quotient(a, b, p) && Quotient(a, b, q)
    ensures p == q
  {
    assert (a - b * p) - (a - b * q) == b * (q - p);
    if p != q {
      MultipleIsBig(b, q - p);
      assert false;
    }
  }

  function Pow256(n: nat): (p: nat)
    ensures p > 0
  {
    if n == 0 then 1 else 256 * Pow256(n - 1)
  }

  /** The low `n` bytes of `v`, least significant first. */
  function LittleEndian(v: nat, n: nat): (s: seq<Byte>)
    ensures |s| == n
  {
    if n == 0 then [] else [v % 256] + LittleEndian(v / 256, n - 1)
  }

  function FromLittleEndian(s: seq<Byte>): nat
  {
    if s == [] then 0 else s[0] + 256 * FromLittleEndian(s[1..])
  }

  lemma {:induction false} LittleEndianRoundTrip(v: nat, n: nat)
    requires v < Pow256(n)
    ensures FromLittleEndian(LittleEndian(v, n)) == v
  {
    if n > 0 {
      var s := LittleEndian(v, n);
      assert s[1..] == LittleEndian(v / 256, n - 1);
      LittleEndianRoundTrip(v / 256, n - 1);
    }
  }

  /** Unsigned image of a `long`: what the eight bytes of the object hold. */
  function LongBits(v: Long): (u: nat)
    ensures u <= 0xFFFF_FFFF_FFFF_FFFF
  {
    if v >= 0 then v else v + 0x1_0000_0000_0000_0000
  }

  function BitsLong(u: nat): Long
  {
    WrapLong(u)
  }

  lemma LongBitsRoundTrip(v: Long)
    ensures BitsLong(LongBits(v)) == v
    ensures LongBits(v) < Pow256(8)
  {
    assert Pow256(8) == 256 * Pow256(7) && Pow256(6) == 256 * Pow256(5) && Pow256(4) == 256 * Pow256(3);
    assert Pow256(2) == 65536 && Pow256(4) == 0x1_0000_0000 && Pow256(6) == 0x1_0000_0000_0000;
  }
}
