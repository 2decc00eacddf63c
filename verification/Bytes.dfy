/** Node's Buffer as a sequence of bytes, with the integer reads and writes the source uses. */
module Bytes {
  type byte = x: int | 0 <= x < 256
  type bytes = seq<byte>

  function Min(a: nat, b: nat): nat {
    if a < b then a else b
  }

  /** `buffer.subarray(lo, hi)`: both ends are clipped to the buffer. */
  function Subarray(b: bytes, lo: nat, hi: nat): bytes {
    if lo < Min(hi, |b|) then b[lo..Min(hi, |b|)] else []
  }

  /** Big-endian unsigned 16-bit write and read. */
  function Be16(n: nat): bytes
    requires n < 0x1_0000
  {
    [n / 256, n % 256]
  }

  function ReadBe16(b: bytes, at: nat): (n: nat)
    requires at + 2 <= |b|
    ensures n < 0x1_0000
  {
    var high: int := b[at];
    256 * high + b[at + 1]
  }

  lemma Be16OfRead(b: bytes, at: nat)
    requires at + 2 <= |b|
    ensures Be16(ReadBe16(b, at)) == b[at..at + 2]
  {
  }

  /** Little-endian write of the low `width` bytes of `n`, and the read that inverts it. */
  function Le(n: nat, width: nat): (b: bytes)
    ensures |b| == width
  {
    if width == 0 then [] else [n % 256] + Le(n / 256, width - 1)
  }

  function FromLe(b: bytes): nat {
    if b == [] then 0 else b[0] + 256 * FromLe(b[1..])
  }

  function Pow256(width: nat): nat {
    if width == 0 then 1 else 256 * Pow256(width - 1)
  }

  lemma {:induction false} LeRoundTrip(n: nat, width: nat)
    requires n < Pow256(width)
    ensures FromLe(Le(n, width)) == n
  {
    if width > 0 {
      LeRoundTrip(n / 256, width - 1);
      assert Le(n, width)[1..] == Le(n / 256, width - 1);
    }
  }

  lemma Pow256Values()
    ensures Pow256(2) == 0x1_0000
    ensures Pow256(4) == 0x1_0000_0000
    ensures Pow256(8) == 0x1_0000_0000_0000_0000
  {
    assert Pow256(1) == 256;
    assert Pow256(2) == 256 * 256;
    assert Pow256(3) == 256 * Pow256(2);
    assert Pow256(4) == 256 * Pow256(3);
    assert Pow256(5) == 256 * Pow256(4);
    assert Pow256(6) == 256 * Pow256(5);
    assert Pow256(7) == 256 * Pow256(6);
  }

  /** Byte `i` of a little-endian integer is its digit of weight 256 to the `i`. */
  lemma {:induction false} LeAt(n: nat, width: nat, i: nat)
    requires i < width
    ensures Pow256(i) > 0 && Le(n, width)[i] == n / Pow256(i) % 256
    decreases width
  {
    PowPositive(i);
    if i > 0 {
      LeAt(n / 256, width - 1, i - 1);
      PowPositive(i - 1);
      DivDiv(n, Pow256(i - 1));
    }
  }

  lemma {:induction false} PowPositive(width: nat)
    ensures Pow256(width) > 0
  {
    if width > 0 {
      PowPositive(width - 1);
    }
  }

  lemma DivDiv(n: nat, b: nat)
    requires b > 0
    ensures n / 256 / b == n / (256 * b)
  {
    var q, s := n / 256 / b, n / 256 % b;
    assert n / 256 == b * q + s;
    Scaled(b, q);
    DivIs(n, 256 * b, q, 256 * s + n % 256);
  }

  lemma Scaled(b: nat, q: nat)
    ensures (256 * b) * q == 256 * (b * q)
  {
  }

  lemma DivIs(n: nat, d: nat, q: nat, r: nat)
    requires d > 0 && n == d * q + r && r < d
    ensures n / d == q
  {
    if n / d > q {
      assert d * (n / d) >= d * (q + 1) == d * q + d;
    } else if n / d < q {
      assert d * (n / d) <= d * (q - 1) == d * q - d;
    }
  }
}
