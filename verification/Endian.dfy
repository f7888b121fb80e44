/** Fixed-width little- and big-endian numbers. */
module Endian {
  import opened Arithmetic
  import opened Common

  function Pow256(width: nat): (p: nat)
    ensures p > 0
  {
    if width == 0 then 1 else 256 * Pow256(width - 1)
  }

  /** The low `width` bytes of `n`, least significant first. */
  function LittleEndian(n: nat, width: nat): (b: Bytes)
    ensures |b| == width
  {
    if width == 0 then [] else [n % 256] + LittleEndian(n / 256, width - 1)
  }

  function FromLittleEndian(b: Bytes): (n: nat)
    ensures n < Pow256(|b|)
  {
    if b == [] then 0 else b[0] + 256 * FromLittleEndian(b[1..])
  }

  /** The low `width` bytes of `n`, most significant first. */
  function BigEndian(n: nat, width: nat): (b: Bytes)
    ensures |b| == width
  {
    if width == 0 then [] else BigEndian(n / 256, width - 1) + [n % 256]
  }

  lemma {:induction false} LittleEndianDecodes(n: nat, width: nat)
    requires n < Pow256(width)
    ensures FromLittleEndian(LittleEndian(n, width)) == n
  {
    if width > 0 {
      LittleEndianDecodes(n / 256, width - 1);
      assert LittleEndian(n, width)[1..] == LittleEndian(n / 256, width - 1);
    }
  }

  lemma {:induction false} LittleEndianCanonical(b: Bytes)
    ensures LittleEndian(FromLittleEndian(b), |b|) == b
  {
    if b != [] {
      LittleEndianCanonical(b[1..]);
      ByteSplit(b[0], FromLittleEndian(b[1..]));
      assert b == [b[0]] + b[1..];
    }
  }

  /** Byte `i` of a little-endian number is its digit of weight 256^i. */
  lemma {:induction false} LittleEndianDigit(n: nat, width: nat, i: nat)
    requires i < width
    ensures LittleEndian(n, width)[i] == n / Pow256(i) % 256
    decreases i
  {
    if i > 0 {
      LittleEndianDigit(n / 256, width - 1, i - 1);
      DivTwice(n, Pow256(i - 1));
    }
  }

  lemma {:induction false} DivTwice(n: nat, p: nat)
    requires p > 0
    ensures n / 256 / p == n / (256 * p)
  {
    var q := n / 256 / p;
    DivBounds(n / 256, p);
    assert 256 * p * q == 256 * (p * q);
    DivIs(n, 256 * p, q);
  }

  /** Big-endian is little-endian read backwards. */
  lemma {:induction false} BigEndianReversed(n: nat, width: nat, i: nat)
    requires i < width
    ensures BigEndian(n, width)[i] == LittleEndian(n, width)[width - 1 - i]
    decreases width
  {
    if i < width - 1 {
      BigEndianReversed(n / 256, width - 1, i);
    }
  }

  function FromBigEndian(b: Bytes): (n: nat)
    ensures n < Pow256(|b|)
  {
    if b == [] then 0 else 256 * FromBigEndian(b[..|b| - 1]) + b[|b| - 1]
  }

  lemma {:induction false} BigEndianCanonical(b: Bytes)
    ensures BigEndian(FromBigEndian(b), |b|) == b
  {
    if b != [] {
      BigEndianCanonical(b[..|b| - 1]);
      ByteSplit(b[|b| - 1], FromBigEndian(b[..|b| - 1]));
      assert b == b[..|b| - 1] + [b[|b| - 1]];
    }
  }

  lemma {:induction false} BigEndianReads(n: nat, width: nat)
    requires n < Pow256(width)
    ensures FromBigEndian(BigEndian(n, width)) == n
    decreases width
  {
    if width > 0 {
      BigEndianReads(n / 256, width - 1);
      assert BigEndian(n, width)[..width - 1] == BigEndian(n / 256, width - 1);
    }
  }

  lemma {:induction false} BigEndianZero(width: nat)
    ensures BigEndian(0, width) == seq(width, _ => 0)
  {
    if width > 0 {
      BigEndianZero(width - 1);
    }
  }

  /** A number that fits fewer bytes has zeros in front. */
  lemma {:induction false} BigEndianPadded(n: nat, width: nat, pad: nat)
    requires n < Pow256(width)
    ensures BigEndian(n, pad + width) == seq(pad, _ => 0) + BigEndian(n, width)
    decreases width
  {
    if width == 0 {
      BigEndianZero(pad);
    } else {
      BigEndianPadded(n / 256, width - 1, pad);
    }
  }

  lemma {:induction false} BigEndianInjective(n: nat, m: nat, width: nat)
    requires n < Pow256(width) && m < Pow256(width) && BigEndian(n, width) == BigEndian(m, width)
    ensures n == m
  {
    if width > 0 {
      var a, b := BigEndian(n, width), BigEndian(m, width);
      assert BigEndian(n / 256, width - 1) == a[..width - 1] == b[..width - 1] == BigEndian(m / 256, width - 1);
      assert a[width - 1] == n % 256 && b[width - 1] == m % 256;
      BigEndianInjective(n / 256, m / 256, width - 1);
    }
  }

  /** Two concatenations with equally long left parts agree part by part. */
  lemma {:induction false} SplitEqual(a: Bytes, b: Bytes, c: Bytes, d: Bytes)
    requires a + b == c + d && |a| == |c|
    ensures a == c && b == d
  {
    assert a == (a + b)[..|a|] && c == (c + d)[..|c|];
    assert b == (a + b)[|a|..] && d == (c + d)[|c|..];
  }
}
