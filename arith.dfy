/**
  `align(bytes, alignment=16)` of pyop2/utils.py: round up to a multiple of the
  alignment, with Python's flooring integer division.
 */
module Arith {
  import opened Python

  const DEFAULT_ALIGNMENT := 16

  /** Python `x // y`, which rounds towards minus infinity (Dafny's `/` is Euclidean). */
  function FloorDiv(x: int, y: int): (q: int)
    requires y != 0
    ensures y > 0 ==> y * q <= x < y * q + y
    ensures y < 0 ==> y * q + y < x <= y * q
  {
    if y > 0 || x % y == 0 then x / y
    else
      assert y * (x / y - 1) == y * (x / y) - y;
      x / y - 1
  }

  /** `((bytes + alignment - 1) // alignment) * alignment`; `// 0` raises ZeroDivisionError. */
  function Align(bytes: int, alignment: int): Result<int> {
    if alignment == 0 then Raise(ZeroDivisionError, NoDiag)
    else Ok(FloorDiv(bytes + alignment - 1, alignment) * alignment)
  }

  /** For a positive alignment the result is a multiple of it, at least `bytes`
      and less than `bytes + alignment`. */
  lemma AlignRoundsUp(bytes: int, alignment: int)
    requires alignment > 0
    ensures Align(bytes, alignment).Ok?
    ensures var r := Align(bytes, alignment).value;
      r % alignment == 0 && bytes <= r < bytes + alignment
  {
    var q := FloorDiv(bytes + alignment - 1, alignment);
    MultipleMod(q, alignment);
  }

  lemma MultipleMod(q: int, a: int)
    requires a > 0
    ensures (q * a) % a == 0 && (q * a) / a == q
  {
    var m := q * a;
    var d := q - m / a;
    assert m == a * (m / a) + m % a;
    assert a * d == a * q - a * (m / a);
    SmallMultipleIsZero(a, d);
  }

  /** A multiple of a positive `a` in [0, a) is 0. */
  lemma SmallMultipleIsZero(a: int, d: int)
    requires a > 0 && 0 <= a * d < a
    ensures d == 0
  {
    if d >= 1 {
      assert a * d == a * (d - 1) + a;
      PositiveProduct(a, d - 1);
    } else if d <= -1 {
      assert a * d == -(a * (-d - 1)) - a;
      PositiveProduct(a, -d - 1);
    }
  }

  lemma PositiveProduct(a: int, b: int)
    requires a >= 0 && b >= 0
    ensures a * b >= 0
  {
  }

  /** `align(bytes)` with the default alignment rounds up to a multiple of 16. */
  lemma AlignDefault(bytes: int)
    ensures Align(bytes, DEFAULT_ALIGNMENT).Ok?
    ensures var r := Align(bytes, DEFAULT_ALIGNMENT).value;
      r % 16 == 0 && bytes <= r < bytes + 16
  {
    AlignRoundsUp(bytes, DEFAULT_ALIGNMENT);
  }

  /** Aligning an aligned value changes nothing. */
  lemma AlignIdempotent(bytes: int, alignment: int)
    requires alignment > 0
    ensures Align(Align(bytes, alignment).value, alignment) == Align(bytes, alignment)
  {
    AlignRoundsUp(bytes, alignment);
    var r := Align(bytes, alignment).value;
    AlignRoundsUp(r, alignment);
    var r2 := Align(r, alignment).value;
    NoTwoMultiplesCloser(r, r2, alignment);
  }

  /** The result is the least multiple of the alignment that is at least `bytes`. */
  lemma AlignIsLeast(bytes: int, alignment: int, m: int)
    requires alignment > 0 && m % alignment == 0 && m >= bytes
    ensures Align(bytes, alignment).value <= m
  {
    AlignRoundsUp(bytes, alignment);
    var r := Align(bytes, alignment).value;
    if m < r {
      NoTwoMultiplesCloser(m, r, alignment);
    }
  }

  /** Two multiples of `a` less than `a` apart are equal. */
  lemma NoTwoMultiplesCloser(x: int, y: int, a: int)
    requires a > 0 && x % a == 0 && y % a == 0
    requires x <= y < x + a
    ensures x == y
  {
    assert x == a * (x / a);
    assert y == a * (y / a);
    var d := y / a - x / a;
    assert y - x == a * (y / a) - a * (x / a) == a * d;
    SmallMultipleIsZero(a, d);
  }
}
