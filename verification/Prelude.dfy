/** Shared vocabulary: machine widths, bytes, results and byte-order readers. */
module Prelude {

  /** The largest `usize` of the 64-bit targets the program is built for. */
  const USIZE_MAX: nat := 0xFFFF_FFFF_FFFF_FFFF
  const U64_MAX: nat := 0xFFFF_FFFF_FFFF_FFFF
  const U32_MAX: nat := 0xFFFF_FFFF

  /** No slice is longer than `isize::MAX` bytes. */
  const MAX_SLICE: nat := 0x7FFF_FFFF_FFFF_FFFF

  type byte = b: int | 0 <= b < 256

  datatype Option<+T> = None | Some(value: T)

  datatype Result<+T, +E> = Ok(value: T) | Err(error: E)

  /** `checked_add`: absent when the machine sum would overflow `max`. */
  function CheckedAdd(a: nat, b: nat, max: nat): (r: Option<nat>)
  {
    if a + b <= max then Some(a + b) else None
  }

  /** `checked_mul`: absent when the machine product would overflow `max`. */
  function CheckedMul(a: nat, b: nat, max: nat): (r: Option<nat>)
  {
    if a * b <= max then Some(a * b) else None
  }

  function Min(a: int, b: int): int { if a <= b then a else b }

  function Max(a: int, b: int): int { if a >= b then a else b }

  function Pow256(n: nat): (p: nat)
    ensures p > 0
  {
    if n == 0 then 1 else 256 * Pow256(n - 1)
  }

  /** The big-endian number in `length` bytes from `start`, total so that specifications may name it freely. */
  ghost function Field(bytes: seq<byte>, start: nat, length: nat): nat
    decreases length
  {
    if length == 0 || start + length > |bytes| then 0
    else 256 * Field(bytes, start, length - 1) + bytes[start + length - 1]
  }

  lemma Pow256Small()
    ensures Pow256(1) == 0x100 && Pow256(2) == 0x1_0000 && Pow256(3) == 0x100_0000
    ensures Pow256(4) == 0x1_0000_0000 && Pow256(8) == 0x1_0000_0000_0000_0000
  {
    assert Pow256(5) == 0x100_0000_0000;
  }

  lemma Pow256Monotone(a: nat, b: nat)
    requires a <= b
    ensures Pow256(a) <= Pow256(b)
  {
    if a < b { Pow256Monotone(a, b - 1); }
  }

  /** `count` consecutive big-endian fields of `size` bytes each. */
  ghost function Table(bytes: seq<byte>, start: nat, size: nat, count: nat): (fields: seq<nat>)
    ensures |fields| == count
  {
    seq(count, i requires 0 <= i < count => Field(bytes, start + i * size, size))
  }

  lemma {:induction false} FieldBound(bytes: seq<byte>, start: nat, length: nat)
    ensures Field(bytes, start, length) < Pow256(length)
  {
    if length > 0 { FieldBound(bytes, start, length - 1); }
  }

  lemma {:induction false} FieldSplit(bytes: seq<byte>, start: nat, high: nat, low: nat)
    requires start + high + low <= |bytes|
    ensures Field(bytes, start, high + low) ==
      Field(bytes, start, high) * Pow256(low) + Field(bytes, start + high, low)
  {
    if low > 0 {
      FieldSplit(bytes, start, high, low - 1);
      ShiftIn(Field(bytes, start, high), Pow256(low - 1), Field(bytes, start + high, low - 1),
              bytes[start + high + low - 1]);
    }
  }

  lemma ShiftIn(high: int, weight: int, low: int, digit: int)
    ensures 256 * (high * weight + low) + digit == high * (256 * weight) + (256 * low + digit)
  {
  }

  // ---------------------------------------------------------------- division

  lemma MultiplyMonotone(a: nat, b: nat, c: nat)
    requires a <= b
    ensures a * c <= b * c
  {
  }

  /** The quotient is the only number whose multiple is that close below. */
  lemma QuotientIs(a: nat, d: nat, q: nat)
    requires d > 0 && q * d <= a < q * d + d
    ensures a / d == q
  {
    var r := a - q * d;
    assert a == d * q + r;
    assert d * (a / d) + a % d == d * q + r;
    if a / d < q {
      MultiplyMonotone(a / d + 1, q, d);
    } else if a / d > q {
      MultiplyMonotone(q + 1, a / d, d);
    }
  }

  lemma QuotientBounds(a: nat, d: nat)
    requires d > 0
    ensures (a / d) * d <= a < (a / d) * d + d
  {
    assert a == d * (a / d) + a % d;
  }

  lemma LessFactor(a: nat, b: nat, d: nat)
    requires a * d < b * d
    ensures a < b
  {
    if b <= a { MultiplyMonotone(b, a, d); }
  }

  lemma DivideMonotone(a: nat, b: nat, d: nat)
    requires a <= b && d > 0
    ensures a / d <= b / d
  {
    QuotientBounds(a, d);
    QuotientBounds(b, d);
    LessFactor(a / d, b / d + 1, d);
  }
}
