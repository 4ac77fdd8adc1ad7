/** Result types, machine integers and a few facts shared by every component model. */
module Prelude {

  datatype Option<+T> = None | Some(value: T)

  datatype Result<+T, +E> = Ok(value: T) | Err(error: E)

  /** Largest value of `u64`, and of `usize` on the 64-bit targets the engine supports. */
  const U64_MAX: nat := 0xFFFF_FFFF_FFFF_FFFF

  const U32_RANGE: nat := 0x1_0000_0000

  const U8_MAX: nat := 255

  type usize = x: nat | x <= 0xFFFF_FFFF_FFFF_FFFF

  function CheckedAdd(a: usize, b: usize): Option<usize> {
    if a + b <= U64_MAX then Some(a + b) else None
  }

  function CheckedMul(a: usize, b: usize): Option<usize> {
    if a * b <= U64_MAX then Some(a * b) else None
  }

  function SaturatingAdd(a: usize, b: usize): usize {
    if a + b <= U64_MAX then a + b else U64_MAX
  }

  function AbsDiff(a: usize, b: usize): usize {
    if a <= b then b - a else a - b
  }

  /** Multiplication is monotone; stated once because the solver is weak on products. */
  lemma MulMonotone(a: nat, b: nat, c: nat)
    requires a <= b
    ensures a * c <= b * c
  {
  }

  lemma EqualFactor(a: nat, b: nat, c: nat)
    requires c > 0 && c * a == c * b
    ensures a == b
  {
    if a < b { MulMonotone(a + 1, b, c); }
    if b < a { MulMonotone(b + 1, a, c); }
  }

  /** Quotient and remainder are what a division with remainder says they are. */
  lemma SplitDivMod(x: nat, a: nat, q: nat, r: nat)
    requires x == a * q + r && r < q
    ensures x / q == a && x % q == r
  {
    var d, m := x / q, x % q;
    assert x == q * d + m;
    UniqueQuotient(a, d, q, r, m);
  }

  lemma UniqueQuotient(a: nat, d: nat, q: nat, r: nat, m: nat)
    requires a * q + r == q * d + m && r < q && m < q
    ensures a == d && r == m
  {
    if a < d {
      MulMonotone(a + 1, d, q);
    } else if d < a {
      MulMonotone(d + 1, a, q);
    }
  }

  lemma {:induction false} SubsetSize<X>(a: set<X>, b: set<X>)
    requires a <= b
    ensures |a| <= |b|
  {
    if x :| x in a {
      SubsetSize(a - {x}, b - {x});
    }
  }

  predicate NoRepeats<T(==)>(s: seq<T>) {
    forall i, j :: 0 <= i < j < |s| ==> s[i] != s[j]
  }
}
