/** Go's int64: wrap-around, and division that truncates toward zero. */
module Int64 {
  const MIN := -0x8000_0000_0000_0000
  const MAX := 0x7fff_ffff_ffff_ffff
  const HALF := 0x4000_0000_0000_0000

  predicate Fits(x: int) {
    MIN <= x <= MAX
  }

  function Wrap(x: int): (r: int)
    ensures Fits(r)
    ensures Fits(x) ==> r == x
  {
    (x - MIN) % 0x1_0000_0000_0000_0000 + MIN
  }

  function Abs(x: int): nat {
    if x < 0 then -x else x
  }

  function GoDiv(a: int, b: int): int
    requires b != 0
  {
    if (a < 0) == (b < 0) then Abs(a) / Abs(b) else -(Abs(a) / Abs(b))
  }

  function GoRem(a: int, b: int): int
    requires b != 0
  {
    if a < 0 then -(Abs(a) % Abs(b)) else Abs(a) % Abs(b)
  }

  /** Wrapping changes a number by a multiple of 2^64. */
  lemma WrapIsCongruent(x: int)
    ensures (Wrap(x) - x) % 0x1_0000_0000_0000_0000 == 0
  {
    var m := 0x1_0000_0000_0000_0000;
    assert Wrap(x) - x == -m * ((x - MIN) / m);
  }

  lemma DivMod(x: nat, y: nat)
    requires 0 < y
    ensures x == y * (x / y) + x % y && 0 <= x % y < y
  {
  }

  lemma SignedParts(a: int, b: int, q: int, r: int)
    requires b != 0 && Abs(a) == Abs(b) * q + r
    ensures a == b * (if (a < 0) == (b < 0) then q else -q) + (if a < 0 then -r else r)
  {
    var y: int := Abs(b);
    assert -y * q == -(y * q) && y * -q == -(y * q) && -y * -q == y * q;
  }

  /** Quotient and remainder fit together, and the remainder is smaller than the divisor with the dividend's sign. */
  lemma DivisionTruncates(a: int, b: int)
    requires b != 0
    ensures a == b * GoDiv(a, b) + GoRem(a, b)
    ensures Abs(GoRem(a, b)) < Abs(b) && (0 <= a ==> 0 <= GoRem(a, b)) && (a <= 0 ==> GoRem(a, b) <= 0)
  {
    DivMod(Abs(a), Abs(b));
    SignedParts(a, b, Abs(a) / Abs(b), Abs(a) % Abs(b));
  }
}
