/** Small pieces of the C runtime that the three simulations rely on:
    an optional value, a number that is either a C `int` or a C `double`,
    C's truncating integer division, and the `min + rand() % (max - min + 1)`
    range draw used by every random size in the programs.

    C integers are modelled as unbounded `int`; 32-bit overflow is not modelled. */
module CLib {

  datatype Option<T> = None | Some(value: T)

  /** A configuration value: an `int` field (filled by `atoi`) or a
      floating-point field (filled by `atof`/`%f`, modelled exactly as `real`). */
  datatype Number = Int(i: int) | Real(r: real)

  function Abs(x: int): nat { if x < 0 then -x else x }

  /** C's `/` on `int`: the quotient is truncated toward zero. */
  function CDiv(a: int, b: int): (q: int)
    requires b != 0
    ensures a >= 0 && b > 0 ==> q == a / b
    ensures q != 0 ==> ((q < 0) <==> ((a < 0) != (b < 0)))
  {
    var m: int := Abs(a) / Abs(b);
    NonNegQuotient(Abs(a), Abs(b));
    if (a < 0) != (b < 0) then -m else m
  }

  lemma NonNegQuotient(a: int, b: int)
    requires a >= 0 && b > 0
    ensures a / b >= 0
  {
  }

  /** C's `%` on `int`: the remainder takes the sign of the dividend, and
      quotient and remainder recompose the dividend. */
  function CRem(a: int, b: int): (r: int)
    requires b != 0
    ensures a == CDiv(a, b) * b + r
    ensures Abs(r) < Abs(b)
    ensures a >= 0 ==> r >= 0
    ensures a <= 0 ==> r <= 0
  {
    DivModIdentity(a, b);
    var rem := Abs(a) % Abs(b);
    if a < 0 then -rem else rem
  }

  lemma DivModIdentity(a: int, b: int)
    requires b != 0
    ensures a == CDiv(a, b) * b + (if a < 0 then -(Abs(a) % Abs(b)) else Abs(a) % Abs(b))
  {
    var A: int, B: int := Abs(a), Abs(b);
    var m: int, rem: int := A / B, A % B;
    assert A == m * B + rem;
    if a < 0 && b < 0 {
      assert CDiv(a, b) * b == m * (-B) == -(m * B);
    } else if a < 0 {
      assert CDiv(a, b) * b == (-m) * B == -(m * B);
    } else if b < 0 {
      assert CDiv(a, b) * b == (-m) * (-B) == m * B;
    }
  }

  /** For a non-negative dividend and positive divisor, C's operators agree
      with Dafny's Euclidean ones. */
  lemma CDivAgreesOnNaturals(a: nat, b: int)
    requires b > 0
    ensures CDiv(a, b) == a / b
    ensures CRem(a, b) == a % b
  {
  }

  /** `min + rand() % (max - min + 1)` for a draw `rand()` (never negative).
      A zero divisor is C's division trap (SIGFPE), modelled as `None`. */
  function RangeDraw(min: int, max: int, draw: nat): (r: Option<int>)
    ensures r.None? <==> max - min + 1 == 0
    ensures min <= max ==> r.Some? && min <= r.value <= max
    ensures r.Some? ==> min <= r.value
  {
    var span := max - min + 1;
    if span == 0 then None else Some(min + CRem(draw, span))
  }

  function Max(a: int, b: int): int { if a < b then b else a }
}
