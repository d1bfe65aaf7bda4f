/** Fixed-point decimals: integers counting units of 10^-18. */
module Decimal {
  import opened Bytes

  /** 10^18, `precisionReuse`. */
  const P: int := 1_000_000_000_000_000_000

  /** Half of it, `fivePrecision`. */
  const HALF: int := 500_000_000_000_000_000

  /** 2^315: an integer has more than 255 + 60 bits when its absolute value reaches it. */
  const DEC_LIMIT: int := 0x8000000000000000000000000000000000000000000000000000000000000000000000000000000

  function Abs(x: int): int {
    if x < 0 then -x else x
  }

  /** `big.Int.Quo`: division that truncates toward zero. */
  function Quotient(a: int, b: int): (q: int)
    requires b != 0
    ensures Abs(a - q * b) < Abs(b) && (a - q * b == 0 || (a - q * b < 0 <==> a < 0))
    ensures a >= 0 && b > 0 ==> q >= 0
  {
    var q := Abs(a) / Abs(b);
    WholePart(Abs(a), Abs(b));
    Flip(q, b);
    if (a < 0) == (b < 0) then q else -q
  }

  lemma WholePart(m: nat, n: nat)
    requires n > 0
    ensures 0 <= (m / n) * n <= m < (m / n) * n + n && 0 <= m / n
  {
  }

  lemma Flip(x: int, y: int)
    ensures (-x) * y == -(x * y) && x * (-y) == -(x * y) && (-x) * (-y) == x * y
  {
  }

  // ---- Rounding ----

  /** `q` is the integer nearest to x / 10^18, the even one of two that are equally near. */
  predicate NearestEven(x: int, q: int) {
    2 * Abs(x - q * P) <= P && (2 * Abs(x - q * P) == P ==> q % 2 == 0)
  }

  lemma NearestEvenUnique(x: int, q: int, r: int)
    requires NearestEven(x, q) && NearestEven(x, r)
    ensures q == r
  {
    assert (q - r) * P == (x - r * P) - (x - q * P);
    assert -1 <= q - r <= 1;
  }

  /** x / 10^18 rounded up, for either sign. */
  predicate Ceiling(x: int, q: int) {
    (q - 1) * P < x <= q * P
  }

  function ChopRound(x: int): (q: int)
    ensures NearestEven(x, q)
    decreases x < 0
  {
    if x < 0 then -ChopRound(-x)
    else
      var q, rem := x / P, x % P;
      if rem < HALF || (rem == HALF && q % 2 == 0) then q else q + 1
  }

  function ChopRoundUp(x: int): (q: int)
    ensures Ceiling(x, q)
  {
    if x < 0 then -((-x) / P) else if x % P == 0 then x / P else x / P + 1
  }

  function ChopTruncate(x: int): (q: int)
    ensures Abs(q) * P <= Abs(x) < (Abs(q) + 1) * P && (q == 0 || (q < 0 <==> x < 0))
  {
    Quotient(x, P)
  }

  /** A `big.Int`, which the chop functions write over. */
  class BigInt {
    var v: int

    constructor (v: int)
      ensures this.v == v
    {
      this.v := v;
    }

    method Neg()
      modifies this
      ensures v == -old(v)
    {
      v := -v;
    }

    /** Truncated quotient here, remainder returned. */
    method QuoRem(b: int) returns (rem: int)
      requires b != 0
      modifies this
      ensures v == Quotient(old(v), b) && rem == old(v) - v * b
    {
      var a := v;
      v := Quotient(a, b);
      rem := a - v * b;
    }
  }

  method ChopPrecisionAndRound(d: BigInt)
    modifies d
    ensures d.v == ChopRound(old(d.v))
    decreases d.v < 0
  {
    if d.v < 0 {
      d.Neg();
      ChopPrecisionAndRound(d);
      d.Neg();
      return;
    }
    var rem := d.QuoRem(P);
    if rem == 0 { return; }
    if rem < HALF { return; }
    if rem > HALF {
      d.v := d.v + 1;
    } else if d.v % 2 != 0 {
      d.v := d.v + 1;
    }
  }

  method ChopPrecisionAndRoundUp(d: BigInt)
    modifies d
    ensures d.v == ChopRoundUp(old(d.v))
  {
    if d.v < 0 {
      d.Neg();
      ChopPrecisionAndTruncate(d);
      d.Neg();
      return;
    }
    var rem := d.QuoRem(P);
    if rem == 0 { return; }
    d.v := d.v + 1;
  }

  method ChopPrecisionAndTruncate(d: BigInt)
    modifies d
    ensures d.v == ChopTruncate(old(d.v))
  {
    var _ := d.QuoRem(P);
  }

  // ---- Arithmetic ----

  type Dec = int

  /** Results of more than 315 bits panic. */
  function Checked(x: int): Outcome<Dec> {
    if Abs(x) < DEC_LIMIT then Ok(x) else Panic
  }

  function Sub(a: Dec, b: Dec): Outcome<Dec> {
    Checked(a - b)
  }

  function Mul(a: Dec, b: Dec): Outcome<Dec> {
    Checked(ChopRound(a * b))
  }

  /** The dividend scaled by the precision twice over the divisor. */
  function Scaled(a: Dec, b: Dec): int
    requires b != 0
  {
    Quotient(a * P * P, b)
  }

  function Quo(a: Dec, b: Dec): Outcome<Dec> {
    if b == 0 then Panic else Checked(ChopRound(Scaled(a, b)))
  }

  function QuoTruncate(a: Dec, b: Dec): Outcome<Dec> {
    if b == 0 then Panic else Checked(ChopTruncate(Scaled(a, b)))
  }

  function QuoRoundUp(a: Dec, b: Dec): Outcome<Dec> {
    if b == 0 then Panic else Checked(ChopRoundUp(Scaled(a, b)))
  }

  /** `Ceil`: the least whole number not below. */
  function Ceil(d: Dec): (r: Dec)
    ensures r % P == 0 && r - P < d <= r
  {
    var q := Quotient(d, P);
    var rem := d - q * P;
    if rem <= 0 then q * P else (q + 1) * P
  }

  /** The product of two decimals is the nearest unit to the exact one, ties to even;
      it panics exactly when that has more than 315 bits.  Differences are exact. */
  lemma MulAndSub(a: Dec, b: Dec)
    ensures var m := Mul(a, b);
            && (m.Ok? ==> NearestEven(a * b, m.value) && Abs(m.value) < DEC_LIMIT)
            && (m.Panic? ==> exists q :: NearestEven(a * b, q) && Abs(q) >= DEC_LIMIT)
    ensures Sub(a, b) == if Abs(a - b) < DEC_LIMIT then Ok(a - b) else Panic
  {
    assert NearestEven(a * b, ChopRound(a * b));
  }

  // ---- How far a quotient is off ----

  lemma AbsOfProduct(x: int, y: int)
    ensures Abs(x * y) == Abs(x) * Abs(y)
  {
    if x < 0 { assert x * y == -((-x) * y); }
    if y < 0 { assert Abs(x) * y == -(Abs(x) * (-y)); }
  }

  /** In units, with e = a * 10^18 / b exact: |Quo - e| < 1/2 + 10^-18. */
  lemma QuoError(a: Dec, b: Dec)
    ensures Quo(a, b).Ok? ==> 2 * P * Abs(Quo(a, b).value * b - a * P) < (P + 2) * Abs(b)
  {
    if Quo(a, b).Ok? {
      var q := Scaled(a, b);
      ErrorOf(P, a, b, q, ChopRound(q));
    }
  }

  lemma ErrorOf(p: nat, a: int, b: int, q: int, r: int)
    requires 2 * Abs(r * p - q) <= p && Abs(a * p * p - q * b) < Abs(b)
    ensures 2 * p * Abs(r * b - a * p) < (p + 2) * Abs(b)
  {
    Regroup(p, a, b, q, r);
    ErrorBound(p, r * p - q, b, a * p * p - q * b);
    AbsOfProduct(p, r * b - a * p);
    assert 2 * p * Abs(r * b - a * p) == 2 * (p * Abs(r * b - a * p));
  }

  lemma Regroup(p: int, a: int, b: int, q: int, r: int)
    ensures (r * p - q) * b - (a * p * p - q * b) == p * (r * b - a * p)
  {
    assert p * (r * b - a * p) == p * (r * b) - p * (a * p);
    assert p * (r * b) == r * p * b;
    assert p * (a * p) == a * p * p;
  }

  lemma ErrorBound(p: nat, off: int, b: int, rest: int)
    requires 2 * Abs(off) <= p && Abs(rest) < Abs(b)
    ensures 2 * Abs(off * b - rest) < (p + 2) * Abs(b)
  {
    AbsOfProduct(off, b);
    MulUp(2 * Abs(off), p, Abs(b));
    assert 2 * Abs(off) * Abs(b) == 2 * (Abs(off) * Abs(b));
    Triangle(off * b, rest);
    assert (p + 2) * Abs(b) == p * Abs(b) + 2 * Abs(b);
  }

  lemma Triangle(x: int, y: int)
    ensures Abs(x - y) <= Abs(x) + Abs(y)
  {
  }

  lemma MulUp(x: int, y: int, z: nat)
    requires x <= y
    ensures x * z <= y * z
  {
  }

  /** The scaled quotient is halfway between two units, it hides a remainder, and
      the unit below is even. */
  predicate HiddenTie(a: Dec, b: Dec)
    requires b != 0
  {
    var q := Abs(Scaled(a, b));
    q % P == HALF && (q / P) % 2 == 0 && Scaled(a, b) * b != a * P * P
  }

  /** Rounding twice loses the nearest unit in exactly one case. */
  lemma QuoNearestIff(a: Dec, b: Dec)
    ensures Quo(a, b).Ok? ==> (2 * Abs(Quo(a, b).value * b - a * P) <= Abs(b) <==> !HiddenTie(a, b))
  {
    if Quo(a, b).Ok? {
      SignsApart(a, b);
      var m, n := Abs(a), Abs(b);
      var q, r := Scaled(m, n), ChopRound(Scaled(m, n));
      NearestIff(m, n, q, r);
      TurnAround(a, b, r, P);
      TurnAround(a, b, q, P * P);
      assert Abs(Quo(a, b).value * b - a * P) == Abs(r * n - m * P);
      assert Scaled(a, b) * b != a * P * P <==> q * n != m * P * P;
    }
  }

  lemma TurnAround(a: int, b: int, x: int, p: int)
    requires b != 0
    ensures var y := Signed(a, b, x);
            Abs(y * b - a * p) == Abs(x * Abs(b) - Abs(a) * p) && Abs(y) == Abs(x)
  {
    Flip(x, b);
    Flip(a, p);
  }

  function Signed(a: int, b: int, x: int): int {
    if (a < 0) == (b < 0) then x else -x
  }

  /** Signs only turn the result around. */
  lemma SignsApart(a: Dec, b: Dec)
    requires b != 0
    ensures Scaled(a, b) == Signed(a, b, Scaled(Abs(a), Abs(b)))
    ensures ChopRound(Scaled(a, b)) == Signed(a, b, ChopRound(Scaled(Abs(a), Abs(b))))
  {
  }

  lemma NearestIff(a: nat, b: nat, q: nat, r: nat)
    requires b > 0 && q == Scaled(a, b) && r == ChopRound(q)
    ensures 2 * Abs(r * b - a * P) <= b <==> !(q % P == HALF && (q / P) % 2 == 0 && q * b != a * P * P)
  {
    var off, rest := r * P - q, a * P * P - q * b;
    Regroup(P, a, b, q, r);
    DownAtTie(q, r);
    OffBy(b, off, rest);
  }

  lemma DownAtTie(q: nat, r: int)
    requires r == ChopRound(q)
    ensures Abs(r * P - q) <= HALF && (r * P - q == -HALF <==> q % P == HALF && (q / P) % 2 == 0)
  {
  }

  lemma OffBy(b: nat, off: int, rest: nat)
    requires rest < b && Abs(off) <= HALF
    ensures 2 * Abs(off * b - rest) <= P * b <==> !(off == -HALF && rest != 0)
  {
    if off > -HALF { Between(1 - HALF, off, HALF, b); }
  }

  lemma Between(lo: int, x: int, hi: int, b: nat)
    requires lo <= x <= hi
    ensures lo * b <= x * b <= hi * b
  {
  }

  /** The case occurs: 10^-18 over 1.999999999999999999 is more than half a unit,
      and comes out as zero. */
  lemma HiddenTieExists()
    ensures HiddenTie(1, 2 * P - 1) && Quo(1, 2 * P - 1) == Ok(0)
  {
    assert Scaled(1, 2 * P - 1) == HALF;
  }

  // ---- The three quotients ----

  /** Where the exact quotient is not negative the three are in order and at most
      a unit apart; where it is negative, rounding up is truncating. */
  lemma QuotientsInOrder(a: Dec, b: Dec)
    requires b != 0
    ensures var t, q, u := QuoTruncate(a, b), Quo(a, b), QuoRoundUp(a, b);
            if a == 0 || (a < 0) == (b < 0) then
              u.Ok? ==> t.Ok? && q.Ok? && t.value <= q.value <= u.value <= t.value + 1
            else
              u == t && (q.Ok? ==> u.Ok? && u.value - 1 <= q.value <= u.value)
  {
    ScaledSign(a, b);
    ChopsInOrder(Scaled(a, b));
  }

  lemma ScaledSign(a: Dec, b: Dec)
    requires b != 0
    ensures if a == 0 || (a < 0) == (b < 0) then Scaled(a, b) >= 0 else Scaled(a, b) <= 0
  {
    WholePart(Abs(a * P * P), Abs(b));
    if a == 0 { assert Abs(a * P * P) / Abs(b) == 0; }
  }

  lemma ChopsInOrder(x: int)
    ensures var t, q, u := ChopTruncate(x), ChopRound(x), ChopRoundUp(x);
            if x >= 0 then 0 <= t <= q <= u <= t + 1 else u == t <= 0 && u - 1 <= q <= u
  {
  }

  /** The truncated quotient is the whole part of the exact one, with its sign. */
  lemma QuoTruncateExact(a: Dec, b: Dec)
    requires b != 0
    ensures QuoTruncate(a, b).Ok? ==>
              var t := QuoTruncate(a, b).value;
              && Abs(t) * Abs(b) <= Abs(a) * P < (Abs(t) + 1) * Abs(b)
              && (t == 0 || (t > 0 <==> (a < 0) == (b < 0)))
  {
    var q := Scaled(a, b);
    var t := ChopTruncate(q);
    ScaledSign(a, b);
    ScaledAbs(a, b);
    Truncated(P, Abs(a), Abs(b), Abs(q), Abs(t));
    assert QuoTruncate(a, b).Ok? ==> QuoTruncate(a, b).value == t;
  }

  lemma ScaledAbs(a: Dec, b: Dec)
    requires b != 0
    ensures var q := Abs(Scaled(a, b));
            q * Abs(b) <= Abs(a) * P * P < (q + 1) * Abs(b)
  {
    var m, n := Abs(a * P * P), Abs(b);
    assert m == Abs(a) * P * P;
    WholePart(m, n);
    assert (m / n + 1) * n == m / n * n + n;
  }

  lemma Truncated(p: nat, m: nat, n: nat, q: nat, t: nat)
    requires p > 0 && t * p <= q < (t + 1) * p && q * n <= m * p * p < (q + 1) * n
    ensures t * n <= m * p < (t + 1) * n
  {
    MulUp(t * p, q, n);
    MulUp(q + 1, (t + 1) * p, n);
    Scale(p, t, n);
    Scale(p, t + 1, n);
    Scale(p, m, p);
    Cancel(p, t * n, m * p);
    Cancel(p, (t + 1) * n, m * p);
  }

  lemma Scale(p: int, t: int, n: int)
    ensures t * p * n == p * (t * n)
  {
  }

  lemma Cancel(p: nat, x: int, y: int)
    requires p > 0
    ensures p * x <= p * y <==> x <= y
  {
    if x <= y { MulUp(x, y, p); } else { MulUp(y + 1, x, p); }
  }

  /** The dividend that gives the same quotient over the divisor's absolute value. */
  function Over(a: Dec, b: Dec): Dec {
    if b < 0 then -a else a
  }

  /** What the scaled quotient leaves over the divisor's absolute value. */
  lemma RestOver(a: int, b: int)
    requires b != 0
    ensures var rest := Over(a, b) * P * P - Scaled(a, b) * Abs(b);
            && Abs(rest) < Abs(b)
            && (rest > 0 <==> Over(a, b) > 0 && Scaled(a, b) * b != a * P * P)
  {
    Flip(Scaled(a, b), b);
    assert Over(a, b) * P * P - Scaled(a, b) * Abs(b) == Over(a * P * P - Scaled(a, b) * b, b);
  }

  /** In units, the rounded-up quotient is short of the exact one by less than
      10^-18 at worst, and always less than a whole unit above it. */
  lemma QuoRoundUpError(a: Dec, b: Dec)
    requires b != 0
    ensures QuoRoundUp(a, b).Ok? ==>
              var m, n, u := Over(a, b), Abs(b), QuoRoundUp(a, b).value;
              m * P * P - u * n * P < n && (u - 1) * n < m * P
  {
    if QuoRoundUp(a, b).Ok? {
      var q, u := Scaled(a, b), QuoRoundUp(a, b).value;
      RestOver(a, b);
      RoundedUp(P, Over(a, b), Abs(b), q, u);
    }
  }

  lemma RoundedUp(p: nat, a: int, b: nat, q: int, r: int)
    requires p > 0 && (r - 1) * p < q <= r * p && Abs(a * p * p - q * b) < b
    ensures a * p * p - r * b * p < b && (r - 1) * b < a * p
    ensures r * b >= a * p <==> !(q == r * p && a * p * p - q * b > 0)
  {
    Regroup(p, a, b, q, r);
    UpBy(p, b, r * p - q, a * p * p - q * b, r * b - a * p);
    Apart(p, r * b, a * p);
  }

  lemma Apart(p: int, x: int, y: int)
    ensures p * (x - y) == x * p - y * p
  {
  }

  lemma UpBy(p: nat, b: nat, e: int, rest: int, x: int)
    requires 0 <= e < p && Abs(rest) < b && p * x == e * b - rest
    ensures -(p * x) < b && x < b && (x >= 0 <==> !(e == 0 && rest > 0))
  {
    MulUp(0, e, b);
    MulUp(e + 1, p, b);
    assert (e + 1) * b == e * b + b;
    Cancel(p, b, x);
    Cancel(p, 0, x);
    if e > 0 { MulUp(1, e, b); }
  }

  /** It is short exactly when the exact quotient is positive and the scaled one is
      a whole number of units that hides a remainder. */
  lemma QuoRoundUpIff(a: Dec, b: Dec)
    requires b != 0
    ensures QuoRoundUp(a, b).Ok? ==>
              (QuoRoundUp(a, b).value * Abs(b) >= Over(a, b) * P
               <==> !(Over(a, b) > 0 && Scaled(a, b) % P == 0 && Scaled(a, b) * b != a * P * P))
  {
    if QuoRoundUp(a, b).Ok? {
      var q, u := Scaled(a, b), QuoRoundUp(a, b).value;
      RestOver(a, b);
      RoundedUp(P, Over(a, b), Abs(b), q, u);
      WholeUnits(q, u);
    }
  }

  lemma WholeUnits(q: int, u: int)
    requires Ceiling(q, u)
    ensures q == u * P <==> q % P == 0
  {
  }

  /** Every quotient by zero panics.  A truncated one panics besides exactly when the
      exact quotient reaches 2^315 units; the others when it does, and not when it is
      a unit below that. */
  lemma QuotientPanics(a: Dec, b: Dec)
    ensures QuoTruncate(a, b).Panic? <==> b == 0 || Abs(a) * P >= DEC_LIMIT * Abs(b)
    ensures QuoTruncate(a, b).Panic? ==> Quo(a, b).Panic? && QuoRoundUp(a, b).Panic?
    ensures b != 0 && Abs(a) * P < (DEC_LIMIT - 1) * Abs(b) ==> Quo(a, b).Ok? && QuoRoundUp(a, b).Ok?
  {
    if b != 0 {
      var q := Scaled(a, b);
      var t: nat := Abs(ChopTruncate(q));
      ScaledAbs(a, b);
      Truncated(P, Abs(a), Abs(b), Abs(q), t);
      Reaches(t, Abs(a) * P, Abs(b), DEC_LIMIT);
      Reaches(t, Abs(a) * P, Abs(b), DEC_LIMIT - 1);
      ChopsInOrder(q);
    }
  }

  lemma Reaches(t: int, x: int, n: nat, limit: int)
    requires n > 0 && t * n <= x < (t + 1) * n
    ensures t >= limit <==> x >= limit * n
  {
    if t >= limit { MulUp(limit, t, n); } else { MulUp(t + 1, limit, n); }
  }

  lemma QuoRoundUpShort()
    ensures QuoRoundUp(1, P * P + 1).Ok? && QuoRoundUp(1, P * P + 1).value * (P * P + 1) < 1 * P
  {
    assert Scaled(1, P * P + 1) == 0;
  }
}
