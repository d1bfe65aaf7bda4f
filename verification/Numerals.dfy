/** Positional numerals, most significant digit first, and changes of base that
    keep leading zeros. */
module Numerals {

  type Base = x: int | x >= 2 witness 2

  type Numeral = seq<nat>

  predicate DigitsOf(base: Base, s: Numeral) {
    forall i :: 0 <= i < |s| ==> s[i] < base
  }

  function Value(base: Base, s: Numeral): nat {
    if s == [] then 0 else Value(base, s[..|s| - 1]) * base + s[|s| - 1]
  }

  /** How often the base goes into a number, and what is left over. */
  function Quot(base: Base, n: nat): (q: nat)
    ensures q * base <= n < q * base + base
    ensures n > 0 ==> q < n
  {
    if n < base then 0
    else
      var q := Quot(base, n - base);
      assert (q + 1) * base == q * base + base;
      q + 1
  }

  function Rest(base: Base, n: nat): (r: nat)
    ensures r < base && n == Quot(base, n) * base + r
  {
    n - Quot(base, n) * base
  }

  lemma QuotUnique(base: Base, n: nat, q: nat, r: nat)
    requires n == q * base + r && r < base
    ensures Quot(base, n) == q && Rest(base, n) == r
  {
    NotBelow(base, Quot(base, n), Rest(base, n), q, r);
    NotBelow(base, q, r, Quot(base, n), Rest(base, n));
  }

  lemma NotBelow(base: Base, q: nat, r: nat, v: nat, d: nat)
    requires q * base + r == v * base + d && r < base && d < base
    ensures q >= v
  {
    if q < v { MulUp(q + 1, v, base); }
  }

  lemma MulUp(x: nat, y: nat, z: nat)
    requires x <= y
    ensures x * z <= y * z
  {
    assert y * z == x * z + (y - x) * z;
  }

  /** The numeral of a number without leading zeros; zero has no digits. */
  function Digits(base: Base, n: nat): (s: Numeral)
    ensures DigitsOf(base, s) && Value(base, s) == n && (s != [] ==> s[0] != 0)
    decreases n
  {
    if n == 0 then []
    else
      var s := Digits(base, Quot(base, n)) + [Rest(base, n)];
      assert s[..|s| - 1] == Digits(base, Quot(base, n));
      s
  }

  function Pow(base: nat, n: nat): nat {
    if n == 0 then 1 else base * Pow(base, n - 1)
  }

  lemma {:induction false} PowSum(base: nat, a: nat, b: nat)
    ensures Pow(base, a + b) == Pow(base, a) * Pow(base, b)
  {
    if a > 0 {
      PowSum(base, a - 1, b);
      Associate(base, Pow(base, a - 1), Pow(base, b));
      assert a + b - 1 == a - 1 + b;
    }
  }

  lemma Associate(x: int, y: int, z: int)
    ensures x * (y * z) == x * y * z
  {
  }

  /** A digit in front counts by the length of the rest. */
  lemma {:induction false} ValueCons(base: Base, d: nat, s: Numeral)
    ensures Value(base, [d] + s) == d * Pow(base, |s|) + Value(base, s)
  {
    if s == [] {
      assert ([d] + s)[..0] == [];
    } else {
      var s' := s[..|s| - 1];
      assert ([d] + s)[..|s|] == [d] + s';
      ValueCons(base, d, s');
      assert (d * Pow(base, |s'|)) * base == d * Pow(base, |s|);
    }
  }

  lemma {:induction false} ValueAppend(base: Base, s: Numeral, t: Numeral)
    ensures Value(base, s + t) == Value(base, s) * Pow(base, |t|) + Value(base, t)
  {
    if t == [] {
      assert s + t == s;
    } else {
      var t' := t[..|t| - 1];
      assert (s + t)[..|s + t| - 1] == s + t';
      ValueAppend(base, s, t');
      assert (Value(base, s) * Pow(base, |t'|)) * base == Value(base, s) * Pow(base, |t|);
    }
  }

  lemma {:induction false} ValueBound(base: Base, s: Numeral)
    requires DigitsOf(base, s)
    ensures Value(base, s) < Pow(base, |s|)
  {
    if s != [] {
      var s' := s[..|s| - 1];
      ValueBound(base, s');
      MulUp(Value(base, s') + 1, Pow(base, |s'|), base);
      assert (Value(base, s') + 1) * base == Value(base, s') * base + base;
    }
  }

  /** A numeral without leading zeros is the numeral of its value. */
  lemma {:induction false} DigitsOfValue(base: Base, s: Numeral)
    requires DigitsOf(base, s) && (s != [] ==> s[0] != 0)
    ensures Digits(base, Value(base, s)) == s
  {
    if s != [] {
      var s', d := s[..|s| - 1], s[|s| - 1];
      DigitsOfValue(base, s');
      QuotUnique(base, Value(base, s), Value(base, s'), d);
      if s' == [] {
        assert s[0] == d;
      } else {
        NotZero(base, s');
      }
      assert s == s' + [d];
    }
  }

  lemma NotZero(base: Base, s: Numeral)
    requires s != [] && s[0] != 0
    ensures Value(base, s) > 0
  {
    assert s == [s[0]] + s[1..];
    ValueCons(base, s[0], s[1..]);
    PowPositive(base, |s| - 1);
    Positive(s[0], Pow(base, |s| - 1));
  }

  lemma Positive(x: nat, y: nat)
    requires x > 0 && y > 0
    ensures x * y > 0
  {
  }

  lemma {:induction false} PowPositive(base: Base, n: nat)
    ensures Pow(base, n) > 0
  {
    if n > 0 { PowPositive(base, n - 1); }
  }

  // ---- Leading zeros ----

  function Zeros(n: nat): (s: Numeral)
    ensures |s| == n && forall i :: 0 <= i < n ==> s[i] == 0
  {
    seq(n, i => 0)
  }

  function Leading(s: Numeral): (n: nat)
    ensures n <= |s| && (forall i :: 0 <= i < n ==> s[i] == 0) && (n < |s| ==> s[n] != 0)
  {
    if s == [] || s[0] != 0 then 0 else 1 + Leading(s[1..])
  }

  lemma {:induction false} ValueOfZeros(base: Base, n: nat, s: Numeral)
    ensures Value(base, Zeros(n) + s) == Value(base, s)
  {
    if n == 0 {
      assert Zeros(0) + s == s;
    } else {
      assert Zeros(n) + s == [0] + (Zeros(n - 1) + s);
      ValueCons(base, 0, Zeros(n - 1) + s);
      ValueOfZeros(base, n - 1, s);
    }
  }

  lemma LeadingUnique(n: nat, s: Numeral)
    requires s != [] ==> s[0] != 0
    ensures Leading(Zeros(n) + s) == n
  {
    LeadingIs(Zeros(n) + s, n);
  }

  lemma LeadingIs(s: Numeral, n: nat)
    requires n <= |s| && (forall i :: 0 <= i < n ==> s[i] == 0) && (n < |s| ==> s[n] != 0)
    ensures Leading(s) == n
  {
  }

  /** The same number in another base, with as many leading zeros. */
  function Convert(from: Base, to: Base, s: Numeral): (t: Numeral)
    ensures DigitsOf(to, t)
  {
    Zeros(Leading(s)) + Digits(to, Value(from, s))
  }

  /** Changing the base there and back is the identity. */
  lemma ConvertBack(from: Base, to: Base, s: Numeral)
    requires DigitsOf(from, s)
    ensures Convert(to, from, Convert(from, to, s)) == s
  {
    var n := Leading(s);
    var v, rest := Value(from, s), s[n..];
    assert s == Zeros(n) + rest;
    ValueOfZeros(from, n, rest);
    DigitsOfValue(from, rest);
    LeadingUnique(n, Digits(to, v));
    ValueOfZeros(to, n, Digits(to, v));
  }

  /** A number below base^k in exactly k digits. */
  function Padded(base: Base, k: nat, n: nat): (s: Numeral)
    requires n < Pow(base, k)
    ensures |s| == k && DigitsOf(base, s) && Value(base, s) == n
  {
    if k == 0 then []
    else
      QuotBelow(base, n, Pow(base, k - 1));
      var s := Padded(base, k - 1, Quot(base, n)) + [Rest(base, n)];
      assert s[..k - 1] == Padded(base, k - 1, Quot(base, n));
      s
  }

  lemma QuotBelow(base: Base, n: nat, p: nat)
    requires n < base * p
    ensures Quot(base, n) < p
  {
    if Quot(base, n) >= p { MulUp(p, Quot(base, n), base); }
  }

  /** The leading digits of a number that lies between c * base^k and the next
      multiple are those of c. */
  lemma DigitsPrefix(base: Base, n: nat, k: nat, c: nat)
    requires c > 0 && c * Pow(base, k) <= n < c * Pow(base, k) + Pow(base, k)
    ensures |Digits(base, n)| == |Digits(base, c)| + k && Digits(base, n)[..|Digits(base, c)|] == Digits(base, c)
  {
    var head, tail := Digits(base, c), Padded(base, k, n - c * Pow(base, k));
    ValueAppend(base, head, tail);
    DigitsOfValue(base, head + tail);
  }
}
