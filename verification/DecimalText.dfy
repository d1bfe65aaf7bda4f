/** Decimals as text.  Go strings are byte strings. */
module DecimalText {
  import opened Bytes
  import opened Decimal
  import opened Numerals

  const PRECISION: nat := 18
  const ZERO: byte := 48
  const NINE: byte := 57
  const DOT: byte := 46
  const MINUS: byte := 45
  const PLUS: byte := 43

  // ---- Whole numbers in base ten ----

  predicate IsDigit(b: byte) {
    ZERO <= b <= NINE
  }

  predicate AllDigits(s: Bytes) {
    forall i :: 0 <= i < |s| ==> IsDigit(s[i])
  }

  /** What a string of digits stands for. */
  function ValueOf(s: Bytes): nat
    requires AllDigits(s)
  {
    Value(10, FromAscii(s))
  }

  function FromAscii(s: Bytes): (ds: Numeral)
    requires AllDigits(s)
    ensures |ds| == |s| && forall i :: 0 <= i < |s| ==> ds[i] == s[i] - ZERO
  {
    seq(|s|, i requires 0 <= i < |s| => s[i] - ZERO)
  }

  function ToAscii(ds: Numeral): (s: Bytes)
    requires DigitsOf(10, ds)
    ensures |s| == |ds| && AllDigits(s) && FromAscii(s) == ds
  {
    seq(|ds|, i requires 0 <= i < |ds| => ZERO + ds[i])
  }

  /** `big.Int.MarshalText` of a number that is not negative. */
  function MarshalText(n: nat): (s: Bytes)
    ensures s != [] && AllDigits(s) && ValueOf(s) == n
  {
    if n == 0 then
      ZeroText();
      [ZERO]
    else ToAscii(Digits(10, n))
  }

  lemma ZeroText()
    ensures ValueOf([ZERO]) == 0
  {
    var ds := FromAscii([ZERO]);
    assert ds == [0] && ds[..0] == [];
    assert Value(10, ds) == Value(10, ds[..0]) * 10 + ds[0];
  }

  lemma ValueOfAppend(a: Bytes, b: Bytes)
    requires AllDigits(a) && AllDigits(b)
    ensures AllDigits(a + b) && ValueOf(a + b) == ValueOf(a) * Pow(10, |b|) + ValueOf(b)
  {
    assert FromAscii(a + b) == FromAscii(a) + FromAscii(b);
    ValueAppend(10, FromAscii(a), FromAscii(b));
  }

  function Zeros(n: nat): (s: Bytes)
    ensures |s| == n && AllDigits(s) && forall i :: 0 <= i < n ==> s[i] == ZERO
  {
    seq(n, i => ZERO)
  }

  lemma ZerosInFront(n: nat, s: Bytes)
    requires AllDigits(s)
    ensures AllDigits(Zeros(n) + s) && ValueOf(Zeros(n) + s) == ValueOf(s)
  {
    assert FromAscii(Zeros(n) + s) == Numerals.Zeros(n) + FromAscii(s);
    ValueOfZeros(10, n, FromAscii(s));
  }

  lemma NoValue(n: nat)
    ensures ValueOf(Zeros(n)) == 0
  {
    assert Zeros(n) + [] == Zeros(n);
    ZerosInFront(n, []);
  }

  /** `big.Int.SetString` in base ten: one sign is allowed in front. */
  function SetString(s: Bytes): Option<int> {
    if s == [] then None
    else if s[0] == MINUS || s[0] == PLUS then
      if |s| > 1 && AllDigits(s[1..]) then var v: int := ValueOf(s[1..]); Some(if s[0] == MINUS then -v else v) else None
    else if AllDigits(s) then Some(ValueOf(s)) else None
  }

  // ---- Parsing ----

  datatype ParseError = Empty | BadLength | TooManyPeriods | TooMuchPrecision | BadInteger

  datatype Parsed = Number(value: Dec) | Error(error: ParseError)

  /** `strings.Split(s, ".")`. */
  function Split(s: Bytes): (parts: seq<Bytes>)
    ensures parts != []
  {
    if s == [] then [[]]
    else
      var rest := Split(s[1..]);
      if s[0] == DOT then [[]] + rest else [[s[0]] + rest[0]] + rest[1..]
  }

  function NewDecFromStr(str: Bytes): Parsed {
    if |str| == 0 then Error(Empty)
    else
      var neg := str[0] == MINUS;
      var s := if neg then str[1..] else str;
      if |s| == 0 then Error(Empty)
      else
        var strs := Split(s);
        if |strs| > 2 then Error(TooManyPeriods)
        else if |strs| == 2 && (|strs[1]| == 0 || |strs[0]| == 0) then Error(BadLength)
        else Combine(neg, strs[0], if |strs| == 2 then strs[1] else [])
  }

  function Combine(neg: bool, whole: Bytes, decs: Bytes): Parsed {
    if |decs| > PRECISION then Error(TooMuchPrecision)
    else
      var combined := SetString(whole + decs + Zeros(PRECISION - |decs|));
      if combined.None? then Error(BadInteger) else Number(if neg then -combined.value else combined.value)
  }

  // ---- Printing ----

  /** The digits with a point before the last eighteen. */
  function Pointed(digits: Bytes): Bytes {
    var n := |digits|;
    if n <= PRECISION then [ZERO, DOT] + Zeros(PRECISION - n) + digits
    else digits[..n - PRECISION] + [DOT] + digits[n - PRECISION..]
  }

  function Print(d: Dec): Bytes {
    Sign(d < 0) + Pointed(MarshalText(Abs(d)))
  }

  function Sign(neg: bool): Bytes {
    if neg then [MINUS] else []
  }

  /** Fills a buffer, by one of two cases on the number of digits. */
  method String(d: Dec) returns (s: Bytes)
    ensures s == Print(d)
  {
    var digits := MarshalText(Abs(d));
    var bz;
    if |digits| <= PRECISION {
      bz := PurelyDecimal(digits);
    } else {
      bz := WithWholePart(digits);
    }
    s := bz[..];
    if d < 0 { s := [MINUS] + s; }
  }

  method PurelyDecimal(digits: Bytes) returns (bz: array<byte>)
    requires |digits| <= PRECISION
    ensures bz[..] == Pointed(digits)
  {
    var n := |digits|;
    bz := new byte[PRECISION + 2](_ => 0);
    bz[0], bz[1] := ZERO, DOT;
    for i := 0 to PRECISION - n
      invariant bz[..i + 2] == [ZERO, DOT] + Zeros(i)
    {
      bz[i + 2] := ZERO;
      assert bz[..i + 3] == bz[..i + 2] + [ZERO];
    }
    CopyAt(bz, 2 + PRECISION - n, digits);
  }

  method WithWholePart(digits: Bytes) returns (bz: array<byte>)
    requires |digits| > PRECISION
    ensures bz[..] == Pointed(digits)
  {
    bz := new byte[|digits| + 1](_ => 0);
    var place := |digits| - PRECISION;
    CopyAt(bz, 0, digits[..place]);
    bz[place] := DOT;
    assert bz[..place + 1] == digits[..place] + [DOT];
    CopyAt(bz, place + 1, digits[place..]);
  }

  // ---- Reading back ----

  /** The text of a number: a string of digits, a point, a string of digits. */
  lemma {:induction false} SplitAtPoint(whole: Bytes, decs: Bytes)
    requires DOT !in whole && DOT !in decs
    ensures Split(whole + [DOT] + decs) == [whole, decs]
  {
    var s := whole + [DOT] + decs;
    if whole == [] {
      assert s[1..] == decs;
      NoPoint(decs);
    } else {
      assert s[1..] == whole[1..] + [DOT] + decs && whole == [whole[0]] + whole[1..];
      SplitAtPoint(whole[1..], decs);
    }
  }

  lemma {:induction false} NoPoint(s: Bytes)
    requires DOT !in s
    ensures Split(s) == [s]
  {
    if s != [] {
      NoPoint(s[1..]);
      assert s == [s[0]] + s[1..];
    }
  }

  /** The number that digits, a point and at most eighteen digits stand for, in
      units of 10^-18. */
  ghost function Meaning(whole: Bytes, decs: Bytes): int
    requires AllDigits(whole) && AllDigits(decs) && |decs| <= PRECISION
  {
    ValueOf(whole) * P + ValueOf(decs) * Pow(10, PRECISION - |decs|)
  }

  function Negated(neg: bool, n: int): int {
    if neg then -n else n
  }

  /** The text of a number; without decimals there is no point either. */
  function Text(neg: bool, whole: Bytes, decs: Bytes): Bytes {
    Sign(neg) + if decs == [] then whole else whole + [DOT] + decs
  }

  /** What the parser reads out of such a text. */
  lemma ParseMeaning(neg: bool, whole: Bytes, decs: Bytes)
    requires whole != [] && AllDigits(whole) && AllDigits(decs) && |decs| <= PRECISION
    ensures NewDecFromStr(Text(neg, whole, decs)) == Number(Negated(neg, Meaning(whole, decs)))
  {
    ParseText(neg, whole, decs);
    CombineMeaning(neg, whole, decs);
  }

  lemma ParseText(neg: bool, whole: Bytes, decs: Bytes)
    requires whole != [] && AllDigits(whole) && AllDigits(decs)
    ensures NewDecFromStr(Text(neg, whole, decs)) == Combine(neg, whole, decs)
  {
    var body := if decs == [] then whole else whole + [DOT] + decs;
    assert body[0] == whole[0] && (Sign(true) + body)[1..] == body && Sign(false) + body == body;
    if decs == [] { NoPoint(whole); } else { SplitAtPoint(whole, decs); }
  }

  // ---- Which texts are numbers ----

  /** Without the sign that `SetString` takes as part of a number. */
  function Unsigned(whole: Bytes): Bytes {
    if whole != [] && (whole[0] == MINUS || whole[0] == PLUS) then whole[1..] else whole
  }

  /** Digits, and a sign of their own where the source expects none. */
  predicate Readable(whole: Bytes, decs: Bytes) {
    whole != [] && AllDigits(Unsigned(whole)) && AllDigits(decs) && |decs| <= PRECISION
  }

  ghost function Reading(neg: bool, whole: Bytes, decs: Bytes): int
    requires Readable(whole, decs)
  {
    Negated(neg != (whole[0] == MINUS), Meaning(Unsigned(whole), decs))
  }

  /** Exactly which texts are numbers, and which numbers: an optional minus, an
      optional second sign, digits, and then nothing or a point and one to eighteen
      digits.  After a second sign the digits before the point may be missing. */
  lemma ParseIff(str: Bytes)
    ensures var neg := str != [] && str[0] == MINUS;
            var parts := Split(if neg then str[1..] else str);
            var decs := if |parts| == 2 then parts[1] else [];
            && (NewDecFromStr(str).Number? <==> |parts| <= 2 && (|parts| == 2 ==> decs != []) && Readable(parts[0], decs))
            && (NewDecFromStr(str).Number? ==> NewDecFromStr(str).value == Reading(neg, parts[0], decs))
  {
    var neg := str != [] && str[0] == MINUS;
    var s := if neg then str[1..] else str;
    var parts := Split(s);
    if s != [] && |parts| <= 2 {
      if |parts| == 1 { OnePart(s); }
      if parts[0] != [] { CombineIff(neg, parts[0], if |parts| == 2 then parts[1] else []); }
    }
  }

  function Points(s: Bytes): nat {
    if s == [] then 0 else (if s[0] == DOT then 1 else 0) + Points(s[1..])
  }

  lemma {:induction false} PartsByPoints(s: Bytes)
    ensures |Split(s)| == Points(s) + 1
  {
    if s != [] { PartsByPoints(s[1..]); }
  }

  /** Which error a text that is no number gets. */
  lemma ParseErrors(str: Bytes)
    ensures var body := if str != [] && str[0] == MINUS then str[1..] else str;
            var r := NewDecFromStr(str);
            && (r == Error(Empty) <==> body == [])
            && (r == Error(TooManyPeriods) <==> Points(body) >= 2)
            && (r == Error(BadLength) <==> Points(body) == 1 && (body[0] == DOT || body[|body| - 1] == DOT))
            && (r == Error(TooMuchPrecision) <==>
                  Points(body) == 1 && body[0] != DOT && body[|body| - 1] != DOT && |Split(body)| == 2 && |Split(body)[1]| > PRECISION)
  {
    var body := if str != [] && str[0] == MINUS then str[1..] else str;
    PartsByPoints(body);
    if Points(body) == 1 { TwoParts(body); }
  }

  lemma {:induction false} TwoParts(s: Bytes)
    requires Points(s) == 1
    ensures s != [] && |Split(s)| == 2 && s == Split(s)[0] + [DOT] + Split(s)[1]
    ensures (Split(s)[0] == [] <==> s[0] == DOT) && (Split(s)[1] == [] <==> s[|s| - 1] == DOT)
  {
    PartsByPoints(s);
    WholeText(s);
    var whole, decs := Split(s)[0], Split(s)[1];
    assert s == whole + [DOT] + decs;
    NoPointInParts(s);
    if whole != [] { assert s[0] == whole[0]; }
    if decs != [] { assert s[|s| - 1] == decs[|decs| - 1]; }
  }

  lemma {:induction false} WholeText(s: Bytes)
    requires |Split(s)| == 2
    ensures s == Split(s)[0] + [DOT] + Split(s)[1]
  {
    if s != [] {
      if s[0] == DOT {
        OnePart(s[1..]);
        assert s == [DOT] + s[1..];
      } else {
        WholeText(s[1..]);
        assert s == [s[0]] + s[1..];
      }
    }
  }

  lemma {:induction false} NoPointInParts(s: Bytes)
    ensures forall i :: 0 <= i < |Split(s)| ==> DOT !in Split(s)[i]
  {
    if s != [] { NoPointInParts(s[1..]); }
  }

  lemma {:induction false} OnePart(s: Bytes)
    requires |Split(s)| == 1
    ensures Split(s) == [s]
  {
    if s != [] {
      OnePart(s[1..]);
      assert s == [s[0]] + s[1..];
    }
  }

  lemma CombineIff(neg: bool, whole: Bytes, decs: Bytes)
    requires whole != []
    ensures Combine(neg, whole, decs).Number? <==> Readable(whole, decs)
    ensures Readable(whole, decs) ==> Combine(neg, whole, decs) == Number(Reading(neg, whole, decs))
  {
    if |decs| <= PRECISION {
      var all, digits := whole + decs + Zeros(PRECISION - |decs|), Unsigned(whole) + decs + Zeros(PRECISION - |decs|);
      assert Unsigned(all) == digits;
      DigitsInParts(Unsigned(whole), decs, PRECISION - |decs|);
      SetStringIff(all);
      if AllDigits(digits) { CombinedValue(Unsigned(whole), decs); }
    }
  }

  lemma DigitsInParts(whole: Bytes, decs: Bytes, n: nat)
    ensures AllDigits(whole + decs + Zeros(n)) <==> AllDigits(whole) && AllDigits(decs)
  {
    var all := whole + decs + Zeros(n);
    assert all[..|whole|] == whole && all[|whole|..|whole| + |decs|] == decs;
  }

  lemma SetStringIff(s: Bytes)
    ensures SetString(s).Some? <==> Unsigned(s) != [] && AllDigits(Unsigned(s))
    ensures SetString(s).Some? ==> SetString(s).value == Negated(s[0] == MINUS, ValueOf(Unsigned(s)))
  {
  }

  /** The promised form is an optional minus, digits, and a point between digits.
      A plus alone is read as zero, and a second minus takes the first one back. */
  lemma OddTexts()
    ensures NewDecFromStr([PLUS]) == Number(0)
    ensures NewDecFromStr([MINUS, MINUS, ZERO + 5]) == Number(5 * P)
  {
    var five: byte := ZERO + 5;
    assert [MINUS, MINUS, five][1..] == [MINUS, five] && [MINUS, five][1..] == [five] && [PLUS][1..] == [];
    NoPoint([PLUS]);
    NoPoint([MINUS, five]);
    ParseIff([PLUS]);
    ParseIff([MINUS, MINUS, five]);
    SmallValues();
  }

  lemma SmallValues()
    ensures Meaning([], []) == 0 && Meaning([ZERO + 5], []) == 5 * P
  {
    var ds := FromAscii([ZERO + 5]);
    assert ds == [5] && ds[..0] == [] && Value(10, ds) == Value(10, ds[..0]) * 10 + ds[0];
    assert FromAscii([]) == [];
  }

  lemma CombineMeaning(neg: bool, whole: Bytes, decs: Bytes)
    requires whole != [] && AllDigits(whole) && AllDigits(decs) && |decs| <= PRECISION
    ensures Combine(neg, whole, decs) == Number(Negated(neg, Meaning(whole, decs)))
  {
    var all := whole + decs + Zeros(PRECISION - |decs|);
    CombinedValue(whole, decs);
    SetDigits(all);
    assert SetString(all) == Some(Meaning(whole, decs));
  }

  lemma SetDigits(s: Bytes)
    requires s != [] && AllDigits(s)
    ensures SetString(s) == Some(ValueOf(s))
  {
  }

  lemma CombinedValue(whole: Bytes, decs: Bytes)
    requires AllDigits(whole) && AllDigits(decs) && |decs| <= PRECISION
    ensures AllDigits(whole + decs + Zeros(PRECISION - |decs|))
    ensures ValueOf(whole + decs + Zeros(PRECISION - |decs|)) == Meaning(whole, decs)
  {
    var k := PRECISION - |decs|;
    ValueOfAppend(whole, decs);
    ValueOfAppend(whole + decs, Zeros(k));
    NoValue(k);
    PrecisionSplit(|decs|, k);
    Spread(ValueOf(whole), Pow(10, |decs|), ValueOf(decs), Pow(10, k), P);
  }

  lemma PrecisionSplit(a: nat, b: nat)
    requires a + b == PRECISION
    ensures Pow(10, a) * Pow(10, b) == P
  {
    PowSum(10, a, b);
    Pow10Precision();
  }

  lemma Spread(w: int, x: int, d: int, y: int, p: int)
    requires x * y == p
    ensures (w * x + d) * y == w * p + d * y
  {
    assert (w * x) * y == w * (x * y);
  }

  lemma Pow10Precision()
    ensures Pow(10, PRECISION) == P
  {
    PowSum(10, 6, 12);
    PowSum(10, 6, 6);
    assert Pow(10, 6) == 1_000_000;
  }

  /** A minus exactly below zero, whole digits without a zero in front unless that is
      all, a point, and eighteen digits, which together are the number. */
  lemma PrintForm(d: Dec) returns (whole: Bytes, decs: Bytes)
    ensures Print(d) == Sign(d < 0) + (whole + [DOT] + decs)
    ensures AllDigits(whole) && AllDigits(decs) && |decs| == PRECISION
    ensures whole == [ZERO] || (whole != [] && whole[0] != ZERO)
    ensures ValueOf(whole) * P + ValueOf(decs) == Abs(d)
  {
    var digits := MarshalText(Abs(d));
    whole, decs := PointedParts(digits);
    FullValue(whole, decs);
    NoZeroInFront(Abs(d));
    WholeDigits(digits, whole, decs);
  }

  lemma FullValue(whole: Bytes, decs: Bytes)
    requires AllDigits(whole) && AllDigits(decs) && |decs| == PRECISION
    ensures AllDigits(whole + decs) && ValueOf(whole + decs) == ValueOf(whole) * P + ValueOf(decs)
  {
    ValueOfAppend(whole, decs);
    Pow10Precision();
  }

  lemma WholeDigits(digits: Bytes, whole: Bytes, decs: Bytes)
    requires digits != [] && AllDigits(digits) && (digits == [ZERO] || digits[0] != ZERO)
    requires Pointed(digits) == whole + [DOT] + decs && |decs| == PRECISION && AllDigits(whole)
    ensures whole == [ZERO] || (whole != [] && whole[0] != ZERO)
  {
    var n := |digits|;
    var p := Pointed(digits);
    assert |whole| == |p| - PRECISION - 1 && whole == p[..|whole|];
    if n <= PRECISION {
      assert p[0] == ZERO;
    } else {
      assert p[0] == digits[0];
    }
  }

  lemma NoZeroInFront(n: nat)
    ensures MarshalText(n) == [ZERO] || MarshalText(n)[0] != ZERO
  {
    if n > 0 {
      var ds := Digits(10, n);
      assert ds != [];
      assert MarshalText(n)[0] - ZERO == ds[0];
    }
  }

  /** Every decimal reads back from its text, whatever its sign and size. */
  lemma RoundTrip(d: Dec)
    ensures NewDecFromStr(Print(d)) == Number(d)
  {
    var whole, decs := PointedParts(MarshalText(Abs(d)));
    ParseFull(d < 0, whole, decs);
  }

  lemma PointedParts(digits: Bytes) returns (whole: Bytes, decs: Bytes)
    requires digits != [] && AllDigits(digits)
    ensures Pointed(digits) == whole + [DOT] + decs
    ensures whole != [] && |decs| == PRECISION && AllDigits(whole) && AllDigits(decs) && AllDigits(whole + decs)
    ensures ValueOf(whole + decs) == ValueOf(digits)
  {
    if |digits| <= PRECISION {
      whole, decs := [ZERO], Zeros(PRECISION - |digits|) + digits;
      SmallParts(digits);
    } else {
      whole, decs := digits[..|digits| - PRECISION], digits[|digits| - PRECISION..];
      assert whole + decs == digits;
    }
  }

  lemma SmallParts(digits: Bytes)
    requires AllDigits(digits) && |digits| <= PRECISION
    ensures var decs := Zeros(PRECISION - |digits|) + digits;
            && Pointed(digits) == [ZERO] + [DOT] + decs && |decs| == PRECISION && AllDigits(decs)
            && AllDigits([ZERO] + decs) && ValueOf([ZERO] + decs) == ValueOf(digits)
  {
    var n := PRECISION - |digits|;
    ZerosInFront(n + 1, digits);
    assert [ZERO] + (Zeros(n) + digits) == Zeros(n + 1) + digits;
  }

  lemma ParseFull(neg: bool, whole: Bytes, decs: Bytes)
    requires whole != [] && AllDigits(whole) && AllDigits(decs) && |decs| == PRECISION
    ensures AllDigits(whole + decs)
    ensures NewDecFromStr(Text(neg, whole, decs)) == Number(Negated(neg, ValueOf(whole + decs)))
  {
    ParseMeaning(neg, whole, decs);
    FullMeaning(whole, decs);
  }

  lemma FullMeaning(whole: Bytes, decs: Bytes)
    requires AllDigits(whole) && AllDigits(decs) && |decs| == PRECISION
    ensures AllDigits(whole + decs) && Meaning(whole, decs) == ValueOf(whole + decs)
  {
    FullValue(whole, decs);
    assert Pow(10, 0) == 1;
  }
}
