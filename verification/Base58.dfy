/** The Base58 codec: alphabet and algorithms as in sections 2 to 4 of
    draft-msporny-base58. */
module Base58 {
  import opened Bytes
  import opened Numerals
  import opened OrderedMap

  const FIRST: byte := 49

  /** `alphabet`: 1-9, A-H, J-N, P-Z, a-k, m-z. */
  function Symbol(d: nat): (b: byte)
    requires d < 58
    ensures Index(b) == Some(d) && (b == FIRST <==> d == 0)
  {
    if d < 9 then 49 + d
    else if d < 17 then 56 + d
    else if d < 22 then 57 + d
    else if d < 33 then 58 + d
    else if d < 44 then 64 + d
    else 65 + d
  }

  /** `b58`, with `None` for the 255 that marks every other byte. */
  function Index(b: byte): (d: Option<nat>)
    ensures d.Some? ==> d.value < 58
  {
    if 49 <= b <= 57 then Some(b - 49)
    else if 65 <= b <= 72 then Some(b - 56)
    else if 74 <= b <= 78 then Some(b - 57)
    else if 80 <= b <= 90 then Some(b - 58)
    else if 97 <= b <= 107 then Some(b - 64)
    else if 109 <= b <= 122 then Some(b - 65)
    else None
  }

  /** The 58 characters, in the runs they come in. */
  const ALPHABET: string := "123456789" + "ABCDEFGH" + "JKLMN" + "PQRSTUVWXYZ" + "abcdefghijk" + "mnopqrstuvwxyz"

  predicate Consecutive(s: string, first: int) {
    forall i :: 0 <= i < |s| ==> s[i] as int == first + i
  }

  /** The ranges of `Symbol` are the alphabet, character by character. */
  lemma SymbolsOfAlphabet(d: nat)
    requires d < 58
    ensures |ALPHABET| == 58 && Symbol(d) == ALPHABET[d] as int
  {
    assert Consecutive("123456789", 49) && Consecutive("ABCDEFGH", 65) && Consecutive("JKLMN", 74);
    assert Consecutive("PQRSTUVWXYZ", 80) && Consecutive("abcdefghijk", 97) && Consecutive("mnopqrstuvwxyz", 109);
  }

  lemma SymbolOfIndex(b: byte)
    requires Index(b).Some?
    ensures Symbol(Index(b).value) == b
  {
  }

  predicate InAlphabet(s: Bytes) {
    forall i :: 0 <= i < |s| ==> Index(s[i]).Some?
  }

  function Symbols(ds: Numeral): (s: Bytes)
    requires DigitsOf(58, ds)
    ensures |s| == |ds| && InAlphabet(s) && forall i :: 0 <= i < |s| ==> s[i] == Symbol(ds[i])
  {
    seq(|ds|, i requires 0 <= i < |ds| => Symbol(ds[i]))
  }

  function Indices(s: Bytes): (ds: Numeral)
    requires InAlphabet(s)
    ensures |ds| == |s| && DigitsOf(58, ds) && forall i :: 0 <= i < |s| ==> Index(s[i]) == Some(ds[i])
  {
    seq(|s|, i requires 0 <= i < |s| => Index(s[i]).value)
  }

  lemma SymbolsAndBack(s: Bytes, ds: Numeral)
    requires InAlphabet(s) && DigitsOf(58, ds)
    ensures Symbols(Indices(s)) == s && Indices(Symbols(ds)) == ds
  {
    forall i | 0 <= i < |s| ensures Symbols(Indices(s))[i] == s[i] { SymbolOfIndex(s[i]); }
  }

  /** Byte strings are numerals in base 256. */
  function AsBytes(ds: Numeral): (b: Bytes)
    requires DigitsOf(256, ds)
    ensures |b| == |ds| && forall i :: 0 <= i < |b| ==> b[i] == ds[i]
  {
    seq(|ds|, i requires 0 <= i < |ds| => ds[i])
  }

  function AsNumeral(b: Bytes): (ds: Numeral)
    ensures |ds| == |b| && DigitsOf(256, ds) && forall i :: 0 <= i < |b| ==> ds[i] == b[i]
  {
    seq(|b|, i requires 0 <= i < |b| => b[i])
  }

  // ---- What the codec computes ----

  function Encoded(b: Bytes): (s: Bytes)
    ensures InAlphabet(s)
  {
    Symbols(Convert(256, 58, AsNumeral(b)))
  }

  /** A byte outside the alphabet gives the empty string. */
  function Decoded(s: Bytes): Bytes {
    if InAlphabet(s) then AsBytes(Convert(58, 256, Indices(s))) else []
  }

  /** A text stands for the same number as its bytes, in base 58 and in base 256,
      with as many zeros in front. */
  lemma SameNumber(b: Bytes)
    ensures var s := Encoded(b);
            Value(58, Indices(s)) == Value(256, AsNumeral(b)) && Leading(Indices(s)) == Leading(AsNumeral(b))
  {
    var n := AsNumeral(b);
    var ds := Convert(256, 58, n);
    SymbolsAndBack(Encoded(b), ds);
    ValueOfZeros(58, Leading(n), Digits(58, Value(256, n)));
    LeadingUnique(Leading(n), Digits(58, Value(256, n)));
  }

  /** Decoding inverts encoding on every byte string, leading zeros included. */
  lemma DecodeEncode(b: Bytes)
    ensures Decoded(Encoded(b)) == b
  {
    var ds := Convert(256, 58, AsNumeral(b));
    SymbolsAndBack(Encoded(b), ds);
    ConvertBack(256, 58, AsNumeral(b));
  }

  /** Encoding inverts decoding on every string over the alphabet. */
  lemma EncodeDecode(s: Bytes)
    requires InAlphabet(s)
    ensures Encoded(Decoded(s)) == s
  {
    var ds := Convert(58, 256, Indices(s));
    assert AsNumeral(Decoded(s)) == ds;
    ConvertBack(58, 256, Indices(s));
    SymbolsAndBack(s, Indices(s));
  }

  // ---- The loops ----

  method Encode(b: Bytes) returns (s: Bytes)
    ensures s == Encoded(b)
  {
    var answer := LowDigits(Value(256, AsNumeral(b)));
    var zeros := LeadingZeros(b);
    LowToHigh(answer, zeros);
    s := Render(answer + Zeros(zeros));
  }

  /** Symbols in a buffer, turned around in place. */
  method Render(answer: Numeral) returns (s: Bytes)
    requires DigitsOf(58, answer)
    ensures DigitsOf(58, Reverse(answer)) && s == Symbols(Reverse(answer))
  {
    var buffer := new byte[|answer|](i requires 0 <= i < |answer| => Symbol(answer[i]));
    assert buffer[..] == Symbols(answer);
    HighestFirst(buffer);
    s := buffer[..];
    ReverseSymbols(answer);
  }

  /** The digits of a number, lowest first. */
  method LowDigits(n: nat) returns (answer: Numeral)
    ensures DigitsOf(58, answer) && Reverse(answer) == Digits(58, n)
  {
    var x := n;
    answer := [];
    while x > 0
      invariant Digits(58, n) == Digits(58, x) + Reverse(answer)
    {
      NextDigit(x, answer);
      answer := answer + [x % 58];
      x := x / 58;
    }
    assert Digits(58, n) == Reverse(answer);
    FromReverse(answer);
  }

  lemma FromReverse(s: Numeral)
    requires DigitsOf(58, Reverse(s))
    ensures DigitsOf(58, s)
  {
    assert forall i :: 0 <= i < |s| ==> s[i] == Reverse(s)[|s| - 1 - i];
  }

  lemma NextDigit(x: nat, answer: Numeral)
    requires x > 0
    ensures Digits(58, x) + Reverse(answer) == Digits(58, x / 58) + Reverse(answer + [x % 58])
  {
    QuotUnique(58, x, x / 58, x % 58);
    assert Reverse(answer + [x % 58]) == [x % 58] + Reverse(answer);
  }

  lemma LowToHigh(low: Numeral, zeros: nat)
    requires DigitsOf(58, low)
    ensures DigitsOf(58, low + Zeros(zeros)) && Reverse(low + Zeros(zeros)) == Zeros(zeros) + Reverse(low)
  {
  }

  lemma ReverseSymbols(ds: Numeral)
    requires DigitsOf(58, ds)
    ensures DigitsOf(58, Reverse(ds)) && Reverse(Symbols(ds)) == Symbols(Reverse(ds))
  {
    assert forall i :: 0 <= i < |ds| ==> Reverse(ds)[i] == ds[|ds| - 1 - i];
  }

  /** The digits come lowest first and are turned round in place, from both ends
      inwards. */
  method HighestFirst(answer: array<byte>)
    modifies answer
    ensures answer[..] == Reverse(old(answer[..]))
  {
    var alen := answer.Length;
    ghost var low := answer[..];
    for i := 0 to alen / 2
      invariant forall j :: 0 <= j < alen ==> answer[j] == low[if i <= j < alen - i then j else alen - 1 - j]
    {
      answer[i], answer[alen - 1 - i] := answer[alen - 1 - i], answer[i];
    }
  }

  method LeadingZeros(b: Bytes) returns (n: nat)
    ensures n == Leading(AsNumeral(b))
  {
    n := 0;
    while n < |b| && b[n] == 0
      invariant n <= |b| && forall i :: 0 <= i < n ==> b[i] == 0
    {
      n := n + 1;
    }
    LeadingIs(AsNumeral(b), n);
  }

  method Decode(b: Bytes) returns (val: Bytes)
    ensures val == Decoded(b)
  {
    var answer := DecodeValue(b);
    if answer.None? { return []; }
    var digits := Digits(256, answer.value);
    var numZeros := LeadingOnes(b);
    var bz := new byte[numZeros + |digits|](_ => 0);
    ghost var zeros := bz[..numZeros];
    CopyAt(bz, numZeros, AsBytes(digits));
    val := bz[..];
    ZerosInFront(zeros, digits);
  }

  lemma ZerosInFront(zeros: Bytes, digits: Numeral)
    requires DigitsOf(256, digits) && forall i :: 0 <= i < |zeros| ==> zeros[i] == 0
    ensures DigitsOf(256, Zeros(|zeros|) + digits) && AsBytes(Zeros(|zeros|) + digits) == zeros + AsBytes(digits)
  {
  }

  /** Sums up the digits from the right. */
  method DecodeValue(b: Bytes) returns (answer: Option<nat>)
    ensures answer == if InAlphabet(b) then Some(Value(58, Indices(b))) else None
  {
    var sum: int, j: int := 0, 1;
    var i := |b|;
    while i > 0
      invariant 0 <= i <= |b| && SumsUp(b, i, sum, j)
    {
      var tmp := Index(b[i - 1]);
      if tmp.None? { return None; }
      OneMoreDigit(b, i - 1, sum, j);
      sum := sum + j * tmp.value;
      j := j * 58;
      i := i - 1;
    }
    assert b[0..] == b;
    answer := Some(sum);
  }

  ghost predicate SumsUp(b: Bytes, i: nat, sum: int, j: int)
    requires i <= |b|
  {
    InAlphabet(b[i..]) && sum == Value(58, Indices(b[i..])) && j == Pow(58, |b| - i)
  }

  lemma OneMoreDigit(b: Bytes, i: nat, sum: int, j: int)
    requires i < |b| && SumsUp(b, i + 1, sum, j) && Index(b[i]).Some?
    ensures SumsUp(b, i, sum + j * Index(b[i]).value, j * 58)
  {
    var d, rest := Index(b[i]).value, b[i + 1..];
    assert b[i..] == [b[i]] + rest;
    IndicesCons(b[i], rest);
    ValueCons(58, d, Indices(rest));
    assert d * Pow(58, |rest|) == Pow(58, |rest|) * d;
  }

  lemma IndicesCons(x: byte, s: Bytes)
    requires Index(x).Some? && InAlphabet(s)
    ensures InAlphabet([x] + s) && Indices([x] + s) == [Index(x).value] + Indices(s)
  {
    var t := [x] + s;
    assert forall i :: 0 < i < |t| ==> t[i] == s[i - 1];
  }

  method LeadingOnes(b: Bytes) returns (n: nat)
    requires InAlphabet(b)
    ensures n == Leading(Indices(b))
  {
    n := 0;
    while n < |b|
      invariant n <= |b| && forall i :: 0 <= i < n ==> b[i] == FIRST
    {
      if b[n] != FIRST { break; }
      n := n + 1;
    }
    LeadingIs(Indices(b), n);
  }
}
