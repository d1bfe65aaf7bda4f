/** Addresses as text: the HBC prefix, the address, four checksum bytes, in Base58. */
module Address {
  import opened Bytes
  import opened Numerals
  import opened Base58

  /** `Checksum`, as any function to four bytes. */
  type Sum = s: Bytes | |s| == 4 witness [0, 0, 0, 0]

  type Checksum = Bytes -> Sum

  // ---- Base58Check ----

  datatype CheckError = InvalidFormat | BadChecksum

  datatype CheckResult = Payload(bytes: Bytes, version: byte) | CheckFailed(error: CheckError)

  function CheckEncode(sum: Checksum, input: Bytes, version: byte): Bytes {
    var b := [version] + input;
    Encoded(b + sum(b))
  }

  function CheckDecode(sum: Checksum, input: Bytes): CheckResult {
    var decoded := Decoded(input);
    if |decoded| < 5 then CheckFailed(InvalidFormat)
    else
      var body, cksum := decoded[..|decoded| - 4], decoded[|decoded| - 4..];
      if sum(body) != cksum then CheckFailed(BadChecksum)
      else Payload(body[1..], decoded[0])
  }

  /** What the checksum covers: all that was decoded but its last four bytes, which
      it must equal. */
  lemma CheckDecodeIff(sum: Checksum, s: Bytes)
    ensures var d, r := Decoded(s), CheckDecode(sum, s);
            && (r == CheckFailed(InvalidFormat) <==> |d| < 5)
            && (r == CheckFailed(BadChecksum) <==> |d| >= 5 && sum(d[..|d| - 4]) != d[|d| - 4..])
            && (r.Payload? <==> |d| >= 5 && sum(d[..|d| - 4]) == d[|d| - 4..])
            && (r.Payload? ==> [r.version] + r.bytes == d[..|d| - 4])
  {
  }

  /** The text holds version, payload and the checksum of both. */
  lemma CheckEncodeHolds(sum: Checksum, input: Bytes, version: byte)
    ensures Decoded(CheckEncode(sum, input, version)) == [version] + input + sum([version] + input)
  {
    DecodeEncode([version] + input + sum([version] + input));
  }

  lemma CheckRoundTrip(sum: Checksum, input: Bytes, version: byte)
    ensures CheckDecode(sum, CheckEncode(sum, input, version)) == Payload(input, version)
  {
    var b := [version] + input;
    DecodeEncode(b + sum(b));
    CheckedParts(sum, b);
  }

  lemma CheckedParts(sum: Checksum, b: Bytes)
    requires b != []
    ensures var all := b + sum(b);
            |all| >= 5 && all[..|all| - 4] == b && all[|all| - 4..] == sum(b) && all[0] == b[0]
  {
  }

  /** A string that decodes is the encoding of what it decodes to. */
  lemma {:induction false} CheckUnique(sum: Checksum, s: Bytes)
    requires CheckDecode(sum, s).Payload?
    ensures InAlphabet(s) && s == CheckEncode(sum, CheckDecode(sum, s).bytes, CheckDecode(sum, s).version)
  {
    var decoded := Decoded(s);
    assert InAlphabet(s);
    EncodeDecode(s);
    Reassemble(sum, decoded);
  }

  lemma Reassemble(sum: Checksum, decoded: Bytes)
    requires |decoded| >= 5 && sum(decoded[..|decoded| - 4]) == decoded[|decoded| - 4..]
    ensures var b := [decoded[0]] + decoded[..|decoded| - 4][1..];
            decoded == b + sum(b)
  {
    var body := decoded[..|decoded| - 4];
    assert body == [decoded[0]] + body[1..];
  }

  // ---- Addresses ----

  const ADDR_LEN: nat := 20
  const PREFIX: Bytes := [2, 16, 66]
  const HBC: Bytes := [72, 66, 67]

  function String(sum: Checksum, address: Bytes): Bytes {
    if |address| != ADDR_LEN then []
    else
      var b := PREFIX + address;
      Encoded(b + sum(b))
  }

  /** The length in bytes of a white-space character in front, or zero. */
  function SpaceInFront(s: Bytes): (n: nat)
    ensures n <= |s|
  {
    if |s| >= 1 && (9 <= s[0] <= 13 || s[0] == 32) then 1
    else if |s| >= 2 && IsSpace2(s[..2]) then 2
    else if |s| >= 3 && IsSpace3(s[..3]) then 3
    else 0
  }

  function SpaceAtEnd(s: Bytes): (n: nat)
    ensures n <= |s|
  {
    var l := |s|;
    if l >= 1 && (9 <= s[l - 1] <= 13 || s[l - 1] == 32) then 1
    else if l >= 2 && IsSpace2(s[l - 2..]) then 2
    else if l >= 3 && IsSpace3(s[l - 3..]) then 3
    else 0
  }

  /** U+0085 and U+00A0 in UTF-8. */
  predicate IsSpace2(c: Bytes)
    requires |c| == 2
  {
    c[0] == 0xC2 && (c[1] == 0x85 || c[1] == 0xA0)
  }

  /** U+1680, U+2000 to U+200A, U+2028, U+2029, U+202F, U+205F and U+3000 in UTF-8. */
  predicate IsSpace3(c: Bytes)
    requires |c| == 3
  {
    || (c[0] == 0xE1 && c[1] == 0x9A && c[2] == 0x80)
    || (c[0] == 0xE2 && c[1] == 0x80 && (0x80 <= c[2] <= 0x8A || c[2] == 0xA8 || c[2] == 0xA9 || c[2] == 0xAF))
    || (c[0] == 0xE2 && c[1] == 0x81 && c[2] == 0x9F)
    || (c[0] == 0xE3 && c[1] == 0x80 && c[2] == 0x80)
  }

  function TrimLeft(s: Bytes): (r: Bytes)
    ensures |r| <= |s|
    decreases |s|
  {
    if SpaceInFront(s) == 0 then s else TrimLeft(s[SpaceInFront(s)..])
  }

  function TrimRight(s: Bytes): (r: Bytes)
    ensures |r| <= |s|
    decreases |s|
  {
    if SpaceAtEnd(s) == 0 then s else TrimRight(s[..|s| - SpaceAtEnd(s)])
  }

  /** `strings.TrimSpace`. */
  function TrimSpace(s: Bytes): Bytes {
    TrimRight(TrimLeft(s))
  }

  predicate Blank(s: Bytes) {
    TrimSpace(s) == []
  }

  /** Nothing but white-space characters. */
  predicate AllSpace(s: Bytes)
    decreases |s|
  {
    s == [] || (SpaceInFront(s) > 0 && AllSpace(s[SpaceInFront(s)..]))
  }

  /** A text is blank exactly when it is nothing but white space. */
  lemma {:induction false} BlankIff(s: Bytes)
    ensures Blank(s) <==> AllSpace(s)
    decreases |s|
  {
    var n := SpaceInFront(s);
    if n > 0 {
      BlankIff(s[n..]);
    } else if s != [] && TrimRight(s) == [] {
      SpaceFromEnd(s);
    }
  }

  lemma {:induction false} SpaceFromEnd(s: Bytes)
    requires s != [] && TrimRight(s) == []
    ensures SpaceInFront(s) > 0
    decreases |s|
  {
    var k := |s| - SpaceAtEnd(s);
    if k == 0 {
      OneSpace(s);
    } else {
      SpaceFromEnd(s[..k]);
      SpaceOfPrefix(s, k);
    }
  }

  lemma OneSpace(s: Bytes)
    requires s != [] && SpaceAtEnd(s) == |s|
    ensures SpaceInFront(s) > 0
  {
    assert |s| <= 3;
    if |s| == 2 { assert s[0..] == s[..2]; }
    if |s| == 3 { assert s[0..] == s[..3]; }
  }

  lemma SpaceOfPrefix(s: Bytes, k: nat)
    requires k <= |s| && SpaceInFront(s[..k]) > 0
    ensures SpaceInFront(s) > 0
  {
    var t := s[..k];
    assert t[0] == s[0];
    assert k >= 2 ==> t[..2] == s[..2];
    assert k >= 3 ==> t[..3] == s[..3];
  }

  datatype AddressError = WrongPrefix | Check(error: CheckError) | WrongLength

  datatype Parsed = Address(address: Bytes) | Failed(error: AddressError)

  /** `CUAddressFromBase58`.  A blank string is the empty address. */
  function FromBase58(sum: Checksum, s: Bytes): Parsed {
    if Blank(s) then Address([])
    else if |TrimSpace(s)| < |HBC| || s[..|HBC|] != HBC then Failed(WrongPrefix)
    else
      var r := CheckDecode(sum, s);
      if r.CheckFailed? then Failed(Check(r.error))
      else if |r.bytes| != ADDR_LEN + |PREFIX| - 1 then Failed(WrongLength)
      else if [r.version] + r.bytes[..|PREFIX| - 1] != PREFIX then Failed(WrongPrefix)
      else Address(r.bytes[2..])
  }

  // ---- The prefix ----

  /** A string over the alphabet has no white space to trim. */
  lemma NothingToTrim(s: Bytes)
    requires InAlphabet(s)
    ensures TrimSpace(s) == s
  {
    if s != [] {
      NoSpaceInFront(s);
      NoSpaceAtEnd(s);
    }
  }

  lemma NoSpaceInFront(s: Bytes)
    requires s != [] && Index(s[0]).Some?
    ensures SpaceInFront(s) == 0
  {
    SymbolRange(s[0]);
  }

  lemma NoSpaceAtEnd(s: Bytes)
    requires s != [] && Index(s[|s| - 1]).Some?
    ensures SpaceAtEnd(s) == 0
  {
    SymbolRange(s[|s| - 1]);
  }

  lemma SymbolRange(b: byte)
    requires Index(b).Some?
    ensures 49 <= b <= 122
  {
  }

  lemma Powers()
    ensures Pow(58, 33) == 15599970876632771988160814054146447252125923204784443097088
    ensures Pow(256, 24) == 6277101735386680763835789423207666416102355444464034512896
  {
    assert Pow(58, 3) == 195112;
    PowSum(58, 3, 3);
    PowSum(58, 6, 3);
    assert Pow(58, 9) == 7427658739644928;
    PowSum(58, 9, 2);
    assert Pow(58, 2) == 3364;
    PowSum(58, 11, 11);
    PowSum(58, 22, 11);
    assert Pow(256, 3) == 16777216;
    PowSum(256, 3, 3);
    PowSum(256, 6, 6);
    PowSum(256, 12, 12);
  }

  /** Twenty-seven bytes that start 2, 16, 66 make a number that starts 16, 10,
      11 in base 58, and has 36 digits there. */
  lemma PrefixInBase58(b: Bytes)
    requires |b| == 27 && b[..3] == PREFIX
    ensures var ds := Convert(256, 58, AsNumeral(b));
            |ds| == 36 && ds[..3] == [16, 10, 11]
  {
    var n := AsNumeral(b);
    var v := Value(256, n);
    PrefixValue(b);
    DigitsPrefix(58, v, 33, 54415);
    HeadDigits();
    LeadingIs(n, 0);
    assert Zeros(0) + Digits(58, v) == Digits(58, v);
  }

  lemma PrefixValue(b: Bytes)
    requires |b| == 27 && b[..3] == PREFIX
    ensures AsNumeral(b)[0] == 2
    ensures 54415 * Pow(58, 33) <= Value(256, AsNumeral(b)) < 54415 * Pow(58, 33) + Pow(58, 33)
  {
    var n := AsNumeral(b);
    var head, rest := n[..3], n[3..];
    assert n == head + rest && head == [2, 16, 66];
    ValueAppend(256, head, rest);
    ValueBound(256, rest);
    HeadValue();
    PrefixBounds(Value(256, rest));
  }

  /** The arithmetic behind the prefix. */
  lemma PrefixBounds(rest: nat)
    requires rest < Pow(256, 24)
    ensures 54415 * Pow(58, 33) <= 135234 * Pow(256, 24) + rest < 54415 * Pow(58, 33) + Pow(58, 33)
  {
    Powers();
  }

  lemma HeadValue()
    ensures Value(256, [2, 16, 66]) == 135234
  {
    ThreeDigits(256, 2, 16, 66);
  }

  lemma HeadDigits()
    ensures Digits(58, 54415) == [16, 10, 11]
  {
    ThreeDigits(58, 16, 10, 11);
    DigitsOfValue(58, [16, 10, 11]);
  }

  lemma ThreeDigits(base: Base, a: nat, b: nat, c: nat)
    ensures Value(base, [a, b, c]) == (a * base + b) * base + c
  {
    assert [a, b, c][..2] == [a, b] && [a, b][..1] == [a] && [a][..0] == [];
    assert Value(base, [a]) == a;
    assert Value(base, [a, b]) == a * base + b;
  }

  /** Every address prints as 36 characters that start with HBC. */
  lemma Printed(sum: Checksum, address: Bytes)
    requires |address| == ADDR_LEN
    ensures var s := String(sum, address);
            |s| == 36 && s[..3] == HBC && InAlphabet(s)
  {
    var b := PREFIX + address;
    var all := b + sum(b);
    assert all[..3] == PREFIX;
    PrefixText(all);
  }

  lemma PrefixText(b: Bytes)
    requires |b| == 27 && b[..3] == PREFIX
    ensures |Encoded(b)| == 36 && Encoded(b)[..3] == HBC && InAlphabet(Encoded(b))
  {
    PrefixInBase58(b);
    var ds := Convert(256, 58, AsNumeral(b));
    assert ds[0] == ds[..3][0] && ds[1] == ds[..3][1] && ds[2] == ds[..3][2];
    assert Symbols(ds)[..3] == [Symbol(16), Symbol(10), Symbol(11)];
  }

  /** The text of an address holds the prefix, the address and the checksum of both;
      anything that is not twenty bytes long has no text. */
  lemma StringHolds(sum: Checksum, address: Bytes)
    ensures |address| == ADDR_LEN ==> Decoded(String(sum, address)) == PREFIX + address + sum(PREFIX + address)
    ensures |address| != ADDR_LEN ==> String(sum, address) == []
  {
    DecodeEncode(PREFIX + address + sum(PREFIX + address));
  }

  /** Exactly which texts are addresses: blank ones, for the empty address, and
      those that decode to prefix, address and the checksum of both. */
  lemma ParseIff(sum: Checksum, s: Bytes)
    ensures Blank(s) ==> FromBase58(sum, s) == Address([])
    ensures !Blank(s) ==>
              var d, r := Decoded(s), FromBase58(sum, s);
              && (r.Address? <==> |d| == 27 && d[..3] == PREFIX && sum(d[..23]) == d[23..])
              && (r.Address? ==> r.address == d[3..23])
  {
    var d := Decoded(s);
    CheckDecodeIff(sum, s);
    if |d| == 27 && d[..3] == PREFIX { StartsWithHBC(s); }
    if !Blank(s) && |d| == 27 && sum(d[..23]) == d[23..] { DecodedParts(d, CheckDecode(sum, s).version, CheckDecode(sum, s).bytes); }
    if !Blank(s) && FromBase58(sum, s).Address? { DecodedParts(d, CheckDecode(sum, s).version, CheckDecode(sum, s).bytes); }
  }

  /** Which error a text gets that is neither blank nor an address. */
  lemma ParseErrors(sum: Checksum, s: Bytes)
    requires !Blank(s)
    ensures var d, r := Decoded(s), FromBase58(sum, s);
            var hbc := |TrimSpace(s)| >= 3 && s[..3] == HBC;
            && (!hbc ==> r == Failed(WrongPrefix))
            && (hbc && |d| < 5 ==> r == Failed(Check(InvalidFormat)))
            && (hbc && |d| >= 5 && sum(d[..|d| - 4]) != d[|d| - 4..] ==> r == Failed(Check(BadChecksum)))
            && (hbc && |d| >= 5 && sum(d[..|d| - 4]) == d[|d| - 4..] && |d| != 27 ==> r == Failed(WrongLength))
            && (hbc && |d| == 27 && sum(d[..23]) == d[23..] && d[..3] != PREFIX ==> r == Failed(WrongPrefix))
  {
    var d, r := Decoded(s), CheckDecode(sum, s);
    CheckDecodeIff(sum, s);
    if r.Payload? { DecodedParts(d, r.version, r.bytes); }
  }

  lemma DecodedParts(d: Bytes, version: byte, bytes: Bytes)
    requires |d| >= 5 && [version] + bytes == d[..|d| - 4]
    ensures |bytes| == |d| - 5
    ensures |d| == 27 ==> [version] + bytes[..2] == d[..3] && bytes[2..] == d[3..23]
  {
    if |d| == 27 {
      assert ([version] + bytes)[..3] == d[..23][..3];
      assert ([version] + bytes)[3..] == d[..23][3..];
    }
  }

  lemma StartsWithHBC(s: Bytes)
    requires |Decoded(s)| == 27 && Decoded(s)[..3] == PREFIX
    ensures TrimSpace(s) == s && |s| == 36 && s[..3] == HBC
  {
    var d := Decoded(s);
    assert InAlphabet(s);
    EncodeDecode(s);
    PrefixText(d);
    NothingToTrim(s);
  }

  /** An address reads back from its text. */
  lemma RoundTrip(sum: Checksum, address: Bytes)
    requires |address| == ADDR_LEN
    ensures FromBase58(sum, String(sum, address)) == Address(address)
  {
    var s := String(sum, address);
    Printed(sum, address);
    NothingToTrim(s);
    PrefixParts(address);
    CheckRoundTrip(sum, [16, 66] + address, 2);
  }

  lemma PrefixParts(address: Bytes)
    ensures var input := [16, 66] + address;
            [2] + input == PREFIX + address && [2] + input[..2] == PREFIX && input[2..] == address
  {
  }

  /** Whatever text gives an address other than by being blank is that address's
      own text: an address has one text form. */
  lemma OneTextForm(sum: Checksum, s: Bytes)
    ensures FromBase58(sum, s).Address? && !Blank(s) ==>
              |FromBase58(sum, s).address| == ADDR_LEN && s == String(sum, FromBase58(sum, s).address)
  {
    if FromBase58(sum, s).Address? && !Blank(s) {
      var r := ParsedParts(sum, s);
      CheckUnique(sum, s);
      PrefixBack(r.version, r.bytes);
    }
  }

  lemma ParsedParts(sum: Checksum, s: Bytes) returns (r: CheckResult)
    requires FromBase58(sum, s).Address? && !Blank(s)
    ensures r == CheckDecode(sum, s) && r.Payload? && |r.bytes| == ADDR_LEN + 2 && [r.version] + r.bytes[..2] == PREFIX
    ensures FromBase58(sum, s).address == r.bytes[2..]
  {
    r := CheckDecode(sum, s);
  }

  lemma PrefixBack(version: byte, bytes: Bytes)
    requires |bytes| == ADDR_LEN + 2 && [version] + bytes[..2] == PREFIX
    ensures [version] + bytes == PREFIX + bytes[2..]
  {
    assert bytes == bytes[..2] + bytes[2..];
  }

  /** Two different addresses never share a text. */
  lemma TextsDiffer(sum: Checksum, a: Bytes, b: Bytes)
    requires |a| == |b| == ADDR_LEN && String(sum, a) == String(sum, b)
    ensures a == b
  {
    RoundTrip(sum, a);
    RoundTrip(sum, b);
  }
}
