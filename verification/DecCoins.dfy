/** Decimal coin sets: splitting off whole coins, and the common part of two sets. */
module DecCoins {
  import opened Bytes
  import opened Coins
  import opened CoinLaws
  import opened Decimal

  // ---- Validity ----

  predicate NoUpperCase(d: Bytes) {
    forall i :: 0 <= i < |d| ==> !(65 <= d[i] <= 90)
  }

  /** `lower` tells the strings that `strings.ToLower` leaves alone.  Of its Unicode
      tables only the ASCII part matters here. */
  ghost predicate LowersAscii(lower: Bytes -> bool) {
    forall d: Bytes :: (forall i :: 0 <= i < |d| ==> d[i] < 128) ==> (lower(d) <==> NoUpperCase(d))
  }

  /** `DecCoins.IsValid`: a valid set with no upper case after the first denomination. */
  predicate DecValid(lower: Bytes -> bool, s: seq<Coin>) {
    Valid(s) && forall i :: 0 < i < |s| ==> lower(s[i].denom)
  }

  method IsValid(lower: Bytes -> bool, s: seq<Coin>) returns (r: bool)
    ensures r <==> DecValid(lower, s)
  {
    if |s| == 0 { return true; }
    if !ValidDenom(s[0].denom) || s[0].amount <= 0 { return false; }
    var low := s[0].denom;
    for i := 1 to |s|
      invariant low == s[i - 1].denom
      invariant forall j :: 0 <= j < i ==> s[j].amount > 0
      invariant forall j :: 0 < j < i ==> lower(s[j].denom)
      invariant Sorted(s[..i])
    {
      if !lower(s[i].denom) { return false; }
      if !Less(low, s[i].denom) {
        assert s[i - 1].denom == low;
        return false;
      }
      if s[i].amount <= 0 { return false; }
      SortedSnoc(s, i);
      low := s[i].denom;
    }
    assert s[..|s|] == s;
    r := true;
  }

  /** Of two first denominations that differ, the greater ends up behind the other. */
  predicate LaterFirstIsLower(lower: Bytes -> bool, a: seq<Coin>, b: seq<Coin>) {
    a != [] && b != [] ==>
      && (Less(a[0].denom, b[0].denom) ==> lower(b[0].denom))
      && (Less(b[0].denom, a[0].denom) ==> lower(a[0].denom))
  }

  /** The sum of two valid sets is sorted and positive, and it is valid exactly when
      the greater of their first denominations has no upper case. */
  lemma AddValidIff(lower: Bytes -> bool, a: seq<Coin>, b: seq<Coin>)
    requires DecValid(lower, a) && DecValid(lower, b) && Bounded(DEC_LIMIT, a) && Bounded(DEC_LIMIT, b)
    requires Merge(DEC_LIMIT, a, b).Ok?
    ensures Valid(Merge(DEC_LIMIT, a, b).value)
    ensures DecValid(lower, Merge(DEC_LIMIT, a, b).value) <==> LaterFirstIsLower(lower, a, b)
  {
    var r := Merge(DEC_LIMIT, a, b).value;
    MergeIsSum(DEC_LIMIT, a, b);
    AddKeepsValid(DEC_LIMIT, a, b);
    if a != [] && b != [] && DecValid(lower, r) {
      if Less(a[0].denom, b[0].denom) { LaterIsLower(lower, r, a, b); }
      if Less(b[0].denom, a[0].denom) { LaterIsLower(lower, r, b, a); }
    }
    if LaterFirstIsLower(lower, a, b) {
      forall i | 0 < i < |r| ensures lower(r[i].denom) { SumIsLower(lower, r, a, b, i); }
    }
  }

  /** Every coin of a set is found in its sum with another one. */
  lemma FoundInSum(r: seq<Coin>, a: seq<Coin>, b: seq<Coin>, i: nat) returns (k: nat)
    requires Valid(a) && Valid(b) && IsSum(r, a, b) && i < |a|
    ensures k < |r| && r[k].denom == a[i].denom
  {
    var d := a[i].denom;
    AmountAt(a, i);
    ValidAmounts(b, d);
    AmountElsewhere(r, d);
    assert Amount(r, d) == Amount(a, d) + Amount(b, d);
    k :| k < |r| && r[k].denom == d;
  }

  lemma LaterIsLower(lower: Bytes -> bool, r: seq<Coin>, a: seq<Coin>, b: seq<Coin>)
    requires Valid(a) && Valid(b) && IsSum(r, a, b) && DecValid(lower, r)
    requires a != [] && b != [] && Less(a[0].denom, b[0].denom)
    ensures lower(b[0].denom)
  {
    var j := FoundInSum(r, a, b, 0);
    assert IsSum(r, b, a);
    var k := FoundInSum(r, b, a, 0);
    if k == 0 {
      if j > 0 { Asymmetric(r[0].denom, r[j].denom); } else { Irreflexive(r[0].denom); }
    }
  }

  lemma SumIsLower(lower: Bytes -> bool, r: seq<Coin>, a: seq<Coin>, b: seq<Coin>, i: nat)
    requires DecValid(lower, a) && DecValid(lower, b) && IsSum(r, a, b) && LaterFirstIsLower(lower, a, b) && 0 < i < |r|
    ensures lower(r[i].denom)
  {
    assert IsSum(r, b, a);
    SourceOf(r, a, b, i);
    if k :| 0 <= k < |a| && a[k].denom == r[i].denom {
      if k == 0 { EarlierInOther(r, a, b, i); }
    } else {
      var k :| 0 <= k < |b| && b[k].denom == r[i].denom;
      if k == 0 { EarlierInOther(r, b, a, i); }
    }
  }

  lemma SourceOf(r: seq<Coin>, a: seq<Coin>, b: seq<Coin>, i: nat)
    requires IsSum(r, a, b) && i < |r|
    ensures (exists k :: 0 <= k < |a| && a[k].denom == r[i].denom) || (exists k :: 0 <= k < |b| && b[k].denom == r[i].denom)
  {
    var d := r[i].denom;
    AmountAt(r, i);
    AmountElsewhere(a, d);
    AmountElsewhere(b, d);
    assert Amount(r, d) == Amount(a, d) + Amount(b, d);
  }

  /** A first denomination that is not first in the sum has that of the other set before it. */
  lemma EarlierInOther(r: seq<Coin>, a: seq<Coin>, b: seq<Coin>, i: nat)
    requires Valid(a) && Valid(b) && IsSum(r, a, b) && a != [] && 0 < i < |r| && r[i].denom == a[0].denom
    ensures b != [] && Less(b[0].denom, a[0].denom)
  {
    SourceOf(r, a, b, 0);
    if k :| 0 <= k < |a| && a[k].denom == r[0].denom {
      if k > 0 { Asymmetric(a[0].denom, a[k].denom); } else { Irreflexive(a[0].denom); }
      assert false;
    }
    var k :| 0 <= k < |b| && b[k].denom == r[0].denom;
    if k > 0 { Transitive(b[0].denom, b[k].denom, a[0].denom); }
  }

  lemma Asymmetric(d: Bytes, e: Bytes)
    requires Less(d, e)
    ensures !Less(e, d)
  {
    Irreflexive(d);
    if Less(e, d) { Transitive(d, e, d); }
  }

  /** {AB} plus {AC}: both are valid and their sum is not. */
  lemma UpperCaseSum(lower: Bytes -> bool)
    requires LowersAscii(lower)
    ensures var ab, ac := Coin([65, 66], P), Coin([65, 67], P);
            && DecValid(lower, [ab]) && DecValid(lower, [ac])
            && Merge(DEC_LIMIT, [ab], [ac]) == Ok([ab, ac]) && !DecValid(lower, [ab, ac])
  {
    var ab, ac := Coin([65, 66], P), Coin([65, 67], P);
    assert Less([65, 66], [65, 67]) by { assert [65, 66][1..] == [66] && [65, 67][1..] == [67]; }
    assert [ab][1..] == [] && NonZero([ac]) == [ac] by { assert [ac][1..] == []; }
    assert Merge(DEC_LIMIT, [], [ac]) == Ok([ac]);
    assert [ab] + [ac] == [ab, ac];
    assert !NoUpperCase([65, 67]) by { assert [65, 67][0] == 65; }
    assert [ab, ac][1].denom == [65, 67];
  }

  // ---- Truncation ----

  /** A coin whose whole part can be made into a coin. */
  predicate Truncatable(c: Coin) {
    ValidDenom(c.denom) && c.amount < INT_LIMIT * P
  }

  /** Whole coins `t` and change `c` make up `s`. */
  ghost predicate Splits(s: seq<Coin>, t: seq<Coin>, c: seq<Coin>) {
    && Sorted(t) && NoZeros(t) && Sorted(c) && NoZeros(c)
    && forall d :: Amount(s, d) == Amount(t, d) * P + Amount(c, d) && 0 <= Amount(c, d) < P && 0 <= Amount(t, d) < INT_LIMIT
  }

  /** `DecCoin.TruncateDecimal` of a coin that is not negative. */
  function TruncateCoin(c: Coin): (r: Outcome<(Coin, Coin)>)
    requires c.amount >= 0
    ensures r.Ok? <==> Truncatable(c)
    ensures r.Ok? ==> var (t, change) := r.value;
                      && t.denom == change.denom == c.denom && t.amount * P + change.amount == c.amount
                      && 0 <= change.amount < P && 0 <= t.amount < INT_LIMIT
  {
    var truncated := ChopTruncate(c.amount);
    if !InRange(INT_LIMIT, truncated) then Panic
    else
      var change := Decimal.Sub(c.amount, truncated * P);
      if change.Panic? || !ValidDenom(c.denom) || truncated < 0 then Panic
      else Ok((Coin(c.denom, truncated), Coin(c.denom, change.value)))
  }

  /** Every valid set splits into whole coins and change below one, with nothing
      lost in any denomination and no zero coin in either part; it panics exactly
      on a coin that no `Coin` can hold. */
  method TruncateDecimal(coins: seq<Coin>) returns (r: Outcome<(seq<Coin>, seq<Coin>)>)
    requires Valid(coins)
    ensures r.Ok? <==> forall i :: 0 <= i < |coins| ==> Truncatable(coins[i])
    ensures r.Ok? ==> Splits(coins, r.value.0, r.value.1)
  {
    var t: seq<Coin>, c: seq<Coin> := [], [];
    for i := 0 to |coins|
      invariant forall j :: 0 <= j < i ==> Truncatable(coins[j])
      invariant Splits(coins[..i], t, c)
    {
      var one := TruncateCoin(coins[i]);
      if one.Panic? { return Panic; }
      var (whole, change) := one.value;
      SplitsNext(coins, i, t, c, whole, change);
      if whole.amount != 0 {
        var sum := Merge(INT_LIMIT, t, [whole]);
        t := sum.value;
      }
      if change.amount != 0 {
        var sum := Merge(DEC_LIMIT, c, [change]);
        c := sum.value;
      }
    }
    assert coins[..|coins|] == coins;
    r := Ok((t, c));
  }

  function Plus(limit: Limit, s: seq<Coin>, c: Coin): Outcome<seq<Coin>> {
    if c.amount != 0 then Merge(limit, s, [c]) else Ok(s)
  }

  lemma SplitsNext(coins: seq<Coin>, i: nat, t: seq<Coin>, c: seq<Coin>, whole: Coin, change: Coin)
    requires Valid(coins) && i < |coins| && Splits(coins[..i], t, c)
    requires whole.denom == change.denom == coins[i].denom && whole.amount * P + change.amount == coins[i].amount
    requires 0 <= change.amount < P && 0 <= whole.amount < INT_LIMIT
    ensures var t', c' := Plus(INT_LIMIT, t, whole), Plus(DEC_LIMIT, c, change);
            t'.Ok? && c'.Ok? && Splits(coins[..i + 1], t'.value, c'.value)
  {
    var d := coins[i].denom;
    AmountSnoc(coins, i);
    assert Amount(t, d) * P + Amount(c, d) == 0;
    PlusNew(INT_LIMIT, t, whole);
    PlusNew(DEC_LIMIT, c, change);
  }

  /** Adding a coin of a denomination that is not there yet. */
  lemma PlusNew(limit: Limit, s: seq<Coin>, c: Coin)
    requires Sorted(s) && NoZeros(s) && (forall d :: 0 <= Amount(s, d) < limit)
    requires 0 <= c.amount < limit && Amount(s, c.denom) == 0
    ensures Plus(limit, s, c).Ok?
    ensures var r := Plus(limit, s, c).value;
            Sorted(r) && NoZeros(r) && forall d :: Amount(r, d) == if d == c.denom then c.amount else Amount(s, d)
  {
    if c.amount != 0 {
      forall i | 0 <= i < |s| ensures InRange(limit, s[i].amount) { AmountAt(s, i); assert Amount(s, s[i].denom) >= 0; }
      OneCoin(c);
      MergeIsSum(limit, s, [c]);
      forall d ensures InRange(limit, Amount(s, d) + Amount([c], d)) {}
      var r := Plus(limit, s, c).value;
      forall d ensures Amount(r, d) == if d == c.denom then c.amount else Amount(s, d) {
        assert Amount(r, d) == Amount(s, d) + Amount([c], d);
      }
    }
  }

  // ---- Intersection ----

  function MinDec(a: Dec, b: Dec): (m: Dec)
    ensures m <= a && m <= b && (m == a || m == b)
  {
    if a < b then a else b
  }

  /** The coins of the first set with the smaller amounts. */
  function Minima(a: seq<Coin>, b: seq<Coin>): seq<Coin> {
    seq(|a|, i requires 0 <= i < |a| => Coin(a[i].denom, MinDec(a[i].amount, Amount(b, a[i].denom))))
  }

  /** It panics exactly when the first set holds a denomination that cannot be
      looked up. */
  method Intersect(a: seq<Coin>, b: seq<Coin>) returns (r: Outcome<seq<Coin>>)
    requires Valid(a) && Valid(b)
    ensures r.Ok? <==> AllDenomsValid(a)
    ensures r.Ok? ==> r.value == NonZero(Minima(a, b))
  {
    var res := new Coin[|a|](_ => Coin([], 0));
    for i := 0 to |a|
      invariant forall j :: 0 <= j < i ==> ValidDenom(a[j].denom)
      invariant forall j :: 0 <= j < i ==> res[j] == Minima(a, b)[j]
    {
      SearchIsLookup(b, a[i].denom);
      var amount := AmountOf(b, a[i].denom);
      if amount.Panic? { return Panic; }
      res[i] := Coin(a[i].denom, MinDec(a[i].amount, amount.value));
    }
    assert res[0..|a|] == Minima(a, b);
    var end := RemoveZeroCoins(res, 0, |a|);
    r := Ok(res[0..end]);
  }

  /** The common part has the smaller amount of every denomination, and it is valid
      if the first set is. */
  lemma IntersectLaws(lower: Bytes -> bool, a: seq<Coin>, b: seq<Coin>)
    requires Valid(a) && Valid(b) && AllDenomsValid(a)
    ensures var r := NonZero(Minima(a, b));
            && Valid(r) && (forall d :: Amount(r, d) == MinDec(Amount(a, d), Amount(b, d)))
            && (DecValid(lower, a) ==> DecValid(lower, r))
  {
    MinLaws(a, b, Minima(a, b));
    var r := NonZero(Minima(a, b));
    if DecValid(lower, a) {
      forall i | 0 < i < |r| ensures lower(r[i].denom) { var j := NonZeroAt(Minima(a, b), i); }
    }
  }

  lemma {:induction false} NonZeroAt(s: seq<Coin>, i: nat) returns (j: nat)
    requires i < |NonZero(s)|
    ensures i <= j < |s| && NonZero(s)[i] == s[j]
  {
    if s[0].amount == 0 {
      j := NonZeroAt(s[1..], i);
      j := j + 1;
    } else if i == 0 {
      j := 0;
    } else {
      j := NonZeroAt(s[1..], i - 1);
      j := j + 1;
    }
  }

  lemma MinLaws(a: seq<Coin>, b: seq<Coin>, s: seq<Coin>)
    requires Valid(a) && Valid(b) && AllDenomsValid(a) && s == Minima(a, b)
    ensures Valid(NonZero(s)) && forall d :: Amount(NonZero(s), d) == MinDec(Amount(a, d), Amount(b, d))
  {
    assert Sorted(s);
    NonZeroLaws(s);
    forall d ensures Amount(NonZero(s), d) == MinDec(Amount(a, d), Amount(b, d)) {
      ValidAmounts(b, d);
      MinAmount(a, b, s, d);
    }
    var r := NonZero(s);
    forall i | 0 <= i < |r| ensures r[i].amount > 0 && ValidDenom(r[i].denom) {
      AmountAt(r, i);
      AmountElsewhere(a, r[i].denom);
      ValidAmounts(a, r[i].denom);
      ValidAmounts(b, r[i].denom);
    }
  }

  lemma {:induction false} MinAmount(a: seq<Coin>, b: seq<Coin>, s: seq<Coin>, d: Bytes)
    requires Amount(b, d) >= 0 && |s| == |a|
    requires forall j :: 0 <= j < |a| ==> s[j] == Coin(a[j].denom, MinDec(a[j].amount, Amount(b, a[j].denom)))
    ensures Amount(s, d) == MinDec(Amount(a, d), Amount(b, d))
  {
    if a != [] && a[0].denom != d { MinAmount(a[1..], b, s[1..], d); }
  }
}
