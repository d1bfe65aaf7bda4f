/** Coin sets add like vectors of amounts. */
module CoinLaws {
  import opened Bytes
  import opened Coins

  predicate Above(low: Bytes, s: seq<Coin>) {
    forall i :: 0 <= i < |s| ==> Less(low, s[i].denom)
  }

  lemma SortedTail(s: seq<Coin>)
    requires Sorted(s) && s != []
    ensures Sorted(s[1..]) && Above(s[0].denom, s[1..])
  {
  }

  lemma AboveAll(low: Bytes, s: seq<Coin>)
    requires Sorted(s) && (s != [] ==> Less(low, s[0].denom))
    ensures Above(low, s)
  {
    forall i | 0 <= i < |s| ensures Less(low, s[i].denom) {
      if i > 0 { Transitive(low, s[0].denom, s[i].denom); }
    }
  }

  lemma AboveAmount(low: Bytes, s: seq<Coin>)
    requires Above(low, s)
    ensures Amount(s, low) == 0
  {
    AmountElsewhere(s, low);
    Irreflexive(low);
  }

  /** A coin in front of a set with greater denominations. */
  lemma PushLaws(c: Coin, s: seq<Coin>)
    requires Sorted(s) && NoZeros(s) && Above(c.denom, s)
    ensures Sorted(Push(c) + s) && NoZeros(Push(c) + s)
    ensures forall d :: Amount(Push(c) + s, d) == if d == c.denom then c.amount else Amount(s, d)
  {
    AboveAmount(c.denom, s);
    if c.amount == 0 {
      assert Push(c) + s == s;
    } else {
      var r := Push(c) + s;
      assert r[0] == c && r[1..] == s;
      forall i, j | 0 <= i < j < |r| ensures Less(r[i].denom, r[j].denom) {
        assert r[j] == s[j - 1] && (i > 0 ==> r[i] == s[i - 1]);
      }
    }
  }

  lemma {:induction false} NonZeroLaws(s: seq<Coin>)
    requires Sorted(s)
    ensures Sorted(NonZero(s)) && NoZeros(NonZero(s))
    ensures forall d :: Amount(NonZero(s), d) == Amount(s, d)
    ensures forall low :: Above(low, s) ==> Above(low, NonZero(s))
  {
    if s != [] {
      SortedTail(s);
      NonZeroLaws(s[1..]);
      PushLaws(s[0], NonZero(s[1..]));
      assert NonZero(s) == Push(s[0]) + NonZero(s[1..]);
      forall low | Above(low, s) ensures Above(low, NonZero(s)) {
        assert Above(low, s[1..]);
      }
    }
  }

  /** The amounts of a longer prefix. */
  lemma AmountSnoc(coins: seq<Coin>, i: nat)
    requires Sorted(coins) && i < |coins|
    ensures Amount(coins[..i], coins[i].denom) == 0
    ensures forall d :: Amount(coins[..i + 1], d) == if d == coins[i].denom then coins[i].amount else Amount(coins[..i], d)
  {
    if i > 0 { AmountAbove(coins[..i], coins[i].denom); }
    forall d ensures Amount(coins[..i + 1], d) == if d == coins[i].denom then coins[i].amount else Amount(coins[..i], d) {
      AmountSplit(coins[..i + 1], i, d);
      assert coins[..i + 1][..i] == coins[..i] && coins[..i + 1][i..] == [coins[i]];
      assert [coins[i]][1..] == [];
      if d == coins[i].denom { AmountAt(coins[..i + 1], i); }
    }
  }

  lemma OneCoin(c: Coin)
    ensures forall d :: Amount([c], d) == if d == c.denom then c.amount else 0
  {
    assert [c][1..] == [];
  }

  // ---- Addition is pointwise ----

  /** `r` is the sum of two sets, in canonical form. */
  ghost predicate IsSum(r: seq<Coin>, a: seq<Coin>, b: seq<Coin>) {
    Sorted(r) && NoZeros(r) && forall d :: Amount(r, d) == Amount(a, d) + Amount(b, d)
  }

  ghost predicate Fits(limit: Limit, a: seq<Coin>, b: seq<Coin>) {
    forall d :: InRange(limit, Amount(a, d) + Amount(b, d))
  }

  lemma BoundedAmount(limit: Limit, s: seq<Coin>, d: Bytes)
    requires Bounded(limit, s)
    ensures InRange(limit, Amount(s, d))
  {
    AmountElsewhere(s, d);
  }

  lemma SumBounded(limit: Limit, r: seq<Coin>, a: seq<Coin>, b: seq<Coin>)
    requires IsSum(r, a, b) && Fits(limit, a, b)
    ensures Bounded(limit, r)
  {
    forall i | 0 <= i < |r| ensures InRange(limit, r[i].amount) {
      AmountAt(r, i);
      assert InRange(limit, Amount(a, r[i].denom) + Amount(b, r[i].denom));
    }
  }

  lemma SumAbove(low: Bytes, r: seq<Coin>, a: seq<Coin>, b: seq<Coin>)
    requires IsSum(r, a, b) && Above(low, a) && Above(low, b)
    ensures Above(low, r)
  {
    forall i | 0 <= i < |r| ensures Less(low, r[i].denom) {
      var d := r[i].denom;
      AmountAt(r, i);
      AmountElsewhere(a, d);
      AmountElsewhere(b, d);
      assert Amount(a, d) != 0 || Amount(b, d) != 0;
    }
  }

  /** On sorted sets the merge panics exactly when an amount outgrows an Int, and
      is the pointwise sum otherwise. */
  lemma {:induction false} MergeIsSum(limit: Limit, a: seq<Coin>, b: seq<Coin>)
    requires Sorted(a) && Sorted(b) && Bounded(limit, a) && Bounded(limit, b)
    ensures Merge(limit, a, b).Ok? <==> Fits(limit, a, b)
    ensures Merge(limit, a, b).Ok? ==> IsSum(Merge(limit, a, b).value, a, b)
    decreases |a| + |b|
  {
    if a == [] {
      NonZeroLaws(b);
      forall d ensures InRange(limit, Amount(a, d) + Amount(b, d)) { BoundedAmount(limit, b, d); }
    } else if b == [] {
      NonZeroLaws(a);
      forall d ensures InRange(limit, Amount(a, d) + Amount(b, d)) { BoundedAmount(limit, a, d); }
    } else {
      SortedTail(a);
      SortedTail(b);
      Trichotomy(a[0].denom, b[0].denom);
      if Less(a[0].denom, b[0].denom) {
        AboveAll(a[0].denom, b);
        MergeIsSum(limit, a[1..], b);
        FirstOfOne(limit, a, b);
      } else if a[0].denom == b[0].denom {
        MergeIsSum(limit, a[1..], b[1..]);
        FirstOfBoth(limit, a, b);
      } else {
        AboveAll(b[0].denom, a);
        MergeIsSum(limit, a, b[1..]);
        FirstOfOne(limit, b, a);
        if Merge(limit, a, b[1..]).Ok? {
          var r := Merge(limit, a, b[1..]).value;
          assert IsSum(r, b[1..], a) by { assert forall d :: Amount(r, d) == Amount(a, d) + Amount(b[1..], d); }
        }
        assert Fits(limit, a, b) <==> Fits(limit, b, a);
        assert Fits(limit, a, b[1..]) <==> Fits(limit, b[1..], a);
      }
    }
  }

  /** The first coin of `a` comes before all of `b`. */
  lemma FirstOfOne(limit: Limit, a: seq<Coin>, b: seq<Coin>)
    requires a != [] && Sorted(a) && Above(a[0].denom, b) && Bounded(limit, a)
    ensures Fits(limit, a, b) <==> Fits(limit, a[1..], b)
    ensures forall r :: IsSum(r, a[1..], b) ==> IsSum(Push(a[0]) + r, a, b)
  {
    var low := a[0].denom;
    SortedTail(a);
    AboveAmount(low, a[1..]);
    AboveAmount(low, b);
    assert Fits(limit, a, b) ==> Fits(limit, a[1..], b) by {
      if Fits(limit, a, b) {
        forall d ensures InRange(limit, Amount(a[1..], d) + Amount(b, d)) { assert InRange(limit, Amount(a, d) + Amount(b, d)); }
      }
    }
    assert Fits(limit, a[1..], b) ==> Fits(limit, a, b) by {
      if Fits(limit, a[1..], b) {
        forall d ensures InRange(limit, Amount(a, d) + Amount(b, d)) { assert InRange(limit, Amount(a[1..], d) + Amount(b, d)); }
      }
    }
    forall r | IsSum(r, a[1..], b) ensures IsSum(Push(a[0]) + r, a, b) {
      SumAbove(low, r, a[1..], b);
      PushLaws(a[0], r);
    }
  }

  lemma FirstOfBoth(limit: Limit, a: seq<Coin>, b: seq<Coin>)
    requires a != [] && b != [] && Sorted(a) && Sorted(b) && a[0].denom == b[0].denom
    ensures Fits(limit, a, b) <==> InRange(limit, a[0].amount + b[0].amount) && Fits(limit, a[1..], b[1..])
    ensures InRange(limit, a[0].amount + b[0].amount) ==>
              forall r :: IsSum(r, a[1..], b[1..]) ==> IsSum(Push(Coin(a[0].denom, a[0].amount + b[0].amount)) + r, a, b)
  {
    var low := a[0].denom;
    SortedTail(a);
    SortedTail(b);
    AboveAmount(low, a[1..]);
    AboveAmount(low, b[1..]);
    assert Amount(a, low) + Amount(b, low) == a[0].amount + b[0].amount;
    assert Fits(limit, a, b) ==> Fits(limit, a[1..], b[1..]) by {
      if Fits(limit, a, b) {
        forall d ensures InRange(limit, Amount(a[1..], d) + Amount(b[1..], d)) { assert InRange(limit, Amount(a, d) + Amount(b, d)); }
      }
    }
    if InRange(limit, a[0].amount + b[0].amount) {
      if Fits(limit, a[1..], b[1..]) {
        forall d ensures InRange(limit, Amount(a, d) + Amount(b, d)) { assert InRange(limit, Amount(a[1..], d) + Amount(b[1..], d)); }
      }
      var c := Coin(low, a[0].amount + b[0].amount);
      forall r | IsSum(r, a[1..], b[1..]) ensures IsSum(Push(c) + r, a, b) {
        SumAbove(low, r, a[1..], b[1..]);
        PushLaws(c, r);
      }
    }
  }

  // ---- Laws of addition ----

  lemma AddCommutes(limit: Limit, a: seq<Coin>, b: seq<Coin>)
    requires Sorted(a) && Sorted(b) && Bounded(limit, a) && Bounded(limit, b)
    ensures Merge(limit, a, b) == Merge(limit, b, a)
  {
    MergeIsSum(limit, a, b);
    MergeIsSum(limit, b, a);
    assert Fits(limit, a, b) <==> Fits(limit, b, a);
    if Merge(limit, a, b).Ok? { SameAmounts(Merge(limit, a, b).value, Merge(limit, b, a).value); }
  }

  function AddTo(limit: Limit, o: Outcome<seq<Coin>>, b: seq<Coin>): Outcome<seq<Coin>> {
    if o.Panic? then Panic else Merge(limit, o.value, b)
  }

  function AddFrom(limit: Limit, a: seq<Coin>, o: Outcome<seq<Coin>>): Outcome<seq<Coin>> {
    if o.Panic? then Panic else Merge(limit, a, o.value)
  }

  lemma ValidAmounts(s: seq<Coin>, d: Bytes)
    requires Valid(s)
    ensures Amount(s, d) >= 0
  {
    AmountElsewhere(s, d);
  }

  /** On valid sets addition is associative, overflow included. */
  lemma AddAssociates(limit: Limit, a: seq<Coin>, b: seq<Coin>, c: seq<Coin>)
    requires Valid(a) && Valid(b) && Valid(c) && Bounded(limit, a) && Bounded(limit, b) && Bounded(limit, c)
    ensures AddTo(limit, Merge(limit, a, b), c) == AddFrom(limit, a, Merge(limit, b, c))
  {
    MergeIsSum(limit, a, b);
    MergeIsSum(limit, b, c);
    ThreeFit(limit, a, b, c);
    ThreeFit(limit, c, b, a);
    assert Fits(limit, b, a) <==> Fits(limit, a, b);
    AddCommutes(limit, a, b);
    AddCommutes(limit, b, c);
    if Merge(limit, b, c).Ok? {
      SumBounded(limit, Merge(limit, b, c).value, b, c);
      AddCommutes(limit, a, Merge(limit, b, c).value);
    }
    if AddTo(limit, Merge(limit, a, b), c).Ok? {
      SameAmounts(AddTo(limit, Merge(limit, a, b), c).value, AddTo(limit, Merge(limit, b, c), a).value);
    }
  }

  ghost predicate AllFit(limit: Limit, a: seq<Coin>, b: seq<Coin>, c: seq<Coin>) {
    forall d :: InRange(limit, Amount(a, d) + Amount(b, d) + Amount(c, d))
  }

  lemma ThreeFit(limit: Limit, a: seq<Coin>, b: seq<Coin>, c: seq<Coin>)
    requires Valid(a) && Valid(b) && Valid(c) && Bounded(limit, a) && Bounded(limit, b) && Bounded(limit, c)
    ensures AddTo(limit, Merge(limit, a, b), c).Ok? <==> AllFit(limit, a, b, c)
    ensures AddTo(limit, Merge(limit, a, b), c).Ok? ==>
              var r := AddTo(limit, Merge(limit, a, b), c).value;
              Sorted(r) && NoZeros(r) && forall d :: Amount(r, d) == Amount(a, d) + Amount(b, d) + Amount(c, d)
  {
    MergeIsSum(limit, a, b);
    if Merge(limit, a, b).Ok? {
      var ab := Merge(limit, a, b).value;
      SumBounded(limit, ab, a, b);
      MergeIsSum(limit, ab, c);
      SumFits(limit, ab, a, b, c);
    } else {
      var d :| !InRange(limit, Amount(a, d) + Amount(b, d));
      ValidAmounts(a, d);
      ValidAmounts(b, d);
      ValidAmounts(c, d);
      assert !InRange(limit, Amount(a, d) + Amount(b, d) + Amount(c, d));
    }
  }

  lemma SumFits(limit: Limit, ab: seq<Coin>, a: seq<Coin>, b: seq<Coin>, c: seq<Coin>)
    requires IsSum(ab, a, b)
    ensures Fits(limit, ab, c) <==> AllFit(limit, a, b, c)
  {
    forall d ensures Amount(ab, d) + Amount(c, d) == Amount(a, d) + Amount(b, d) + Amount(c, d) {}
    if Fits(limit, ab, c) {
      forall d ensures InRange(limit, Amount(a, d) + Amount(b, d) + Amount(c, d)) { assert InRange(limit, Amount(ab, d) + Amount(c, d)); }
    }
    if AllFit(limit, a, b, c) {
      forall d ensures InRange(limit, Amount(ab, d) + Amount(c, d)) { assert InRange(limit, Amount(a, d) + Amount(b, d) + Amount(c, d)); }
    }
  }

  /** The sum of valid sets is a valid set. */
  lemma AddKeepsValid(limit: Limit, a: seq<Coin>, b: seq<Coin>)
    requires Valid(a) && Valid(b) && Bounded(limit, a) && Bounded(limit, b) && Merge(limit, a, b).Ok?
    ensures Valid(Merge(limit, a, b).value)
  {
    var r := Merge(limit, a, b).value;
    MergeIsSum(limit, a, b);
    forall i | 0 <= i < |r| ensures r[i].amount > 0 {
      AmountAt(r, i);
      ValidAmounts(a, r[i].denom);
      ValidAmounts(b, r[i].denom);
    }
    if a == [] {
      NonZeroIsSame(b);
    } else if b == [] {
      NonZeroIsSame(a);
    }
  }

  lemma {:induction false} NonZeroIsSame(s: seq<Coin>)
    requires NoZeros(s)
    ensures NonZero(s) == s
  {
    if s != [] {
      NonZeroIsSame(s[1..]);
      assert s == [s[0]] + s[1..];
    }
  }

  // ---- Subtraction ----

  function Negative(s: seq<Coin>): (r: seq<Coin>)
    ensures |r| == |s| && forall i :: 0 <= i < |s| ==> r[i] == Coin(s[i].denom, -s[i].amount)
  {
    seq(|s|, i requires 0 <= i < |s| => Coin(s[i].denom, -s[i].amount))
  }

  lemma {:induction false} NegativeAmount(s: seq<Coin>, d: Bytes)
    ensures Amount(Negative(s), d) == -Amount(s, d)
  {
    if s != [] {
      assert Negative(s)[1..] == Negative(s[1..]);
      NegativeAmount(s[1..], d);
    }
  }

  predicate AnyNegative(s: seq<Coin>) {
    exists i :: 0 <= i < |s| && s[i].amount < 0
  }

  /** `SafeSub`: the difference, and whether any amount in it is negative. */
  function SafeSub(limit: Limit, a: seq<Coin>, b: seq<Coin>): Outcome<(seq<Coin>, bool)> {
    var diff := Merge(limit, a, Negative(b));
    if diff.Panic? then Panic else Ok((diff.value, AnyNegative(diff.value)))
  }

  function Sub(limit: Limit, a: seq<Coin>, b: seq<Coin>): Outcome<seq<Coin>> {
    var r := SafeSub(limit, a, b);
    if r.Panic? || r.value.1 then Panic else Ok(r.value.0)
  }

  /** `a` holds at least as much as `b` of everything. */
  ghost predicate Covers(a: seq<Coin>, b: seq<Coin>) {
    forall d :: Amount(a, d) >= Amount(b, d)
  }

  ghost predicate IsDifference(r: seq<Coin>, a: seq<Coin>, b: seq<Coin>) {
    Sorted(r) && NoZeros(r) && forall d :: Amount(r, d) == Amount(a, d) - Amount(b, d)
  }

  /** On valid sets a subtraction never overflows, its result is the pointwise
      difference, and it reports a negative amount exactly when `b` is not covered. */
  lemma SafeSubLaws(limit: Limit, a: seq<Coin>, b: seq<Coin>)
    requires Valid(a) && Valid(b) && Bounded(limit, a) && Bounded(limit, b)
    ensures SafeSub(limit, a, b).Ok? && IsDifference(SafeSub(limit, a, b).value.0, a, b)
    ensures SafeSub(limit, a, b).value.1 <==> !Covers(a, b)
  {
    var n := Negative(b);
    forall d ensures Amount(n, d) == -Amount(b, d) && 0 <= Amount(a, d) < limit && 0 <= Amount(b, d) < limit {
      NegativeAmount(b, d);
      BoundedAmount(limit, a, d);
      BoundedAmount(limit, b, d);
      ValidAmounts(a, d);
      ValidAmounts(b, d);
    }
    assert Sorted(n);
    MergeIsSum(limit, a, n);
    assert Fits(limit, a, n) by { forall d ensures InRange(limit, Amount(a, d) + Amount(n, d)) {} }
    var r := SafeSub(limit, a, b).value.0;
    if AnyNegative(r) {
      var i :| 0 <= i < |r| && r[i].amount < 0;
      AmountAt(r, i);
      assert Amount(a, r[i].denom) < Amount(b, r[i].denom);
    }
    if !Covers(a, b) {
      var d :| Amount(a, d) < Amount(b, d);
      AmountElsewhere(r, d);
    }
  }

  /** What was taken away can be put back. */
  lemma SubThenAdd(limit: Limit, a: seq<Coin>, b: seq<Coin>)
    requires Valid(a) && Valid(b) && Bounded(limit, a) && Bounded(limit, b) && Covers(a, b)
    ensures Sub(limit, a, b).Ok? && Merge(limit, Sub(limit, a, b).value, b) == Ok(a)
  {
    SafeSubLaws(limit, a, b);
    var r := Sub(limit, a, b).value;
    forall i | 0 <= i < |r| ensures InRange(limit, r[i].amount) {
      AmountAt(r, i);
      BoundedAmount(limit, a, r[i].denom);
      ValidAmounts(b, r[i].denom);
    }
    MergeIsSum(limit, r, b);
    assert Fits(limit, r, b) by {
      forall d ensures InRange(limit, Amount(r, d) + Amount(b, d)) { BoundedAmount(limit, a, d); }
    }
    SameAmounts(Merge(limit, r, b).value, a);
  }

  lemma SubPanicsIff(limit: Limit, a: seq<Coin>, b: seq<Coin>)
    requires Valid(a) && Valid(b) && Bounded(limit, a) && Bounded(limit, b)
    ensures Sub(limit, a, b).Panic? <==> !Covers(a, b)
  {
    SafeSubLaws(limit, a, b);
  }

  // ---- Comparison ----

  /** The first coin of `b` that stops the comparison: it is more than `a` holds,
      or its denomination cannot be looked up. */
  predicate Stops(a: seq<Coin>, c: Coin) {
    !ValidDenom(c.denom) || c.amount > Amount(a, c.denom)
  }

  method IsAllGTE(a: seq<Coin>, b: seq<Coin>) returns (r: Outcome<bool>)
    requires Valid(a) && Valid(b)
    ensures r.Ok? ==> (r.value <==> Covers(a, b))
    ensures r.Panic? <==> a != [] && exists i :: 0 <= i < |b| && !ValidDenom(b[i].denom) && forall j :: 0 <= j < i ==> !Stops(a, b[j])
  {
    CoversByCoin(a, b);
    if |b| == 0 { return Ok(true); }
    if |a| == 0 {
      assert b[0].amount > Amount(a, b[0].denom);
      return Ok(false);
    }
    for i := 0 to |b|
      invariant forall j :: 0 <= j < i ==> !Stops(a, b[j])
    {
      SearchIsLookup(a, b[i].denom);
      var amount := AmountOf(a, b[i].denom);
      if amount.Panic? { return Panic; }
      if b[i].amount > amount.value {
        assert Stops(a, b[i]);
        return Ok(false);
      }
    }
    r := Ok(true);
  }

  /** 1 AB and 1 ~ make a valid set, and the second denomination cannot be looked up. */
  lemma UnreadableDenom()
    ensures var s := [Coin([65, 66], 1), Coin([126], 1)];
            Valid(s) && !ValidDenom(s[1].denom) && AmountOf(s, s[1].denom).Panic?
            && Covers(s, s) && !Stops(s, s[0])
  {
    var s := [Coin([65, 66], 1), Coin([126], 1)];
    assert Less(s[0].denom, s[1].denom);
  }

  lemma CoversByCoin(a: seq<Coin>, b: seq<Coin>)
    requires Valid(a) && Valid(b)
    ensures Covers(a, b) <==> forall i :: 0 <= i < |b| ==> b[i].amount <= Amount(a, b[i].denom)
  {
    forall i | 0 <= i < |b| ensures Amount(b, b[i].denom) == b[i].amount { AmountAt(b, i); }
    forall d ensures Amount(b, d) == 0 || exists i :: 0 <= i < |b| && b[i].denom == d && b[i].amount == Amount(b, d) {
      AmountElsewhere(b, d);
    }
    forall d ensures Amount(a, d) >= 0 { ValidAmounts(a, d); }
  }
}
