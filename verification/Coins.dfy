/** Sets of coins: slices sorted by denomination. */
module Coins {
  import opened Bytes

  /** 2^255: `Int` holds numbers of at most 255 bits and a sign. */
  const INT_LIMIT: Limit := 0x8000000000000000000000000000000000000000000000000000000000000000

  type Limit = x: int | x > 0 witness 1

  /** Sums are checked against a limit: 2^255 for `Int`, 2^315 for decimals. */
  predicate InRange(limit: Limit, x: int) {
    0 - limit < x < limit
  }

  /** A `Coin` or, counting units of 10^-18, a `DecCoin`. */
  datatype Coin = Coin(denom: Bytes, amount: int)

  predicate Bounded(limit: Limit, s: seq<Coin>) {
    forall i :: 0 <= i < |s| ==> InRange(limit, s[i].amount)
  }

  // ---- What a set of coins is ----

  predicate IsAlphanumeric(b: byte) {
    48 <= b <= 57 || 65 <= b <= 90 || 97 <= b <= 122
  }

  /** `validateDenom`: two to forty letters and digits. */
  predicate ValidDenom(d: Bytes) {
    2 <= |d| <= 40 && forall i :: 0 <= i < |d| ==> IsAlphanumeric(d[i])
  }

  predicate Sorted(s: seq<Coin>) {
    forall i, j :: 0 <= i < j < |s| ==> Less(s[i].denom, s[j].denom)
  }

  predicate NoZeros(s: seq<Coin>) {
    forall i :: 0 <= i < |s| ==> s[i].amount != 0
  }

  /** Only the first denomination is looked at as such. */
  predicate Valid(s: seq<Coin>) {
    Sorted(s) && (forall i :: 0 <= i < |s| ==> s[i].amount > 0) && (s != [] ==> ValidDenom(s[0].denom))
  }

  predicate AllDenomsValid(s: seq<Coin>) {
    forall i :: 0 <= i < |s| ==> ValidDenom(s[i].denom)
  }

  /** The amount of a denomination, by looking through the set. */
  function Amount(s: seq<Coin>, d: Bytes): int {
    if s == [] then 0 else if s[0].denom == d then s[0].amount else Amount(s[1..], d)
  }

  method IsValid(s: seq<Coin>) returns (r: bool)
    ensures r <==> Valid(s)
  {
    if |s| == 0 { return true; }
    if !ValidDenom(s[0].denom) || s[0].amount <= 0 { return false; }
    var low := s[0].denom;
    for i := 1 to |s|
      invariant low == s[i - 1].denom
      invariant forall j :: 0 <= j < i ==> s[j].amount > 0
      invariant Sorted(s[..i])
    {
      if !Less(low, s[i].denom) {
        assert s[i - 1].denom == low;
        return false;
      }
      if s[i].amount <= 0 { return false; }
      SortedSnoc(s, i);
      low := s[i].denom;
    }
    assert s[..|s|] == s;
    r := true;
  }

  lemma SortedSnoc(s: seq<Coin>, i: nat)
    requires 0 < i < |s| && Sorted(s[..i]) && Less(s[i - 1].denom, s[i].denom)
    ensures Sorted(s[..i + 1])
  {
    forall j | 0 <= j < i ensures Less(s[j].denom, s[i].denom) {
      if j < i - 1 {
        assert s[..i][j] == s[j] && s[..i][i - 1] == s[i - 1];
        Transitive(s[j].denom, s[i - 1].denom, s[i].denom);
      }
    }
    assert forall j, k :: 0 <= j < k < i ==> Less(s[..i][j].denom, s[..i][k].denom);
  }

  lemma {:induction false} AmountAt(s: seq<Coin>, i: nat)
    requires Sorted(s) && i < |s|
    ensures Amount(s, s[i].denom) == s[i].amount
  {
    if i > 0 {
      Irreflexive(s[i].denom);
      assert s[0].denom != s[i].denom;
      AmountAt(s[1..], i - 1);
    }
  }

  lemma {:induction false} AmountElsewhere(s: seq<Coin>, d: Bytes)
    ensures Amount(s, d) != 0 ==> exists i :: 0 <= i < |s| && s[i].denom == d && s[i].amount == Amount(s, d)
  {
    if s != [] && s[0].denom != d {
      AmountElsewhere(s[1..], d);
      if Amount(s, d) != 0 {
        var i :| 0 <= i < |s[1..]| && s[1..][i].denom == d && s[1..][i].amount == Amount(s, d);
        assert s[i + 1] == s[1..][i];
      }
    }
  }

  /** Denominations below the first are not there. */
  lemma AmountBelow(s: seq<Coin>, d: Bytes)
    requires Sorted(s) && (s != [] ==> Less(d, s[0].denom))
    ensures Amount(s, d) == 0
  {
    AmountElsewhere(s, d);
    if Amount(s, d) != 0 {
      var i :| 0 <= i < |s| && s[i].denom == d;
      Irreflexive(d);
      if i > 0 { Transitive(d, s[0].denom, d); }
    }
  }

  /** A sorted set without zeros is determined by its amounts. */
  lemma {:induction false} SameAmounts(s: seq<Coin>, t: seq<Coin>)
    requires Sorted(s) && Sorted(t) && NoZeros(s) && NoZeros(t)
    requires forall d :: Amount(s, d) == Amount(t, d)
    ensures s == t
  {
    if s == [] {
      if t != [] { AmountAt(t, 0); }
    } else if t == [] {
      AmountAt(s, 0);
    } else {
      AmountAt(s, 0);
      AmountAt(t, 0);
      Trichotomy(s[0].denom, t[0].denom);
      if Less(s[0].denom, t[0].denom) { AmountBelow(t, s[0].denom); }
      if Less(t[0].denom, s[0].denom) { AmountBelow(s, t[0].denom); }
      forall d ensures Amount(s[1..], d) == Amount(t[1..], d) {
        assert Amount(s, d) == Amount(t, d);
        if d == s[0].denom { TailAmount(s); TailAmount(t); }
      }
      SameAmounts(s[1..], t[1..]);
      assert s == [s[0]] + s[1..] && t == [t[0]] + t[1..];
    }
  }

  lemma TailAmount(s: seq<Coin>)
    requires Sorted(s) && s != []
    ensures Amount(s[1..], s[0].denom) == 0
  {
    AmountBelow(s[1..], s[0].denom);
  }

  // ---- Binary search ----

  /** `AmountOf` past the check of the denomination: halving the set. */
  function Search(s: seq<Coin>, d: Bytes): int
    decreases |s|
  {
    if |s| == 0 then 0
    else if |s| == 1 then if s[0].denom == d then s[0].amount else 0
    else
      var mid := |s| / 2;
      if Less(d, s[mid].denom) then Search(s[..mid], d)
      else if d == s[mid].denom then s[mid].amount
      else Search(s[mid + 1..], d)
  }

  function AmountOf(s: seq<Coin>, d: Bytes): Outcome<int> {
    if ValidDenom(d) then Ok(Search(s, d)) else Panic
  }

  lemma {:induction false} SearchIsLookup(s: seq<Coin>, d: Bytes)
    requires Sorted(s)
    ensures Search(s, d) == Amount(s, d)
    decreases |s|
  {
    if |s| == 1 {
      assert s[1..] == [];
    } else if |s| > 1 {
      var mid := |s| / 2;
      if Less(d, s[mid].denom) {
        SearchIsLookup(s[..mid], d);
        InLeftHalf(s, mid, d);
      } else if d == s[mid].denom {
        AmountAt(s, mid);
      } else {
        SearchIsLookup(s[mid + 1..], d);
        InRightHalf(s, mid, d);
      }
    }
  }

  lemma InLeftHalf(s: seq<Coin>, mid: nat, d: Bytes)
    requires Sorted(s) && mid < |s| && Less(d, s[mid].denom)
    ensures Amount(s, d) == Amount(s[..mid], d)
  {
    AmountSplit(s, mid, d);
    AmountBelow(s[mid..], d);
  }

  lemma InRightHalf(s: seq<Coin>, mid: nat, d: Bytes)
    requires Sorted(s) && mid < |s| && !Less(d, s[mid].denom) && d != s[mid].denom
    ensures Amount(s, d) == Amount(s[mid + 1..], d)
  {
    AmountSplit(s, mid + 1, d);
    Trichotomy(d, s[mid].denom);
    AmountAbove(s[..mid + 1], d);
  }

  lemma {:induction false} AmountSplit(s: seq<Coin>, n: nat, d: Bytes)
    requires n <= |s| && Sorted(s)
    ensures Amount(s, d) == if Amount(s[..n], d) != 0 then Amount(s[..n], d) else Amount(s[n..], d)
  {
    if n > 0 {
      AmountSplit(s[1..], n - 1, d);
      assert s[1..][..n - 1] == s[..n][1..] && s[1..][n - 1..] == s[n..];
      if s[0].denom == d && s[0].amount == 0 {
        AmountBelowAll(s, n);
      }
    }
  }

  lemma AmountBelowAll(s: seq<Coin>, n: nat)
    requires 0 < n <= |s| && Sorted(s)
    ensures Amount(s[n..], s[0].denom) == 0
  {
    AmountBelow(s[n..], s[0].denom);
  }

  lemma AmountAbove(s: seq<Coin>, d: Bytes)
    requires Sorted(s) && s != [] && Less(s[|s| - 1].denom, d)
    ensures Amount(s, d) == 0
  {
    AmountElsewhere(s, d);
    if Amount(s, d) != 0 {
      var i :| 0 <= i < |s| && s[i].denom == d;
      Irreflexive(d);
      if i < |s| - 1 { Transitive(d, s[|s| - 1].denom, d); }
    }
  }

  // ---- Merge addition ----

  function NonZero(s: seq<Coin>): seq<Coin> {
    if s == [] then [] else (if s[0].amount == 0 then [] else [s[0]]) + NonZero(s[1..])
  }

  function Prepend(p: seq<Coin>, o: Outcome<seq<Coin>>): Outcome<seq<Coin>> {
    if o.Panic? then Panic else Ok(p + o.value)
  }

  function Push(c: Coin): seq<Coin> {
    if c.amount == 0 then [] else [c]
  }

  /** The merge of two sets; adding amounts past the limit panics. */
  function Merge(limit: Limit, a: seq<Coin>, b: seq<Coin>): Outcome<seq<Coin>>
    decreases |a| + |b|
  {
    if a == [] then Ok(NonZero(b))
    else if b == [] then Ok(NonZero(a))
    else if Less(a[0].denom, b[0].denom) then Prepend(Push(a[0]), Merge(limit, a[1..], b))
    else if a[0].denom == b[0].denom then
      if InRange(limit, a[0].amount + b[0].amount) then
        Prepend(Push(Coin(a[0].denom, a[0].amount + b[0].amount)), Merge(limit, a[1..], b[1..]))
      else Panic
    else Prepend(Push(b[0]), Merge(limit, a, b[1..]))
  }

  /** `removeZeroCoins`, which shifts the rest of the slice left over a zero coin. */
  method RemoveZeroCoins(coins: array<Coin>, lo: nat, hi: nat) returns (end: nat)
    requires lo <= hi <= coins.Length
    modifies coins
    ensures lo <= end <= hi && coins[lo..end] == NonZero(old(coins[lo..hi]))
    ensures coins[..lo] == old(coins[..lo]) && coins[hi..] == old(coins[hi..])
    ensures NoZeros(old(coins[lo..hi])) ==> end == hi && coins[..] == old(coins[..])
  {
    var i, l := lo, hi;
    ghost var s, moved := coins[lo..hi], false;
    assert coins[lo..i] == [];
    while i < l
      invariant lo <= i <= l <= hi
      invariant coins[lo..i] + NonZero(coins[i..l]) == NonZero(s)
      invariant coins[..lo] == old(coins[..lo]) && coins[hi..] == old(coins[hi..])
      invariant if moved then !NoZeros(s) else l == hi && coins[..] == old(coins[..])
    {
      NonZeroStep(coins[lo..i], coins[i..l]);
      if coins[i].amount == 0 {
        if !moved { assert s[i - lo] == coins[i]; }
        assert coins[i..l][1..] == coins[i + 1..l];
        RemoveAt(coins, lo, i, l, hi);
        l, moved := l - 1, true;
      } else {
        assert coins[i..l][1..] == coins[i + 1..l] && coins[lo..i + 1] == coins[lo..i] + [coins[i]];
        i := i + 1;
      }
    }
    assert coins[lo..i] + [] == coins[lo..i];
    end := i;
  }

  method RemoveAt(coins: array<Coin>, ghost lo: nat, i: nat, l: nat, ghost hi: nat)
    requires lo <= i < l <= hi <= coins.Length
    modifies coins
    ensures coins[lo..i] == old(coins[lo..i]) && coins[i..l - 1] == old(coins[i + 1..l])
    ensures coins[..lo] == old(coins[..lo]) && coins[hi..] == old(coins[hi..])
  {
    ShiftLeft(coins, i, l);
  }

  lemma {:induction false} NonZeroStep(done: seq<Coin>, rest: seq<Coin>)
    requires rest != []
    ensures done + NonZero(rest) == (if rest[0].amount == 0 then done else done + [rest[0]]) + NonZero(rest[1..])
  {
    if rest[0].amount != 0 { Associative(done, rest[0], NonZero(rest[1..])); } else { assert [] + NonZero(rest[1..]) == NonZero(rest[1..]); }
  }

  lemma Associative(done: seq<Coin>, c: Coin, later: seq<Coin>)
    ensures done + ([c] + later) == done + [c] + later
  {
  }

  /** `append(s[:i], s[i+1:l]...)` in place. */
  method ShiftLeft(coins: array<Coin>, i: nat, l: nat)
    requires i < l <= coins.Length
    modifies coins
    ensures coins[i..l - 1] == old(coins[i + 1..l])
    ensures forall j :: 0 <= j < i || l <= j < coins.Length ==> coins[j] == old(coins[j])
  {
    var k := i;
    while k < l - 1
      invariant i <= k <= l - 1
      invariant forall j :: 0 <= j < coins.Length ==> coins[j] == if i <= j < k then old(coins[j + 1]) else old(coins[j])
    {
      coins[k] := coins[k + 1];
      k := k + 1;
    }
  }

  method WithoutZeros(coins: array<Coin>, lo: nat, hi: nat) returns (r: seq<Coin>)
    requires lo <= hi <= coins.Length
    modifies coins
    ensures r == NonZero(old(coins[lo..hi]))
    ensures NoZeros(old(coins[lo..hi])) ==> coins[..] == old(coins[..])
  {
    var end := RemoveZeroCoins(coins, lo, hi);
    r := coins[lo..end];
  }

  /** Two slices, which may share an array.  Slices without zero coins are left
      as they were. */
  method SafeAdd(limit: Limit, coins: array<Coin>, loA: nat, hiA: nat, coinsB: array<Coin>, loB: nat, hiB: nat) returns (r: Outcome<seq<Coin>>)
    requires loA <= hiA <= coins.Length && loB <= hiB <= coinsB.Length
    modifies coins, coinsB
    ensures r == Merge(limit, old(coins[loA..hiA]), old(coinsB[loB..hiB]))
    ensures NoZeros(old(coins[loA..hiA])) && NoZeros(old(coinsB[loB..hiB])) ==>
              coins[..] == old(coins[..]) && coinsB[..] == old(coinsB[..])
  {
    var sum, indexA, indexB := AddWhileBoth(limit, coins, loA, hiA, coinsB, loB, hiB);
    if sum.Panic? { return Panic; }
    assert sum.value + [] == sum.value;
    if indexA == hiA {
      if indexB == hiB { return Ok(sum.value); }
      NoZerosPart(coinsB[loB..hiB], indexB - loB);
      assert coinsB[loB..hiB][indexB - loB..] == coinsB[indexB..hiB];
      var rest := WithoutZeros(coinsB, indexB, hiB);
      return Ok(sum.value + rest);
    } else {
      NoZerosPart(coins[loA..hiA], indexA - loA);
      assert coins[loA..hiA][indexA - loA..] == coins[indexA..hiA];
      var rest := WithoutZeros(coins, indexA, hiA);
      return Ok(sum.value + rest);
    }
  }

  /** Adds coins until one of the slices is used up. */
  method AddWhileBoth(limit: Limit, coins: array<Coin>, loA: nat, hiA: nat, coinsB: array<Coin>, loB: nat, hiB: nat)
    returns (r: Outcome<seq<Coin>>, indexA: nat, indexB: nat)
    requires loA <= hiA <= coins.Length && loB <= hiB <= coinsB.Length
    ensures loA <= indexA <= hiA && loB <= indexB <= hiB && (r.Ok? ==> indexA == hiA || indexB == hiB)
    ensures Merge(limit, coins[loA..hiA], coinsB[loB..hiB]) ==
            if r.Panic? then Panic else Prepend(r.value, Merge(limit, coins[indexA..hiA], coinsB[indexB..hiB]))
  {
    var sum: seq<Coin> := [];
    indexA, indexB := loA, loB;
    ghost var a, b := coins[loA..hiA], coinsB[loB..hiB];
    PrependNothing(Merge(limit, a, b));
    while indexA < hiA && indexB < hiB
      invariant loA <= indexA <= hiA && loB <= indexB <= hiB
      invariant Prepend(sum, Merge(limit, coins[indexA..hiA], coinsB[indexB..hiB])) == Merge(limit, a, b)
    {
      ghost var restA, restB := coins[indexA..hiA], coinsB[indexB..hiB];
      var next, stepA, stepB := AddOne(limit, coins[indexA], coinsB[indexB], sum, restA, restB);
      if next.Panic? { return Panic, indexA, indexB; }
      assert restA[stepA..] == coins[indexA + stepA..hiA] && restB[stepB..] == coinsB[indexB + stepB..hiB];
      sum, indexA, indexB := next.value, indexA + stepA, indexB + stepB;
    }
    r := Ok(sum);
  }

  /** Adds the smaller of two coins to the sum, or both where they are of one denomination. */
  method AddOne(limit: Limit, coinA: Coin, coinB: Coin, sum: seq<Coin>, ghost restA: seq<Coin>, ghost restB: seq<Coin>)
    returns (next: Outcome<seq<Coin>>, stepA: nat, stepB: nat)
    requires restA != [] && restA[0] == coinA && restB != [] && restB[0] == coinB
    ensures stepA <= 1 && stepB <= 1 && stepA + stepB > 0
    ensures Prepend(sum, Merge(limit, restA, restB)) ==
            if next.Panic? then Panic else Prepend(next.value, Merge(limit, restA[stepA..], restB[stepB..]))
  {
    MergeStep(limit, restA, restB, sum);
    assert restA[0..] == restA && restB[0..] == restB && sum + [] == sum;
    var c := Compare(coinA.denom, coinB.denom);
    if c == -1 {
      return Ok(if coinA.amount != 0 then sum + [coinA] else sum), 1, 0;
    } else if c == 0 {
      if !InRange(limit, coinA.amount + coinB.amount) { return Panic, 1, 1; }
      var res := Coin(coinA.denom, coinA.amount + coinB.amount);
      return Ok(if res.amount != 0 then sum + [res] else sum), 1, 1;
    } else {
      return Ok(if coinB.amount != 0 then sum + [coinB] else sum), 0, 1;
    }
  }

  lemma PrependNothing(o: Outcome<seq<Coin>>)
    ensures Prepend([], o) == o
  {
    if o.Ok? { assert [] + o.value == o.value; }
  }

  lemma NoZerosPart(s: seq<Coin>, n: nat)
    requires n <= |s|
    ensures NoZeros(s) ==> NoZeros(s[n..])
  {
  }

  lemma MergeStep(limit: Limit, a: seq<Coin>, b: seq<Coin>, sum: seq<Coin>)
    requires a != [] && b != []
    ensures Prepend(sum, Merge(limit, a, b)) ==
            if Less(a[0].denom, b[0].denom) then Prepend(sum + Push(a[0]), Merge(limit, a[1..], b))
            else if a[0].denom == b[0].denom then
              if InRange(limit, a[0].amount + b[0].amount) then
                Prepend(sum + Push(Coin(a[0].denom, a[0].amount + b[0].amount)), Merge(limit, a[1..], b[1..]))
              else Panic
            else Prepend(sum + Push(b[0]), Merge(limit, a, b[1..]))
  {
    forall p, o ensures Prepend(sum, Prepend(p, o)) == Prepend(sum + p, o) {
      if o.Ok? { assert sum + (p + o.value) == sum + p + o.value; }
    }
  }
}
