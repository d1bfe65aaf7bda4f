/** Account balances and transfers, as the fee handlers use them. */
module Bank {
  import opened Bytes
  import opened Coins
  import opened CoinLaws

  type Account = Bytes

  /** Balances by account and denomination; an absent entry is zero. */
  type Balances = map<(Account, Bytes), nat>

  function Balance(b: Balances, a: Account, d: Bytes): nat {
    if (a, d) in b then b[(a, d)] else 0
  }

  datatype Status = Sent | Refused | Overflowed

  /** All there is of a denomination in a list of coins. */
  function Total(coins: seq<Coin>, d: Bytes): int {
    if coins == [] then 0
    else
      var last := coins[|coins| - 1];
      Total(coins[..|coins| - 1], d) + if last.denom == d then last.amount else 0
  }

  lemma {:induction false} TotalOfSorted(coins: seq<Coin>, d: Bytes)
    requires Sorted(coins)
    ensures Total(coins, d) == Amount(coins, d)
  {
    if coins != [] {
      var n := |coins| - 1;
      TotalOfSorted(coins[..n], d);
      AmountSnoc(coins, n);
      assert coins[..n + 1] == coins;
    }
  }

  /** `next` is `b` with the coins moved from one account to the other. */
  ghost predicate Moved(b: Balances, next: Balances, from: Account, to: Account, coins: seq<Coin>) {
    forall a, d :: Balance(next, a, d) == Balance(b, a, d) + (if a == to then Total(coins, d) else 0)
                                                           - (if a == from then Total(coins, d) else 0)
  }

  lemma NothingMoved(b: Balances, from: Account, to: Account)
    ensures Moved(b, b, from, to, [])
  {
    assert forall d :: Total([], d) == 0;
  }

  lemma MovedMore(b: Balances, mid: Balances, next: Balances, from: Account, to: Account, coins: seq<Coin>, i: nat)
    requires i < |coins|
    requires Moved(b, mid, from, to, coins[..i]) && Moved(mid, next, from, to, [coins[i]])
    ensures Moved(b, next, from, to, coins[..i + 1])
  {
    forall a, d ensures Balance(next, a, d) == Balance(b, a, d) + (if a == to then Total(coins[..i + 1], d) else 0)
                                               - (if a == from then Total(coins[..i + 1], d) else 0) {
      TotalSnoc(coins, i, d);
      assert Balance(mid, a, d) == Balance(b, a, d) + (if a == to then Total(coins[..i], d) else 0)
                                   - (if a == from then Total(coins[..i], d) else 0);
    }
  }

  lemma TotalSnoc(coins: seq<Coin>, i: nat, d: Bytes)
    requires i < |coins|
    ensures Total(coins[..i + 1], d) == Total(coins[..i], d) + Total([coins[i]], d)
  {
    assert coins[..i + 1][..i] == coins[..i] && [coins[i]][..0] == [];
  }

  lemma {:induction false} TotalGrows(coins: seq<Coin>, i: nat, d: Bytes)
    requires i <= |coins| && NonNegative(coins)
    ensures 0 <= Total(coins[..i], d) <= Total(coins, d)
    decreases |coins|
  {
    var n := |coins| - 1;
    if i == |coins| {
      assert coins[..i] == coins;
      if n >= 0 { TotalGrows(coins[..n], n, d); assert coins[..n][..n] == coins[..n]; }
    } else {
      assert coins[..n][..i] == coins[..i];
      TotalGrows(coins[..n], i, d);
    }
  }

  predicate NonNegative(coins: seq<Coin>) {
    forall i :: 0 <= i < |coins| ==> coins[i].amount >= 0
  }

  // ---- Transfers ----

  /** `SendCoin`: takes from one account, then adds to the other. */
  function SendOne(b: Balances, from: Account, to: Account, c: Coin): (Balances, Status) {
    if !ValidDenom(c.denom) || c.amount < 0 || Balance(b, from, c.denom) < c.amount then (b, Refused)
    else
      var taken := b[(from, c.denom) := Balance(b, from, c.denom) - c.amount];
      var after := Balance(taken, to, c.denom) + c.amount;
      if InRange(INT_LIMIT, after) then (taken[(to, c.denom) := after], Sent) else (taken, Overflowed)
  }

  /** What sending a list leaves behind: the balances, how it ended, and how many
      coins were moved before that. */
  datatype Sending = Sending(balances: Balances, status: Status, n: nat)

  /** `SendCoins`, from coin `i` on. */
  function SendFrom(b: Balances, from: Account, to: Account, coins: seq<Coin>, i: nat): Sending
    requires i <= |coins|
    decreases |coins| - i
  {
    if i == |coins| then Sending(b, Sent, i)
    else
      var (next, status) := SendOne(b, from, to, coins[i]);
      if status.Sent? then SendFrom(next, from, to, coins, i + 1) else Sending(next, status, i)
  }

  function SendAll(b: Balances, from: Account, to: Account, coins: seq<Coin>): Sending {
    SendFrom(b, from, to, coins, 0)
  }

  /** The sender holds what the list asks of a coin's denomination up to that coin. */
  predicate Given(b: Balances, from: Account, coins: seq<Coin>, i: nat)
    requires i < |coins|
  {
    var c := coins[i];
    ValidDenom(c.denom) && c.amount >= 0 && Balance(b, from, c.denom) >= Total(coins[..i + 1], c.denom)
  }

  /** The receiver has room for it. */
  predicate Taken(b: Balances, to: Account, coins: seq<Coin>, i: nat)
    requires i < |coins|
  {
    Balance(b, to, coins[i].denom) + Total(coins[..i + 1], coins[i].denom) < INT_LIMIT
  }

  /** The coins before coin `i` are moved, and that one is taken from the sender and
      given to nobody: where the receiver's balance outgrows an Int, the panic leaves
      a half-done transfer to whoever drops it. */
  ghost predicate TakenOnly(b: Balances, next: Balances, from: Account, to: Account, coins: seq<Coin>, i: nat)
    requires i < |coins|
  {
    forall a, d :: Balance(next, a, d) == Balance(b, a, d) + (if a == to then Total(coins[..i], d) else 0)
                                          - (if a == from then Total(coins[..i + 1], d) else 0)
  }

  /** Coins move in order up to the first that the sender cannot give or the
      receiver cannot take, told from the balances before the transfer; the coins
      before it stay moved. */
  lemma SendAllLaws(b: Balances, from: Account, to: Account, coins: seq<Coin>)
    requires from != to
    ensures var s := SendAll(b, from, to, coins);
            && s.n <= |coins| && (forall i :: 0 <= i < s.n ==> Given(b, from, coins, i) && Taken(b, to, coins, i))
            && (s.status.Sent? <==> s.n == |coins|)
            && (s.status.Refused? <==> s.n < |coins| && !Given(b, from, coins, s.n))
            && (s.status.Overflowed? <==> s.n < |coins| && Given(b, from, coins, s.n) && !Taken(b, to, coins, s.n))
            && (!s.status.Overflowed? ==> Moved(b, s.balances, from, to, coins[..s.n]))
            && (s.status.Overflowed? ==> TakenOnly(b, s.balances, from, to, coins, s.n))
  {
    assert coins[..0] == [];
    NothingMoved(b, from, to);
    SendFromLaws(b, b, from, to, coins, 0);
  }

  lemma {:induction false} SendFromLaws(b: Balances, mid: Balances, from: Account, to: Account, coins: seq<Coin>, i: nat)
    requires from != to && i <= |coins| && Moved(b, mid, from, to, coins[..i])
    requires forall j :: 0 <= j < i ==> Given(b, from, coins, j) && Taken(b, to, coins, j)
    ensures var s := SendFrom(mid, from, to, coins, i);
            && i <= s.n <= |coins| && (forall j :: 0 <= j < s.n ==> Given(b, from, coins, j) && Taken(b, to, coins, j))
            && (s.status.Sent? <==> s.n == |coins|)
            && (s.status.Refused? <==> s.n < |coins| && !Given(b, from, coins, s.n))
            && (s.status.Overflowed? <==> s.n < |coins| && Given(b, from, coins, s.n) && !Taken(b, to, coins, s.n))
            && (!s.status.Overflowed? ==> Moved(b, s.balances, from, to, coins[..s.n]))
            && (s.status.Overflowed? ==> TakenOnly(b, s.balances, from, to, coins, s.n))
    decreases |coins| - i
  {
    if i < |coins| {
      SendOneLaws(b, mid, from, to, coins, i);
      var (next, status) := SendOne(mid, from, to, coins[i]);
      if status.Sent? {
        MovedMore(b, mid, next, from, to, coins, i);
        SendFromLaws(b, next, from, to, coins, i + 1);
      }
    }
  }

  lemma SendOneLaws(b: Balances, mid: Balances, from: Account, to: Account, coins: seq<Coin>, i: nat)
    requires from != to && i < |coins| && Moved(b, mid, from, to, coins[..i])
    ensures var (next, status) := SendOne(mid, from, to, coins[i]);
            && (status.Refused? <==> !Given(b, from, coins, i))
            && (status.Overflowed? <==> Given(b, from, coins, i) && !Taken(b, to, coins, i))
            && (status.Refused? ==> next == mid)
            && (status.Sent? ==> Moved(mid, next, from, to, [coins[i]]))
            && (status.Overflowed? ==> TakenOnly(b, next, from, to, coins, i))
  {
    var c := coins[i];
    TotalSnoc(coins, i, c.denom);
    TotalOfOne(c);
    assert Balance(mid, from, c.denom) == Balance(b, from, c.denom) - Total(coins[..i], c.denom);
    assert Balance(mid, to, c.denom) == Balance(b, to, c.denom) + Total(coins[..i], c.denom);
    var (next, status) := SendOne(mid, from, to, c);
    if status.Overflowed? { TakenMore(b, mid, next, from, to, coins, i); }
  }

  lemma TakenMore(b: Balances, mid: Balances, next: Balances, from: Account, to: Account, coins: seq<Coin>, i: nat)
    requires i < |coins| && Moved(b, mid, from, to, coins[..i])
    requires forall a, d :: Balance(next, a, d) == Balance(mid, a, d) - if a == from && d == coins[i].denom then coins[i].amount else 0
    ensures TakenOnly(b, next, from, to, coins, i)
  {
    TotalOfOne(coins[i]);
    forall a, d
      ensures Balance(next, a, d) == Balance(b, a, d) + (if a == to then Total(coins[..i], d) else 0)
                                     - (if a == from then Total(coins[..i + 1], d) else 0)
    {
      TotalSnoc(coins, i, d);
      assert Balance(mid, a, d) == Balance(b, a, d) + (if a == to then Total(coins[..i], d) else 0)
                                   - (if a == from then Total(coins[..i], d) else 0);
    }
  }

  lemma TotalOfOne(c: Coin)
    ensures forall d :: Total([c], d) == if d == c.denom then c.amount else 0
  {
    assert [c][..0] == [];
  }

  /** A valid set of coins is moved whole exactly when its denominations are
      valid, the sender covers it and the receiver's balances do not outgrow an Int. */
  lemma SentIff(b: Balances, from: Account, to: Account, coins: seq<Coin>)
    requires from != to && Valid(coins)
    ensures SendAll(b, from, to, coins).status.Sent? <==>
              && AllDenomsValid(coins)
              && forall i :: 0 <= i < |coins| ==> && Balance(b, from, coins[i].denom) >= coins[i].amount
                                                  && Balance(b, to, coins[i].denom) + coins[i].amount < INT_LIMIT
  {
    SendAllLaws(b, from, to, coins);
    forall i | 0 <= i < |coins| ensures Total(coins[..i + 1], coins[i].denom) == coins[i].amount {
      TotalOfSorted(coins[..i + 1], coins[i].denom);
      AmountAt(coins[..i + 1], i);
    }
    var s := SendAll(b, from, to, coins);
    if s.status.Sent? {
      forall i | 0 <= i < |coins|
        ensures ValidDenom(coins[i].denom) && Balance(b, from, coins[i].denom) >= coins[i].amount
        ensures Balance(b, to, coins[i].denom) + coins[i].amount < INT_LIMIT
      {
        assert Given(b, from, coins, i) && Taken(b, to, coins, i);
      }
    } else {
      assert !Given(b, from, coins, s.n) || !Taken(b, to, coins, s.n);
    }
  }

  predicate Holds(b: Balances, a: Account, c: Coin) {
    ValidDenom(c.denom) && 0 <= c.amount <= Balance(b, a, c.denom)
  }

  ghost predicate SameBalances(b: Balances, next: Balances) {
    forall a, d :: Balance(next, a, d) == Balance(b, a, d)
  }

  /** Sent to the account it comes from, a list moves nothing: each coin is only
      asked for, up to the first that the account does not hold. */
  lemma SendToSelf(b: Balances, a: Account, coins: seq<Coin>)
    requires forall d :: Balance(b, a, d) < INT_LIMIT
    ensures var s := SendAll(b, a, a, coins);
            && SameBalances(b, s.balances) && s.n <= |coins| && (forall i :: 0 <= i < s.n ==> Holds(b, a, coins[i]))
            && (s.status.Sent? <==> s.n == |coins|)
            && (s.status.Refused? <==> s.n < |coins| && !Holds(b, a, coins[s.n]))
  {
    SendSelfFrom(b, b, a, coins, 0);
  }

  lemma {:induction false} SendSelfFrom(b: Balances, mid: Balances, a: Account, coins: seq<Coin>, i: nat)
    requires i <= |coins| && SameBalances(b, mid) && forall d :: Balance(b, a, d) < INT_LIMIT
    ensures var s := SendFrom(mid, a, a, coins, i);
            && SameBalances(b, s.balances) && i <= s.n <= |coins| && (forall j :: i <= j < s.n ==> Holds(b, a, coins[j]))
            && (s.status.Sent? <==> s.n == |coins|)
            && (s.status.Refused? <==> s.n < |coins| && !Holds(b, a, coins[s.n]))
    decreases |coins| - i
  {
    if i < |coins| {
      var (next, status) := SendOne(mid, a, a, coins[i]);
      assert status.Sent? <==> Holds(b, a, coins[i]);
      assert SameBalances(b, next);
      if status.Sent? { SendSelfFrom(b, next, a, coins, i + 1); }
    }
  }

  /** The transfer keeper. */
  class Keeper {
    var balances: Balances

    constructor (balances: Balances)
      ensures this.balances == balances
    {
      this.balances := balances;
    }

    method SendCoin(from: Account, to: Account, coin: Coin) returns (r: Status)
      modifies this
      ensures (balances, r) == SendOne(old(balances), from, to, coin)
    {
      if !ValidDenom(coin.denom) || coin.amount < 0 { return Refused; }
      var before := Balance(balances, from, coin.denom);
      if before < coin.amount { return Refused; }
      balances := balances[(from, coin.denom) := before - coin.amount];
      var after := Balance(balances, to, coin.denom) + coin.amount;
      if !InRange(INT_LIMIT, after) { return Overflowed; }
      balances := balances[(to, coin.denom) := after];
      r := Sent;
    }

    method SendCoins(from: Account, to: Account, coins: seq<Coin>) returns (r: Status, ghost n: nat)
      modifies this
      ensures Sending(balances, r, n) == SendAll(old(balances), from, to, coins)
    {
      var i := 0;
      while i < |coins|
        invariant i <= |coins|
        invariant SendAll(old(balances), from, to, coins) == SendFrom(balances, from, to, coins, i)
      {
        r := SendCoin(from, to, coins[i]);
        if !r.Sent? { return r, i; }
        i := i + 1;
      }
      r, n := Sent, i;
    }
  }
}
