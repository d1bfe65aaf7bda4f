/** Fees of a delivered transaction: deducted or waived by the ante handler, and
    in part refunded after its messages. */
module Fees {
  import opened Bytes
  import opened Coins
  import opened CoinLaws
  import opened Decimal
  import DecCoins
  import opened Bank
  import opened Gas

  const DEFAULT_GAS_USED_FOR_REFUND: Gas := 20000

  // ---- The settle quota ----

  /** `BasicSettleQuota`, with the gas it granted to each key node as history. */
  class SettleQuota {
    const limit: Gas
    var consumed: map<Bytes, Gas>
    ghost var granted: map<Bytes, seq<Gas>>

    constructor (limit: Gas)
      ensures this.limit == limit && Inv() && granted == map[]
    {
      this.limit, this.consumed, this.granted := limit, map[], map[];
    }

    /** What was granted adds up to what is recorded, and stays within the limit. */
    ghost predicate Inv()
      reads this
    {
      && consumed.Keys == granted.Keys
      && forall k :: k in consumed ==> consumed[k] == Sum(granted[k]) <= limit
    }

    ghost function Granted(key: Bytes): seq<Gas>
      reads this
    {
      if key in granted then granted[key] else []
    }

    function Recorded(key: Bytes): Gas
      reads this
    {
      if key in consumed then consumed[key] else 0
    }

    /** The sum of old and new gas wraps at 64 bits: what is recorded stays true
        exactly unless a sum that wrapped gets through.  With gas and limit below
        2^63, as transactions and the application have them, none does. */
    method Consume(key: Bytes, current: Gas) returns (ok: bool)
      modifies this
      ensures ok <==> (old(Recorded(key)) + current) % WORD <= limit
      ensures consumed == if ok then old(consumed)[key := (old(Recorded(key)) + current) % WORD] else old(consumed)
      ensures granted == if ok then old(granted)[key := old(Granted(key)) + [current]] else old(granted)
      ensures old(Inv()) ==> (Inv() <==> !(ok && old(Recorded(key)) + current >= WORD))
      ensures old(Inv()) && current < HALF_WORD && limit < HALF_WORD ==>
                Inv() && (ok <==> Sum(old(Granted(key))) + current <= limit)
    {
      var after := current;
      if key in consumed {
        after := (consumed[key] + current) % WORD;
      }
      ghost var g := Granted(key);
      SumSnoc(g, current);
      ok := after <= limit;
      if ok {
        consumed := consumed[key := after];
        granted := granted[key := g + [current]];
        assert key in consumed && granted[key] == g + [current];
      }
    }
  }

  // ---- The refund ----

  /** The gas a refund counts as used, with the sum wrapping at 64 bits. */
  function CountedGas(gasUsed: Gas): Gas {
    (gasUsed + DEFAULT_GAS_USED_FOR_REFUND) % WORD
  }

  function RefundFraction(gasWanted: Gas, gasUsed: Gas): Outcome<Dec> {
    var used := Quo(ToInt64(CountedGas(gasUsed)) * P, ToInt64(gasWanted) * P);
    if used.Panic? then Panic else Decimal.Sub(P, used.value)
  }

  /** A fraction from zero to one: nothing in its computation overflows.  A
      quotient by zero is left, where both gas numbers are zero after wrapping. */
  lemma FractionInRange(gasWanted: Gas, gasUsed: Gas)
    requires gasWanted < HALF_WORD && CountedGas(gasUsed) <= gasWanted
    ensures RefundFraction(gasWanted, gasUsed).Panic? <==> gasWanted == 0
    ensures gasWanted > 0 ==> 0 <= RefundFraction(gasWanted, gasUsed).value <= P
  {
    if gasWanted > 0 { RatioInRange(CountedGas(gasUsed), gasWanted); }
  }

  lemma RatioInRange(a: nat, b: nat)
    requires a <= b && 0 < b
    ensures Quo(a * P, b * P).Ok? && 0 <= Quo(a * P, b * P).value <= P
  {
    var q := Scaled(a * P, b * P);
    assert q * (b * P) <= a * P * P * P;
    assert (q * b) * P == q * (b * P);
    AtMost(q, b, a, P * P);
    assert 0 <= ChopRound(q) <= P;
  }

  lemma AtMost(q: nat, b: nat, a: nat, p: nat)
    requires q * b <= a * p && a <= b && b > 0
    ensures q <= p
  {
    assert a * p <= b * p;
    if q > p { MulUp(p + 1, q, b); }
  }

  /** The fraction of a refund that is due. */
  function DueFraction(gasWanted: Gas, gasUsed: Gas): (f: nat)
    ensures f <= P
    ensures 0 < gasWanted < HALF_WORD && CountedGas(gasUsed) <= gasWanted ==> RefundFraction(gasWanted, gasUsed) == Ok(f)
  {
    if 0 < gasWanted < HALF_WORD && CountedGas(gasUsed) <= gasWanted then
      FractionInRange(gasWanted, gasUsed);
      RefundFraction(gasWanted, gasUsed).value
    else 0
  }

  /** Gas used within the gas wanted, which a meter with that limit enforces,
      keeps every refund that is due away from the quotient by zero. */
  lemma FractionWithinLimit(gasWanted: Gas, gasUsed: Gas)
    requires gasUsed <= gasWanted < HALF_WORD && CountedGas(gasUsed) <= gasWanted
    ensures RefundFraction(gasWanted, gasUsed).Ok?
  {
    FractionInRange(gasWanted, gasUsed);
  }

  /** Without that, the quotient by zero is there: a refund is due and fails. */
  lemma FractionByZero()
    ensures var used := WORD - DEFAULT_GAS_USED_FOR_REFUND;
            CountedGas(used) <= 0 && RefundFraction(0, used).Panic?
  {
    FractionInRange(0, WORD - DEFAULT_GAS_USED_FOR_REFUND);
  }

  // ---- Which fraction it is ----

  /** The fraction is the unused part of the gas wanted, but for the rounding of one
      quotient. */
  lemma FractionIsUnused(gasWanted: Gas, gasUsed: Gas)
    requires 0 < gasWanted < HALF_WORD && CountedGas(gasUsed) <= gasWanted
    ensures var f := DueFraction(gasWanted, gasUsed);
            2 * P * Abs(f * gasWanted - (gasWanted - CountedGas(gasUsed)) * P) < (P + 2) * gasWanted
  {
    var c: int := CountedGas(gasUsed);
    FractionInRange(gasWanted, gasUsed);
    var f := DueFraction(gasWanted, gasUsed);
    assert Quo(c * P, gasWanted * P).value == P - f;
    QuoError(c * P, gasWanted * P);
    OutOfUnits(P - f, gasWanted, c);
  }

  lemma OutOfUnits(u: int, w: nat, c: nat)
    requires 2 * P * Abs(u * (w * P) - c * P * P) < (P + 2) * Abs(w * P)
    ensures 2 * P * Abs((P - u) * w - (w - c) * P) < (P + 2) * w
  {
    assert u * (w * P) == P * (u * w);
    Complement(u, w, c);
  }

  lemma Complement(u: int, w: int, c: int)
    ensures (P - u) * w - (w - c) * P == -(u * w - c * P)
  {
  }

  /** Gas that is used up leaves nothing. */
  lemma NothingUnused(gasWanted: Gas, gasUsed: Gas)
    requires 0 < gasWanted < HALF_WORD && CountedGas(gasUsed) == gasWanted
    ensures DueFraction(gasWanted, gasUsed) == 0
  {
    FractionIsUnused(gasWanted, gasUsed);
    var f := DueFraction(gasWanted, gasUsed);
    if f > 0 { MulUp(1, f, gasWanted); }
  }

  /** The more gas is used, the less is refunded. */
  lemma FractionFalls(gasWanted: Gas, gasUsed: Gas, more: Gas)
    requires 0 < gasWanted < HALF_WORD && CountedGas(gasUsed) <= CountedGas(more) <= gasWanted
    ensures DueFraction(gasWanted, more) <= DueFraction(gasWanted, gasUsed)
  {
    FractionInRange(gasWanted, gasUsed);
    FractionInRange(gasWanted, more);
    QuoGrows(CountedGas(gasUsed) * P, CountedGas(more) * P, gasWanted * P);
  }

  lemma QuoGrows(a: nat, a': nat, b: nat)
    requires a <= a' && b > 0 && Quo(a, b).Ok? && Quo(a', b).Ok?
    ensures Quo(a, b).value <= Quo(a', b).value
  {
    WholeGrows(a * P * P, a' * P * P, b);
    ChopGrows(Scaled(a, b), Scaled(a', b));
  }

  lemma WholeGrows(m: nat, m': nat, n: nat)
    requires m <= m' && n > 0
    ensures m / n <= m' / n
  {
    WholePart(m, n);
    WholePart(m', n);
    if m / n > m' / n { MulUp(m' / n + 1, m / n, n); }
  }

  lemma ChopGrows(x: nat, y: nat)
    requires x <= y
    ensures ChopRound(x) <= ChopRound(y)
  {
  }

  /** A fifth used: four fifths are refunded. */
  lemma FourFifths()
    ensures RefundFraction(100000, 0) == Ok(800_000_000_000_000_000)
  {
    assert Scaled(20000 * P, 100000 * P) == 200_000_000_000_000_000 * P;
  }

  /** The share of an amount: the decimal product, cut to a whole number. */
  function ShareOf(amount: int, fraction: Dec): Outcome<int> {
    var product := Mul(amount * P, fraction);
    if product.Panic? then Panic
    else
      var r := ChopTruncate(product.value);
      if InRange(INT_LIMIT, r) then Ok(r) else Panic
  }

  /** The share with nothing rounded but at the end. */
  function Share(amount: nat, fraction: nat): (r: nat) {
    amount * fraction / P
  }

  lemma ShareIsExact(amount: nat, fraction: nat)
    requires amount < INT_LIMIT && fraction <= P
    ensures ShareOf(amount, fraction) == Ok(Share(amount, fraction)) && Share(amount, fraction) <= amount
  {
    ProductBound(amount, fraction);
    var x := amount * P * fraction;
    assert x == amount * fraction * P;
    NearestEvenUnique(x, ChopRound(x), amount * fraction);
  }

  lemma ProductBound(amount: nat, fraction: nat)
    requires amount < INT_LIMIT && fraction <= P
    ensures 0 <= amount * fraction <= amount * P < DEC_LIMIT
  {
  }

  /** `sdk.NewCoins` of one coin that was checked when it was made. */
  function NewCoins(c: Coin): seq<Coin> {
    Push(c)
  }

  /** The refund of a list of fee coins: their shares, added up one by one. */
  function RefundSet(fee: seq<Coin>, fraction: Dec): Outcome<seq<Coin>>
    decreases |fee|
  {
    if fee == [] then Ok([])
    else
      var before := RefundSet(fee[..|fee| - 1], fraction);
      if before.Panic? then Panic else AddShare(before.value, fee[|fee| - 1], fraction)
  }

  function AddShare(before: seq<Coin>, c: Coin, fraction: Dec): Outcome<seq<Coin>> {
    var amount := ShareOf(c.amount, fraction);
    if amount.Panic? || !ValidDenom(c.denom) || amount.value < 0 then Panic
    else Merge(INT_LIMIT, before, NewCoins(Coin(c.denom, amount.value)))
  }

  method RefundCoins(fee: seq<Coin>, fraction: Dec) returns (r: Outcome<seq<Coin>>)
    ensures r == RefundSet(fee, fraction)
  {
    var refund: seq<Coin> := [];
    for i := 0 to |fee|
      invariant RefundSet(fee[..i], fraction) == Ok(refund)
    {
      assert fee[..i + 1][..i] == fee[..i];
      var sum := AddShare(refund, fee[i], fraction);
      if sum.Panic? {
        PanicStays(fee, i + 1, fraction);
        return Panic;
      }
      refund := sum.value;
    }
    assert fee[..|fee|] == fee;
    r := Ok(refund);
  }

  lemma {:induction false} PanicStays(fee: seq<Coin>, i: nat, fraction: Dec)
    requires i <= |fee| && RefundSet(fee[..i], fraction).Panic?
    ensures RefundSet(fee, fraction).Panic?
    decreases |fee|
  {
    if i == |fee| {
      assert fee[..i] == fee;
    } else {
      var n := |fee| - 1;
      assert fee[..n][..i] == fee[..i];
      PanicStays(fee[..n], i, fraction);
    }
  }

  /** What the shares come to in one denomination. */
  function Shared(fee: seq<Coin>, fraction: nat, d: Bytes): nat
    requires NonNegative(fee)
  {
    if fee == [] then 0
    else
      var last := fee[|fee| - 1];
      Shared(fee[..|fee| - 1], fraction, d) + if last.denom == d then Share(last.amount, fraction) else 0
  }

  /** For any list of fee coins that are not negative: the refund is a sorted set
      that holds exactly the shares; it fails exactly on a denomination no coin can
      have or on shares that outgrow an Int. */
  lemma {:induction false} RefundSetLaws(fee: seq<Coin>, fraction: nat)
    requires NonNegative(fee) && Bounded(INT_LIMIT, fee) && fraction <= P
    ensures var r := RefundSet(fee, fraction);
            && (r.Ok? <==> AllDenomsValid(fee) && SharesFit(fee, fraction))
            && (r.Ok? ==> Sorted(r.value) && NoZeros(r.value) && forall d :: Amount(r.value, d) == Shared(fee, fraction, d))
    decreases |fee|
  {
    if fee != [] {
      var n := |fee| - 1;
      var rest, c := fee[..n], fee[n];
      RefundSetLaws(rest, fraction);
      assert fee == rest + [c];
      FeeParts(rest, c, fraction);
      var before := RefundSet(rest, fraction);
      if before.Ok? { AddShareLaws(before.value, rest, c, fraction); }
    }
  }

  lemma FeeParts(rest: seq<Coin>, c: Coin, fraction: nat)
    requires NonNegative(rest) && c.amount >= 0
    ensures NonNegative(rest + [c])
    ensures AllDenomsValid(rest + [c]) <==> AllDenomsValid(rest) && ValidDenom(c.denom)
    ensures SharesFit(rest + [c], fraction) ==> SharesFit(rest, fraction)
  {
    var fee := rest + [c];
    assert fee[..|fee| - 1] == rest && fee[|rest|] == c;
    assert forall i :: 0 <= i < |rest| ==> fee[i] == rest[i];
    if SharesFit(fee, fraction) {
      forall d ensures Shared(rest, fraction, d) < INT_LIMIT { assert Shared(fee, fraction, d) < INT_LIMIT; }
    }
  }

  lemma {:induction false} SharedAtMost(fee: seq<Coin>, fraction: nat, d: Bytes)
    requires NonNegative(fee) && Bounded(INT_LIMIT, fee) && fraction <= P
    ensures Shared(fee, fraction, d) <= Total(fee, d)
    decreases |fee|
  {
    if fee != [] {
      SharedAtMost(fee[..|fee| - 1], fraction, d);
      ShareIsExact(fee[|fee| - 1].amount, fraction);
    }
  }

  ghost predicate SharesFit(fee: seq<Coin>, fraction: nat)
    requires NonNegative(fee)
  {
    forall d :: Shared(fee, fraction, d) < INT_LIMIT
  }

  lemma AddShareLaws(before: seq<Coin>, rest: seq<Coin>, c: Coin, fraction: nat)
    requires NonNegative(rest) && 0 <= c.amount < INT_LIMIT && fraction <= P && SharesFit(rest, fraction)
    requires Sorted(before) && NoZeros(before) && forall d :: Amount(before, d) == Shared(rest, fraction, d)
    ensures var fee, r := rest + [c], AddShare(before, c, fraction);
            && NonNegative(fee)
            && (r.Ok? <==> ValidDenom(c.denom) && SharesFit(fee, fraction))
            && (r.Ok? ==> Sorted(r.value) && NoZeros(r.value) && forall d :: Amount(r.value, d) == Shared(fee, fraction, d))
  {
    var fee, one := rest + [c], NewCoins(Coin(c.denom, Share(c.amount, fraction)));
    assert fee[..|fee| - 1] == rest;
    ShareIsExact(c.amount, fraction);
    OneCoin(Coin(c.denom, Share(c.amount, fraction)));
    forall d ensures Shared(fee, fraction, d) == Amount(before, d) + Amount(one, d) {}
    forall i | 0 <= i < |before| ensures InRange(INT_LIMIT, before[i].amount) {
      AmountAt(before, i);
      assert Shared(rest, fraction, before[i].denom) < INT_LIMIT;
    }
    MergeIsSum(INT_LIMIT, before, one);
    FitsShares(before, one, fee, fraction);
  }

  lemma FitsShares(before: seq<Coin>, one: seq<Coin>, fee: seq<Coin>, fraction: nat)
    requires NonNegative(fee) && forall d :: Shared(fee, fraction, d) == Amount(before, d) + Amount(one, d)
    ensures Fits(INT_LIMIT, before, one) <==> SharesFit(fee, fraction)
  {
    if Fits(INT_LIMIT, before, one) {
      forall d ensures Shared(fee, fraction, d) < INT_LIMIT { assert InRange(INT_LIMIT, Amount(before, d) + Amount(one, d)); }
    }
    if SharesFit(fee, fraction) {
      forall d ensures InRange(INT_LIMIT, Amount(before, d) + Amount(one, d)) { assert Shared(fee, fraction, d) < INT_LIMIT; }
    }
  }

  // ---- How far a refund is from the exact unused share ----

  /** `r` is short of or above the exact share `t * unused / w` by at most
      t * (1/2 + 10^-18) / 10^18, and by `k` more for `k` amounts that were cut. */
  predicate Near(r: int, t: int, k: int, w: int, unused: int) {
    && 2 * P * P * (r * w - t * unused) <= t * (P + 2) * w
    && 2 * P * P * ((r + k) * w - t * unused) >= -(t * (P + 2) * w)
  }

  lemma ShareOfUnused(amount: nat, gasWanted: Gas, gasUsed: Gas)
    requires 0 < gasWanted < HALF_WORD && CountedGas(gasUsed) <= gasWanted
    ensures Near(Share(amount, DueFraction(gasWanted, gasUsed)), amount, 1, gasWanted, gasWanted - CountedGas(gasUsed))
  {
    var f, unused := DueFraction(gasWanted, gasUsed), gasWanted - CountedGas(gasUsed);
    FractionIsUnused(gasWanted, gasUsed);
    var off := f * gasWanted - unused * P;
    var r: int := Share(amount, f);
    WholePart(amount * f, P);
    ScaledShare(amount, f, gasWanted, unused, r, off);
    AmountTimes(amount, off, (P + 2) * gasWanted);
    Regrouped(amount, gasWanted);
    TwiceScaled(r * gasWanted - amount * unused, (r + 1) * gasWanted - amount * unused, amount * off, amount * (P + 2) * gasWanted);
  }

  lemma Regrouped(amount: int, w: int)
    ensures amount * ((P + 2) * w) == amount * (P + 2) * w
  {
  }

  lemma TwiceScaled(lo: int, hi: int, x: int, bound: int)
    requires P * lo <= x < P * hi && -bound <= 2 * P * x <= bound
    ensures 2 * P * P * lo <= bound && 2 * P * P * hi >= -bound
  {
  }

  lemma ScaledShare(amount: nat, f: nat, w: nat, unused: int, r: nat, off: int)
    requires w > 0 && r * P <= amount * f < r * P + P && off == f * w - unused * P
    ensures P * (r * w - amount * unused) <= amount * off < P * ((r + 1) * w - amount * unused)
  {
    assert amount * off == amount * f * w - amount * unused * P by {
      assert amount * (f * w) == amount * f * w && amount * (unused * P) == amount * unused * P;
    }
    MulUp(r * P, amount * f, w);
    MulUp(amount * f + 1, (r + 1) * P, w);
    assert r * P * w == P * (r * w) && (r + 1) * P * w == P * ((r + 1) * w);
    assert (amount * f + 1) * w == amount * f * w + w;
  }

  lemma AmountTimes(amount: nat, off: int, bound: int)
    requires 2 * P * Abs(off) < bound
    ensures -(amount * bound) <= 2 * P * (amount * off) <= amount * bound
  {
    MulUp(2 * P * off, bound, amount);
    MulUp(-bound, 2 * P * off, amount);
    assert 2 * P * off * amount == 2 * P * (amount * off) && bound * amount == amount * bound && -bound * amount == -(amount * bound);
  }

  function Count(fee: seq<Coin>, d: Bytes): nat {
    if fee == [] then 0 else Count(fee[..|fee| - 1], d) + if fee[|fee| - 1].denom == d then 1 else 0
  }

  /** The same for all coins of a denomination, each of which is cut once. */
  lemma {:induction false} SharedOfUnused(fee: seq<Coin>, gasWanted: Gas, gasUsed: Gas, d: Bytes)
    requires NonNegative(fee) && 0 < gasWanted < HALF_WORD && CountedGas(gasUsed) <= gasWanted
    ensures Near(Shared(fee, DueFraction(gasWanted, gasUsed), d), Total(fee, d), Count(fee, d), gasWanted, gasWanted - CountedGas(gasUsed))
    decreases |fee|
  {
    if fee != [] {
      var n := |fee| - 1;
      var f, unused := DueFraction(gasWanted, gasUsed), gasWanted - CountedGas(gasUsed);
      SharedOfUnused(fee[..n], gasWanted, gasUsed, d);
      if fee[n].denom == d {
        ShareOfUnused(fee[n].amount, gasWanted, gasUsed);
        NearBoth(Shared(fee[..n], f, d), Total(fee[..n], d), Count(fee[..n], d), Share(fee[n].amount, f), fee[n].amount, 1, gasWanted, unused);
      }
    }
  }

  lemma NearBoth(r: int, t: int, k: int, r': int, t': int, k': int, w: int, unused: int)
    requires Near(r, t, k, w, unused) && Near(r', t', k', w, unused)
    ensures Near(r + r', t + t', k + k', w, unused)
  {
    assert (r + r') * w == r * w + r' * w && (t + t') * unused == t * unused + t' * unused;
    assert (r + r' + (k + k')) * w == (r + k) * w + (r' + k') * w;
    assert (t + t') * (P + 2) * w == t * (P + 2) * w + t' * (P + 2) * w;
  }

  lemma RefundIsValid(fee: seq<Coin>, fraction: nat)
    requires NonNegative(fee) && Bounded(INT_LIMIT, fee) && fraction <= P && RefundSet(fee, fraction).Ok?
    ensures Valid(RefundSet(fee, fraction).value) && AllDenomsValid(RefundSet(fee, fraction).value)
  {
    RefundSetLaws(fee, fraction);
    var r := RefundSet(fee, fraction).value;
    forall i | 0 <= i < |r| ensures r[i].amount > 0 && ValidDenom(r[i].denom) {
      AmountAt(r, i);
      SharedElsewhere(fee, fraction, r[i].denom);
    }
  }

  lemma {:induction false} SharedElsewhere(fee: seq<Coin>, fraction: nat, d: Bytes)
    requires NonNegative(fee) && Shared(fee, fraction, d) > 0
    ensures exists i :: 0 <= i < |fee| && fee[i].denom == d
    decreases |fee|
  {
    var n := |fee| - 1;
    if fee[n].denom != d {
      SharedElsewhere(fee[..n], fraction, d);
      var i :| 0 <= i < n && fee[..n][i].denom == d;
      assert fee[i].denom == d;
    }
  }

  // ---- A delivered transaction ----

  datatype FeeTx = FeeTx(fee: seq<Coin>, gas: Gas, settle: seq<bool>, payer: Account)

  /** A transaction settles when every one of its messages does. */
  predicate IsSettleTx(tx: FeeTx) {
    forall i :: 0 <= i < |tx.settle| ==> tx.settle[i]
  }

  /** What basic validation lets through: any list of fee coins that are not
      negative, sorted or not, repeated or not, and gas below 2^63. */
  predicate PassesBasic(tx: FeeTx) {
    NonNegative(tx.fee) && Bounded(INT_LIMIT, tx.fee) && tx.gas < HALF_WORD
  }

  /** `Coins.IsZero`. */
  predicate IsZero(fee: seq<Coin>) {
    forall i :: 0 <= i < |fee| ==> fee[i].amount == 0
  }

  datatype Charge = NoFee | Waived | Deducted | Rejected | Crashed

  /** The fee part of the ante handler in deliver mode.  Only a settle
      transaction of an active key node within its quota goes free. */
  method ChargeFee(bank: Keeper, quota: SettleQuota, tx: FeeTx, active: bool, collector: Account) returns (r: Charge)
    requires PassesBasic(tx) && quota.Inv() && quota.limit < HALF_WORD
    modifies bank, quota
    ensures quota.Inv()
    ensures r.NoFee? <==> forall i :: 0 <= i < |tx.fee| ==> tx.fee[i].amount == 0
    ensures r.Waived? <==> && !r.NoFee? && (forall i :: 0 <= i < |tx.settle| ==> tx.settle[i]) && active
                           && Sum(old(quota.Granted(tx.payer))) + tx.gas <= quota.limit
    ensures !r.Waived? ==> quota.granted == old(quota.granted)
    ensures r.NoFee? || r.Waived? ==> bank.balances == old(bank.balances)
    ensures !r.NoFee? && !r.Waived? ==>
              var s := SendAll(old(bank.balances), tx.payer, collector, tx.fee);
              && bank.balances == s.balances
              && (r.Deducted? <==> s.status.Sent?) && (r.Rejected? <==> s.status.Refused?)
  {
    if IsZero(tx.fee) { return NoFee; }
    if IsSettleTx(tx) && active {
      var free := quota.Consume(tx.payer, tx.gas);
      if free { return Waived; }
    }
    var status, n := bank.SendCoins(tx.payer, collector, tx.fee);
    r := match status
         case Sent => Deducted
         case Refused => Rejected
         case Overflowed => Crashed;
  }

  /** A fee that was deducted moved in full, its denominations are valid, and
      what it comes to in each fits an Int. */
  lemma DeductedInFull(b: Balances, payer: Account, collector: Account, fee: seq<Coin>)
    requires payer != collector && NonNegative(fee) && SendAll(b, payer, collector, fee).status.Sent?
    ensures Moved(b, SendAll(b, payer, collector, fee).balances, payer, collector, fee)
    ensures AllDenomsValid(fee) && forall d :: Total(fee, d) < INT_LIMIT
  {
    SendAllLaws(b, payer, collector, fee);
    assert fee[..|fee|] == fee;
    forall i | 0 <= i < |fee| ensures ValidDenom(fee[i].denom) { assert Given(b, payer, fee, i); }
    forall d ensures Total(fee, d) < INT_LIMIT {
      assert forall i :: 0 <= i < |fee| ==> Taken(b, collector, fee, i);
      LastOfDenom(b, collector, fee, d);
    }
  }

  lemma {:induction false} LastOfDenom(b: Balances, to: Account, fee: seq<Coin>, d: Bytes)
    requires forall i :: 0 <= i < |fee| ==> Taken(b, to, fee, i)
    ensures Total(fee, d) < INT_LIMIT
    decreases |fee|
  {
    if fee != [] {
      var n := |fee| - 1;
      if fee[n].denom == d {
        assert Taken(b, to, fee, n) && fee[..n + 1] == fee;
      } else {
        forall i | 0 <= i < n ensures Taken(b, to, fee[..n], i) {
          assert Taken(b, to, fee, i) && fee[..n][..i + 1] == fee[..i + 1];
        }
        LastOfDenom(b, to, fee[..n], d);
      }
    }
  }

  /** What the refund handler does: nothing is due, it panics, or it tries to send. */
  datatype Refund = NotDue | Crash | Tried(coins: seq<Coin>, sending: Sending)

  function RefundOf(b: Balances, tx: FeeTx, gasUsed: Gas, collector: Account): Refund {
    if tx.gas < CountedGas(gasUsed) || IsSettleTx(tx) then NotDue
    else
      var fraction := RefundFraction(tx.gas, gasUsed);
      if fraction.Panic? then Crash
      else
        var coins := RefundSet(tx.fee, fraction.value);
        if coins.Panic? then Crash
        else if !Valid(coins.value) then NotDue
        else Tried(coins.value, SendAll(b, collector, tx.payer, coins.value))
  }

  /** How a send ended is not looked at, unless it panicked. */
  method RefundGas(bank: Keeper, tx: FeeTx, gasUsed: Gas, collector: Account) returns (r: Outcome<bool>)
    modifies bank
    ensures var refund := RefundOf(old(bank.balances), tx, gasUsed, collector);
            && bank.balances == (if refund.Tried? then refund.sending.balances else old(bank.balances))
            && r == match refund
                    case NotDue => Ok(false)
                    case Crash => Panic
                    case Tried(_, s) => if s.status.Overflowed? then Panic else Ok(true)
  {
    if tx.gas < CountedGas(gasUsed) || IsSettleTx(tx) { return Ok(false); }
    var fraction := RefundFraction(tx.gas, gasUsed);
    if fraction.Panic? { return Panic; }
    var coins := RefundCoins(tx.fee, fraction.value);
    if coins.Panic? { return Panic; }
    var valid := IsValid(coins.value);
    if !valid { return Ok(false); }
    var status, n := bank.SendCoins(collector, tx.payer, coins.value);
    r := if status.Overflowed? then Panic else Ok(true);
  }

  /** When a refund is due, when it panics before sending, and what it sends: the
      shares of the fee, a valid set that is at most the fee. */
  lemma RefundLaws(b: Balances, tx: FeeTx, gasUsed: Gas, collector: Account)
    requires PassesBasic(tx)
    ensures var r, f := RefundOf(b, tx, gasUsed, collector), DueFraction(tx.gas, gasUsed);
            && (r.NotDue? <==> tx.gas < CountedGas(gasUsed) || forall i :: 0 <= i < |tx.settle| ==> tx.settle[i])
            && (r.Crash? <==> !r.NotDue? && (tx.gas == 0 || !AllDenomsValid(tx.fee) || !SharesFit(tx.fee, f)))
            && (r.Tried? ==> && Valid(r.coins) && AllDenomsValid(r.coins)
                             && forall d :: Amount(r.coins, d) == Shared(tx.fee, f, d) <= Total(tx.fee, d))
  {
    if tx.gas >= CountedGas(gasUsed) && !IsSettleTx(tx) {
      FractionInRange(tx.gas, gasUsed);
      if tx.gas > 0 {
        var f := DueFraction(tx.gas, gasUsed);
        RefundSetLaws(tx.fee, f);
        forall d ensures Shared(tx.fee, f, d) <= Total(tx.fee, d) { SharedAtMost(tx.fee, f, d); }
        if RefundSet(tx.fee, f).Ok? { RefundIsValid(tx.fee, f); }
      }
    }
  }

  /** Per denomination, what is sent back is the exact unused share of the fee, but
      for the rounding of the fraction and of each coin. */
  lemma RefundIsUnusedShare(b: Balances, tx: FeeTx, gasUsed: Gas, collector: Account, d: Bytes)
    requires PassesBasic(tx) && RefundOf(b, tx, gasUsed, collector).Tried?
    ensures var r := Amount(RefundOf(b, tx, gasUsed, collector).coins, d);
            Near(r, Total(tx.fee, d), Count(tx.fee, d), tx.gas, tx.gas - CountedGas(gasUsed))
  {
    RefundLaws(b, tx, gasUsed, collector);
    SharedOfUnused(tx.fee, tx.gas, gasUsed, d);
  }

  /** A refund is paid in full exactly when the collector covers it in every
      denomination and no balance of the payer outgrows an Int.  Otherwise the coins
      before the first that fails are paid. */
  lemma PaidInFullIff(b: Balances, tx: FeeTx, gasUsed: Gas, collector: Account)
    requires PassesBasic(tx) && collector != tx.payer
    ensures var r := RefundOf(b, tx, gasUsed, collector);
            r.Tried? ==>
              && (r.sending.status.Sent? <==>
                    forall d :: Amount(r.coins, d) > 0 ==> && Balance(b, collector, d) >= Amount(r.coins, d)
                                                           && Balance(b, tx.payer, d) + Amount(r.coins, d) < INT_LIMIT)
              && r.sending.n <= |r.coins| && (r.sending.status.Sent? <==> r.sending.n == |r.coins|)
              && (!r.sending.status.Overflowed? ==>
                    Moved(b, r.sending.balances, collector, tx.payer, r.coins[..r.sending.n]))
  {
    var r := RefundOf(b, tx, gasUsed, collector);
    if r.Tried? {
      RefundLaws(b, tx, gasUsed, collector);
      SendAllLaws(b, collector, tx.payer, r.coins);
      SentIff(b, collector, tx.payer, r.coins);
      ByDenom(b, collector, tx.payer, r.coins);
    }
  }

  lemma ByDenom(b: Balances, from: Account, to: Account, coins: seq<Coin>)
    requires Valid(coins)
    ensures (forall i :: 0 <= i < |coins| ==> && Balance(b, from, coins[i].denom) >= coins[i].amount
                                              && Balance(b, to, coins[i].denom) + coins[i].amount < INT_LIMIT)
       <==> (forall d :: Amount(coins, d) > 0 ==> && Balance(b, from, d) >= Amount(coins, d)
                                                  && Balance(b, to, d) + Amount(coins, d) < INT_LIMIT)
  {
    forall i | 0 <= i < |coins| ensures Amount(coins, coins[i].denom) == coins[i].amount { AmountAt(coins, i); }
    forall d ensures Amount(coins, d) != 0 ==> exists i :: 0 <= i < |coins| && coins[i].denom == d && coins[i].amount == Amount(coins, d) {
      AmountElsewhere(coins, d);
    }
  }

  /** A refund of half of 10 AB and 10 CD from a collector that has 5 AB: the AB
      are paid, the CD are not. */
  lemma PaidInPart()
    ensures var ab, cd, payer, collector: Account := [65, 66], [67, 68], [1], [2];
            var tx := FeeTx([Coin(ab, 10), Coin(cd, 10)], 40000, [false], payer);
            var b: Balances := map[(collector, ab) := 5];
            var r := RefundOf(b, tx, 0, collector);
            && r.Tried? && r.coins == [Coin(ab, 5), Coin(cd, 5)] && r.sending.status.Refused? && r.sending.n == 1
            && Balance(r.sending.balances, payer, ab) == 5 && Balance(r.sending.balances, payer, cd) == 0
  {
    var ab, cd, payer, collector: Account := [65, 66], [67, 68], [1], [2];
    var tx := FeeTx([Coin(ab, 10), Coin(cd, 10)], 40000, [false], payer);
    var b: Balances := map[(collector, ab) := 5];
    HalfLeft();
    HalfOfTwo(ab, cd);
    var coins := [Coin(ab, 5), Coin(cd, 5)];
    assert !IsSettleTx(tx) by { assert !tx.settle[0]; }
    assert Less(ab, cd);
    assert Valid(coins);
    var (next, status) := SendOne(b, collector, payer, coins[0]);
    assert status.Sent? && Balance(next, payer, ab) == 5 && Balance(next, collector, cd) == 0;
    assert SendFrom(next, collector, payer, coins, 1) == Sending(next, Refused, 1);
  }

  lemma HalfLeft()
    ensures RefundFraction(40000, 0) == Ok(HALF)
  {
    assert Scaled(20000 * P, 40000 * P) == HALF * P;
  }

  lemma HalfOfTwo(ab: Bytes, cd: Bytes)
    requires ValidDenom(ab) && ValidDenom(cd) && Less(ab, cd)
    ensures RefundSet([Coin(ab, 10), Coin(cd, 10)], HALF) == Ok([Coin(ab, 5), Coin(cd, 5)])
  {
    var fee, coins := [Coin(ab, 10), Coin(cd, 10)], [Coin(ab, 5), Coin(cd, 5)];
    assert fee[..1] == [Coin(ab, 10)] && [Coin(ab, 10)][..0] == [];
    ShareIsExact(10, HALF);
    assert Share(10, HALF) == 5;
    NonZeroIsSame([Coin(ab, 5)]);
    NonZeroIsSame([Coin(cd, 5)]);
    assert RefundSet([], HALF) == Ok([]) && AddShare([], fee[0], HALF) == Ok([Coin(ab, 5)]);
    assert RefundSet(fee[..1], HALF) == Ok([Coin(ab, 5)]);
    assert [Coin(ab, 5)][1..] == [];
    assert Merge(INT_LIMIT, [Coin(ab, 5)], [Coin(cd, 5)]) == Prepend([Coin(ab, 5)], Merge(INT_LIMIT, [], [Coin(cd, 5)]));
    assert [Coin(ab, 5)] + [Coin(cd, 5)] == coins;
    assert RefundSet(fee, HALF) == AddShare([Coin(ab, 5)], fee[1], HALF);
  }

  // ---- Fee and refund together ----

  /** What one transaction's fee and refund did to an account. */
  ghost function FeeEffect(before: Balances, charged: Balances, run: Balances, after: Balances, a: Account, d: Bytes): int {
    (Balance(charged, a, d) - Balance(before, a, d)) + (Balance(after, a, d) - Balance(run, a, d))
  }

  /** Some denomination of the fee could push the payer's balance past an Int. */
  ghost predicate Outgrows(b: Balances, tx: FeeTx) {
    exists d :: Balance(b, tx.payer, d) + Total(tx.fee, d) >= INT_LIMIT
  }

  /** Fee, messages of any effect, refund.  The collector never loses by it and
      never gains more than the fee; what it gains the payer loses; coins are paid
      back only where this transaction's fee was deducted; and the refund panics only
      on zero gas, on a balance outgrowing an Int, or on an invalid denomination in a
      fee that is zero altogether. */
  method DeliverFees(bank: Keeper, quota: SettleQuota, tx: FeeTx, active: bool, collector: Account,
                     messages: Balances -> Balances, gasUsed: Gas)
    returns (charge: Charge, refunded: Outcome<bool>, ghost charged: Balances)
    requires PassesBasic(tx) && quota.Inv() && quota.limit < HALF_WORD && tx.payer != collector
    modifies bank, quota
    ensures quota.Inv()
    ensures !charge.Rejected? && !charge.Crashed? && refunded.Ok? ==>
              forall d :: var gain := FeeEffect(old(bank.balances), charged, messages(charged), bank.balances, collector, d);
                          && 0 <= gain <= Total(tx.fee, d)
                          && FeeEffect(old(bank.balances), charged, messages(charged), bank.balances, tx.payer, d) == -gain
    ensures !charge.Rejected? && !charge.Crashed? && !charge.Deducted? && refunded.Ok? ==>
              forall a, d :: Balance(bank.balances, a, d) == Balance(messages(charged), a, d)
    ensures refunded.Panic? ==>
              tx.gas == 0 || Outgrows(messages(charged), tx) || (IsZero(tx.fee) && !AllDenomsValid(tx.fee))
  {
    refunded := Ok(false);
    charge := ChargeFee(bank, quota, tx, active, collector);
    charged := bank.balances;
    if charge.Rejected? || charge.Crashed? { return; }
    ghost var run := messages(charged);
    bank.balances := messages(bank.balances);
    refunded := RefundGas(bank, tx, gasUsed, collector);
    ghost var paid := PaidBack(run, tx, gasUsed, collector, old(bank.balances), charge.Deducted?);
    if charge.Deducted? { DeductedInFull(old(bank.balances), tx.payer, collector, tx.fee); }
    forall d ensures 0 <= Total(tx.fee, d) { TotalGrows(tx.fee, |tx.fee|, d); assert tx.fee[..|tx.fee|] == tx.fee; }
  }

  /** What a refund moves is at most the fee, and nothing for a fee that was not deducted. */
  lemma PaidBack(run: Balances, tx: FeeTx, gasUsed: Gas, collector: Account, before: Balances, deducted: bool) returns (paid: seq<Coin>)
    requires PassesBasic(tx) && collector != tx.payer
    requires deducted ==> SendAll(before, tx.payer, collector, tx.fee).status.Sent?
    requires !deducted ==> IsZero(tx.fee) || IsSettleTx(tx)
    ensures var r := RefundOf(run, tx, gasUsed, collector);
            && (r.NotDue? ==> paid == [])
            && (r.Crash? ==> tx.gas == 0 || (IsZero(tx.fee) && !AllDenomsValid(tx.fee)))
            && (r.Tried? && r.sending.status.Overflowed? ==> Outgrows(run, tx))
            && (r.Tried? && !r.sending.status.Overflowed? ==> Moved(run, r.sending.balances, collector, tx.payer, paid))
    ensures forall d :: 0 <= Total(paid, d) <= Total(tx.fee, d) && (!deducted ==> Total(paid, d) == 0)
  {
    paid := [];
    forall d ensures 0 <= Total(tx.fee, d) && (IsZero(tx.fee) ==> Total(tx.fee, d) == 0) { FeeTotal(tx.fee, d); }
    assert forall d :: Total(paid, d) == 0;
    var r := RefundOf(run, tx, gasUsed, collector);
    if r.Crash? && tx.gas > 0 { CrashReason(run, tx, gasUsed, collector, before, deducted); }
    if r.Tried? {
      TriedPays(run, tx, gasUsed, collector);
      paid := r.coins[..r.sending.n];
    }
  }

  lemma CrashReason(run: Balances, tx: FeeTx, gasUsed: Gas, collector: Account, before: Balances, deducted: bool)
    requires PassesBasic(tx) && collector != tx.payer && 0 < tx.gas && RefundOf(run, tx, gasUsed, collector).Crash?
    requires deducted ==> SendAll(before, tx.payer, collector, tx.fee).status.Sent?
    requires !deducted ==> IsZero(tx.fee) || IsSettleTx(tx)
    ensures IsZero(tx.fee) && !AllDenomsValid(tx.fee)
  {
    RefundLaws(run, tx, gasUsed, collector);
    ChargedFits(tx, DueFraction(tx.gas, gasUsed), collector, before, deducted);
  }

  lemma ChargedFits(tx: FeeTx, f: nat, collector: Account, before: Balances, deducted: bool)
    requires PassesBasic(tx) && collector != tx.payer && f <= P
    requires deducted ==> SendAll(before, tx.payer, collector, tx.fee).status.Sent?
    requires !deducted ==> IsZero(tx.fee)
    ensures SharesFit(tx.fee, f) && (deducted ==> AllDenomsValid(tx.fee))
  {
    if deducted { DeductedInFull(before, tx.payer, collector, tx.fee); }
    forall d ensures Shared(tx.fee, f, d) < INT_LIMIT {
      SharedAtMost(tx.fee, f, d);
      FeeTotal(tx.fee, d);
    }
  }

  lemma TriedPays(run: Balances, tx: FeeTx, gasUsed: Gas, collector: Account)
    requires PassesBasic(tx) && collector != tx.payer && RefundOf(run, tx, gasUsed, collector).Tried?
    ensures var r := RefundOf(run, tx, gasUsed, collector);
            && r.sending.n <= |r.coins|
            && (r.sending.status.Overflowed? ==> Outgrows(run, tx))
            && (!r.sending.status.Overflowed? ==> Moved(run, r.sending.balances, collector, tx.payer, r.coins[..r.sending.n]))
            && forall d :: 0 <= Total(r.coins[..r.sending.n], d) <= Total(tx.fee, d)
  {
    var r := RefundOf(run, tx, gasUsed, collector);
    RefundLaws(run, tx, gasUsed, collector);
    SendAllLaws(run, collector, tx.payer, r.coins);
    forall d ensures 0 <= Total(r.coins[..r.sending.n], d) <= Total(tx.fee, d) {
      TotalGrows(r.coins, r.sending.n, d);
      TotalOfSorted(r.coins, d);
    }
    if r.sending.status.Overflowed? {
      assert !Taken(run, tx.payer, r.coins, r.sending.n);
      var d := r.coins[r.sending.n].denom;
      TotalGrows(r.coins, r.sending.n + 1, d);
      TotalOfSorted(r.coins, d);
    }
  }

  lemma {:induction false} FeeTotal(fee: seq<Coin>, d: Bytes)
    requires NonNegative(fee)
    ensures 0 <= Total(fee, d) && (IsZero(fee) ==> Total(fee, d) == 0)
    decreases |fee|
  {
    if fee != [] { FeeTotal(fee[..|fee| - 1], d); }
  }
}
