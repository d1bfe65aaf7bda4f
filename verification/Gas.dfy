/** Gas meters: 64-bit counters that panic past a limit or past the word. */
module Gas {
  import opened Bytes

  const MAX_UINT64: int := 0xFFFF_FFFF_FFFF_FFFF

  /** 2^63 and 2^64. */
  const HALF_WORD: int := 0x8000_0000_0000_0000
  const WORD: int := 0x1_0000_0000_0000_0000

  type Gas = x: int | 0 <= x <= MAX_UINT64

  /** Go's conversions between uint64 and int64. */
  function ToInt64(x: Gas): int {
    if x < HALF_WORD then x else x - WORD
  }

  function ToUint64(x: int): int {
    if x >= 0 then x else x + WORD
  }

  function Sum(xs: seq<Gas>): nat {
    if xs == [] then 0 else xs[0] + Sum(xs[1..])
  }

  lemma {:induction false} SumSnoc(xs: seq<Gas>, x: Gas)
    ensures Sum(xs + [x]) == Sum(xs) + x
  {
    if xs == [] {
      assert xs + [x] == [x] && [x][1..] == [];
    } else {
      assert (xs + [x])[1..] == xs[1..] + [x];
      SumSnoc(xs[1..], x);
    }
  }

  /** What ConsumeGas panics with. */
  datatype GasPanic = OutOfGas | GasOverflow

  /** A basic meter has a limit; an infinite one only counts. */
  datatype Meter = Basic(limit: Gas, consumed: Gas) | Infinite(consumed: Gas) {

    predicate IsPastLimit() {
      Basic? && consumed > limit
    }

    predicate IsOutOfGas() {
      Basic? && consumed >= limit
    }

    function ConsumedToLimit(): Gas {
      if IsPastLimit() then limit else consumed
    }
  }

  /** The sum, or zero and a flag when it does not fit the word. */
  function AddUint64Overflow(a: Gas, b: Gas): (r: (Gas, bool))
    ensures r.1 <==> a + b > MAX_UINT64
    ensures r.0 == if r.1 then 0 else a + b
  {
    if MAX_UINT64 - a < b then (0, true) else (a + b, false)
  }

  /** The meter after ConsumeGas and the panic, if any.  The count is stored
      before either check, so an overflow leaves zero behind. */
  function Consume(m: Meter, amount: Gas): (r: (Meter, Option<GasPanic>))
    ensures r.0.Basic? == m.Basic? && (m.Basic? ==> r.0.limit == m.limit)
    ensures r.1 == Some(GasOverflow) <==> m.consumed + amount > MAX_UINT64
    ensures r.1 != Some(GasOverflow) ==> r.0.consumed == m.consumed + amount
    ensures r.1 == Some(OutOfGas) <==> r.1 != Some(GasOverflow) && r.0.IsPastLimit()
  {
    var (sum, overflow) := AddUint64Overflow(m.consumed, amount);
    var next := m.(consumed := sum);
    (next, if overflow then Some(GasOverflow) else if next.IsPastLimit() then Some(OutOfGas) else None)
  }

  /** The meter object a context points to. */
  class GasMeter {
    var meter: Meter

    constructor (meter: Meter)
      ensures this.meter == meter
    {
      this.meter := meter;
    }

    method ConsumeGas(amount: Gas) returns (panic: Option<GasPanic>)
      modifies this
      ensures (meter, panic) == Consume(old(meter), amount)
    {
      var sum, overflow := 0, false;
      if MAX_UINT64 - meter.consumed < amount {
        overflow := true;
      } else {
        sum := meter.consumed + amount;
      }
      meter := meter.(consumed := sum);
      if overflow { return Some(GasOverflow); }
      if meter.IsPastLimit() { return Some(OutOfGas); }
      panic := None;
    }
  }
}
