/** `runTx` on cache-wrapped stores: caches are wrapped, written and dropped as
    in the application, and the outcome is the one of the plain meaning. */
module TxExec {
  import opened Bytes
  import opened OrderedMap
  import opened CacheKV
  import opened CacheMulti
  import opened Gas
  import opened Handlers
  import opened TxSpec

  method ValidateBasicTxMsgs(msgs: seq<Msg>, ghost ms: MultiStore) returns (code: Code)
    requires ms.Shape() && ms.Inv()
    ensures code == ValidateBasic(msgs)
    ensures ms.Inv() && ms.Stacks() == old(ms.Stacks())
  {
    if |msgs| == 0 { return CodeUnknownRequest; }
    for i := 0 to |msgs|
      invariant FirstFailure(msgs) == FirstFailure(msgs[i..])
    {
      if msgs[i].basic != CodeOK { return msgs[i].basic; }
      assert msgs[i..][1..] == msgs[i + 1..];
    }
    code := CodeOK;
  }

  /** Runs the messages on a layer that can be dropped. */
  method RunMsgsOn(ms: MultiStore, msgs: seq<Msg>, mode: Mode, meter: GasMeter) returns (r: Ran<MsgsResult>)
    requires ms.Shape() && ms.Inv() && meter !in ms.Repr()
    modifies ms.Repr(), meter
    ensures ms.Inv()
    ensures var (s, g, ran) := RunMsgs(msgs, mode, old(ms.View()), old(meter.meter));
            ms.Stacks() == WithHeads(old(ms.Stacks()), s) && meter.meter == g && r == ran
  {
    ghost var st, s := ms.Stacks(), ms.View();
    SameHeads(st);
    for i := 0 to |msgs|
      invariant ms.Inv() && s.Keys == st.Keys && ms.Stacks() == WithHeads(st, s)
      invariant RunMsgs(msgs[i..], mode, s, meter.meter) == RunMsgs(msgs, mode, old(ms.View()), old(meter.meter))
    {
      assert msgs[i..][1..] == msgs[i + 1..];
      if msgs[i].handler.None? {
        return Returned(MsgsResult(CodeUnknownRequest, 0));
      }
      if mode != Check {
        WithHeadsParts(st, s);
        ghost var ran := Start(msgs[i].handler.value, s, meter.meter);
        var code := Exec(msgs[i].handler.value, ms, meter);
        WithHeadsTwice(st, s, ran.0);
        s := ran.0;
        if code.Panicked? { return Panicked(code.panic); }
        if code.result != CodeOK { return Returned(MsgsResult(code.result, meter.meter.consumed)); }
      }
    }
    assert msgs[|msgs|..] == [];
    r := Returned(MsgsResult(CodeOK, meter.meter.consumed));
  }

  /** A cache over `ms` that is apart from everything given. */
  method CacheTxContext(ms: MultiStore, ghost others: set<object>) returns (c: MultiStore)
    requires ms.Shape() && ms.Inv()
    ensures c.Shape() && c.Inv() && c.Over(ms) && c.Repr() == c.Tops() + ms.Repr()
    ensures fresh(c.Tops()) && c.Tops() !! others && c.Tops() !! ms.Repr() && unchanged(others)
    ensures c.Stacks() == Wrapped(ms.Stacks())
    ensures ms.Inv() && ms.Stacks() == old(ms.Stacks())
  {
    c := ms.CacheMultiStore();
    ms.Untouched();
  }

  /** Runs a handler on a fresh cache over `ms` without writing it. */
  method ExecOnCache<R>(h: Handler<R>, ms: MultiStore, c: MultiStore, meter: GasMeter) returns (r: Ran<R>)
    requires ms.Shape() && ms.Inv() && c.Shape() && c.Inv() && c.Over(ms)
    requires c.Stacks() == Wrapped(ms.Stacks()) && meter !in c.Repr()
    modifies c.Repr(), meter
    ensures c.Inv() && ms.Inv() && ms.Stacks() == old(ms.Stacks())
    ensures var (s, g, ran) := Start(h, old(ms.View()), old(meter.meter));
            c.Stacks() == WithHeads(Wrapped(ms.Stacks()), s) && meter.meter == g && r == ran
  {
    ghost var st := ms.Stacks();
    WriteBack(st, Heads(st));
    ghost var s := Start(h, ms.View(), meter.meter).0;
    WriteBack(st, s);
    r := Exec(h, c, meter);
    c.OverStacks(ms);
  }

  /** Writes a cache over `ms` that holds `s`. */
  method WriteCache(ms: MultiStore, c: MultiStore, ghost s: Multi)
    requires ms.Shape() && c.Shape() && c.Inv() && c.Over(ms)
    requires s.Keys == ms.stores.Keys && c.Stacks() == WithHeads(Wrapped(ms.Stacks()), s)
    modifies c.Repr()
    ensures ms.Inv() && ms.Stacks() == WithHeads(old(ms.Stacks()), s)
  {
    WriteBack(ms.Stacks(), s);
    c.Write();
    c.OverStacks(ms);
  }

  /** Runs the ante handler on a cache, written only when it lets the transaction through. */
  method RunAnteOn(ms: MultiStore, ante: Handler<AnteResult>, base: GasMeter) returns (ran: Ran<AnteResult>)
    requires ms.Shape() && ms.Inv() && base !in ms.Repr()
    modifies ms.Repr(), base
    ensures ms.Inv()
    ensures var (s, g, r) := Start(ante, old(ms.View()), old(base.meter));
            && base.meter == g && ran == r
            && ms.Stacks() == if r.Panicked? || r.result.abort then old(ms.Stacks()) else WithHeads(old(ms.Stacks()), s)
  {
    var msCache := CacheTxContext(ms, {base});
    ghost var s := Start(ante, ms.View(), base.meter).0;
    ran := ExecOnCache(ante, ms, msCache, base);
    if ran.Returned? && !ran.result.abort {
      WriteCache(ms, msCache, s);
    }
  }

  /** The body of a transaction as seen from its meters: `cur` is the context's
      own meter `base`, or another one the ante handler put in place. */
  ghost function BodyOf(s: Multi, base: GasMeter, cur: GasMeter, gasWanted: Gas, ended: Ran<Code>): Body
    reads base, cur
  {
    Body(s, base.meter, if cur == base then None else Some(cur.meter), gasWanted, ended)
  }

  method RunBodyOn(ms: MultiStore, mode: Mode, tx: Tx, base: GasMeter)
    returns (cur: GasMeter, gasWanted: Gas, ended: Ran<Code>)
    requires ms.Shape() && ms.Inv() && base !in ms.Repr()
    modifies ms.Repr(), base
    ensures ms.Inv() && (cur == base || fresh(cur))
    ensures var b := RunBody(mode, old(ms.View()), old(base.meter), tx);
            ms.Stacks() == WithHeads(old(ms.Stacks()), b.state) && b == BodyOf(b.state, base, cur, gasWanted, ended)
  {
    var basic := ValidateBasicTxMsgs(tx.msgs, ms);
    if basic != CodeOK {
      SameHeads(ms.Stacks());
      return base, 0, Returned(basic);
    }
    cur, gasWanted, ended := RunValidOn(ms, mode, tx, base);
  }

  method RunValidOn(ms: MultiStore, mode: Mode, tx: Tx, base: GasMeter)
    returns (cur: GasMeter, gasWanted: Gas, ended: Ran<Code>)
    requires ms.Shape() && ms.Inv() && base !in ms.Repr() && ValidateBasic(tx.msgs) == CodeOK
    modifies ms.Repr(), base
    ensures ms.Inv() && (cur == base || fresh(cur))
    ensures var b := RunBody(mode, old(ms.View()), old(base.meter), tx);
            ms.Stacks() == WithHeads(old(ms.Stacks()), b.state) && b == BodyOf(b.state, base, cur, gasWanted, ended)
  {
    ghost var st, s1 := ms.Stacks(), Start(tx.ante, ms.View(), base.meter).0;
    SameHeads(st);
    WithHeadsParts(st, s1);
    var ran := RunAnteOn(ms, tx.ante, base);
    if ran.Panicked? { return base, 0, Panicked(ran.panic); }
    gasWanted := ran.result.gasWanted;
    WithHeadsTwice(st, s1, FromAnte(mode, s1, base.meter, ran.result, tx).state);
    cur, ended := RunFromAnte(ms, mode, tx, base, ran.result);
  }

  /** What follows the ante handler: nothing if it aborts. */
  method RunFromAnte(ms: MultiStore, mode: Mode, tx: Tx, base: GasMeter, ante: AnteResult)
    returns (cur: GasMeter, ended: Ran<Code>)
    requires ms.Shape() && ms.Inv() && base !in ms.Repr()
    modifies ms.Repr(), base
    ensures ms.Inv() && (cur == base || fresh(cur))
    ensures var b := FromAnte(mode, old(ms.View()), old(base.meter), ante, tx);
            ms.Stacks() == WithHeads(old(ms.Stacks()), b.state) && b == BodyOf(b.state, base, cur, ante.gasWanted, ended)
  {
    cur := MeterOf(ms, ante, base);
    if ante.abort {
      SameHeads(ms.Stacks());
      return cur, Returned(ante.code);
    }
    ended := AfterAnteOn(ms, mode, tx, cur, ante.gasWanted);
  }

  /** The meter of the context the ante handler returned. */
  method MeterOf(ms: MultiStore, ante: AnteResult, base: GasMeter) returns (cur: GasMeter)
    requires ms.Shape() && ms.Inv() && base !in ms.Repr()
    ensures ms.Inv() && ms.Stacks() == old(ms.Stacks()) && cur !in ms.Repr()
    ensures if ante.newMeter.None? then cur == base else fresh(cur) && cur.meter == ante.newMeter.value
    ensures base.meter == old(base.meter)
  {
    cur := base;
    if ante.newMeter.Some? {
      cur := new GasMeter(ante.newMeter.value);
    }
  }

  method AfterAnteOn(ms: MultiStore, mode: Mode, tx: Tx, cur: GasMeter, gasWanted: Gas) returns (ended: Ran<Code>)
    requires ms.Shape() && ms.Inv() && cur !in ms.Repr()
    modifies ms.Repr(), cur
    ensures ms.Inv()
    ensures var (s, g, end) := AfterAnte(mode, old(ms.View()), old(cur.meter), gasWanted, tx);
            ms.Stacks() == WithHeads(old(ms.Stacks()), s) && cur.meter == g && ended == end
  {
    ghost var st, s := ms.Stacks(), ms.View();
    SameHeads(st);
    ghost var s2 := RunMsgs(tx.msgs, mode, s, cur.meter).0;
    var result, msCache, msCacheFinal := RunMsgsOnCaches(ms, tx.msgs, mode, cur);
    if result.Panicked? { return Panicked(result.panic); }
    if mode != Deliver { return Returned(result.result.code); }
    var ok := result.result.code == CodeOK;
    var refund := tx.refund(gasWanted, result.result.gasUsed);
    var paid := RefundOn(refund, ms, if ok then msCache else msCacheFinal, cur, ok, if ok then s2 else s);
    ended := if paid.Panicked? then Panicked(paid.panic) else Returned(result.result.code);
  }

  /** Wraps two caches over `ms` and runs the messages on the first; the second
      still reads as `ms` does. */
  method RunMsgsOnCaches(ms: MultiStore, msgs: seq<Msg>, mode: Mode, cur: GasMeter)
    returns (result: Ran<MsgsResult>, msCache: MultiStore, msCacheFinal: MultiStore)
    requires ms.Shape() && ms.Inv() && cur !in ms.Repr()
    modifies ms.Repr(), cur
    ensures ms.Inv() && ms.Stacks() == old(ms.Stacks())
    ensures Holds(msCacheFinal, ms, ms.View()) && fresh(msCacheFinal.Tops()) && cur !in msCacheFinal.Repr()
    ensures var (s, g, ran) := RunMsgs(msgs, mode, old(ms.View()), old(cur.meter));
            && Holds(msCache, ms, s) && fresh(msCache.Tops()) && cur !in msCache.Repr()
            && cur.meter == g && result == ran
  {
    msCache, msCacheFinal := TwoCaches(ms, cur);
    result := RunMsgsOnCache(msgs, mode, ms, msCache, cur, msCacheFinal);
    CacheHolds(msCacheFinal, ms, cur);
  }

  lemma CacheHolds(c: MultiStore, ms: MultiStore, cur: GasMeter)
    requires ms.Shape() && IsCache(c, ms, cur)
    ensures Holds(c, ms, ms.View())
  {
    SameHeads(Wrapped(ms.Stacks()));
    WriteBack(ms.Stacks(), ms.View());
  }

  /** Two caches over the same layer, apart from each other. */
  method TwoCaches(ms: MultiStore, cur: GasMeter) returns (c: MultiStore, d: MultiStore)
    requires ms.Shape() && ms.Inv() && cur !in ms.Repr()
    ensures ms.Inv() && ms.Stacks() == old(ms.Stacks()) && cur.meter == old(cur.meter)
    ensures IsCache(c, ms, cur) && IsCache(d, ms, cur) && fresh(c.Tops()) && fresh(d.Tops())
    ensures d.Tops() !! c.Repr()
  {
    c := CacheTxContext(ms, {cur});
    label Before:
    d := CacheTxContext(ms, c.Repr() + {cur});
    c.Untouched@Before();
  }

  ghost predicate IsCache(c: MultiStore, ms: MultiStore, cur: GasMeter)
    requires ms.Shape()
    reads c.Repr(), ms.Repr()
  {
    && c.Shape() && c.Over(ms) && c.Repr() == c.Tops() + ms.Repr() && cur !in c.Repr()
    && c.Inv() && c.Stacks() == Wrapped(ms.Stacks())
  }

  /** A coherent cache over `ms` that reads as `s`. */
  ghost predicate Holds(c: MultiStore, ms: MultiStore, s: Multi)
    requires ms.Shape()
    reads c.Repr(), ms.Repr()
  {
    && c.Shape() && c.Over(ms) && c.Repr() == c.Tops() + ms.Repr()
    && c.Inv() && s.Keys == ms.stores.Keys && c.Stacks() == WithHeads(Wrapped(ms.Stacks()), s)
  }

  method RefundOn(h: Handler<bool>, ms: MultiStore, c: MultiStore, cur: GasMeter, ok: bool, ghost s2: Multi)
    returns (paid: Ran<bool>)
    requires ms.Shape() && ms.Inv() && Holds(c, ms, s2) && cur !in c.Repr()
    modifies c.Repr(), cur
    ensures ms.Inv()
    ensures var (s, g, r) := Refund(h, old(ms.View()), s2, old(cur.meter), ok);
            ms.Stacks() == WithHeads(old(ms.Stacks()), s) && cur.meter == g && paid == r
  {
    SameHeads(ms.Stacks());
    ghost var s3 := Start(h, s2, cur.meter).0;
    paid := ExecHeld(h, ms, c, cur, s2);
    if paid.Returned? && (ok || paid.result) {
      WriteCache(ms, c, s3);
    }
  }

  /** Runs a handler on a cache over `ms` that reads as `s`. */
  method ExecHeld(h: Handler<bool>, ms: MultiStore, c: MultiStore, meter: GasMeter, ghost s: Multi) returns (r: Ran<bool>)
    requires ms.Shape() && ms.Inv() && Holds(c, ms, s) && meter !in c.Repr()
    modifies c.Repr(), meter
    ensures ms.Inv() && ms.Stacks() == old(ms.Stacks())
    ensures var e := Start(h, s, old(meter.meter));
            Holds(c, ms, e.0) && meter.meter == e.1 && r == e.2
  {
    ghost var st, next := ms.Stacks(), Start(h, s, meter.meter).0;
    WithHeadsParts(Wrapped(st), s);
    WithHeadsTwice(Wrapped(st), s, next);
    WriteBack(st, next);
    r := Exec(h, c, meter);
    c.OverStacks(ms);
  }

  /** Runs messages on one cache over `ms`; another one stays as it was. */
  method RunMsgsOnCache(msgs: seq<Msg>, mode: Mode, ms: MultiStore, c: MultiStore, meter: GasMeter, ghost d: MultiStore)
    returns (r: Ran<MsgsResult>)
    requires ms.Shape() && ms.Inv() && IsCache(c, ms, meter) && IsCache(d, ms, meter) && d.Tops() !! c.Repr()
    modifies c.Repr(), meter
    ensures c.Inv() && ms.Inv() && ms.Stacks() == old(ms.Stacks())
    ensures IsCache(d, ms, meter)
    ensures var (s, g, ran) := RunMsgs(msgs, mode, old(ms.View()), old(meter.meter));
            c.Stacks() == WithHeads(Wrapped(ms.Stacks()), s) && meter.meter == g && r == ran
  {
    ghost var st := ms.Stacks();
    WriteBack(st, Heads(st));
    WriteBack(st, RunMsgs(msgs, mode, ms.View(), meter.meter).0);
    r := RunMsgsOn(c, msgs, mode, meter);
    c.OverStacks(ms);
    d.StaysCoherent(ms);
  }

  /** `runTx`, with its two deferred calls run last, in reverse order. */
  method RunTxOn(ms: MultiStore, mode: Mode, tx: Tx, base: GasMeter, block: GasMeter) returns (result: TxResult)
    requires ms.Shape() && ms.Inv() && base !in ms.Repr() && block !in ms.Repr() && base != block
    modifies ms.Repr(), base, block
    ensures ms.Inv()
    ensures var e := RunTx(mode, old(ms.View()), old(base.meter), old(block.meter), tx);
            && ms.Stacks() == WithHeads(old(ms.Stacks()), e.state)
            && base.meter == e.base && block.meter == e.block && result == e.result
  {
    SameHeads(ms.Stacks());
    if mode == Deliver && block.meter.IsOutOfGas() {
      return TxResult(CodeOutOfGas, 0, 0);
    }
    var startingGas := block.meter.consumed;
    var cur, gasWanted, ended := RunBodyOn(ms, mode, tx, base);
    if mode == Deliver {
      ended := ChargeBlock(ms, cur, block, startingGas, ended);
    }
    var code := match ended
                case Returned(code) => code
                case Panicked(OutOfGasPanic) => CodeOutOfGas
                case Panicked(OtherPanic) => CodeInternal;
    result := TxResult(code, gasWanted, cur.meter.consumed);
  }

  /** Charges the block meter; a panic of its own replaces one under way. */
  method ChargeBlock(ms: MultiStore, cur: GasMeter, block: GasMeter, startingGas: Gas, under: Ran<Code>) returns (ended: Ran<Code>)
    requires ms.Shape() && ms.Inv() && block !in ms.Repr() && block != cur
    requires startingGas == block.meter.consumed
    modifies block
    ensures ms.Inv() && ms.Stacks() == old(ms.Stacks()) && cur.meter == old(cur.meter)
    ensures var (b, panic) := ChargeBlockMeter(old(block.meter), cur.meter.ConsumedToLimit());
            block.meter == b && ended == if panic.Some? then Panicked(panic.value) else under
  {
    var panic := block.ConsumeGas(cur.meter.ConsumedToLimit());
    if panic == Some(OutOfGas) { return Panicked(OutOfGasPanic); }
    if panic.Some? || block.meter.consumed < startingGas { return Panicked(OtherPanic); }
    ended := under;
  }
}
