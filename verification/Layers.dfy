/** Two cache layers over one root: what happens on one leaves the root and the
    other one alone until it is written. */
module Layers {
  import opened Bytes
  import opened OrderedMap
  import opened CacheKV
  import opened CacheMulti
  import opened Gas
  import opened Handlers
  import opened TxSpec
  import opened TxExec

  /** A layer over the root. */
  ghost predicate IsLayer(ms: MultiStore, root: MultiStore) {
    root.Shape() && ms.Shape() && ms.Over(root) && ms.Repr() == ms.Tops() + root.Repr() && ms.Tops() !! root.Repr()
  }

  /** Two layers over the root, apart from each other; the second may be missing. */
  ghost predicate Apart(ms: MultiStore, other: Option<MultiStore>, root: MultiStore) {
    && IsLayer(ms, root)
    && (other.Some? ==> IsLayer(other.value, root) && other.value.Tops() !! ms.Repr() && ms.Tops() !! other.value.Repr())
  }

  ghost function Objects(other: Option<MultiStore>): set<object> {
    if other.Some? then other.value.Repr() else {}
  }

  /** The other layer is coherent and reads as the given stacks say. */
  ghost predicate Coherent(other: Option<MultiStore>, st: Option<Stacks>)
    reads Objects(other)
  {
    other.Some? ==> other.value.Shape() && other.value.Inv() && st == Some(other.value.Stacks())
  }

  ghost function StacksOf(other: Option<MultiStore>): Option<Stacks>
    reads Objects(other)
  {
    if other.Some? && other.value.Shape() then Some(other.value.Stacks()) else None
  }

  /** Runs a block handler on one layer. */
  method HandlerOnLayer(h: Handler<()>, ms: MultiStore, meter: GasMeter, root: MultiStore, ghost other: Option<MultiStore>)
    returns (r: Ran<()>)
    requires Apart(ms, other, root) && ms.Inv() && Coherent(other, StacksOf(other))
    requires meter !in ms.Repr() + Objects(other)
    modifies ms.Repr(), meter
    ensures ms.Inv() && root.Inv() && root.Stacks() == old(root.Stacks())
    ensures Coherent(other, old(StacksOf(other)))
    ensures var e := Start(h, old(ms.View()), old(meter.meter));
            ms.View() == e.0 && meter.meter == e.1 && r == e.2
  {
    r := HandlerAlone(h, ms, meter, root);
    if other.Some? { other.value.StaysCoherent(root); }
  }

  method HandlerAlone<R>(h: Handler<R>, ms: MultiStore, meter: GasMeter, ghost root: MultiStore) returns (r: Ran<R>)
    requires IsLayer(ms, root) && ms.Inv() && meter !in ms.Repr()
    modifies ms.Repr(), meter
    ensures ms.Inv() && root.Inv() && root.Stacks() == old(root.Stacks())
    ensures var e := Start(h, old(ms.View()), old(meter.meter));
            ms.View() == e.0 && meter.meter == e.1 && r == e.2
  {
    ghost var st, s := ms.Stacks(), Start(h, ms.View(), meter.meter).0;
    ms.OverStacks(root);
    WithHeadsParts(st, s);
    r := Exec(h, ms, meter);
    ms.OverStacks(root);
  }

  /** Runs a transaction on one layer. */
  method TxOnLayer(mode: Mode, tx: Tx, ms: MultiStore, base: GasMeter, block: GasMeter, root: MultiStore, ghost other: Option<MultiStore>)
    returns (result: TxResult)
    requires Apart(ms, other, root) && ms.Inv() && Coherent(other, StacksOf(other))
    requires base !in ms.Repr() + Objects(other) && block !in ms.Repr() + Objects(other) && base != block
    modifies ms.Repr(), base, block
    ensures ms.Inv() && root.Inv() && root.Stacks() == old(root.Stacks())
    ensures Coherent(other, old(StacksOf(other)))
    ensures var e := RunTx(mode, old(ms.View()), old(base.meter), old(block.meter), tx);
            ms.View() == e.state && base.meter == e.base && block.meter == e.block && result == e.result
  {
    ghost var st, s := ms.Stacks(), RunTx(mode, ms.View(), base.meter, block.meter, tx).state;
    ms.OverStacks(root);
    WithHeadsParts(st, s);
    result := RunTxOn(ms, mode, tx, base, block);
    ms.OverStacks(root);
    if other.Some? { other.value.StaysCoherent(root); }
  }

  /** Runs a transaction on one layer in check mode, where there is no block to charge. */
  method CheckOnLayer(tx: Tx, ms: MultiStore, base: GasMeter, root: MultiStore, ghost other: Option<MultiStore>)
    returns (result: TxResult)
    requires Apart(ms, other, root) && ms.Inv() && Coherent(other, StacksOf(other))
    requires base !in ms.Repr() + Objects(other)
    modifies ms.Repr(), base
    ensures ms.Inv() && root.Inv() && root.Stacks() == old(root.Stacks())
    ensures Coherent(other, old(StacksOf(other)))
    ensures var e := RunTx(Check, old(ms.View()), old(base.meter), Infinite(0), tx);
            ms.View() == e.state && base.meter == e.base && result == e.result
  {
    ghost var st, s := ms.Stacks(), RunTx(Check, ms.View(), base.meter, Infinite(0), tx).state;
    ms.OverStacks(root);
    WithHeadsParts(st, s);
    result := CheckOn(tx, ms, base);
    ms.OverStacks(root);
    if other.Some? { other.value.StaysCoherent(root); }
  }

  method CheckOn(tx: Tx, ms: MultiStore, base: GasMeter) returns (result: TxResult)
    requires ms.Shape() && ms.Inv() && base !in ms.Repr()
    modifies ms.Repr(), base
    ensures ms.Inv()
    ensures var e := RunTx(Check, old(ms.View()), old(base.meter), Infinite(0), tx);
            ms.Stacks() == WithHeads(old(ms.Stacks()), e.state) && base.meter == e.base && result == e.result
  {
    var block := NewMeter(ms, ms, Infinite(0));
    result := RunTxOn(ms, Check, tx, base, block);
  }

  method NewMeter(ms: MultiStore, root: MultiStore, m: Meter) returns (meter: GasMeter)
    requires ms.Shape() && ms.Inv() && root.Shape() && root.Inv()
    ensures ms.Inv() && ms.Stacks() == old(ms.Stacks()) && root.Inv() && root.Stacks() == old(root.Stacks())
    ensures fresh(meter) && meter !in ms.Repr() && meter !in root.Repr() && meter.meter == m
  {
    meter := new GasMeter(m);
    ms.Untouched();
    root.Untouched();
  }

  /** Runs a transaction on a cache over a layer, and drops the cache. */
  method SimulateOnLayer(tx: Tx, ms: MultiStore, base: GasMeter, root: MultiStore, ghost other: Option<MultiStore>)
    returns (result: TxResult)
    requires Apart(ms, other, root) && ms.Inv() && Coherent(other, StacksOf(other))
    requires base !in ms.Repr() + Objects(other)
    modifies ms.Repr(), base
    ensures ms.Inv() && ms.Stacks() == old(ms.Stacks()) && root.Inv() && root.Stacks() == old(root.Stacks())
    ensures Coherent(other, old(StacksOf(other)))
    ensures var e := RunTx(Simulate, old(ms.View()), old(base.meter), Infinite(0), tx);
            base.meter == e.base && result == e.result
  {
    ms.OverStacks(root);
    result := SimulateOn(tx, ms, base);
    ms.OverStacks(root);
    if other.Some? { other.value.StaysCoherent(root); }
  }

  method SimulateOn(tx: Tx, ms: MultiStore, base: GasMeter) returns (result: TxResult)
    requires ms.Shape() && ms.Inv() && base !in ms.Repr()
    modifies ms.Repr(), base
    ensures ms.Inv() && ms.Stacks() == old(ms.Stacks())
    ensures var e := RunTx(Simulate, old(ms.View()), old(base.meter), Infinite(0), tx);
            base.meter == e.base && result == e.result
  {
    var block := NewMeter(ms, ms, Infinite(0));
    var c := CacheTxContext(ms, {base, block});
    result := SimulateOnCache(tx, c, ms, base, block);
  }

  method SimulateOnCache(tx: Tx, c: MultiStore, ms: MultiStore, base: GasMeter, block: GasMeter) returns (result: TxResult)
    requires ms.Shape() && ms.Inv() && IsCache(c, ms, base) && block !in c.Repr() && base != block
    modifies c.Repr(), base, block
    ensures ms.Inv() && ms.Stacks() == old(ms.Stacks())
    ensures var e := RunTx(Simulate, old(ms.View()), old(base.meter), old(block.meter), tx);
            base.meter == e.base && result == e.result
  {
    ghost var st := ms.Stacks();
    WriteBack(st, RunTx(Simulate, ms.View(), base.meter, block.meter, tx).state);
    result := RunTxOn(c, Simulate, tx, base, block);
    c.OverStacks(ms);
  }

  /** A new layer over the root, reading as the root does. */
  method NewLayer(root: MultiStore, ghost others: set<object>) returns (ms: MultiStore)
    requires root.Shape() && root.Inv()
    ensures IsLayer(ms, root) && ms.Inv() && fresh(ms.Tops()) && ms.Tops() !! others && unchanged(others)
    ensures root.Inv() && root.Stacks() == old(root.Stacks())
    ensures ms.View() == root.View() && Tails(ms.Stacks()) == root.Stacks()
  {
    ms := CacheTxContext(root, others);
    WriteBack(root.Stacks(), root.View());
    SameHeads(Wrapped(root.Stacks()));
  }

  method LayerApart(root: MultiStore, check: MultiStore, ghost others: set<object>) returns (ms: MultiStore)
    requires IsLayer(check, root) && root.Inv() && check.Inv()
    ensures Apart(check, Some(ms), root) && ms.Inv() && ms.View() == root.View()
    ensures root.Inv() && root.Stacks() == old(root.Stacks())
    ensures fresh(ms.Tops()) && ms.Tops() !! others && unchanged(others)
  {
    ms := NewLayer(root, others + check.Repr());
  }

  /** A meter that is apart from everything given. */
  method FreshMeter(m: Meter, ghost others: set<object>) returns (meter: GasMeter)
    ensures fresh(meter) && meter !in others && meter.meter == m && unchanged(others)
  {
    meter := new GasMeter(m);
  }
}
