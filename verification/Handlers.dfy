/** Application code as the base application sees it: any program that reads and
    writes the stores, spends gas, and ends by returning or by panicking. */
module Handlers {
  import opened Bytes
  import opened OrderedMap
  import opened CacheKV
  import opened CacheMulti
  import opened Gas

  /** How a panic is told apart when it is recovered. */
  datatype PanicKind = OutOfGasPanic | OtherPanic

  datatype Action<+R> =
    | Read(store: StoreKey, key: Bytes)
    | Put(store: StoreKey, key: Bytes, value: Bytes)
    | Remove(store: StoreKey, key: Bytes)
    | Scan(store: StoreKey, start: Bytes, end: Option<Bytes>, ascending: bool)
    | Charge(amount: Gas)
    | Return(result: R)
    | Abort(panic: PanicKind)

  datatype Reply =
    | Value(value: Option<Bytes>)
    | Entries(items: seq<Item>)
    | Charged(panic: Option<GasPanic>)
    | Ack

  /** A deterministic program, given by what it does next after the replies so
      far.  Every run is finite: one that has not ended after `bound` steps is cut
      short by a panic. */
  datatype Handler<R> = Handler(next: seq<Reply> -> Action<R>, bound: nat)

  datatype Ran<+R> = Returned(result: R) | Panicked(panic: PanicKind)

  /** The store an action is on, if it is on one. */
  function Target<R>(a: Action<R>): Option<StoreKey> {
    match a
    case Read(n, _) => Some(n)
    case Put(n, _, _) => Some(n)
    case Remove(n, _) => Some(n)
    case Scan(n, _, _, _) => Some(n)
    case _ => None
  }

  /** The effect of one store or gas action on plain maps. */
  function Act<R>(a: Action<R>, s: Multi, g: Meter): (Multi, Meter, Reply)
    requires !a.Return? && !a.Abort? && (a.Charge? || a.store in s)
  {
    match a
    case Read(n, k) => (s, g, Value(Lookup(s[n], k)))
    case Put(n, k, v) => (s[n := s[n][k := v]], g, Ack)
    case Remove(n, k) => (s[n := s[n] - {k}], g, Ack)
    case Scan(n, start, end, asc) => (s, g, Entries(Items(s[n], start, end, asc)))
    case Charge(amount) => var (g', p) := Consume(g, amount); (s, g', Charged(p))
  }

  /** A handler's whole run on plain maps.  Asking for a store that is not
      mounted panics. */
  function Run<R>(next: seq<Reply> -> Action<R>, bound: nat, replies: seq<Reply>, s: Multi, g: Meter)
    : (r: (Multi, Meter, Ran<R>))
    ensures r.0.Keys == s.Keys
    decreases bound
  {
    if bound == 0 then (s, g, Panicked(OtherPanic))
    else
      var a := next(replies);
      match a
      case Return(result) => (s, g, Returned(result))
      case Abort(p) => (s, g, Panicked(p))
      case _ =>
        if Target(a).Some? && Target(a).value !in s then (s, g, Panicked(OtherPanic))
        else
          var (s', g', reply) := Act(a, s, g);
          Run(next, bound - 1, replies + [reply], s', g')
  }

  /** Runs a handler on a cache-wrapped multi-store: it cannot tell the caches
      from plain maps, and nothing under the top layer changes. */
  method Exec<R>(h: Handler<R>, ms: MultiStore, meter: GasMeter) returns (r: Ran<R>)
    requires ms.Shape() && ms.Inv() && meter !in ms.Repr()
    modifies ms.Repr(), meter
    ensures ms.Inv()
    ensures var (s, g, ran) := Run(h.next, h.bound, [], old(ms.View()), old(meter.meter));
            ms.Stacks() == WithHeads(old(ms.Stacks()), s) && meter.meter == g && r == ran
  {
    var replies, left := [], h.bound;
    ghost var st, s := ms.Stacks(), ms.View();
    ghost var end := Run(h.next, h.bound, [], s, meter.meter);
    SameHeads(st);
    while left > 0
      invariant ms.Inv() && s.Keys == st.Keys && ms.Stacks() == WithHeads(st, s)
      invariant Run(h.next, left, replies, s, meter.meter) == end
    {
      var ended, reply;
      ended, reply, s := ExecNext(h, ms, meter, left, replies, st, s);
      if ended.Some? { return ended.value; }
      replies, left := replies + [reply], left - 1;
    }
    r := Panicked(OtherPanic);
  }

  /** The next action of a run, or its end. */
  method ExecNext<R>(h: Handler<R>, ms: MultiStore, meter: GasMeter, ghost left: nat, replies: seq<Reply>,
                     ghost st: Stacks, ghost s: Multi)
    returns (ended: Option<Ran<R>>, reply: Reply, ghost s': Multi)
    requires ms.Shape() && ms.Inv() && meter !in ms.Repr() && s.Keys == st.Keys && ms.Stacks() == WithHeads(st, s)
    requires left > 0
    modifies ms.Repr(), meter
    ensures ms.Inv() && s'.Keys == st.Keys && ms.Stacks() == WithHeads(st, s')
    ensures Run(h.next, left, replies, s, old(meter.meter))
         == if ended.Some? then (s', meter.meter, ended.value) else Run(h.next, left - 1, replies + [reply], s', meter.meter)
  {
    assert ms.Stacks().Keys == ms.stores.Keys;
    var a := h.next(replies);
    if a.Return? { return Some(Returned(a.result)), Ack, s; }
    if a.Abort? { return Some(Panicked(a.panic)), Ack, s; }
    if Target(a).Some? && Target(a).value !in ms.stores { return Some(Panicked(OtherPanic)), Ack, s; }
    reply, s' := DoNext(h, a, ms, meter, left, replies, st, s);
    ended := None;
  }

  /** One action of a run, on the caches as on plain maps. */
  method DoNext<R>(ghost h: Handler<R>, a: Action<R>, ms: MultiStore, meter: GasMeter, ghost left: nat, ghost replies: seq<Reply>,
                   ghost st: Stacks, ghost s: Multi)
    returns (reply: Reply, ghost s': Multi)
    requires ms.Shape() && ms.Inv() && meter !in ms.Repr() && s.Keys == st.Keys && ms.Stacks() == WithHeads(st, s)
    requires left > 0 && a == h.next(replies) && !a.Return? && !a.Abort? && (a.Charge? || a.store in ms.stores)
    modifies ms.Repr(), meter
    ensures ms.Inv() && s'.Keys == st.Keys && ms.Stacks() == WithHeads(st, s')
    ensures Run(h.next, left, replies, s, old(meter.meter)) == Run(h.next, left - 1, replies + [reply], s', meter.meter)
  {
    WithHeadsParts(st, s);
    RunStep(h.next, left, replies, s, meter.meter);
    s' := Act(a, s, meter.meter).0;
    WithHeadsTwice(st, s, s');
    reply := Do(a, ms, meter, s);
  }

  lemma RunStep<R>(next: seq<Reply> -> Action<R>, left: nat, replies: seq<Reply>, s: Multi, g: Meter)
    requires left > 0
    requires var a := next(replies); !a.Return? && !a.Abort? && (a.Charge? || a.store in s)
    ensures var (s', g', reply) := Act(next(replies), s, g);
            s'.Keys == s.Keys && Run(next, left, replies, s, g) == Run(next, left - 1, replies + [reply], s', g')
  {
  }

  method Do<R>(a: Action<R>, ms: MultiStore, meter: GasMeter, ghost s: Multi) returns (reply: Reply)
    requires ms.Shape() && ms.Inv() && meter !in ms.Repr() && s == ms.View()
    requires !a.Return? && !a.Abort? && (a.Charge? || a.store in ms.stores)
    modifies ms.Repr(), meter
    ensures ms.Inv()
    ensures ms.Stacks() == WithHeads(old(ms.Stacks()), Act(a, s, old(meter.meter)).0)
    ensures meter.meter == Act(a, s, old(meter.meter)).1 && reply == Act(a, s, old(meter.meter)).2
  {
    if a.Charge? {
      SameHeads(ms.Stacks());
      var p := meter.ConsumeGas(a.amount);
      ms.Untouched();
      reply := Charged(p);
    } else {
      reply := DoStore(a, ms, s, meter.meter);
    }
  }

  method DoStore<R>(a: Action<R>, ms: MultiStore, ghost s: Multi, ghost g: Meter) returns (reply: Reply)
    requires ms.Shape() && ms.Inv() && s == ms.View()
    requires !a.Return? && !a.Abort? && !a.Charge? && a.store in ms.stores
    modifies ms.Repr()
    ensures ms.Inv()
    ensures ms.Stacks() == WithHeads(old(ms.Stacks()), Act(a, s, g).0)
    ensures reply == Act(a, s, g).2
  {
    SameHeads(ms.Stacks());
    match a
    case Read(n, k) =>
      var v := ms.Get(n, k);
      reply := Value(v);
    case Put(n, k, v) =>
      PutOn(ms, n, k, v);
      reply := Ack;
    case Remove(n, k) =>
      RemoveOn(ms, n, k);
      reply := Ack;
    case Scan(n, start, end, asc) =>
      var items := ms.Scan(n, start, end, asc);
      reply := Entries(items);
  }

  method PutOn(ms: MultiStore, n: StoreKey, k: Bytes, v: Bytes)
    requires ms.Shape() && ms.Inv() && n in ms.stores
    modifies ms.Repr()
    ensures ms.Inv()
    ensures var s := old(ms.View());
            ms.Stacks() == WithHeads(old(ms.Stacks()), s[n := s[n][k := v]])
  {
    PutHeadParts(ms.Stacks(), n, ms.View()[n][k := v]);
    ms.Set(n, k, v);
  }

  method RemoveOn(ms: MultiStore, n: StoreKey, k: Bytes)
    requires ms.Shape() && ms.Inv() && n in ms.stores
    modifies ms.Repr()
    ensures ms.Inv()
    ensures var s := old(ms.View());
            ms.Stacks() == WithHeads(old(ms.Stacks()), s[n := s[n] - {k}])
  {
    PutHeadParts(ms.Stacks(), n, ms.View()[n] - {k});
    ms.Delete(n, k);
  }
}
