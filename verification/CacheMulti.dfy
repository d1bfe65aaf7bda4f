/** A store of stores: one cache-wrapped substore per mounted key. */
module CacheMulti {
  import opened Bytes
  import opened OrderedMap
  import opened CacheIterators
  import opened CacheKV

  /** The database itself sits beside the named substores. */
  datatype StoreKey = Db | Named(name: string)

  /** The plain content of a multi-store. */
  type Multi = map<StoreKey, OrderedMap.Store>

  /** `cachemulti.Store`, and the mounted stores of the root likewise. */
  datatype MultiStore = MultiStore(stores: map<StoreKey, KVStore>) {

    ghost function Repr(): set<object> {
      set k, o | k in stores && o in stores[k].Repr() :: o
    }

    /** Substores share nothing. */
    ghost predicate Shape() {
      && (forall k :: k in stores ==> stores[k].Shape())
      && (forall j, k :: j in stores && k in stores && j != k ==> stores[j].Repr() !! stores[k].Repr())
    }

    ghost predicate Inv()
      requires Shape()
      reads Repr()
    {
      forall k :: k in stores ==> stores[k].Inv()
    }

    /** Per substore, the plain maps of its layers, top first. */
    ghost function Stacks(): (st: Stacks)
      requires Shape()
      reads Repr()
      ensures forall k :: k in st ==> st[k] != []
    {
      map k | k in stores :: stores[k].Views()
    }

    /** What a reader of this layer sees. */
    ghost function View(): Multi
      requires Shape()
      reads Repr()
    {
      Heads(Stacks())
    }

    /** This layer caches, substore by substore, the one given. */
    ghost predicate Over(parent: MultiStore) {
      && stores.Keys == parent.stores.Keys
      && forall k :: k in stores ==> stores[k].Cached? && stores[k].cached.parent == parent.stores[k]
    }

    ghost function Tops(): set<object>
      requires Shape()
    {
      set k | k in stores :: stores[k].Top()
    }

    /** A call that only touches substore `n` leaves the others alone. */
    twostate lemma OtherStores(n: StoreKey)
      requires n in stores && Shape() && old(Inv())
      requires unchanged(Repr() - stores[n].Repr())
      requires stores[n].Inv()
      ensures Inv() && Stacks() == old(Stacks())[n := stores[n].Views()]
    {
      forall k | k in stores && k != n
        ensures stores[k].Inv() && stores[k].Views() == old(stores[k].Views())
      {
        assert stores[k].Repr() !! stores[n].Repr();
        assert stores[k].Repr() <= Repr();
      }
    }

    /** Nothing happened to this store. */
    twostate lemma Untouched()
      requires Shape() && old(Inv()) && unchanged(Repr())
      ensures Inv() && Stacks() == old(Stacks())
    {
      forall k | k in stores
        ensures stores[k].Inv() && stores[k].Views() == old(stores[k].Views())
      {
        assert stores[k].Repr() <= Repr();
      }
    }

    twostate lemma OnlyRead(n: StoreKey)
      requires n in stores && Shape() && old(Inv())
      requires unchanged(Repr() - stores[n].Repr())
      requires stores[n].Inv() && stores[n].Views() == old(stores[n].Views())
      ensures Inv() && Stacks() == old(Stacks()) && View()[n] == stores[n].Views()[0]
    {
      OtherStores(n);
      assert old(Stacks())[n] == stores[n].Views();
    }

    method Get(n: StoreKey, key: Bytes) returns (value: Option<Bytes>)
      requires Shape() && Inv() && n in stores
      modifies Repr()
      ensures Inv() && Stacks() == old(Stacks())
      ensures value == Lookup(View()[n], key)
    {
      assert stores[n].Repr() <= Repr();
      value := stores[n].Get(key);
      OnlyRead(n);
    }

    method Set(n: StoreKey, key: Bytes, value: Bytes)
      requires Shape() && Inv() && n in stores
      modifies Repr()
      ensures Inv() && Stacks() == PutHead(old(Stacks()), n, old(View())[n][key := value])
    {
      assert stores[n].Repr() <= Repr();
      stores[n].Set(key, value);
      OtherStores(n);
    }

    method Delete(n: StoreKey, key: Bytes)
      requires Shape() && Inv() && n in stores
      modifies Repr()
      ensures Inv() && Stacks() == PutHead(old(Stacks()), n, old(View())[n] - {key})
    {
      assert stores[n].Repr() <= Repr();
      stores[n].Delete(key);
      OtherStores(n);
    }

    /** Reads a range of a substore through an iterator, to its end. */
    method Scan(n: StoreKey, start: Bytes, end: Option<Bytes>, ascending: bool) returns (items: seq<Item>)
      requires Shape() && Inv() && n in stores
      modifies Repr()
      ensures Inv() && Stacks() == old(Stacks())
      ensures items == Items(View()[n], start, end, ascending)
    {
      assert stores[n].Repr() <= Repr();
      items := ScanStore(stores[n], start, end, ascending, Repr() - stores[n].Repr());
      OnlyRead(n);
    }

    /** Cache-wraps every substore: the new layer reads as this one does. */
    method CacheMultiStore() returns (c: MultiStore)
      requires Shape() && Inv()
      ensures c.Shape() && c.Inv() && c.Over(this)
      ensures fresh(c.Tops()) && c.Repr() == c.Tops() + Repr()
      ensures c.Stacks() == Wrapped(Stacks())
    {
      var wrapped := WrapAll();
      c := MultiStore(wrapped);
      WrappedShape(c);
      WrappedContent(c);
    }

    method WrapAll() returns (wrapped: map<StoreKey, KVStore>)
      requires Shape() && Inv()
      ensures wrapped.Keys == stores.Keys
      ensures forall k :: k in stores ==> Wraps(wrapped[k], stores[k]) && fresh(wrapped[k].cached) && wrapped[k].cached.Empty()
      ensures forall j, k :: j in stores && k in stores && j != k ==>
                             wrapped[j].Cached? && wrapped[k].Cached? && wrapped[j].cached != wrapped[k].cached
    {
      var todo := stores.Keys;
      wrapped := map[];
      while todo != {}
        invariant wrapped.Keys == stores.Keys - todo && todo <= stores.Keys
        invariant forall k :: k in wrapped ==>
                              Wraps(wrapped[k], stores[k]) && fresh(wrapped[k].cached) && wrapped[k].cached.Empty()
        invariant forall j, k :: j in wrapped && k in wrapped && j != k ==> wrapped[j].cached != wrapped[k].cached
        decreases todo
      {
        var k :| k in todo;
        var s := new CacheKV.Store(stores[k]);
        wrapped := wrapped[k := Cached(s)];
        todo := todo - {k};
      }
    }

    lemma WrappedShape(c: MultiStore)
      requires Shape() && c.stores.Keys == stores.Keys
      requires forall k :: k in stores ==> Wraps(c.stores[k], stores[k]) && c.stores[k].cached !in Repr()
      requires forall j, k :: j in stores && k in stores && j != k ==>
                              c.stores[j].Cached? && c.stores[k].Cached? && c.stores[j].cached != c.stores[k].cached
      ensures c.Shape() && c.Over(this) && c.Repr() == c.Tops() + Repr()
    {
      forall j, k | j in stores && k in stores && j != k
        ensures c.stores[j].Repr() !! c.stores[k].Repr()
      {
        assert stores[j].Repr() <= Repr() && stores[k].Repr() <= Repr();
      }
    }

    lemma WrappedContent(c: MultiStore)
      requires Shape() && Inv() && c.Shape() && c.Over(this)
      requires forall k :: k in stores ==> c.stores[k].cached.Empty()
      ensures c.Inv() && c.Stacks() == Wrapped(Stacks())
    {
      forall k | k in stores
        ensures c.stores[k].Inv() && c.stores[k].Views() == [stores[k].Views()[0]] + stores[k].Views()
      {
        c.stores[k].cached.EmptyReadsAsParent();
      }
    }

    /** What a layer says about the one under it. */
    lemma OverStacks(parent: MultiStore)
      requires Shape() && parent.Shape() && Over(parent)
      ensures parent.Stacks() == Tails(Stacks()) && (Inv() ==> parent.Inv())
    {
      forall k | k in stores
        ensures stores[k].Views() == [stores[k].Views()[0]] + parent.stores[k].Views()
      {
        assert stores[k].cached.Shape();
      }
      if Inv() {
        forall k | k in stores ensures parent.stores[k].Inv() {
          assert stores[k].cached.Shape() && stores[k].cached.Inv();
        }
      }
    }

    /** Writes every substore's layer to the one under it. */
    method Write()
      requires Shape() && Inv() && (forall k :: k in stores ==> stores[k].Cached?)
      modifies Repr()
      ensures Inv() && Stacks() == AllWritten(old(Stacks()))
    {
      var todo := stores.Keys;
      assert Stacks() == WrittenBut(Stacks(), todo);
      while todo != {}
        invariant todo <= stores.Keys && Inv() && Stacks() == WrittenBut(old(Stacks()), todo)
        decreases todo
      {
        var k :| k in todo;
        WrittenNext(old(Stacks()), todo, k);
        WriteOne(k);
        todo := todo - {k};
      }
      assert WrittenBut(old(Stacks()), {}) == AllWritten(old(Stacks()));
    }

    method WriteOne(n: StoreKey)
      requires Shape() && Inv() && n in stores && stores[n].Cached?
      modifies Repr()
      ensures Inv() && Stacks() == old(Stacks())[n := Written(old(Stacks())[n])]
    {
      assert stores[n].Repr() <= Repr();
      assert stores[n].cached.Shape() && stores[n].cached.Inv();
      stores[n].cached.Write();
      OtherStores(n);
    }

    /** As long as the layer under it reads the same, a layer that was not
        touched serves no stale entry. */
    twostate lemma StaysCoherent(parent: MultiStore)
      requires Shape() && parent.Shape() && Over(parent) && old(Inv()) && unchanged(Tops())
      requires parent.Inv() && parent.Stacks() == old(parent.Stacks())
      ensures Inv() && Stacks() == old(Stacks())
    {
      forall k | k in stores
        ensures stores[k].Inv() && stores[k].Views() == old(stores[k].Views())
      {
        assert parent.Stacks()[k] == old(parent.Stacks())[k];
        assert stores[k].Top() in Tops();
        StoreStaysCoherent(stores[k].cached);
      }
    }
  }

  /** The loop every user of an iterator writes. */
  method Drain(it: Iterator, ghost ascending: bool) returns (items: seq<Item>)
    requires it.Shape() && it.Inv(ascending)
    modifies it.Repr()
    ensures items == old(it.Remaining())
  {
    items := [];
    ghost var all := it.Remaining();
    var valid := it.Valid(ascending);
    while valid
      invariant it.Inv(ascending) && |items| <= |all| && items == all[..|items|] && it.Remaining() == all[|items|..]
      invariant valid <==> it.Remaining() != []
      decreases |all| - |items|
    {
      var item := TakeOne(it, ascending);
      items := items + [item];
      valid := it.Valid(ascending);
    }
  }

  method TakeOne(it: Iterator, ghost ascending: bool) returns (item: Item)
    requires it.Shape() && it.Inv(ascending) && it.Remaining() != []
    modifies it.Repr()
    ensures it.Inv(ascending) && item == old(it.Remaining())[0] && it.Remaining() == old(it.Remaining())[1..]
  {
    var k := it.Key(ascending);
    var v := it.Value(ascending);
    item := Item(k.value, v.value);
    var _ := it.Next(ascending);
  }

  method ScanStore(store: KVStore, start: Bytes, end: Option<Bytes>, ascending: bool, ghost others: set<object>)
    returns (items: seq<Item>)
    requires store.Shape() && store.Inv() && store.Repr() !! others
    modifies store.Repr()
    ensures unchanged(others)
    ensures store.Inv() && store.Views() == old(store.Views())
    ensures items == Items(store.Views()[0], start, end, ascending)
  {
    var it := OpenAside(store, start, end, ascending);
    items := Drain(it, ascending);
  }

  method OpenAside(store: KVStore, start: Bytes, end: Option<Bytes>, ascending: bool) returns (it: Iterator)
    requires store.Shape() && store.Inv()
    modifies store.Repr()
    ensures store.Inv() && store.Views() == old(store.Views())
    ensures fresh(it.Repr()) && it.Repr() !! store.Repr()
    ensures it.Shape() && it.Inv(ascending)
    ensures it.Remaining() == Items(store.Views()[0], start, end, ascending)
  {
    it := store.Iterator(start, end, ascending);
  }

  // ---- Stacks of plain maps ----

  type Stacks = map<StoreKey, seq<OrderedMap.Store>>

  function Head(s: seq<OrderedMap.Store>): OrderedMap.Store {
    if s == [] then map[] else s[0]
  }

  function Tail(s: seq<OrderedMap.Store>): seq<OrderedMap.Store> {
    if s == [] then [] else s[1..]
  }

  /** The top layers, and the layers under them. */
  function Heads(st: Stacks): Multi {
    map k | k in st :: Head(st[k])
  }

  function Tails(st: Stacks): Stacks {
    map k | k in st :: Tail(st[k])
  }

  function PutHead(st: Stacks, n: StoreKey, m: OrderedMap.Store): Stacks
    requires n in st
  {
    st[n := [m] + Tail(st[n])]
  }

  /** The same stacks with other top layers. */
  function WithHeads(st: Stacks, top: Multi): Stacks {
    map k | k in st && k in top :: [top[k]] + Tail(st[k])
  }

  lemma WithHeadsParts(st: Stacks, top: Multi)
    requires top.Keys == st.Keys
    ensures Heads(WithHeads(st, top)) == top && Tails(WithHeads(st, top)) == Tails(st)
  {
  }

  lemma WithHeadsTwice(st: Stacks, top: Multi, next: Multi)
    requires top.Keys == st.Keys
    ensures WithHeads(WithHeads(st, top), next) == WithHeads(st, next)
  {
    assert WithHeads(WithHeads(st, top), next).Keys == WithHeads(st, next).Keys;
  }

  lemma PutHeadParts(st: Stacks, n: StoreKey, m: OrderedMap.Store)
    requires n in st && forall k :: k in st ==> st[k] != []
    ensures PutHead(st, n, m) == WithHeads(st, Heads(st)[n := m])
  {
    forall k | k in st && k != n
      ensures st[k] == [Head(st[k])] + Tail(st[k])
    {
    }
  }

  lemma SameHeads(st: Stacks)
    requires forall k :: k in st ==> st[k] != []
    ensures WithHeads(st, Heads(st)) == st
  {
    forall k | k in st
      ensures st[k] == [Head(st[k])] + Tail(st[k])
    {
    }
  }

  function Wrapped(st: Stacks): Stacks {
    map k | k in st :: [Head(st[k])] + st[k]
  }

  /** The layers of a substore after its top one is written. */
  function Written(s: seq<OrderedMap.Store>): seq<OrderedMap.Store> {
    if |s| < 2 then s else [s[0], s[0]] + s[2..]
  }

  function AllWritten(st: Stacks): Stacks {
    map k | k in st :: Written(st[k])
  }

  function WrittenBut(st: Stacks, todo: set<StoreKey>): Stacks {
    map k | k in st :: if k in todo then st[k] else Written(st[k])
  }

  lemma WrittenNext(st: Stacks, todo: set<StoreKey>, n: StoreKey)
    requires n in st && n in todo
    ensures WrittenBut(st, todo - {n}) == WrittenBut(st, todo)[n := Written(WrittenBut(st, todo)[n])]
  {
  }

  /** Wrapping, working on the new layer and writing it changes the layer under
      it as working there directly would. */
  lemma WriteBack(st: Stacks, top: Multi)
    requires top.Keys == st.Keys && forall k :: k in st ==> st[k] != []
    ensures Tails(WithHeads(Wrapped(st), top)) == st
    ensures Tails(AllWritten(WithHeads(Wrapped(st), top))) == WithHeads(st, top)
    ensures Heads(Wrapped(st)) == Heads(st)
  {
    WrappedParts(st, top);
    DropHeads(st, top, WithHeads(Wrapped(st), top));
  }

  lemma WrappedParts(st: Stacks, top: Multi)
    requires top.Keys == st.Keys && forall k :: k in st ==> st[k] != []
    ensures var h := WithHeads(Wrapped(st), top);
            h.Keys == st.Keys && forall k :: k in st ==> h[k] == [top[k]] + st[k]
    ensures Heads(Wrapped(st)) == Heads(st)
  {
    forall k | k in st
      ensures WithHeads(Wrapped(st), top)[k] == [top[k]] + st[k]
    {
      WriteBackOne(st[k], top[k]);
    }
  }

  lemma DropHeads(st: Stacks, top: Multi, h: Stacks)
    requires top.Keys == st.Keys == h.Keys
    requires forall k :: k in st ==> st[k] != [] && h[k] == [top[k]] + st[k]
    ensures Tails(h) == st && Tails(AllWritten(h)) == WithHeads(st, top)
  {
    forall k | k in st
      ensures Tail(h[k]) == st[k] && Tail(Written(h[k])) == [top[k]] + Tail(st[k])
    {
      WriteBackOne(st[k], top[k]);
    }
    var w := AllWritten(h);
    assert Tails(h).Keys == st.Keys && w.Keys == st.Keys && Tails(w).Keys == WithHeads(st, top).Keys;
    assert Tails(h) == st;
    assert forall k :: k in st ==> w[k] == Written(h[k]) && Tails(w)[k] == Tail(w[k]);
  }

  lemma WriteBackOne(s: seq<OrderedMap.Store>, m: OrderedMap.Store)
    requires s != []
    ensures Tail([m] + Tail([Head(s)] + s)) == s
    ensures Tail(Written([m] + Tail([Head(s)] + s))) == [m] + Tail(s)
  {
    assert Tail([Head(s)] + s) == s;
    assert ([m] + s)[2..] == s[1..];
  }

  ghost predicate Wraps(w: KVStore, s: KVStore) {
    w.Cached? && w.cached.parent == s && w.Shape() && w.Repr() == {w.cached} + s.Repr()
  }

  twostate lemma StoreStaysCoherent(s: CacheKV.Store)
    requires s.Shape() && old(s.Inv()) && unchanged(s)
    requires s.parent.Inv() && s.parent.Views() == old(s.parent.Views())
    ensures s.Inv() && s.Views() == old(s.Views())
  {
  }
}
