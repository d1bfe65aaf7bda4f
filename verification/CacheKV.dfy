/** The write-back cache over a key-value store, and stacks of such caches. */
module CacheKV {
  import opened Bytes
  import opened OrderedMap
  import opened MergeSpec
  import opened CacheIterators

  /** The store at the bottom of a stack: an IAVL tree or database, seen as the
      sorted map it implements. */
  class TreeStore {
    var m: OrderedMap.Store

    constructor (m: OrderedMap.Store)
      ensures this.m == m
    {
      this.m := m;
    }
  }

  /** `cValue`.  An absent value that is not a deletion means the parent lacks the key. */
  datatype CValue = CValue(value: Option<Bytes>, deleted: bool, dirty: bool)

  /** Go's KVStore interface: a tree, or a cache over another KVStore. */
  datatype KVStore = Tree(tree: TreeStore) | Cached(cached: Store) {

    ghost function Repr(): set<object> {
      match this
      case Tree(t) => {t}
      case Cached(c) => c.Repr
    }

    ghost function Top(): (o: object)
      requires Shape()
      ensures o in Repr()
    {
      match this
      case Tree(t) => t
      case Cached(c) => assert c.Shape(); c
    }

    ghost function Depth(): nat {
      match this
      case Tree(_) => 0
      case Cached(c) => c.depth
    }

    ghost predicate Shape()
      decreases Depth(), 1
    {
      match this
      case Tree(_) => true
      case Cached(c) => c.Shape()
    }

    /** The plain maps this stack stands for, its own first, the tree's last. */
    ghost function Views(): (v: seq<OrderedMap.Store>)
      requires Shape()
      reads Repr()
      ensures |v| == Depth() + 1
      decreases Depth(), 1
    {
      match this
      case Tree(t) => [t.m]
      case Cached(c) => c.Views()
    }

    ghost predicate Inv()
      requires Shape()
      reads Repr()
      decreases Depth(), 1
    {
      match this
      case Tree(_) => true
      case Cached(c) => c.Inv()
    }

    /** Nothing happened to this stack. */
    twostate lemma Untouched()
      requires Shape() && old(Inv()) && unchanged(Repr())
      ensures Inv() && Views() == old(Views())
    {
    }

    method Get(key: Bytes) returns (value: Option<Bytes>)
      requires Shape() && Inv()
      modifies Repr()
      ensures Inv() && Views() == old(Views())
      ensures value == Lookup(Views()[0], key)
      decreases Depth(), 1
    {
      match this
      case Tree(t) => value := Lookup(t.m, key);
      case Cached(c) => value := c.Get(key);
    }

    method Set(key: Bytes, value: Bytes)
      requires Shape() && Inv()
      modifies Top()
      ensures Inv() && Views() == [old(Views())[0][key := value]] + old(Views())[1..]
    {
      match this
      case Tree(t) => t.m := t.m[key := value];
      case Cached(c) => c.Set(key, value);
    }

    method Delete(key: Bytes)
      requires Shape() && Inv()
      modifies Top()
      ensures Inv() && Views() == [old(Views())[0] - {key}] + old(Views())[1..]
    {
      match this
      case Tree(t) => t.m := t.m - {key};
      case Cached(c) => c.Delete(key);
    }

    method Has(key: Bytes) returns (has: bool)
      requires Shape() && Inv()
      modifies Repr()
      ensures Inv() && Views() == old(Views())
      ensures has <==> key in Views()[0]
    {
      match this
      case Tree(t) => has := key in t.m;
      case Cached(c) => has := c.Has(key);
    }

    method Iterator(start: Bytes, end: Option<Bytes>, ascending: bool) returns (it: Iterator)
      requires Shape() && Inv()
      modifies Repr()
      ensures Inv() && Views() == old(Views())
      ensures fresh(it.Repr()) && it.Shape() && it.Inv(ascending)
      ensures it.Remaining() == Items(Views()[0], start, end, ascending)
      decreases Depth(), 1
    {
      match this
      case Tree(t) =>
        var ti := new TreeIterator(Items(t.m, start, end, ascending));
        it := CacheIterators.Tree(ti);
      case Cached(c) => it := c.Iterator(start, end, ascending);
    }
  }

  /** `cachekv.Store`. */
  class Store {
    var cache: map<Bytes, CValue>
    var unsortedCache: set<Bytes>
    var sortedCache: seq<Item>
    const parent: KVStore
    ghost const Repr: set<object>
    ghost const depth: nat

    ghost predicate Shape()
      decreases depth, 0
    {
      && parent.Depth() + 1 == depth
      && parent.Shape()
      && this !in parent.Repr()
      && Repr == {this} + parent.Repr()
    }

    /** The entries a Write would push to the parent. */
    ghost function Dirty(): map<Bytes, Option<Bytes>>
      reads this
    {
      map k | k in cache && cache[k].dirty :: cache[k].value
    }

    ghost function Views(): (v: seq<OrderedMap.Store>)
      requires Shape()
      reads Repr
      ensures |v| == depth + 1
      decreases depth, 0
    {
      [Overlay(parent.Views()[0], Dirty())] + parent.Views()
    }

    /** The sorted list is ascending, every dirty key waits in the unsorted set or
        stands in the list, and a listed key that is not waiting carries its
        current value.  Entries whose key waits may be stale. */
    ghost predicate DirtyInv()
      reads this
    {
      && (forall k :: k in cache && cache[k].dirty ==> (cache[k].deleted <==> cache[k].value.None?))
      && unsortedCache <= Dirty().Keys
      && Sorted(true, sortedCache)
      && (forall x :: x in sortedCache ==> x.key in Dirty())
      && (forall x :: x in sortedCache && x.key !in unsortedCache ==> x.value == Dirty()[x.key])
      && (forall k :: k in Dirty() && k !in unsortedCache ==> HasKey(sortedCache, k))
    }

    /** Clean entries repeat what the parent holds: none is stale. */
    ghost predicate Coherent(below: OrderedMap.Store)
      reads this
    {
      forall k :: k in cache && !cache[k].dirty ==> cache[k].value == Lookup(below, k)
    }

    ghost predicate Inv()
      requires Shape()
      reads Repr
      decreases depth, 0
    {
      && parent.Inv()
      && DirtyInv()
      && Coherent(parent.Views()[0])
    }

    ghost predicate Empty()
      reads this
    {
      cache == map[] && unsortedCache == {} && sortedCache == []
    }

    lemma EmptyReadsAsParent()
      requires Shape() && parent.Inv() && Empty()
      ensures Inv() && Views() == [parent.Views()[0]] + parent.Views()
    {
      OverlayNothing(parent.Views()[0], Dirty());
    }

    constructor (parent: KVStore)
      requires parent.Shape() && parent.Inv()
      ensures this.parent == parent && Shape() && Inv()
      ensures Repr == {this} + parent.Repr()
      ensures Views() == [parent.Views()[0]] + parent.Views()
      ensures Empty()
    {
      this.cache := map[];
      this.unsortedCache := {};
      this.sortedCache := [];
      this.parent := parent;
      this.depth := parent.Depth() + 1;
      this.Repr := {this} + parent.Repr();
      new;
      EmptyReadsAsParent();
    }

    method Get(key: Bytes) returns (value: Option<Bytes>)
      requires Shape() && Inv()
      modifies Repr
      ensures Inv() && Views() == old(Views())
      ensures value == Lookup(Views()[0], key)
      decreases depth, 0
    {
      if key !in cache {
        value := parent.Get(key);
        Remember(key, value);
      } else {
        value := cache[key].value;
      }
    }

    /** Keeps what the parent holds as a clean entry. */
    method Remember(key: Bytes, value: Option<Bytes>)
      requires Shape() && Inv() && key !in cache && value == Lookup(parent.Views()[0], key)
      modifies this
      ensures Inv() && Views() == old(Views()) && Lookup(Views()[0], key) == value
    {
      SetCacheValue(key, value, false, false);
      assert Dirty() == old(Dirty());
    }

    method Set(key: Bytes, value: Bytes)
      requires Shape() && Inv()
      modifies this
      ensures Inv() && Views() == [old(Views())[0][key := value]] + old(Views())[1..]
    {
      SetCacheValue(key, Some(value), false, true);
      assert Dirty() == old(Dirty())[key := Some(value)];
      OverlaySet(parent.Views()[0], old(Dirty()), key, Some(value));
    }

    method Has(key: Bytes) returns (has: bool)
      requires Shape() && Inv()
      modifies Repr
      ensures Inv() && Views() == old(Views())
      ensures has <==> key in Views()[0]
    {
      var value := Get(key);
      has := value.Some?;
    }

    method Delete(key: Bytes)
      requires Shape() && Inv()
      modifies this
      ensures Inv() && Views() == [old(Views())[0] - {key}] + old(Views())[1..]
    {
      SetCacheValue(key, None, true, true);
      assert Dirty() == old(Dirty())[key := None];
      OverlaySet(parent.Views()[0], old(Dirty()), key, None);
    }

    /** Pushes the dirty entries to the parent, in key order, and empties the cache. */
    method Write()
      requires Shape() && Inv()
      modifies this, parent.Top()
      ensures Inv() && Views() == [old(Views())[0], old(Views())[0]] + old(Views())[2..]
      ensures Empty()
    {
      PushDirty();
      Clear();
    }

    /** Applies the dirty entries to the parent, in key order. */
    method PushDirty()
      requires Shape() && Inv()
      modifies parent.Top()
      ensures parent.Inv()
      ensures parent.Views() == [old(Views())[0]] + old(Views())[2..]
    {
      ghost var dirty, below := Dirty(), parent.Views();
      assert Views()[2..] == below[1..];
      var keys := Ascending(set k | k in cache && cache[k].dirty);
      OverlayAll(below[0], dirty, keys);
      Push(parent, cache, keys, dirty);
    }

    /** Empties the cache, so that the store reads as its parent does. */
    method Clear()
      requires Shape() && parent.Inv()
      modifies this
      ensures Inv() && parent.Views() == old(parent.Views())
      ensures Views() == [parent.Views()[0]] + parent.Views()
      ensures Empty()
    {
      cache := map[];
      unsortedCache := {};
      sortedCache := [];
      EmptyReadsAsParent();
    }

    /** An iterator over the store as it is now.  It shares no state with the
        store, so what the store does later cannot change it. */
    method Iterator(start: Bytes, end: Option<Bytes>, ascending: bool) returns (it: Iterator)
      requires Shape() && Inv()
      modifies Repr
      ensures Inv() && Views() == old(Views())
      ensures fresh(it.Repr()) && it.Shape() && it.Inv(ascending)
      ensures it.Remaining() == Items(Views()[0], start, end, ascending)
      decreases depth, 0
    {
      var parentIt := parent.Iterator(start, end, ascending);
      it := IteratorOver(parentIt, start, end, ascending);
    }

    method IteratorOver(parentIt: Iterator, start: Bytes, end: Option<Bytes>, ascending: bool) returns (it: Iterator)
      requires Shape() && Inv()
      requires parentIt.Shape() && this !in parentIt.Repr() && parentIt.Inv(ascending)
      requires parentIt.Remaining() == Items(parent.Views()[0], start, end, ascending)
      modifies this`unsortedCache, this`sortedCache
      ensures Inv() && Views() == old(Views())
      ensures forall o :: o in it.Repr() ==> o in parentIt.Repr() || fresh(o)
      ensures it.Shape() && it.Inv(ascending)
      ensures it.Remaining() == Items(Views()[0], start, end, ascending)
    {
      it := MergeWithCache(parentIt, start, end, ascending, parent.Views()[0]);
      parent.Untouched();
    }

    /** Lays the dirty entries of the range over a parent iterator. */
    method MergeWithCache(parentIt: Iterator, start: Bytes, end: Option<Bytes>, ascending: bool,
                          ghost below: OrderedMap.Store)
      returns (it: Iterator)
      requires DirtyInv()
      requires parentIt.Shape() && this !in parentIt.Repr() && parentIt.Inv(ascending)
      requires parentIt.Remaining() == Items(below, start, end, ascending)
      modifies this`unsortedCache, this`sortedCache
      ensures DirtyInv()
      ensures forall o :: o in it.Repr() ==> o in parentIt.Repr() || fresh(o)
      ensures it.Shape() && it.Inv(ascending)
      ensures it.Remaining() == Items(Overlay(below, Dirty()), start, end, ascending)
    {
      var cacheIt := CacheIterator(start, end, ascending);
      MergeIsOverlay(below, Dirty(), cacheIt.Remaining(), start, end, ascending);
      var merged := new MergeIterator(parentIt, cacheIt, ascending);
      it := CacheIterators.Merged(merged);
    }

    /** An iterator over the dirty entries of the range. */
    method CacheIterator(start: Bytes, end: Option<Bytes>, ascending: bool) returns (it: MemIterator)
      requires DirtyInv()
      modifies this`unsortedCache, this`sortedCache
      ensures DirtyInv() && fresh(it) && it.ascending == ascending
      ensures Sorted(ascending, it.Remaining())
      ensures forall x :: x in it.Remaining() <==>
                          x.key in Dirty() && x.value == Dirty()[x.key] && InDomain(x.key, start, end)
    {
      DirtyItems(start, end);
      it := new MemIterator(start, end, sortedCache, ascending);
    }

    /** Sorts the waiting keys of the range and merges them into the sorted list. */
    method DirtyItems(start: Bytes, end: Option<Bytes>)
      requires DirtyInv()
      modifies this`unsortedCache, this`sortedCache
      ensures DirtyInv()
      ensures forall k :: k in unsortedCache <==> k in old(unsortedCache) && !InDomain(k, start, end)
      ensures forall x :: x in sortedCache && InDomain(x.key, start, end) <==>
                          x.key in Dirty() && x.value == Dirty()[x.key] && InDomain(x.key, start, end)
    {
      var unsorted := TakeUnsorted(start, end);
      ghost var was := sortedCache;
      MergeUnsorted(unsorted);
      forall k ensures HasKey(unsorted, k) <==> k in old(unsortedCache) && InDomain(k, start, end) {
        if k in old(unsortedCache) && InDomain(k, start, end) { assert Item(k, Dirty()[k]) in unsorted; }
      }
      forall k | k in Dirty() && k !in unsortedCache ensures Item(k, Dirty()[k]) in sortedCache {
        if k !in old(unsortedCache) { assert HasKey(was, k); }
      }
    }

    /** Takes the waiting entries of the range out of the unsorted set, sorted. */
    method TakeUnsorted(start: Bytes, end: Option<Bytes>) returns (unsorted: seq<Item>)
      requires DirtyInv()
      modifies this`unsortedCache
      ensures forall k :: k in unsortedCache <==> k in old(unsortedCache) && !InDomain(k, start, end)
      ensures Sorted(true, unsorted)
      ensures forall x :: x in unsorted <==>
                          x.key in old(unsortedCache) && InDomain(x.key, start, end) && x.value == Dirty()[x.key]
    {
      var todo, keys := unsortedCache, {};
      while todo != {}
        invariant todo <= old(unsortedCache)
        invariant forall k :: k in unsortedCache <==>
                              k in old(unsortedCache) && (k in todo || !InDomain(k, start, end))
        invariant forall k :: k in keys <==> k in old(unsortedCache) && k !in todo && InDomain(k, start, end)
        decreases todo
      {
        var key :| key in todo;
        if InDomain(key, start, end) {
          keys := keys + {key};
          unsortedCache := unsortedCache - {key};
        }
        todo := todo - {key};
      }
      var order, entries := Ascending(keys), cache;
      assert forall i :: 0 <= i < |order| ==> order[i] in order && order[i] in Dirty();
      unsorted := seq(|order|, i requires 0 <= i < |order| && order[i] in entries => Item(order[i], entries[order[i]].value));
      forall x: Item
        ensures x in unsorted <==> x.key in keys && x.value == Dirty()[x.key]
      {
        if x.key in keys {
          var i :| 0 <= i < |order| && order[i] == x.key;
          assert unsorted[i].key == x.key;
        }
      }
    }

    /** Walks the sorted list once, inserting new keys and replacing old values. */
    method MergeUnsorted(items: seq<Item>)
      requires Sorted(true, sortedCache) && Sorted(true, items)
      modifies this`sortedCache
      ensures Sorted(true, sortedCache)
      ensures forall x :: x in sortedCache <==> x in items || (x in old(sortedCache) && !HasKey(items, x.key))
    {
      var n: nat, e: nat := 0, 0;
      while e < |sortedCache| && n < |items|
        invariant MergeState(old(sortedCache), items, n, sortedCache, e)
        decreases |items| - n, |sortedCache| - e
      {
        n, e := MergeOne(items, n, e, old(sortedCache));
      }
      AppendRest(items, n, e, old(sortedCache));
    }

    /** Moves past one entry of the list or of the items. */
    method MergeOne(items: seq<Item>, n: nat, e: nat, ghost was: seq<Item>) returns (n': nat, e': nat)
      requires MergeState(was, items, n, sortedCache, e) && e < |sortedCache| && n < |items|
      modifies this`sortedCache
      ensures MergeState(was, items, n', sortedCache, e')
      ensures n < n' || (n == n' && |sortedCache| - e' < |old(sortedCache)| - e)
    {
      var uitem, sitem := items[n], sortedCache[e];
      match Compare(uitem.key, sitem.key) {
        case -1 =>
          MergeInsert(was, items, n, sortedCache, e);
          sortedCache := sortedCache[..e] + [uitem] + sortedCache[e..];
          n', e' := n + 1, e + 1;
        case 0 =>
          MergeReplace(was, items, n, sortedCache, e);
          sortedCache := sortedCache[e := uitem];
          n', e' := n + 1, e + 1;
        case _ =>
          MergeSkip(was, items, n, sortedCache, e);
          n', e' := n, e + 1;
      }
    }

    /** The items past the end of the list go behind it. */
    method AppendRest(items: seq<Item>, first: nat, e: nat, ghost was: seq<Item>)
      requires MergeState(was, items, first, sortedCache, e) && (first < |items| ==> e == |sortedCache|)
      modifies this`sortedCache
      ensures Sorted(true, sortedCache) && MergedIn(was, items, sortedCache)
    {
      var n := first;
      while n < |items|
        invariant n <= |items|
        invariant MergeState(was, items, n, sortedCache, |sortedCache|)
      {
        MergePush(was, items, n, sortedCache);
        sortedCache := sortedCache + [items[n]];
        n := n + 1;
      }
      assert items[..n] == items;
    }

    /** The only place that changes the cache map. */
    method SetCacheValue(key: Bytes, value: Option<Bytes>, deleted: bool, dirty: bool)
      modifies this`cache, this`unsortedCache
      ensures cache == old(cache)[key := CValue(value, deleted, dirty)]
      ensures unsortedCache == old(unsortedCache) + if dirty then {key} else {}
    {
      cache := cache[key := CValue(value, deleted, dirty)];
      if dirty {
        unsortedCache := unsortedCache + {key};
      }
    }
  }

  /** Applies the cached entries of the given keys to the parent, one by one. */
  method Push(parent: KVStore, cache: map<Bytes, CValue>, keys: seq<Bytes>, ghost dirty: map<Bytes, Option<Bytes>>)
    requires parent.Shape() && parent.Inv()
    requires forall k :: k in keys ==> k in dirty && k in cache && cache[k].value == dirty[k]
    requires forall k :: k in keys ==> (cache[k].deleted <==> cache[k].value.None?)
    modifies parent.Top()
    ensures parent.Inv()
    ensures parent.Views() == [OverlayUpTo(old(parent.Views())[0], dirty, keys)] + old(parent.Views())[1..]
  {
    ghost var m, rest := parent.Views()[0], parent.Views()[1..];
    OverlayOfNone(m, dirty);
    var i := 0;
    assert keys[..i] == [];
    while i < |keys|
      invariant 0 <= i <= |keys|
      invariant parent.Inv()
      invariant parent.Views() == [OverlayUpTo(m, dirty, keys[..i])] + rest
    {
      assert keys[i] in keys;
      PushNext(parent, cache[keys[i]], keys, i, dirty, m, rest);
      i := i + 1;
    }
    assert keys[..i] == keys;
  }

  method PushNext(parent: KVStore, cacheValue: CValue, keys: seq<Bytes>, i: nat,
                  ghost dirty: map<Bytes, Option<Bytes>>, ghost m: OrderedMap.Store, ghost rest: seq<OrderedMap.Store>)
    requires parent.Shape() && parent.Inv() && i < |keys| && keys[i] in dirty && cacheValue.value == dirty[keys[i]]
    requires cacheValue.deleted <==> cacheValue.value.None?
    requires parent.Views() == [OverlayUpTo(m, dirty, keys[..i])] + rest
    modifies parent.Top()
    ensures parent.Inv() && parent.Views() == [OverlayUpTo(m, dirty, keys[..i + 1])] + rest
  {
    OverlayNext(m, dirty, keys, i);
    PushOne(parent, keys[i], cacheValue);
  }

  method PushOne(parent: KVStore, key: Bytes, cacheValue: CValue)
    requires parent.Shape() && parent.Inv() && (cacheValue.deleted <==> cacheValue.value.None?)
    modifies parent.Top()
    ensures parent.Inv()
    ensures var m := old(parent.Views())[0];
            var m' := if cacheValue.value.Some? then m[key := cacheValue.value.value] else m - {key};
            parent.Views() == [m'] + old(parent.Views())[1..]
  {
    if cacheValue.deleted {
      parent.Delete(key);
    } else if cacheValue.value.None? {
      // it already does not exist in the parent
    } else {
      parent.Set(key, cacheValue.value.value);
    }
  }

  // ---- Merging waiting entries into the sorted list ----

  /** `now` is `was` with the entries of `done` inserted or put in place of those of their key. */
  ghost predicate MergedIn(was: seq<Item>, done: seq<Item>, now: seq<Item>) {
    forall x :: x in now <==> x in done || (x in was && !HasKey(done, x.key))
  }

  /** `n` items are merged, and the list up to `e` lies below the others. */
  ghost predicate MergeState(was: seq<Item>, items: seq<Item>, n: nat, now: seq<Item>, e: nat) {
    && n <= |items| && e <= |now|
    && Sorted(true, items) && Sorted(true, now)
    && MergedIn(was, items[..n], now)
    && forall i, j :: 0 <= i < e && n <= j < |items| ==> Less(now[i].key, items[j].key)
  }

  lemma MergeInsert(was: seq<Item>, items: seq<Item>, n: nat, now: seq<Item>, e: nat)
    requires MergeState(was, items, n, now, e)
    requires n < |items| && e < |now| && Less(items[n].key, now[e].key)
    ensures MergeState(was, items, n + 1, now[..e] + [items[n]] + now[e..], e + 1)
  {
    var it := items[n];
    forall j | e <= j < |now| ensures Less(it.key, now[j].key) {
      if e < j { Transitive(it.key, now[e].key, now[j].key); }
    }
    InsertedMembers(now, e, it);
    assert !HasKey(now, it.key) by {
      forall i | 0 <= i < |now| ensures now[i].key != it.key { Trichotomy(now[i].key, it.key); }
    }
    NextDone(items, n);
  }

  lemma InsertedMembers(now: seq<Item>, e: nat, it: Item)
    requires e <= |now|
    ensures forall x :: x in now[..e] + [it] + now[e..] <==> x in now || x == it
  {
    var next := now[..e] + [it] + now[e..];
    forall x: Item ensures x in next <==> x in now || x == it {
      if x in now {
        var i :| 0 <= i < |now| && now[i] == x;
        assert next[if i < e then i else i + 1] == x;
      }
      assert next[e] == it;
    }
  }

  lemma MergeReplace(was: seq<Item>, items: seq<Item>, n: nat, now: seq<Item>, e: nat)
    requires MergeState(was, items, n, now, e)
    requires n < |items| && e < |now| && items[n].key == now[e].key
    ensures MergeState(was, items, n + 1, now[e := items[n]], e + 1)
  {
    var it, next := items[n], now[e := items[n]];
    forall x: Item ensures x in next <==> x == it || (x in now && x.key != it.key) {
      if x in next && x != it {
        var i :| 0 <= i < |next| && next[i] == x;
        Trichotomy(now[i].key, it.key);
      }
      if x in now && x.key != it.key {
        var i :| 0 <= i < |now| && now[i] == x;
        assert next[i] == x;
      }
      assert next[e] == it;
    }
    NextDone(items, n);
    forall i | 0 <= i < n ensures items[i].key != it.key { Trichotomy(items[i].key, it.key); }
  }

  lemma MergeSkip(was: seq<Item>, items: seq<Item>, n: nat, now: seq<Item>, e: nat)
    requires MergeState(was, items, n, now, e)
    requires n < |items| && e < |now| && Less(now[e].key, items[n].key)
    ensures MergeState(was, items, n, now, e + 1)
  {
    forall j | n < j < |items| ensures Less(now[e].key, items[j].key) {
      Transitive(now[e].key, items[n].key, items[j].key);
    }
  }

  lemma MergePush(was: seq<Item>, items: seq<Item>, n: nat, now: seq<Item>)
    requires n < |items| && MergeState(was, items, n, now, |now|)
    ensures MergeState(was, items, n + 1, now + [items[n]], |now| + 1)
  {
    var it, next := items[n], now + [items[n]];
    assert !HasKey(now, it.key) by {
      forall i | 0 <= i < |now| ensures now[i].key != it.key { Trichotomy(now[i].key, it.key); }
    }
    assert next[|now|] == it;
    NextDone(items, n);
  }

  lemma NextDone(items: seq<Item>, n: nat)
    requires n < |items|
    ensures forall x :: x in items[..n + 1] <==> x in items[..n] || x == items[n]
    ensures forall k :: HasKey(items[..n + 1], k) <==> HasKey(items[..n], k) || k == items[n].key
  {
    assert items[..n + 1] == items[..n] + [items[n]];
    HasKeyAppend(items[..n], items[n]);
  }

  lemma HasKeyAppend(s: seq<Item>, it: Item)
    ensures forall k :: HasKey(s + [it], k) <==> HasKey(s, k) || k == it.key
  {
    forall k | HasKey(s, k) || k == it.key ensures HasKey(s + [it], k) {
      if HasKey(s, k) {
        var i :| 0 <= i < |s| && s[i].key == k;
        assert (s + [it])[i].key == k;
      } else {
        assert (s + [it])[|s|].key == k;
      }
    }
  }

  // ---- Overlays ----

  lemma OverlayNothing(m: OrderedMap.Store, dirty: map<Bytes, Option<Bytes>>)
    requires dirty == map[]
    ensures Overlay(m, dirty) == m
  {
  }

  lemma OverlaySet(m: OrderedMap.Store, dirty: map<Bytes, Option<Bytes>>, k: Bytes, v: Option<Bytes>)
    ensures var r := Overlay(m, dirty);
            Overlay(m, dirty[k := v]) == if v.Some? then r[k := v.value] else r - {k}
  {
  }

  /** The overlay of the dirty entries of some keys only. */
  ghost function OverlayUpTo(m: OrderedMap.Store, dirty: map<Bytes, Option<Bytes>>, keys: seq<Bytes>): OrderedMap.Store {
    Overlay(m, map k | k in dirty && k in keys :: dirty[k])
  }

  lemma OverlayOfNone(m: OrderedMap.Store, dirty: map<Bytes, Option<Bytes>>)
    ensures OverlayUpTo(m, dirty, []) == m
  {
  }

  lemma OverlayNext(m: OrderedMap.Store, dirty: map<Bytes, Option<Bytes>>, keys: seq<Bytes>, i: nat)
    requires i < |keys| && keys[i] in dirty
    ensures var r, v := OverlayUpTo(m, dirty, keys[..i]), dirty[keys[i]];
            OverlayUpTo(m, dirty, keys[..i + 1]) == if v.Some? then r[keys[i] := v.value] else r - {keys[i]}
  {
    var part := map k | k in dirty && k in keys[..i] :: dirty[k];
    assert keys[..i + 1] == keys[..i] + [keys[i]];
    assert (map k | k in dirty && k in keys[..i + 1] :: dirty[k]) == part[keys[i] := dirty[keys[i]]];
    OverlaySet(m, part, keys[i], dirty[keys[i]]);
  }

  lemma OverlayAll(m: OrderedMap.Store, dirty: map<Bytes, Option<Bytes>>, keys: seq<Bytes>)
    requires forall k :: k in dirty ==> k in keys
    ensures OverlayUpTo(m, dirty, keys) == Overlay(m, dirty)
  {
    assert (map k | k in dirty && k in keys :: dirty[k]) == dirty;
  }
}
