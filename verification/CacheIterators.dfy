/** The iterators of the cache-wrapped store: the in-memory iterator over dirty
    entries and the iterator that merges it with the parent's. */
module CacheIterators {
  import opened Bytes
  import opened OrderedMap
  import opened MergeSpec

  /** An iterator of the store at the bottom, over a snapshot of its range. */
  class TreeIterator {
    var items: seq<Item>

    constructor (items: seq<Item>)
      ensures this.items == items
    {
      this.items := items;
    }
  }

  /** Go's Iterator interface: the iterators a KVStore hands out. */
  datatype Iterator = Tree(tree: TreeIterator) | Merged(merged: MergeIterator) {

    ghost function Repr(): set<object> {
      match this
      case Tree(t) => {t}
      case Merged(m) => m.Repr
    }

    ghost function Depth(): nat {
      match this
      case Tree(_) => 0
      case Merged(m) => m.depth
    }

    /** The iterator objects form a chain without sharing; links never change. */
    ghost predicate Shape()
      decreases Depth(), 1
    {
      match this
      case Tree(_) => true
      case Merged(m) => m.Shape()
    }

    /** The entries still to be yielded, in order. */
    ghost function Remaining(): seq<Item>
      requires Shape()
      reads Repr()
      decreases Depth(), 1
    {
      match this
      case Tree(t) => t.items
      case Merged(m) => m.Remaining()
    }

    ghost predicate Inv(ascending: bool)
      requires Shape()
      reads Repr()
      decreases Depth(), 1
    {
      match this
      case Tree(t) => Sorted(ascending, t.items) && AllExist(t.items)
      case Merged(m) => m.ascending == ascending && m.Inv()
    }

    method Valid(ghost ascending: bool) returns (valid: bool)
      requires Shape() && Inv(ascending)
      modifies Repr()
      ensures Inv(ascending) && Remaining() == old(Remaining())
      ensures valid <==> Remaining() != []
      decreases Depth(), 5
    {
      match this
      case Tree(t) => valid := t.items != [];
      case Merged(m) => valid := m.Valid();
    }

    method Next(ghost ascending: bool) returns (r: Outcome<()>)
      requires Shape() && Inv(ascending)
      modifies Repr()
      ensures Inv(ascending) && Advanced(old(Remaining()), r, Remaining())
      decreases Depth(), 5
    {
      match this
      case Tree(t) =>
        if t.items == [] { return Panic; }
        TailMembers(ascending, t.items);
        t.items := t.items[1..];
        r := Ok(());
      case Merged(m) => r := m.Next();
    }

    method Key(ghost ascending: bool) returns (r: Outcome<Bytes>)
      requires Shape() && Inv(ascending)
      modifies Repr()
      ensures Inv(ascending) && Remaining() == old(Remaining())
      ensures r == HeadKey(Remaining())
      decreases Depth(), 5
    {
      match this
      case Tree(t) => r := if t.items == [] then Panic else Ok(t.items[0].key);
      case Merged(m) => r := m.Key();
    }

    method Value(ghost ascending: bool) returns (r: Outcome<Option<Bytes>>)
      requires Shape() && Inv(ascending)
      modifies Repr()
      ensures Inv(ascending) && Remaining() == old(Remaining())
      ensures r == HeadValue(Remaining())
      decreases Depth(), 5
    {
      match this
      case Tree(t) => r := if t.items == [] then Panic else Ok(t.items[0].value);
      case Merged(m) => r := m.Value();
    }
  }

  /** Key and Value panic on an exhausted iterator and answer for the head otherwise. */
  function HeadKey(s: seq<Item>): Outcome<Bytes> {
    if s == [] then Panic else Ok(s[0].key)
  }

  function HeadValue(s: seq<Item>): Outcome<Option<Bytes>> {
    if s == [] then Panic else Ok(s[0].value)
  }

  /** Next panics on an exhausted iterator and drops the head otherwise. */
  ghost predicate Advanced(before: seq<Item>, r: Outcome<()>, after: seq<Item>) {
    if before == [] then r == Panic && after == before else r == Ok(()) && after == before[1..]
  }

  /** `memIterator`: dirty entries of the range, stored ascending whatever the direction. */
  class MemIterator {
    var items: seq<Item>
    const ascending: bool

    ghost function Remaining(): seq<Item>
      reads this
    {
      if ascending then items else Reverse(items)
    }

    constructor (start: Bytes, end: Option<Bytes>, sorted: seq<Item>, ascending: bool)
      requires Sorted(true, sorted)
      ensures this.ascending == ascending
      ensures Sorted(ascending, Remaining())
      ensures forall x :: x in Remaining() <==> x in sorted && InDomain(x.key, start, end)
    {
      var run := InDomainRun(start, end, sorted);
      this.items := run;
      this.ascending := ascending;
    }

    method Valid() returns (valid: bool)
      ensures valid <==> Remaining() != []
    {
      valid := |items| > 0;
    }

    method Next() returns (r: Outcome<()>)
      modifies this
      ensures Advanced(old(Remaining()), r, Remaining())
    {
      if |items| == 0 { return Panic; }
      if ascending {
        items := items[1..];
      } else {
        items := items[..|items| - 1];
        assert Reverse(items) == old(Reverse(items)[1..]);
      }
      r := Ok(());
    }

    method Key() returns (r: Outcome<Bytes>)
      ensures r == HeadKey(Remaining())
    {
      if |items| == 0 { return Panic; }
      r := Ok(if ascending then items[0].key else items[|items| - 1].key);
    }

    method Value() returns (r: Outcome<Option<Bytes>>)
      ensures r == HeadValue(Remaining())
    {
      if |items| == 0 { return Panic; }
      r := Ok(if ascending then items[0].value else items[|items| - 1].value);
    }
  }

  /** Scans a sorted list, keeping the run of entries inside the range and
      stopping at the first entry past it. */
  method InDomainRun(start: Bytes, end: Option<Bytes>, sorted: seq<Item>) returns (itemsInDomain: seq<Item>)
    requires Sorted(true, sorted)
    ensures Sorted(true, itemsInDomain)
    ensures forall x :: x in itemsInDomain <==> x in sorted && InDomain(x.key, start, end)
  {
    itemsInDomain := [];
    var entered := false;
    var e := 0;
    ghost var first := 0;
    while e < |sorted|
      invariant 0 <= first <= e <= |sorted|
      invariant itemsInDomain == sorted[first..e]
      invariant entered <==> first < e
      invariant forall i :: 0 <= i < first ==> !InDomain(sorted[i].key, start, end)
      invariant forall i :: first <= i < e ==> InDomain(sorted[i].key, start, end)
    {
      var item := sorted[e];
      if !InDomain(item.key, start, end) {
        if entered {
          RunHasEnded(sorted, first, e, start, end);
          break;
        }
        first := e + 1;
      } else {
        assert sorted[first..e + 1] == sorted[first..e] + [item];
        itemsInDomain := itemsInDomain + [item];
        entered := true;
      }
      e := e + 1;
    }
    RunMembers(sorted, first, e, start, end);
  }

  lemma RunMembers(sorted: seq<Item>, first: nat, e: nat, start: Bytes, end: Option<Bytes>)
    requires first <= e <= |sorted|
    requires forall i :: 0 <= i < |sorted| ==> (InDomain(sorted[i].key, start, end) <==> first <= i < e)
    ensures forall x :: x in sorted[first..e] <==> x in sorted && InDomain(x.key, start, end)
  {
    forall x | x in sorted && InDomain(x.key, start, end)
      ensures x in sorted[first..e]
    {
      var i :| 0 <= i < |sorted| && sorted[i] == x;
      assert sorted[first..e][i - first] == x;
    }
  }

  lemma RunHasEnded(sorted: seq<Item>, first: nat, e: nat, start: Bytes, end: Option<Bytes>)
    requires Sorted(true, sorted) && first < e < |sorted|
    requires InDomain(sorted[first].key, start, end) && !InDomain(sorted[e].key, start, end)
    ensures forall i :: e <= i < |sorted| ==> !InDomain(sorted[i].key, start, end)
  {
    forall i | e < i < |sorted|
      ensures !InDomain(sorted[i].key, start, end)
    {
      if InDomain(sorted[i].key, start, end) {
        DomainIsInterval(sorted[first].key, sorted[e].key, sorted[i].key, start, end);
      }
    }
  }

  /** `bytes.Compare`, with the sign turned round when descending. */
  function CompareDir(ascending: bool, a: Bytes, b: Bytes): (c: int)
    ensures c == -1 <==> Before(ascending, a, b)
    ensures c == 0 <==> a == b
    ensures c == 1 <==> Before(ascending, b, a)
    ensures c == -1 || c == 0 || c == 1
  {
    if ascending then Compare(a, b) else Compare(a, b) * -1
  }

  /** The next entry to yield is at the head of the parent or of the cache: no
      deletion stands in front. */
  ghost predicate Settled(p: seq<Item>, c: seq<Item>, ascending: bool) {
    c != [] && (p == [] || !Before(ascending, p[0].key, c[0].key)) ==> c[0].value.Some?
  }

  /** Both heads carry the same key. */
  ghost predicate AtUntil(p: seq<Item>, c: seq<Item>) {
    p != [] && c != [] && p[0].key == c[0].key
  }

  /** The first dirty entry is a deletion before `until`. */
  ghost predicate MustSkip(c: seq<Item>, until: Option<Bytes>, ascending: bool) {
    c != [] && c[0].value.None? && (until.None? || Before(ascending, c[0].key, until.value))
  }

  lemma SkipDelete(p: seq<Item>, c: seq<Item>, ascending: bool)
    requires c != [] && c[0].value.None?
    requires p == [] || Before(ascending, c[0].key, p[0].key)
    ensures Merge(p, c, ascending) == Merge(p, c[1..], ascending)
  {
    if p != [] { BeforeTrichotomy(ascending, p[0].key, c[0].key); }
  }

  lemma SkipBoth(p: seq<Item>, c: seq<Item>, ascending: bool)
    requires p != [] && c != [] && p[0].key == c[0].key && c[0].value.None?
    ensures Merge(p, c, ascending) == Merge(p[1..], c[1..], ascending)
  {
    BeforeTrichotomy(ascending, p[0].key, c[0].key);
  }

  /** `cacheMergeIterator`. */
  class MergeIterator {
    const parent: Iterator
    const cache: MemIterator
    const ascending: bool
    ghost const Repr: set<object>
    ghost const depth: nat

    ghost predicate Shape()
      decreases depth, 0
    {
      && parent.Depth() < depth
      && parent.Shape()
      && Repr == {this, cache} + parent.Repr()
      && this !in parent.Repr() && cache !in parent.Repr()
    }

    ghost function Remaining(): seq<Item>
      requires Shape()
      reads Repr
      decreases depth, 0
    {
      Merge(parent.Remaining(), cache.Remaining(), ascending)
    }

    ghost predicate Inv()
      requires Shape()
      reads Repr
      decreases depth, 0
    {
      && parent.Inv(ascending)
      && cache.ascending == ascending
      && Sorted(ascending, cache.Remaining())
    }

    constructor (parent: Iterator, cache: MemIterator, ascending: bool)
      requires parent.Shape() && cache !in parent.Repr()
      ensures this.parent == parent && this.cache == cache && this.ascending == ascending
      ensures Shape() && Repr == {this, cache} + parent.Repr()
    {
      this.parent := parent;
      this.cache := cache;
      this.ascending := ascending;
      this.depth := parent.Depth() + 1;
      this.Repr := {this, cache} + parent.Repr();
    }

    method Valid() returns (valid: bool)
      requires Shape() && Inv()
      modifies Repr
      ensures Inv() && Remaining() == old(Remaining())
      ensures valid <==> Remaining() != []
      decreases depth, 4
    {
      valid := SkipUntilExistsOrInvalid();
    }

    method Next() returns (r: Outcome<()>)
      requires Shape() && Inv()
      modifies Repr
      ensures Inv() && Advanced(old(Remaining()), r, Remaining())
      decreases depth, 4
    {
      var _ := SkipUntilExistsOrInvalid();
      var valid := SkipUntilExistsOrInvalid();
      if !valid { return Panic; }

      var parentValid := parent.Valid(ascending);
      if !parentValid {
        r := NextCache();
        return;
      }
      var cacheValid := cache.Valid();
      if !cacheValid {
        r := parent.Next(ascending);
        return;
      }
      var keyP := parent.Key(ascending);
      var keyC := cache.Key();
      match CompareDir(ascending, keyP.value, keyC.value) {
        case -1 => r := parent.Next(ascending);
        case 0 =>
          var _ := parent.Next(ascending);
          r := NextCache();
        case _ => r := NextCache();
      }
    }

    /** Drops the head of the dirty entries. */
    method NextCache() returns (r: Outcome<()>)
      requires Shape() && Inv() && cache.Remaining() != []
      modifies cache
      ensures Inv() && r == Ok(())
      ensures cache.Remaining() == old(cache.Remaining())[1..]
      ensures parent.Remaining() == old(parent.Remaining())
    {
      TailMembers(ascending, cache.Remaining());
      r := cache.Next();
    }

    method Key() returns (r: Outcome<Bytes>)
      requires Shape() && Inv()
      modifies Repr
      ensures Inv() && Remaining() == old(Remaining())
      ensures r == HeadKey(Remaining())
      decreases depth, 4
    {
      var _ := SkipUntilExistsOrInvalid();
      var valid := SkipUntilExistsOrInvalid();
      if !valid { return Panic; }
      r := SettledKey();
    }

    /** The key to yield, where nothing is left to skip. */
    method SettledKey() returns (r: Outcome<Bytes>)
      requires Shape() && Inv() && Settled(parent.Remaining(), cache.Remaining(), ascending) && Remaining() != []
      modifies Repr
      ensures Inv() && Remaining() == old(Remaining())
      ensures r == HeadKey(Remaining())
      decreases depth, 3
    {
      var parentValid := parent.Valid(ascending);
      if !parentValid {
        r := cache.Key();
        return;
      }
      var cacheValid := cache.Valid();
      if !cacheValid {
        r := parent.Key(ascending);
        return;
      }
      r := KeyAtHeads();
    }

    method KeyAtHeads() returns (r: Outcome<Bytes>)
      requires Shape() && Inv() && Settled(parent.Remaining(), cache.Remaining(), ascending)
      requires parent.Remaining() != [] && cache.Remaining() != []
      modifies Repr
      ensures Inv() && Remaining() == old(Remaining())
      ensures r == HeadKey(Remaining())
      decreases depth, 2
    {
      var keyP := parent.Key(ascending);
      var keyC := cache.Key();
      match CompareDir(ascending, keyP.value, keyC.value) {
        case -1 => r := keyP;
        case 0 => r := keyP;
        case _ => r := keyC;
      }
    }

    method Value() returns (r: Outcome<Option<Bytes>>)
      requires Shape() && Inv()
      modifies Repr
      ensures Inv() && Remaining() == old(Remaining())
      ensures r == HeadValue(Remaining())
      decreases depth, 4
    {
      var _ := SkipUntilExistsOrInvalid();
      var valid := SkipUntilExistsOrInvalid();
      if !valid { return Panic; }
      r := SettledValue();
    }

    /** The value to yield, where nothing is left to skip. */
    method SettledValue() returns (r: Outcome<Option<Bytes>>)
      requires Shape() && Inv() && Settled(parent.Remaining(), cache.Remaining(), ascending) && Remaining() != []
      modifies Repr
      ensures Inv() && Remaining() == old(Remaining())
      ensures r == HeadValue(Remaining())
      decreases depth, 3
    {
      var parentValid := parent.Valid(ascending);
      if !parentValid {
        r := cache.Value();
        return;
      }
      var cacheValid := cache.Valid();
      if !cacheValid {
        r := parent.Value(ascending);
        return;
      }
      r := ValueAtHeads();
    }

    method ValueAtHeads() returns (r: Outcome<Option<Bytes>>)
      requires Shape() && Inv() && Settled(parent.Remaining(), cache.Remaining(), ascending)
      requires parent.Remaining() != [] && cache.Remaining() != []
      modifies Repr
      ensures Inv() && Remaining() == old(Remaining())
      ensures r == HeadValue(Remaining())
      decreases depth, 2
    {
      var keyP := parent.Key(ascending);
      var keyC := cache.Key();
      match CompareDir(ascending, keyP.value, keyC.value) {
        case -1 => r := parent.Value(ascending);
        case 0 => r := cache.Value();
        case _ => r := cache.Value();
      }
    }

    /** Skips deletions before `until`, or all leading ones when it is nil. */
    method SkipCacheDeletes(until: Option<Bytes>)
      requires Shape() && Inv()
      requires until == if parent.Remaining() == [] then None else Some(parent.Remaining()[0].key)
      modifies cache
      ensures Inv()
      ensures parent.Remaining() == old(parent.Remaining())
      ensures Merge(parent.Remaining(), cache.Remaining(), ascending)
           == Merge(parent.Remaining(), old(cache.Remaining()), ascending)
      ensures |cache.Remaining()| <= |old(cache.Remaining())|
      ensures Settled(parent.Remaining(), cache.Remaining(), ascending) || AtUntil(parent.Remaining(), cache.Remaining())
      ensures old(MustSkip(cache.Remaining(), until, ascending)) ==> |cache.Remaining()| < |old(cache.Remaining())|
    {
      ghost var p, c0 := parent.Remaining(), cache.Remaining();
      while true
        invariant Inv() && parent.Remaining() == p
        invariant Merge(p, cache.Remaining(), ascending) == Merge(p, c0, ascending)
        invariant |cache.Remaining()| <= |c0|
        invariant MustSkip(c0, until, ascending) ==> |cache.Remaining()| < |c0| || cache.Remaining() == c0
        decreases |cache.Remaining()|
      {
        ghost var c := cache.Remaining();
        var valid := cache.Valid();
        if !valid { return; }
        var value := cache.Value();
        if value.value.Some? { return; }
        var key := cache.Key();
        if until.Some? && CompareDir(ascending, key.value, until.value) >= 0 {
          BeforeTrichotomy(ascending, key.value, until.value);
          return;
        }
        SkipDelete(p, c, ascending);
        var _ := NextCache();
      }
    }

    /** Fast-forwards past deletions, until the current entry exists or the
        iterator is exhausted.  What is left to yield does not change. */
    method SkipUntilExistsOrInvalid() returns (valid: bool)
      requires Shape() && Inv()
      modifies Repr
      ensures Inv() && Remaining() == old(Remaining())
      ensures Settled(parent.Remaining(), cache.Remaining(), ascending)
      ensures valid <==> Remaining() != []
      decreases depth, 3
    {
      var done := false;
      valid := false;
      while !done
        invariant Inv() && Remaining() == old(Remaining())
        invariant done ==> Settled(parent.Remaining(), cache.Remaining(), ascending) && (valid <==> Remaining() != [])
        decreases !done, |parent.Remaining()| + |cache.Remaining()|
      {
        done, valid := SkipOnce();
      }
    }

    /** One round: stops at an entry that exists, or drops deletions. */
    method SkipOnce() returns (done: bool, valid: bool)
      requires Shape() && Inv()
      modifies Repr
      ensures Inv() && Remaining() == old(Remaining())
      ensures done ==> Settled(parent.Remaining(), cache.Remaining(), ascending) && (valid <==> Remaining() != [])
      ensures !done ==> |parent.Remaining()| + |cache.Remaining()| < old(|parent.Remaining()| + |cache.Remaining()|)
      decreases depth, 2
    {
      var parentValid := parent.Valid(ascending);
      if !parentValid {
        valid := SkipToCache();
        return true, valid;
      }
      var cacheValid := cache.Valid();
      if !cacheValid { return true, true; }
      valid := true;
      done := SkipAtHeads();
    }

    /** Only the cache is left. */
    method SkipToCache() returns (valid: bool)
      requires Shape() && Inv() && parent.Remaining() == []
      modifies Repr
      ensures Inv() && Remaining() == old(Remaining())
      ensures Settled(parent.Remaining(), cache.Remaining(), ascending) && (valid <==> Remaining() != [])
      decreases depth, 1
    {
      SkipCacheDeletes(None);
      valid := cache.Valid();
    }

    /** Compares the two heads, and drops the dirty one if it is a deletion that
        comes first, with the parent's if they are for the same key. */
    method SkipAtHeads() returns (done: bool)
      requires Shape() && Inv() && parent.Remaining() != [] && cache.Remaining() != []
      modifies Repr
      ensures Inv() && Remaining() == old(Remaining())
      ensures done ==> Settled(parent.Remaining(), cache.Remaining(), ascending) && Remaining() != []
      ensures !done ==> |parent.Remaining()| + |cache.Remaining()| < old(|parent.Remaining()| + |cache.Remaining()|)
      decreases depth, 1
    {
      var keyP := parent.Key(ascending);
      var keyC := cache.Key();
      var c := CompareDir(ascending, keyP.value, keyC.value);
      if c == -1 { return true; }
      var valueC := cache.Value();
      done := valueC.value.Some?;
      if !done {
        if c == 0 {
          DropBoth();
        } else {
          SkipCacheDeletes(Some(keyP.value));
        }
      }
    }

    method DropBoth()
      requires Shape() && Inv() && parent.Remaining() != [] && cache.Remaining() != []
      requires parent.Remaining()[0].key == cache.Remaining()[0].key && cache.Remaining()[0].value.None?
      modifies Repr
      ensures Inv() && Remaining() == old(Remaining())
      ensures |parent.Remaining()| + |cache.Remaining()| < old(|parent.Remaining()| + |cache.Remaining()|)
      decreases depth, 0
    {
      SkipBoth(parent.Remaining(), cache.Remaining(), ascending);
      var _ := parent.Next(ascending);
      var _ := NextCache();
    }
  }
}
