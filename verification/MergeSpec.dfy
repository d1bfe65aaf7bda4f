/** The list-level meaning of the cache merge: a sorted parent listing
    overlaid by a sorted listing of dirty entries, deletions included. */
module MergeSpec {
  import opened Bytes
  import opened OrderedMap

  /** Dirty entries laid over a store: a value shadows, `None` deletes. */
  function Overlay(m: Store, dirty: map<Bytes, Option<Bytes>>): (r: Store)
    ensures forall k :: Lookup(r, k) == if k in dirty then dirty[k] else Lookup(m, k)
  {
    map k | k in m.Keys + dirty.Keys && (if k in dirty then dirty[k].Some? else true) ::
      if k in dirty then dirty[k].value else m[k]
  }

  /** What is left to yield when the parent still holds `p` and the cache `c`. */
  function Merge(p: seq<Item>, c: seq<Item>, ascending: bool): seq<Item>
    decreases |p| + |c|
  {
    if c == [] then p
    else if p != [] && Before(ascending, p[0].key, c[0].key) then
      [p[0]] + Merge(p[1..], c, ascending)
    else
      var p' := if p != [] && p[0].key == c[0].key then p[1..] else p;
      var rest := Merge(p', c[1..], ascending);
      if c[0].value.None? then rest else [c[0]] + rest
  }

  predicate AllExist(s: seq<Item>) {
    forall x :: x in s ==> x.value.Some?
  }

  /** An entry is yielded when the cache holds it, or the parent does and the
      cache says nothing about its key; the result is sorted. */
  lemma {:induction false} MergeMembers(p: seq<Item>, c: seq<Item>, ascending: bool)
    requires Sorted(ascending, p) && Sorted(ascending, c) && AllExist(p)
    ensures Sorted(ascending, Merge(p, c, ascending)) && AllExist(Merge(p, c, ascending))
    ensures forall x :: x in Merge(p, c, ascending) <==>
                        (x in c && x.value.Some?) || (x in p && !HasKey(c, x.key))
    decreases |p| + |c|
  {
    if c == [] {
    } else if p != [] && Before(ascending, p[0].key, c[0].key) {
      TailMembers(ascending, p);
      MergeMembers(p[1..], c, ascending);
      NotAfterFirst(c, p[0].key, ascending);
      ConsSorted(p[0], Merge(p[1..], c, ascending), p, c, ascending);
    } else {
      var p' := if p != [] && p[0].key == c[0].key then p[1..] else p;
      if p != [] { TailMembers(ascending, p); }
      TailMembers(ascending, c);
      MergeMembers(p', c[1..], ascending);
      if p != [] { BeforeTrichotomy(ascending, p[0].key, c[0].key); }
      NotAfterFirst(p', c[0].key, ascending);
      TailKeys(c, ascending);
      assert forall x :: x in p && x !in p' ==> x.key == c[0].key;
      if c[0].value.Some? {
        ConsSorted(c[0], Merge(p', c[1..], ascending), p', c[1..], ascending);
      }
    }
  }

  lemma TailKeys(c: seq<Item>, ascending: bool)
    requires c != [] && Sorted(ascending, c)
    ensures forall k :: HasKey(c, k) <==> k == c[0].key || HasKey(c[1..], k)
    ensures !HasKey(c[1..], c[0].key)
  {
    BeforeTrichotomy(ascending, c[0].key, c[0].key);
    forall k ensures HasKey(c, k) <==> k == c[0].key || HasKey(c[1..], k) {
      if HasKey(c, k) && k != c[0].key {
        var i :| 0 <= i < |c| && c[i].key == k;
        assert c[1..][i - 1].key == k;
      }
      if HasKey(c[1..], k) {
        var i :| 0 <= i < |c[1..]| && c[1..][i].key == k;
        assert c[i + 1].key == k;
      }
    }
  }

  /** A key that is before, or at, the head of a sorted list is in it only as the head. */
  lemma NotAfterFirst(s: seq<Item>, k: Bytes, ascending: bool)
    requires Sorted(ascending, s) && (s != [] ==> Before(ascending, k, s[0].key))
    ensures !HasKey(s, k)
    ensures forall x :: x in s ==> Before(ascending, k, x.key)
  {
    forall i | 0 <= i < |s|
      ensures Before(ascending, k, s[i].key) && s[i].key != k
    {
      if i > 0 { BeforeTransitive(ascending, k, s[0].key, s[i].key); }
      BeforeTrichotomy(ascending, k, s[i].key);
    }
  }

  lemma ConsSorted(x: Item, s: seq<Item>, p: seq<Item>, c: seq<Item>, ascending: bool)
    requires Sorted(ascending, s)
    requires forall y :: y in s ==> y in p || y in c
    requires forall y :: y in p && y != x ==> Before(ascending, x.key, y.key)
    requires forall y :: y in c && y != x ==> Before(ascending, x.key, y.key)
    requires x !in s
    ensures Sorted(ascending, [x] + s)
  {
    forall j | 0 < j < |[x] + s|
      ensures Before(ascending, x.key, ([x] + s)[j].key)
    {
      assert s[j - 1] in s;
    }
  }

  /** The merge of a parent's listing with the sorted dirty entries is the
      listing of the overlay: every key once, shadowed and deleted as it should. */
  lemma MergeIsOverlay(m: Store, dirty: map<Bytes, Option<Bytes>>, c: seq<Item>,
                       start: Bytes, end: Option<Bytes>, ascending: bool)
    requires Sorted(ascending, c)
    requires forall x :: x in c <==> x.key in dirty && x.value == dirty[x.key] && InDomain(x.key, start, end)
    ensures Merge(Items(m, start, end, ascending), c, ascending)
         == Items(Overlay(m, dirty), start, end, ascending)
  {
    var p := Items(m, start, end, ascending);
    var r := Overlay(m, dirty);
    MergeMembers(p, c, ascending);
    forall k | InDomain(k, start, end)
      ensures HasKey(c, k) <==> k in dirty
    {
      if k in dirty {
        assert Item(k, dirty[k]) in c;
      }
    }
    forall x: Item
      ensures x in Merge(p, c, ascending) <==> x in Items(r, start, end, ascending)
    {
      assert Lookup(r, x.key) == if x.key in dirty then dirty[x.key] else Lookup(m, x.key);
    }
    SortedUnique(ascending, Merge(p, c, ascending), Items(r, start, end, ascending));
  }
}
