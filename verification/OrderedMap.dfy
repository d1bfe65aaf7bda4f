/** What a key-value store promises its readers: the entries of a finite map
    that lie in a key range, listed in key order. */
module OrderedMap {
  import opened Bytes

  type Store = map<Bytes, Bytes>

  /** A `KVPair`.  `None` is Go's nil value, which marks a deletion. */
  datatype Item = Item(key: Bytes, value: Option<Bytes>)

  function Lookup(m: Store, k: Bytes): Option<Bytes> {
    if k in m then Some(m[k]) else None
  }

  /** `a` comes before `b` in an iteration of the given direction. */
  predicate Before(ascending: bool, a: Bytes, b: Bytes) {
    if ascending then Less(a, b) else Less(b, a)
  }

  lemma BeforeTransitive(ascending: bool, a: Bytes, b: Bytes, c: Bytes)
    requires Before(ascending, a, b) && Before(ascending, b, c)
    ensures Before(ascending, a, c)
  {
    if ascending { Transitive(a, b, c); } else { Transitive(c, b, a); }
  }

  lemma BeforeTrichotomy(ascending: bool, a: Bytes, b: Bytes)
    ensures Before(ascending, a, b) || a == b || Before(ascending, b, a)
    ensures !(Before(ascending, a, b) && Before(ascending, b, a))
    ensures !Before(ascending, a, a)
  {
    Trichotomy(a, b);
    Irreflexive(a);
  }

  /** Strictly monotone keys: sorted, and no key twice. */
  predicate Sorted(ascending: bool, s: seq<Item>) {
    forall i, j :: 0 <= i < j < |s| ==> Before(ascending, s[i].key, s[j].key)
  }

  predicate HasKey(s: seq<Item>, k: Bytes) {
    exists i :: 0 <= i < |s| && s[i].key == k
  }

  /** A strictly sorted listing is determined by its set of entries. */
  lemma {:induction false} SortedUnique(ascending: bool, a: seq<Item>, b: seq<Item>)
    requires Sorted(ascending, a) && Sorted(ascending, b)
    requires forall x :: x in a <==> x in b
    ensures a == b
  {
    assert b != [] ==> b[0] in b;
    if a != [] {
      assert a[0] in a && a[0] in b;
      assert b[0] in b && b[0] in a;
      FirstIsLeast(ascending, a, b[0]);
      FirstIsLeast(ascending, b, a[0]);
      BeforeTrichotomy(ascending, a[0].key, b[0].key);
      TailMembers(ascending, a);
      TailMembers(ascending, b);
      SortedUnique(ascending, a[1..], b[1..]);
      assert a == [a[0]] + a[1..] && b == [b[0]] + b[1..];
    }
  }

  lemma FirstIsLeast(ascending: bool, s: seq<Item>, x: Item)
    requires Sorted(ascending, s) && x in s
    ensures s[0] == x || Before(ascending, s[0].key, x.key)
  {
    var i :| 0 <= i < |s| && s[i] == x;
  }

  lemma TailMembers(ascending: bool, s: seq<Item>)
    requires Sorted(ascending, s) && s != []
    ensures Sorted(ascending, s[1..])
    ensures forall x :: x in s[1..] <==> x in s && x != s[0]
  {
    BeforeTrichotomy(ascending, s[0].key, s[0].key);
    forall x
      ensures x in s[1..] <==> x in s && x != s[0]
    {
      if x in s && x != s[0] {
        var i :| 0 <= i < |s| && s[i] == x;
        assert s[1..][i - 1] == x;
      }
      if x in s[1..] {
        var i :| 0 <= i < |s[1..]| && s[1..][i] == x;
        assert s[i + 1] == x;
      }
    }
  }

  // ---- Sorting and ranging ----

  /** `sort.Strings` on a set of keys. */
  function Ascending(keys: set<Bytes>): (r: seq<Bytes>)
    ensures forall k :: k in r <==> k in keys
    ensures forall i, j :: 0 <= i < j < |r| ==> Less(r[i], r[j])
  {
    if keys == {} then []
    else
      LeastExists(keys);
      LeastUnique(keys);
      var k :| IsLeast(keys, k);
      [k] + Ascending(keys - {k})
  }

  predicate IsLeast(keys: set<Bytes>, k: Bytes) {
    k in keys && forall j :: j in keys && j != k ==> Less(k, j)
  }

  lemma LeastUnique(keys: set<Bytes>)
    ensures forall a, b :: IsLeast(keys, a) && IsLeast(keys, b) ==> a == b
  {
    forall a, b | IsLeast(keys, a) && IsLeast(keys, b)
      ensures a == b
    {
      Trichotomy(a, b);
    }
  }

  lemma {:induction false} LeastExists(keys: set<Bytes>)
    requires keys != {}
    ensures exists k :: IsLeast(keys, k)
  {
    var a :| a in keys;
    if keys == {a} {
      assert IsLeast(keys, a);
    } else {
      LeastExists(keys - {a});
      var b :| IsLeast(keys - {a}, b);
      Trichotomy(a, b);
      var k := if Less(a, b) then a else b;
      forall j | j in keys && j != k
        ensures Less(k, j)
      {
        if k == a && j != b { Transitive(a, b, j); }
      }
      assert IsLeast(keys, k);
    }
  }

  function Reverse<T(!new)>(s: seq<T>): (r: seq<T>)
    ensures |r| == |s|
    ensures forall i :: 0 <= i < |s| ==> r[i] == s[|s| - 1 - i]
    ensures forall x :: x in r <==> x in s
  {
    if s == [] then [] else Reverse(s[1..]) + [s[0]]
  }

  function Pairs(m: Store, keys: seq<Bytes>): (r: seq<Item>)
    requires forall k :: k in keys ==> k in m
    ensures |r| == |keys|
    ensures forall i :: 0 <= i < |r| ==> r[i] == Item(keys[i], Some(m[keys[i]]))
  {
    seq(|keys|, i requires 0 <= i < |keys| => Item(keys[i], Some(m[keys[i]])))
  }

  /** The entries of `m` with keys in the range, in iteration order: what an
      iterator over `m` must yield. */
  function Items(m: Store, start: Bytes, end: Option<Bytes>, ascending: bool): (r: seq<Item>)
    ensures Sorted(ascending, r)
    ensures forall x :: x in r <==> x.key in m && InDomain(x.key, start, end) && x.value == Some(m[x.key])
  {
    var domain := set k | k in m && InDomain(k, start, end);
    var keys := Ascending(domain);
    var up := Pairs(m, keys);
    PairsMembers(m, keys);
    if ascending then up else Reverse(up)
  }

  lemma PairsMembers(m: Store, keys: seq<Bytes>)
    requires forall k :: k in keys ==> k in m
    ensures forall x :: x in Pairs(m, keys) <==> x.key in keys && x.value == Some(m[x.key])
  {
    forall x: Item
      ensures x in Pairs(m, keys) <==> x.key in keys && x.value == Some(m[x.key])
    {
      if x.key in keys && x.value == Some(m[x.key]) {
        var i :| 0 <= i < |keys| && keys[i] == x.key;
        assert Pairs(m, keys)[i] == x;
      }
    }
  }
}
