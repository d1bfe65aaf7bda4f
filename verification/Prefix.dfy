/** Key prefixes: the range they span, and the store that shows only the keys
    under one. */
module Prefix {
  import opened Bytes
  import opened OrderedMap
  import opened CacheIterators
  import opened CacheKV

  /** `bytes.HasPrefix`. */
  predicate HasPrefix(k: Bytes, p: Bytes) {
    p <= k
  }

  /** The keys from `p` up to `end` are those that start with `p`. */
  ghost predicate EndsPrefix(p: Bytes, end: Option<Bytes>) {
    forall k :: InDomain(k, p, end) <==> HasPrefix(k, p)
  }

  /** Drops the trailing 255s and raises the byte before them; a prefix of 255s
      alone has no end. */
  method PrefixEndBytes(prefix: Bytes) returns (end: Option<Bytes>)
    ensures EndsPrefix(prefix, end)
    ensures end.Some? ==> 0 < |end.value| <= |prefix|
  {
    if |prefix| == 0 {
      NoUpperBound(prefix);
      return None;
    }
    var bz := new byte[|prefix|](i requires 0 <= i < |prefix| => prefix[i]);
    var n := |prefix|;
    while true
      invariant 0 < n <= bz.Length == |prefix| && bz[..] == prefix
      invariant forall i :: n <= i < |prefix| ==> prefix[i] == 255
      decreases n
    {
      if bz[n - 1] != 255 {
        RaisedEnd(prefix, n);
        bz[n - 1] := bz[n - 1] + 1;
        assert bz[..n] == Raised(prefix[..n]);
        return Some(bz[..n]);
      }
      n := n - 1;
      if n == 0 {
        NoUpperBound(prefix);
        return None;
      }
    }
  }

  /** `InclusiveEndBytes` appends a zero byte to a slice of `n` bytes: in the
      caller's own array if it has room behind the slice, in a new one if not. */
  method InclusiveEndBytes(bytes: array<byte>, n: nat) returns (end: array<byte>)
    requires n <= bytes.Length
    modifies bytes
    ensures n < end.Length && end[..n + 1] == old(bytes[..n]) + [0]
    ensures if n < bytes.Length then end == bytes && bytes[n + 1..] == old(bytes[n + 1..])
            else fresh(end) && bytes[..] == old(bytes[..])
  {
    if n < bytes.Length {
      bytes[n] := 0;
      return bytes;
    }
    end := new byte[2 * n + 1](i requires 0 <= i reads bytes => if i < bytes.Length then bytes[i] else 0);
  }

  /** The string with a zero byte behind it is the next one in the order. */
  lemma InclusiveEnd(k: Bytes, start: Bytes)
    ensures forall x :: InDomain(x, start, Some(k + [0])) <==> InDomain(x, start, None) && (x == k || Less(x, k))
  {
    forall x ensures Less(x, k + [0]) <==> x == k || Less(x, k) { JustAfter(x, k); }
  }

  lemma {:induction false} JustAfter(x: Bytes, k: Bytes)
    ensures Less(x, k + [0]) <==> x == k || Less(x, k)
  {
    if k == [] {
      assert x != [] ==> !(x[0] < 0);
    } else if x != [] {
      assert (k + [0])[1..] == k[1..] + [0];
      JustAfter(x[1..], k[1..]);
      assert x == [x[0]] + x[1..] && k == [k[0]] + k[1..];
    }
  }

  // ---- The order and prefixes ----

  lemma {:induction false} PrefixIsNotAfter(p: Bytes, k: Bytes)
    requires HasPrefix(k, p)
    ensures !Less(k, p)
  {
    if p != [] { PrefixIsNotAfter(p[1..], k[1..]); }
  }

  /** A common prefix does not matter to the order. */
  lemma {:induction false} LessUnderPrefix(p: Bytes, a: Bytes, b: Bytes)
    ensures Less(p + a, p + b) <==> Less(a, b)
  {
    if p == [] {
      assert p + a == a && p + b == b;
    } else {
      assert (p + a)[1..] == p[1..] + a && (p + b)[1..] == p[1..] + b;
      LessUnderPrefix(p[1..], a, b);
    }
  }

  /** Between two strings under a prefix there are only strings under it. */
  lemma {:induction false} BetweenPrefixed(p: Bytes, e: Bytes, k: Bytes)
    requires !Less(k, p) && Less(k, p + e)
    ensures HasPrefix(k, p)
  {
    if p != [] {
      assert (p + e)[1..] == p[1..] + e;
      BetweenPrefixed(p[1..], e, k[1..]);
      assert k == [k[0]] + k[1..] && p == [p[0]] + p[1..];
    }
  }

  function Raised(p: Bytes): Bytes
    requires p != [] && p[|p| - 1] != 255
  {
    p[..|p| - 1] + [p[|p| - 1] + 1]
  }

  lemma RaisedEnd(p: Bytes, n: nat)
    requires 0 < n <= |p| && p[n - 1] != 255 && forall i :: n <= i < |p| ==> p[i] == 255
    ensures EndsPrefix(p, Some(Raised(p[..n])))
  {
    forall k ensures InDomain(k, p, Some(Raised(p[..n]))) <==> HasPrefix(k, p) {
      BelowRaised(p, n, k);
    }
  }

  lemma {:induction false} BelowRaised(p: Bytes, n: nat, k: Bytes)
    requires 0 < n <= |p| && p[n - 1] != 255 && forall i :: n <= i < |p| ==> p[i] == 255
    ensures InDomain(k, p, Some(Raised(p[..n]))) <==> HasPrefix(k, p)
  {
    var e := Raised(p[..n]);
    if k != [] {
      PrefixStep(k, p);
      if n == 1 {
        assert e == [p[0] + 1] && e[1..] == [] && !Less(k[1..], []);
        assert Less(k, e) <==> k[0] <= p[0];
        AllOnes(p[1..], k[1..]);
      } else {
        assert p[1..][..n - 1] == p[..n][1..] && e[1..] == Raised(p[1..][..n - 1]) && e[0] == p[0];
        BelowRaised(p[1..], n - 1, k[1..]);
      }
    }
  }

  lemma PrefixStep(k: Bytes, p: Bytes)
    requires k != [] && p != []
    ensures HasPrefix(k, p) <==> k[0] == p[0] && HasPrefix(k[1..], p[1..])
  {
    assert k == [k[0]] + k[1..] && p == [p[0]] + p[1..];
  }

  /** Nothing but its extensions lies above a string of 255s. */
  lemma {:induction false} AllOnes(p: Bytes, k: Bytes)
    requires forall i :: 0 <= i < |p| ==> p[i] == 255
    ensures Less(k, p) <==> !HasPrefix(k, p)
  {
    if p != [] && k != [] {
      AllOnes(p[1..], k[1..]);
      assert k == [k[0]] + k[1..] && p == [p[0]] + p[1..];
    }
  }

  lemma NoUpperBound(p: Bytes)
    requires forall i :: 0 <= i < |p| ==> p[i] == 255
    ensures EndsPrefix(p, None)
  {
    forall k ensures InDomain(k, p, None) <==> HasPrefix(k, p) { AllOnes(p, k); }
  }

  // ---- The part of a store under a prefix ----

  /** The keys that start with `p`, stripped of it. */
  ghost function Under(m: OrderedMap.Store, p: Bytes): (r: OrderedMap.Store)
    ensures forall k :: k in r <==> p + k in m
    ensures forall k :: k in r ==> r[k] == m[p + k]
  {
    var keys := set x | x in m && HasPrefix(x, p) :: x[|p|..];
    forall k ensures k in keys <==> p + k in m {
      if k in keys {
        var x :| x in m && HasPrefix(x, p) && x[|p|..] == k;
        assert x == p + k;
      }
      if p + k in m { assert (p + k)[|p|..] == k; }
    }
    map k | k in keys :: m[p + k]
  }

  lemma PutUnder(m: OrderedMap.Store, p: Bytes, k: Bytes, v: Bytes)
    ensures Under(m[p + k := v], p) == Under(m, p)[k := v]
    ensures Under(m - {p + k}, p) == Under(m, p) - {k}
  {
    forall j ensures p + j == p + k <==> j == k { assert (p + j)[|p|..] == j && (p + k)[|p|..] == k; }
  }

  ghost function Put(m: OrderedMap.Store, p: Bytes, k: Bytes, v: Bytes): OrderedMap.Store {
    m[p + k := v]
  }

  /** Writes through a store under `p` never show in a store under `q`. */
  ghost predicate Isolated(p: Bytes, q: Bytes) {
    forall m: OrderedMap.Store, k: Bytes, v: Bytes :: Under(Put(m, p, k, v), q) == Under(m, q)
  }

  /** Two prefix stores keep out of each other's way exactly when neither prefix
      starts with the other. */
  lemma IsolatedIff(p: Bytes, q: Bytes)
    ensures Isolated(p, q) <==> !HasPrefix(p, q) && !HasPrefix(q, p)
  {
    if !HasPrefix(p, q) && !HasPrefix(q, p) {
      forall m: OrderedMap.Store, k: Bytes, v: Bytes ensures Under(Put(m, p, k, v), q) == Under(m, q) {
        WriteElsewhere(m, p, q, k, v);
      }
    } else {
      NotIsolated(p, q);
    }
  }

  lemma NotIsolated(p: Bytes, q: Bytes)
    requires HasPrefix(p, q) || HasPrefix(q, p)
    ensures !Isolated(p, q)
  {
    var k := if HasPrefix(p, q) then [] else q[|p|..];
    var x := p + k;
    assert HasPrefix(x, q) && q + x[|q|..] == x;
    assert x[|q|..] in Under(Put(map[], p, k, []), q) && x[|q|..] !in Under(map[], q);
  }

  lemma WriteElsewhere(m: OrderedMap.Store, p: Bytes, q: Bytes, k: Bytes, v: Bytes)
    requires !HasPrefix(p, q) && !HasPrefix(q, p)
    ensures Under(m[p + k := v], q) == Under(m, q) && Under(m - {p + k}, q) == Under(m, q)
  {
    forall j ensures q + j != p + k {
      var i :| 0 <= i < |p| && i < |q| && p[i] != q[i];
      assert (q + j)[i] == q[i] && (p + k)[i] == p[i];
    }
  }

  // ---- The prefix store ----

  /** The leading entries under the prefix, stripped. */
  ghost function Leading(s: seq<Item>, p: Bytes): seq<Item> {
    if s == [] || !HasPrefix(s[0].key, p) then []
    else [Item(s[0].key[|p|..], s[0].value)] + Leading(s[1..], p)
  }

  lemma {:induction false} LeadingAll(s: seq<Item>, p: Bytes)
    requires forall x :: x in s ==> HasPrefix(x.key, p)
    ensures |Leading(s, p)| == |s|
    ensures forall i :: 0 <= i < |s| ==> s[i].key == p + Leading(s, p)[i].key && s[i].value == Leading(s, p)[i].value
  {
    if s != [] {
      assert s[0] in s && forall x :: x in s[1..] ==> x in s;
      LeadingAll(s[1..], p);
    }
  }

  /** Where an iterator of the prefix store ends in the parent. */
  ghost predicate ParentEnd(p: Bytes, end: Option<Bytes>, e: Option<Bytes>) {
    if end.Some? then e == Some(p + end.value) else EndsPrefix(p, e)
  }

  lemma ParentDomain(p: Bytes, start: Bytes, end: Option<Bytes>, e: Option<Bytes>, x: Bytes)
    requires ParentEnd(p, end, e)
    ensures InDomain(x, p + start, e) <==> HasPrefix(x, p) && InDomain(x[|p|..], start, end)
  {
    if InDomain(x, p + start, e) { InParentHasPrefix(p, start, end, e, x); }
    if HasPrefix(x, p) {
      var k := x[|p|..];
      assert x == p + k;
      LessUnderPrefix(p, k, start);
      if end.Some? { LessUnderPrefix(p, k, end.value); } else { assert InDomain(x, p, e); }
    }
  }

  lemma InParentHasPrefix(p: Bytes, start: Bytes, end: Option<Bytes>, e: Option<Bytes>, x: Bytes)
    requires ParentEnd(p, end, e) && InDomain(x, p + start, e)
    ensures HasPrefix(x, p)
  {
    NotBelowPrefix(p, start, x);
    if end.Some? { BetweenPrefixed(p, end.value, x); } else { assert InDomain(x, p, e); }
  }

  lemma NotBelowPrefix(p: Bytes, start: Bytes, x: Bytes)
    requires !Less(x, p + start)
    ensures !Less(x, p)
  {
    PrefixIsNotAfter(p, p + start);
    Trichotomy(p, p + start);
    if Less(x, p) && p != p + start { Transitive(x, p, p + start); }
  }

  /** A range of the parent, stripped, is the range of the store under the prefix. */
  lemma StrippedRange(m: OrderedMap.Store, p: Bytes, start: Bytes, end: Option<Bytes>, e: Option<Bytes>, ascending: bool)
    requires ParentEnd(p, end, e)
    ensures Leading(Items(m, p + start, e, ascending), p) == Items(Under(m, p), start, end, ascending)
  {
    var s, t := Items(m, p + start, e, ascending), Items(Under(m, p), start, end, ascending);
    forall x | x in s ensures HasPrefix(x.key, p) { ParentDomain(p, start, end, e, x.key); }
    StrippedSorted(s, p, ascending);
    var r := Leading(s, p);
    forall x ensures x in r <==> x in t {
      var y := Item(p + x.key, x.value);
      ParentDomain(p, start, end, e, y.key);
      StrippedMember(s, p, x);
      assert y.key[|p|..] == x.key;
    }
    SortedUnique(ascending, r, t);
  }

  lemma StrippedSorted(s: seq<Item>, p: Bytes, ascending: bool)
    requires Sorted(ascending, s) && forall x :: x in s ==> HasPrefix(x.key, p)
    ensures Sorted(ascending, Leading(s, p))
  {
    LeadingAll(s, p);
    var r := Leading(s, p);
    forall i, j | 0 <= i < j < |r| ensures Before(ascending, r[i].key, r[j].key) {
      LessUnderPrefix(p, r[i].key, r[j].key);
      LessUnderPrefix(p, r[j].key, r[i].key);
    }
  }

  lemma StrippedMember(s: seq<Item>, p: Bytes, x: Item)
    requires forall y :: y in s ==> HasPrefix(y.key, p)
    ensures x in Leading(s, p) <==> Item(p + x.key, x.value) in s
  {
    LeadingAll(s, p);
    var r, y := Leading(s, p), Item(p + x.key, x.value);
    if x in r {
      var i :| 0 <= i < |r| && r[i] == x;
      assert s[i] == y;
    }
    if y in s {
      var i :| 0 <= i < |s| && s[i] == y;
      assert r[i].key == s[i].key[|p|..];
    }
  }

  /** `prefixIterator`. */
  class PrefixIterator {
    const prefix: Bytes
    const iter: Iterator
    var valid: bool

    constructor (prefix: Bytes, iter: Iterator, valid: bool)
      ensures this.prefix == prefix && this.iter == iter && this.valid == valid
    {
      this.prefix, this.iter, this.valid := prefix, iter, valid;
    }

    ghost function Remaining(): seq<Item>
      requires iter.Shape()
      reads iter.Repr()
    {
      Leading(iter.Remaining(), prefix)
    }

    ghost predicate Inv(ascending: bool)
      reads this, iter.Repr()
    {
      iter.Shape() && this !in iter.Repr() && iter.Inv(ascending) && (valid <==> Remaining() != [])
    }

    method Valid(ghost ascending: bool) returns (r: bool)
      requires Inv(ascending)
      modifies iter.Repr()
      ensures Inv(ascending) && Remaining() == old(Remaining())
      ensures r <==> Remaining() != []
    {
      r := valid;
      if valid { r := iter.Valid(ascending); }
    }

    method Next(ghost ascending: bool) returns (r: Outcome<()>)
      requires Inv(ascending)
      modifies this, iter.Repr()
      ensures Inv(ascending) && Advanced(old(Remaining()), r, Remaining())
    {
      if !valid { return Panic; }
      r := iter.Next(ascending);
      valid := HeadHasPrefix(iter, prefix, ascending);
    }

    method Key(ghost ascending: bool) returns (r: Outcome<Bytes>)
      requires Inv(ascending)
      modifies iter.Repr()
      ensures Inv(ascending) && Remaining() == old(Remaining())
      ensures r == HeadKey(Remaining())
    {
      if !valid { return Panic; }
      var k := iter.Key(ascending);
      r := Ok(k.value[|prefix|..]);
    }

    method Value(ghost ascending: bool) returns (r: Outcome<Option<Bytes>>)
      requires Inv(ascending)
      modifies iter.Repr()
      ensures Inv(ascending) && Remaining() == old(Remaining())
      ensures r == HeadValue(Remaining())
    {
      if !valid { return Panic; }
      r := iter.Value(ascending);
    }
  }

  /** The iterator is live and its key starts with the prefix. */
  method HeadHasPrefix(iter: Iterator, prefix: Bytes, ghost ascending: bool) returns (r: bool)
    requires iter.Shape() && iter.Inv(ascending)
    modifies iter.Repr()
    ensures iter.Inv(ascending) && iter.Remaining() == old(iter.Remaining())
    ensures r <==> Leading(iter.Remaining(), prefix) != []
  {
    r := iter.Valid(ascending);
    if r {
      var k := iter.Key(ascending);
      r := HasPrefix(k.value, prefix);
    }
  }

  /** `prefix.Store`: every operation acts on the map under the prefix. */
  datatype PrefixStore = PrefixStore(parent: KVStore, prefix: Bytes) {

    /** What the store holds. */
    ghost function Content(): OrderedMap.Store
      requires parent.Shape()
      reads parent.Repr()
    {
      Under(parent.Views()[0], prefix)
    }

    method Get(key: Bytes) returns (value: Option<Bytes>)
      requires parent.Shape() && parent.Inv()
      modifies parent.Repr()
      ensures parent.Inv() && parent.Views() == old(parent.Views())
      ensures value == Lookup(Content(), key)
    {
      value := parent.Get(prefix + key);
    }

    method Has(key: Bytes) returns (has: bool)
      requires parent.Shape() && parent.Inv()
      modifies parent.Repr()
      ensures parent.Inv() && parent.Views() == old(parent.Views())
      ensures has <==> key in Content()
    {
      has := parent.Has(prefix + key);
    }

    method Set(key: Bytes, value: Bytes)
      requires parent.Shape() && parent.Inv()
      modifies parent.Top()
      ensures parent.Inv() && Content() == old(Content())[key := value]
      ensures forall q | !HasPrefix(prefix, q) && !HasPrefix(q, prefix) :: Under(parent.Views()[0], q) == Under(old(parent.Views()[0]), q)
      ensures parent.Views()[1..] == old(parent.Views())[1..]
    {
      ghost var m := parent.Views()[0];
      PutUnder(m, prefix, key, value);
      forall q | !HasPrefix(prefix, q) && !HasPrefix(q, prefix) ensures Under(m[prefix + key := value], q) == Under(m, q) {
        WriteElsewhere(m, prefix, q, key, value);
      }
      parent.Set(prefix + key, value);
    }

    method Delete(key: Bytes)
      requires parent.Shape() && parent.Inv()
      modifies parent.Top()
      ensures parent.Inv() && Content() == old(Content()) - {key}
      ensures forall q | !HasPrefix(prefix, q) && !HasPrefix(q, prefix) :: Under(parent.Views()[0], q) == Under(old(parent.Views()[0]), q)
      ensures parent.Views()[1..] == old(parent.Views())[1..]
    {
      ghost var m := parent.Views()[0];
      PutUnder(m, prefix, key, []);
      forall q | !HasPrefix(prefix, q) && !HasPrefix(q, prefix) ensures Under(m - {prefix + key}, q) == Under(m, q) {
        WriteElsewhere(m, prefix, q, key, []);
      }
      parent.Delete(prefix + key);
    }

    /** Both directions: the entries of the range, in order. */
    method Iterator(start: Bytes, end: Option<Bytes>, ascending: bool) returns (it: PrefixIterator)
      requires parent.Shape() && parent.Inv()
      modifies parent.Repr()
      ensures parent.Inv() && parent.Views() == old(parent.Views())
      ensures fresh(it) && fresh(it.iter.Repr()) && it.Inv(ascending)
      ensures it.Remaining() == Items(Content(), start, end, ascending)
    {
      var e := RangeEnd(prefix, end, parent);
      StrippedRange(parent.Views()[0], prefix, start, end, e, ascending);
      it := OpenUnder(parent, prefix, start, e, ascending);
    }
  }

  method RangeEnd(prefix: Bytes, end: Option<Bytes>, ghost parent: KVStore) returns (e: Option<Bytes>)
    requires parent.Shape() && parent.Inv()
    ensures parent.Inv() && parent.Views() == old(parent.Views())
    ensures ParentEnd(prefix, end, e)
  {
    if end.None? {
      e := PrefixEndBytes(prefix);
    } else {
      e := Some(prefix + end.value);
    }
  }

  method OpenUnder(parent: KVStore, prefix: Bytes, start: Bytes, e: Option<Bytes>, ascending: bool) returns (it: PrefixIterator)
    requires parent.Shape() && parent.Inv()
    modifies parent.Repr()
    ensures parent.Inv() && parent.Views() == old(parent.Views())
    ensures fresh(it) && fresh(it.iter.Repr()) && it.Inv(ascending)
    ensures it.Remaining() == Leading(Items(parent.Views()[0], prefix + start, e, ascending), prefix)
  {
    var iter := parent.Iterator(prefix + start, e, ascending);
    it := Wrap(iter, prefix, ascending, parent.Repr());
  }

  method Wrap(iter: Iterator, prefix: Bytes, ghost ascending: bool, ghost others: set<object>) returns (it: PrefixIterator)
    requires iter.Shape() && iter.Inv(ascending) && iter.Repr() !! others
    modifies iter.Repr()
    ensures unchanged(others)
    ensures fresh(it) && it.iter == iter && it.Inv(ascending)
    ensures it.Remaining() == Leading(old(iter.Remaining()), prefix)
  {
    var valid := HeadHasPrefix(iter, prefix, ascending);
    it := new PrefixIterator(prefix, iter, valid);
  }
}
