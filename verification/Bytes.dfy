/** Byte strings and the order `bytes.Compare` puts on them.  Go strings are
    byte strings too, so denominations use the same order. */
module Bytes {

  type byte = x: int | 0 <= x < 256

  type Bytes = seq<byte>

  datatype Option<+T> = None | Some(value: T)

  /** The result of a call that may panic. */
  datatype Outcome<+T> = Ok(value: T) | Panic

  /** `bytes.Compare(a, b) < 0`. */
  predicate Less(a: Bytes, b: Bytes) {
    b != [] && (a == [] || a[0] < b[0] || (a[0] == b[0] && Less(a[1..], b[1..])))
  }

  /** `bytes.Compare`: -1, 0 or 1. */
  function Compare(a: Bytes, b: Bytes): (c: int)
    ensures c == -1 <==> Less(a, b)
    ensures c == 0 <==> a == b
    ensures c == 1 <==> Less(b, a)
    ensures c == -1 || c == 0 || c == 1
  {
    Trichotomy(a, b);
    if Less(a, b) then -1 else if a == b then 0 else 1
  }

  lemma {:induction false} Trichotomy(a: Bytes, b: Bytes)
    ensures Less(a, b) || a == b || Less(b, a)
    ensures !(Less(a, b) && Less(b, a))
    ensures !Less(a, a)
  {
    Irreflexive(a);
    if a != [] && b != [] {
      Trichotomy(a[1..], b[1..]);
      if a[0] == b[0] && a[1..] == b[1..] {
        assert a == [a[0]] + a[1..] == b;
      }
    }
  }

  lemma {:induction false} Irreflexive(a: Bytes)
    ensures !Less(a, a)
  {
    if a != [] { Irreflexive(a[1..]); }
  }

  lemma {:induction false} Transitive(a: Bytes, b: Bytes, c: Bytes)
    requires Less(a, b) && Less(b, c)
    ensures Less(a, c)
  {
    if a != [] && a[0] == b[0] && b[0] == c[0] {
      Transitive(a[1..], b[1..], c[1..]);
    }
  }

  /** The key range of an iterator: from `start` on, up to but without `end`; a
      `None` end is Go's nil, no upper bound.  A nil start compares as the empty
      string, so it needs no case of its own. */
  predicate InDomain(k: Bytes, start: Bytes, end: Option<Bytes>) {
    !Less(k, start) && (end.Some? ==> Less(k, end.value))
  }

  lemma DomainIsInterval(a: Bytes, b: Bytes, c: Bytes, start: Bytes, end: Option<Bytes>)
    requires Less(a, b) && Less(b, c)
    requires InDomain(a, start, end) && InDomain(c, start, end)
    ensures InDomain(b, start, end)
  {
    if Less(b, start) { Transitive(a, b, start); }
    if end.Some? { Transitive(b, c, end.value); }
  }

  /** Go's `copy(bz[at:], s)` where there is room. */
  method CopyAt(bz: array<byte>, at: nat, s: Bytes)
    requires at + |s| <= bz.Length
    modifies bz
    ensures bz[..] == old(bz[..at]) + s + old(bz[at + |s|..])
  {
    for i := 0 to |s|
      invariant bz[..] == old(bz[..at]) + s[..i] + old(bz[at + i..])
    {
      bz[at + i] := s[i];
    }
  }
}
