/** Laws of handler programs on plain maps. */
module HandlerLaws {
  import opened Bytes
  import opened OrderedMap
  import opened CacheMulti
  import opened Gas
  import opened Handlers

  /** An action sees or changes one key of one store, or the meter, and nothing else. */
  lemma ActLaw<R>(a: Action<R>, s: Multi, g: Meter)
    requires !a.Return? && !a.Abort? && (a.Charge? || a.store in s)
    ensures var (s', g', reply) := Act(a, s, g);
            && s'.Keys == s.Keys
            && (forall n, k :: n in s ==>
                  Lookup(s'[n], k) == if a.Put? && n == a.store && k == a.key then Some(a.value)
                                      else if a.Remove? && n == a.store && k == a.key then None
                                      else Lookup(s[n], k))
            && (!a.Charge? ==> g' == g)
            && (a.Charge? ==> g' == Consume(g, a.amount).0 && reply == Charged(Consume(g, a.amount).1))
            && (a.Read? ==> reply == Value(Lookup(s[a.store], a.key)))
            && (a.Scan? ==> reply == Entries(Items(s[a.store], a.start, a.end, a.ascending)))
  {
  }

  /** Where a program stands after `i` actions: the replies it got, state and meter.
      It has ended before when there is nothing to do at some point on the way. */
  function After<R>(h: Handler<R>, s: Multi, g: Meter, i: nat): (seq<Reply>, Multi, Meter) {
    if i == 0 then ([], s, g)
    else
      var (replies, s', g') := After(h, s, g, i - 1);
      if !Acts(h, replies, s') then (replies, s', g')
      else
        var (s2, g2, reply) := Act(h.next(replies), s', g');
        (replies + [reply], s2, g2)
  }

  /** The next thing it does is on a mounted store or on the meter. */
  predicate Acts<R>(h: Handler<R>, replies: seq<Reply>, s: Multi) {
    var a := h.next(replies);
    !a.Return? && !a.Abort? && (a.Charge? || a.store in s)
  }

  predicate ActsAt<R>(h: Handler<R>, s: Multi, g: Meter, i: nat) {
    Acts(h, After(h, s, g, i).0, After(h, s, g, i).1)
  }

  /** A run takes actions up to the first point where there is none, or to its
      bound, and keeps the state and the meter of that point.  There it returns what
      the program returns, panics as the program does, or panics for a store that is
      not mounted or for the bound. */
  lemma RunLaw<R>(h: Handler<R>, s: Multi, g: Meter, n: nat)
    requires n <= h.bound && (forall i :: 0 <= i < n ==> ActsAt(h, s, g, i))
    requires n < h.bound ==> !ActsAt(h, s, g, n)
    ensures var (replies, s', g') := After(h, s, g, n);
            var a := h.next(replies);
            Run(h.next, h.bound, [], s, g) ==
              (s', g', if n == h.bound then Panicked(OtherPanic)
                       else if a.Return? then Returned(a.result)
                       else if a.Abort? then Panicked(a.panic)
                       else Panicked(OtherPanic))
  {
    RunFrom(h, s, g, n);
    var (replies, s', g') := After(h, s, g, n);
    if n < h.bound { assert !Acts(h, replies, s'); }
  }

  lemma {:induction false} RunFrom<R>(h: Handler<R>, s: Multi, g: Meter, n: nat)
    requires n <= h.bound && forall i :: 0 <= i < n ==> ActsAt(h, s, g, i)
    ensures var (replies, s', g') := After(h, s, g, n);
            Run(h.next, h.bound, [], s, g) == Run(h.next, h.bound - n, replies, s', g')
  {
    if n > 0 {
      RunFrom(h, s, g, n - 1);
      assert ActsAt(h, s, g, n - 1);
      var (replies, s', g') := After(h, s, g, n - 1);
      RunStep(h.next, h.bound - (n - 1), replies, s', g');
    }
  }
}
