/** Laws of the plain machine that stacks of caches are proved to follow. */
module SessionLaws {
  import opened Bytes
  import opened OrderedMap
  import opened CacheSession

  // ---- One operation ----

  /** A store operation looks at one key of the top map or changes it, and
      touches no other key, no map below and no open iterator. */
  lemma StoreLaw(s: Plain, op: Op)
    requires s.stack != [] && OnStore(op)
    ensures var (s', answer) := PlainStep(s, op);
            && s'.iters == s.iters && |s'.stack| == |s.stack| && s'.stack[1..] == s.stack[1..]
            && (forall k :: Lookup(s'.stack[0], k) ==
                            if op.Set? && k == op.key then Some(op.value)
                            else if op.Delete? && k == op.key then None
                            else Lookup(s.stack[0], k))
            && (op.Get? ==> answer == Found(Lookup(s.stack[0], op.key)))
            && (op.Has? ==> answer == Flag(Lookup(s.stack[0], op.key).Some?))
  {
  }

  /** Wrapping puts a copy of the top map on top, writing copies it to the one
      below, and discarding takes it away.  The last map is neither written nor
      discarded, and no open iterator changes. */
  lemma LayerLaw(s: Plain, op: Op)
    requires s.stack != [] && OnLayers(op)
    ensures var s' := PlainStep(s, op).0;
            && s'.iters == s.iters
            && (op.Wrap? ==> |s'.stack| == |s.stack| + 1 && s'.stack[0] == s.stack[0] && s'.stack[1..] == s.stack)
            && (!op.Wrap? && |s.stack| == 1 ==> s' == s)
            && (op.Write? && |s.stack| > 1 ==>
                  |s'.stack| == |s.stack| && s'.stack[0] == s'.stack[1] == s.stack[0] && s'.stack[2..] == s.stack[2..])
            && (op.Discard? && |s.stack| > 1 ==> s'.stack == s.stack[1..])
  {
  }

  /** An iterator is the list of entries in range when it was opened; it answers
      with the head of that list and moves by dropping it. */
  lemma IteratorLaw(s: Plain, op: Op)
    requires s.stack != [] && (op.Open? || OnIterator(op))
    ensures var (s', answer) := PlainStep(s, op);
            && s'.stack == s.stack
            && (op.Open? ==> s'.iters == s.iters + [Items(s.stack[0], op.start, op.end, op.ascending)])
            && (OnIterator(op) ==>
                  var left := if op.it < |s.iters| then s.iters[op.it] else [];
                  && |s'.iters| == |s.iters|
                  && (forall i :: 0 <= i < |s.iters| ==>
                        s'.iters[i] == if op.Next? && i == op.it && left != [] then left[1..] else s.iters[i])
                  && answer == if op.Valid? then Flag(left != [])
                               else if op.Key? then KeyIs(if left == [] then Panic else Ok(left[0].key))
                               else if op.Value? then ValueIs(if left == [] then Panic else Ok(left[0].value))
                               else Moved(if left == [] then Panic else Ok(())))
  {
  }

  // ---- A layer as a transaction ----

  /** Operations that leave the layers where they are. */
  predicate Inside(ops: seq<Op>) {
    forall i :: 0 <= i < |ops| ==> !OnLayers(ops[i])
  }

  lemma {:induction false} RunSplit(s: Plain, first: seq<Op>, second: seq<Op>)
    requires s.stack != []
    ensures var before := PlainRun(s, first);
            var after := PlainRun(before.0, second);
            PlainRun(s, first + second) == (after.0, before.1 + after.1)
    decreases |second|
  {
    var before := PlainRun(s, first);
    if second == [] {
      assert first + second == first && before.1 + [] == before.1;
    } else {
      var n := |second| - 1;
      RunSplit(s, first, second[..n]);
      RunLast(s, first + second[..n], second[n]);
      RunLast(before.0, second[..n], second[n]);
      assert second == second[..n] + [second[n]] && first + second == first + second[..n] + [second[n]];
      Associative(before.1, PlainRun(before.0, second[..n]).1, PlainStep(PlainRun(before.0, second[..n]).0, second[n]).1);
    }
  }

  lemma RunLast(s: Plain, ops: seq<Op>, op: Op)
    requires s.stack != []
    ensures var before := PlainRun(s, ops);
            var last := PlainStep(before.0, op);
            PlainRun(s, ops + [op]) == (last.0, before.1 + [last.1])
  {
    assert (ops + [op])[..|ops|] == ops;
  }

  lemma Associative(a: seq<Answer>, b: seq<Answer>, last: Answer)
    ensures a + b + [last] == a + (b + [last])
  {
  }

  lemma OneOp(s: Plain, op: Op)
    requires s.stack != []
    ensures PlainRun(s, [op]) == (PlainStep(s, op).0, [PlainStep(s, op).1])
  {
    RunLast(s, [], op);
    assert [] + [op] == [op] && [] + [PlainStep(s, op).1] == [PlainStep(s, op).1];
  }

  /** On a layer of its own a run answers as without it, leaves its effect in that
      layer, and leaves everything below alone. */
  lemma {:induction false} OnOwnLayer(s: Plain, ops: seq<Op>)
    requires s.stack != [] && Inside(ops)
    ensures var (direct, answers) := PlainRun(s, ops);
            && direct.stack[1..] == s.stack[1..]
            && PlainRun(s.(stack := [s.stack[0]] + s.stack), ops) == (direct.(stack := [direct.stack[0]] + s.stack), answers)
    decreases |ops|
  {
    if ops == [] {
      assert s.stack == [s.stack[0]] + s.stack[1..];
    } else {
      var n := |ops| - 1;
      OnOwnLayer(s, ops[..n]);
      var direct := PlainRun(s, ops[..n]).0;
      SameOnLayer(direct, s.stack, ops[n]);
    }
  }

  lemma SameOnLayer(d: Plain, below: seq<OrderedMap.Store>, op: Op)
    requires d.stack != [] && !OnLayers(op)
    ensures var (d', answer) := PlainStep(d, op);
            && d'.stack != [] && d'.stack[1..] == d.stack[1..]
            && PlainStep(d.(stack := [d.stack[0]] + below), op) == (d'.(stack := [d'.stack[0]] + below), answer)
  {
    assert ([d.stack[0]] + below)[1..] == below;
  }

  /** Wrapping, working and discarding leaves no trace in the stores; the answers
      on the way are those of working without the layer. */
  lemma WrapAndDiscard(s: Plain, ops: seq<Op>)
    requires s.stack != [] && Inside(ops)
    ensures var (direct, answers) := PlainRun(s, ops);
            PlainRun(s, [Wrap] + ops + [Discard]) == (direct.(stack := s.stack), [Done] + answers + [Done])
  {
    var w := PlainStep(s, Wrap).0;
    OneOp(s, Wrap);
    RunSplit(s, [Wrap], ops);
    OnOwnLayer(s, ops);
    RunSplit(s, [Wrap] + ops, [Discard]);
    OneOp(PlainRun(w, ops).0, Discard);
    var direct := PlainRun(s, ops).0;
    assert ([direct.stack[0]] + s.stack)[1..] == s.stack;
  }

  /** Wrapping, working, writing and discarding is working without the layer. */
  lemma WrapAndWrite(s: Plain, ops: seq<Op>)
    requires s.stack != [] && Inside(ops)
    ensures var (direct, answers) := PlainRun(s, ops);
            PlainRun(s, [Wrap] + ops + [Write, Discard]) == (direct, [Done] + answers + [Done, Done])
  {
    var w := PlainStep(s, Wrap).0;
    OneOp(s, Wrap);
    RunSplit(s, [Wrap], ops);
    OnOwnLayer(s, ops);
    RunSplit(s, [Wrap] + ops, [Write, Discard]);
    var (direct, _) := PlainRun(s, ops);
    var top := direct.(stack := [direct.stack[0]] + s.stack);
    WriteThenDiscard(top, direct);
  }

  lemma WriteThenDiscard(top: Plain, direct: Plain)
    requires direct.stack != [] && |top.stack| > 1 && top.stack[0] == direct.stack[0]
    requires top.stack[2..] == direct.stack[1..] && top.iters == direct.iters
    ensures PlainRun(top, [Write, Discard]) == (direct, [Done, Done])
  {
    RunSplit(top, [Write], [Discard]);
    assert [Write] + [Discard] == [Write, Discard] && [Done] + [Done] == [Done, Done];
    OneOp(top, Write);
    var w := PlainStep(top, Write).0;
    OneOp(w, Discard);
    assert w.stack[1..] == [top.stack[0]] + top.stack[2..];
    assert direct.stack == [direct.stack[0]] + direct.stack[1..];
  }
}
