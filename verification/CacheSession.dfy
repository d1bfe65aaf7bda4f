/** Whole runs against a stack of caches: layers come and go, iterators stay
    open across writes, and every answer is the one a stack of plain maps gives. */
module CacheSession {
  import opened Bytes
  import opened OrderedMap
  import opened CacheIterators
  import opened CacheKV

  /** What a user of the top layer can do. */
  datatype Op =
    | Get(key: Bytes)
    | Has(key: Bytes)
    | Set(key: Bytes, value: Bytes)
    | Delete(key: Bytes)
    | Wrap                                    // put a new cache on top
    | Write                                   // push the top layer down
    | Discard                                 // drop the top layer unwritten
    | Open(start: Bytes, end: Option<Bytes>, ascending: bool)
    | Valid(it: nat)
    | Key(it: nat)
    | Value(it: nat)
    | Next(it: nat)

  predicate OnStore(op: Op) {
    op.Get? || op.Has? || op.Set? || op.Delete?
  }

  predicate OnLayers(op: Op) {
    op.Wrap? || op.Write? || op.Discard?
  }

  predicate OnIterator(op: Op) {
    op.Valid? || op.Key? || op.Value? || op.Next?
  }

  datatype Answer =
    | Done
    | Found(value: Option<Bytes>)
    | Flag(b: bool)
    | KeyIs(key: Outcome<Bytes>)
    | ValueIs(entry: Outcome<Option<Bytes>>)
    | Moved(r: Outcome<()>)

  /** The plain machine: maps, top first, and what each open iterator has left. */
  datatype Plain = Plain(stack: seq<OrderedMap.Store>, iters: seq<seq<Item>>)

  function PlainStep(s: Plain, op: Op): (Plain, Answer)
    requires s.stack != []
  {
    var top := s.stack[0];
    match op
    case Get(k) => (s, Found(Lookup(top, k)))
    case Has(k) => (s, Flag(k in top))
    case Set(k, v) => (s.(stack := [top[k := v]] + s.stack[1..]), Done)
    case Delete(k) => (s.(stack := [top - {k}] + s.stack[1..]), Done)
    case Wrap => (s.(stack := [top] + s.stack), Done)
    case Write => (if |s.stack| == 1 then s else s.(stack := [top, top] + s.stack[2..]), Done)
    case Discard => (if |s.stack| == 1 then s else s.(stack := s.stack[1..]), Done)
    case Open(start, end, asc) => (s.(iters := s.iters + [Items(top, start, end, asc)]), Done)
    case _ =>
      if op.it >= |s.iters| then (s, IteratorStep([], op).1)
      else
        var (rest, answer) := IteratorStep(s.iters[op.it], op);
        (s.(iters := s.iters[op.it := rest]), answer)
  }

  /** A call on an iterator with the given entries left; there is nothing left
      on an iterator that was never opened. */
  function IteratorStep(rest: seq<Item>, op: Op): (seq<Item>, Answer)
    requires OnIterator(op)
  {
    match op
    case Valid(_) => (rest, Flag(rest != []))
    case Key(_) => (rest, KeyIs(HeadKey(rest)))
    case Value(_) => (rest, ValueIs(HeadValue(rest)))
    case Next(_) => if rest == [] then (rest, Moved(Panic)) else (rest[1..], Moved(Ok(())))
  }

  function PlainRun(s: Plain, ops: seq<Op>): (r: (Plain, seq<Answer>))
    requires s.stack != []
    ensures r.0.stack != []
  {
    if ops == [] then (s, [])
    else
      var before := PlainRun(s, ops[..|ops| - 1]);
      var last := PlainStep(before.0, ops[|ops| - 1]);
      (last.0, before.1 + [last.1])
  }

  /** The caches and iterators behind a run. */
  class Session {
    var top: KVStore
    var iters: seq<Iterator>
    ghost var dirs: seq<bool>

    ghost function IterRepr(): set<object>
      reads this
    {
      set i, o | 0 <= i < |iters| && o in iters[i].Repr() :: o
    }

    ghost function Objects(): set<object>
      reads this
    {
      top.Repr() + IterRepr()
    }

    /** Iterators share nothing with the stores or with each other. */
    ghost predicate Separate()
      reads this
    {
      && top.Shape() && this !in top.Repr()
      && |dirs| == |iters|
      && (forall i :: 0 <= i < |iters| ==> iters[i].Shape() && this !in iters[i].Repr())
      && (forall i :: 0 <= i < |iters| ==> iters[i].Repr() !! top.Repr())
      && (forall i, j :: 0 <= i < j < |iters| ==> iters[i].Repr() !! iters[j].Repr())
    }

    ghost predicate Inv()
      reads this, top.Repr(), IterRepr()
    {
      && Separate()
      && top.Inv()
      && (forall i :: 0 <= i < |iters| ==> iters[i].Inv(dirs[i]))
    }

    ghost function Remainings(): seq<seq<Item>>
      requires Separate()
      reads this, IterRepr()
    {
      seq(|iters|, i requires 0 <= i < |iters| && Separate() reads this, IterRepr() => iters[i].Remaining())
    }

    ghost function State(): Plain
      requires Separate()
      reads this, top.Repr(), IterRepr()
    {
      Plain(top.Views(), Remainings())
    }

    constructor (m: OrderedMap.Store)
      ensures Inv() && State() == Plain([m], [])
      ensures fresh(Objects())
    {
      var tree := new TreeStore(m);
      top := KVStore.Tree(tree);
      iters := [];
      dirs := [];
    }

    method Step(op: Op) returns (a: Answer)
      requires Inv()
      modifies this, Objects()
      ensures Inv() && (State(), a) == PlainStep(old(State()), op)
      ensures fresh(Objects() - old(Objects()))
    {
      if OnStore(op) {
        a := StoreStep(op);
      } else if OnLayers(op) {
        a := LayerStep(op);
      } else if op.Open? {
        OpenIterator(op.start, op.end, op.ascending);
        a := Done;
      } else {
        a := IterStep(op);
      }
    }

    method Steps(ops: seq<Op>) returns (answers: seq<Answer>)
      requires Inv()
      modifies this, Objects()
      ensures Inv() && (State(), answers) == PlainRun(old(State()), ops)
      ensures fresh(Objects() - old(Objects()))
    {
      if ops == [] { return []; }
      answers := Steps(ops[..|ops| - 1]);
      var a := Step(ops[|ops| - 1]);
      answers := answers + [a];
    }

    /** What the stores do leaves the open iterators alone. */
    twostate lemma IteratorsAreSnapshots()
      requires old(Inv()) && unchanged(`iters) && unchanged(`dirs) && unchanged(old(IterRepr())) && Separate()
      ensures Remainings() == old(Remainings())
      ensures forall i :: 0 <= i < |iters| ==> iters[i].Inv(dirs[i])
    {
      forall i | 0 <= i < |iters|
        ensures iters[i].Remaining() == old(iters[i].Remaining()) && iters[i].Inv(dirs[i])
      {
        assert forall o :: o in iters[i].Repr() ==> o in old(IterRepr());
      }
    }

    method StoreStep(op: Op) returns (a: Answer)
      requires Inv() && OnStore(op)
      modifies top.Repr()
      ensures Inv() && (State(), a) == PlainStep(old(State()), op)
    {
      match op {
        case Get(k) =>
          var v := top.Get(k);
          a := Found(v);
        case Has(k) =>
          var b := top.Has(k);
          a := Flag(b);
        case Set(k, v) =>
          top.Set(k, v);
          a := Done;
        case Delete(k) =>
          top.Delete(k);
          a := Done;
      }
      IteratorsAreSnapshots();
    }

    method LayerStep(op: Op) returns (a: Answer)
      requires Inv() && OnLayers(op)
      modifies this`top, top.Repr()
      ensures Inv() && (State(), a) == PlainStep(old(State()), op)
      ensures fresh(top.Repr() - old(top.Repr()))
    {
      assert PlainStep(State(), op) == (Plain(PlainStep(Plain(top.Views(), []), op).0.stack, Remainings()), Done);
      ChangeTop(op, IterRepr());
      IteratorsAreSnapshots();
      a := Done;
    }

    method ChangeTop(op: Op, ghost others: set<object>)
      requires top.Shape() && top.Inv() && this !in top.Repr() && OnLayers(op) && top.Repr() !! others && this !in others
      modifies this`top, top.Repr()
      ensures top.Shape() && top.Inv() && this !in top.Repr() && fresh(top.Repr() - old(top.Repr()))
      ensures top.Views() == PlainStep(Plain(old(top.Views()), []), op).0.stack
      ensures unchanged(others) && top.Repr() !! others
    {
      match op
      case Wrap =>
        var s := new CacheKV.Store(top);
        top := Cached(s);
      case Write =>
        if top.Cached? {
          assert top.cached.Shape();
          top.cached.Write();
        }
      case Discard =>
        if top.Cached? {
          assert top.cached.Shape() && top.cached.Inv();
          assert top.Views()[1..] == top.cached.parent.Views();
          top := top.cached.parent;
        }
    }

    method OpenIterator(start: Bytes, end: Option<Bytes>, ascending: bool)
      requires Inv()
      modifies this`iters, this`dirs, top.Repr()
      ensures Inv() && State() == PlainStep(old(State()), Open(start, end, ascending)).0
      ensures top == old(top) && fresh(IterRepr() - old(IterRepr()))
    {
      assert PlainStep(State(), Open(start, end, ascending)).0
          == Plain(top.Views(), Remainings() + [Items(top.Views()[0], start, end, ascending)]);
      var it := NewIterator(start, end, ascending);
      Adopt(it, ascending);
    }

    method NewIterator(start: Bytes, end: Option<Bytes>, ascending: bool) returns (it: Iterator)
      requires Inv()
      modifies top.Repr()
      ensures Inv() && State() == old(State())
      ensures fresh(it.Repr()) && it.Repr() !! {this} + top.Repr() + IterRepr()
      ensures it.Shape() && it.Inv(ascending)
      ensures it.Remaining() == Items(top.Views()[0], start, end, ascending)
    {
      it := OpenOn(top, start, end, ascending, {this} + IterRepr());
      IteratorsAreSnapshots();
    }

    /** Adds an iterator that shares nothing with what is there. */
    method Adopt(it: Iterator, ascending: bool)
      requires Inv() && it.Shape() && it.Inv(ascending)
      requires this !in it.Repr() && it.Repr() !! top.Repr() && it.Repr() !! IterRepr()
      modifies this`iters, this`dirs
      ensures Inv() && State() == Plain(old(top.Views()), old(Remainings()) + [old(it.Remaining())])
      ensures IterRepr() <= old(IterRepr()) + it.Repr()
    {
      ghost var others := Remainings();
      iters := iters + [it];
      dirs := dirs + [ascending];
      top.Untouched();
      forall i | 0 <= i < |iters| - 1 ensures iters[i].Repr() !! it.Repr() {
        assert forall o :: o in iters[i].Repr() ==> o in old(IterRepr());
      }
      assert Remainings() == others + [it.Remaining()];
    }

    method IterStep(op: Op) returns (a: Answer)
      requires Inv() && OnIterator(op)
      modifies IterRepr()
      ensures Inv() && (State(), a) == PlainStep(old(State()), op)
    {
      if op.it >= |iters| {
        a := IteratorStep([], op).1;
      } else {
        a := IterCall(op);
      }
    }

    method IterCall(op: Op) returns (a: Answer)
      requires Inv() && OnIterator(op) && op.it < |iters|
      modifies iters[op.it].Repr()
      ensures Inv() && top.Views() == old(top.Views())
      ensures var (rest, answer) := IteratorStep(old(Remainings())[op.it], op);
              Remainings() == old(Remainings())[op.it := rest] && a == answer
    {
      var it := iters[op.it];
      a := CallOn(it, op, dirs[op.it], top.Repr() + IterRepr() - it.Repr());
      OtherIterators(op.it);
    }

    /** A call on one iterator leaves the stores and the other iterators alone. */
    twostate lemma OtherIterators(n: nat)
      requires old(Inv()) && unchanged(this) && n < |iters|
      requires unchanged(old(top.Repr() + IterRepr()) - iters[n].Repr())
      requires iters[n].Inv(dirs[n])
      ensures Inv() && top.Views() == old(top.Views())
      ensures Remainings() == old(Remainings())[n := iters[n].Remaining()]
    {
      forall i | 0 <= i < |iters| && i != n
        ensures iters[i].Remaining() == old(iters[i].Remaining()) && iters[i].Inv(dirs[i])
      {
        assert iters[i].Repr() !! iters[n].Repr();
        assert forall o :: o in iters[i].Repr() ==> o in old(IterRepr());
      }
    }
  }

  method CallOn(it: Iterator, op: Op, ghost ascending: bool, ghost others: set<object>) returns (a: Answer)
    requires it.Shape() && it.Inv(ascending) && OnIterator(op) && it.Repr() !! others
    modifies it.Repr()
    ensures unchanged(others)
    ensures it.Inv(ascending) && (it.Remaining(), a) == IteratorStep(old(it.Remaining()), op)
  {
    match op
    case Valid(_) =>
      var b := it.Valid(ascending);
      a := Flag(b);
    case Key(_) =>
      var k := it.Key(ascending);
      a := KeyIs(k);
    case Value(_) =>
      var v := it.Value(ascending);
      a := ValueIs(v);
    case Next(_) =>
      var r := it.Next(ascending);
      a := Moved(r);
  }

  method OpenOn(store: KVStore, start: Bytes, end: Option<Bytes>, ascending: bool, ghost ours: set<object>)
    returns (it: Iterator)
    requires store.Shape() && store.Inv() && store.Repr() !! ours
    modifies store.Repr()
    ensures unchanged(ours)
    ensures store.Inv() && store.Views() == old(store.Views())
    ensures fresh(it.Repr()) && it.Repr() !! ours && it.Repr() !! store.Repr()
    ensures it.Shape() && it.Inv(ascending)
    ensures it.Remaining() == Items(store.Views()[0], start, end, ascending)
  {
    it := store.Iterator(start, end, ascending);
  }

  /** Every run on the caches is a run of the plain machine, answer for answer. */
  method Replay(m: OrderedMap.Store, ops: seq<Op>) returns (s: Session, answers: seq<Answer>)
    ensures fresh(s) && s.Inv()
    ensures (s.State(), answers) == PlainRun(Plain([m], []), ops)
  {
    s := new Session(m);
    answers := s.Steps(ops);
  }
}
