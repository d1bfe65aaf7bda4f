/** Laws of whole ABCI runs. */
module AppLaws {
  import opened Bytes
  import opened CacheMulti
  import opened Gas
  import opened Handlers
  import opened TxSpec
  import opened TxLaws
  import opened AppSpec

  /** Calls that serve the mempool and clients. */
  predicate Reads(call: Call) {
    call.CheckTx? || call.SimulateTx? || call.Query?
  }

  function Erase(calls: seq<Call>): seq<Call> {
    if calls == [] then []
    else (if Reads(calls[0]) then [] else [calls[0]]) + Erase(calls[1..])
  }

  /** All but the check state. */
  predicate SameCore(a: App, b: App) {
    a.committed == b.committed && a.version == b.version && a.deliver == b.deliver && a.params == b.params
  }

  predicate SameOutcome(a: Option<App>, b: Option<App>) {
    if a.None? then b.None? else b.Some? && SameCore(a.value, b.value)
  }

  /** No querier in the run panics. */
  predicate QueriesReturn(c: Config, a: App, calls: seq<Call>)
    decreases |calls|
  {
    calls == []
    || var a' := Step(c, a, calls[0]);
       if a'.None? then !calls[0].Query? else QueriesReturn(c, a'.value, calls[1..])
  }

  /** CheckTx, Simulate and Query, wherever they fall in a run, change neither
      what gets committed nor the deliver state; and only a querier's panic can
      change whether the process lives. */
  lemma {:induction false} Noninterference(c: Config, a: App, b: App, calls: seq<Call>)
    requires SameCore(a, b)
    ensures QueriesReturn(c, a, calls) || Steps(c, a, calls).Some? ==> SameOutcome(Steps(c, a, calls), Steps(c, b, Erase(calls)))
    decreases |calls|
  {
    if calls != [] {
      var a' := Step(c, a, calls[0]);
      if Reads(calls[0]) {
        assert Erase(calls) == Erase(calls[1..]);
        ReadStep(c, a, b, calls[0]);
        if a'.Some? { Noninterference(c, a'.value, b, calls[1..]); }
      } else {
        var b' := Step(c, b, calls[0]);
        assert Erase(calls)[0] == calls[0] && Erase(calls)[1..] == Erase(calls[1..]);
        OtherStep(c, a, b, calls[0]);
        if a'.Some? { Noninterference(c, a'.value, b'.value, calls[1..]); }
      }
    }
  }

  lemma ReadStep(c: Config, a: App, b: App, call: Call)
    requires SameCore(a, b) && Reads(call)
    ensures Step(c, a, call).Some? ==> SameCore(Step(c, a, call).value, b)
    ensures Step(c, a, call).None? ==> call.Query?
  {
  }

  lemma OtherStep(c: Config, a: App, b: App, call: Call)
    requires SameCore(a, b) && !Reads(call)
    ensures SameOutcome(Step(c, a, call), Step(c, b, call))
  {
  }

  /** The answers of the calls that are not reads. */
  function Kept(calls: seq<Call>, answers: seq<Answer>): seq<Answer>
    requires |calls| == |answers|
  {
    if calls == [] then []
    else (if Reads(calls[0]) then [] else [answers[0]]) + Kept(calls[1..], answers[1..])
  }

  /** Reads, wherever they fall, do not change what the other calls answer. */
  lemma {:induction false} SameAnswers(c: Config, a: App, b: App, calls: seq<Call>)
    requires SameCore(a, b) && Steps(c, a, calls).Some?
    ensures |Answers(c, a, calls)| == |calls| && Kept(calls, Answers(c, a, calls)) == Answers(c, b, Erase(calls))
    decreases |calls|
  {
    if calls != [] {
      var a' := Step(c, a, calls[0]).value;
      var answers := Answers(c, a, calls);
      assert answers[1..] == Answers(c, a', calls[1..]);
      if Reads(calls[0]) {
        ReadStep(c, a, b, calls[0]);
        SameAnswers(c, a', b, calls[1..]);
        assert Erase(calls) == Erase(calls[1..]);
      } else {
        OtherStep(c, a, b, calls[0]);
        var b' := Step(c, b, calls[0]).value;
        SameAnswers(c, a', b', calls[1..]);
        assert Erase(calls)[0] == calls[0] && Erase(calls)[1..] == Erase(calls[1..]);
        assert AnswerOf(c, a, calls[0]) == AnswerOf(c, b, calls[0]);
      }
    }
  }

  lemma {:induction false} StepsSplit(c: Config, a: App, first: seq<Call>, second: seq<Call>)
    ensures Steps(c, a, first + second)
         == if Steps(c, a, first).None? then None else Steps(c, Steps(c, a, first).value, second)
    decreases |first|
  {
    if first == [] {
      assert first + second == second;
    } else {
      assert (first + second)[0] == first[0] && (first + second)[1..] == first[1..] + second;
      var a' := Step(c, a, first[0]);
      if a'.Some? { StepsSplit(c, a'.value, first[1..], second); }
    }
  }

  // ---- Blocks ----

  /** A block: between its begin and its end any mix of deliveries and reads. */
  datatype Block = Block(header: Header, begin: Handler<()>, body: seq<Call>, end: Handler<()>)

  predicate IsBody(calls: seq<Call>) {
    forall i :: 0 <= i < |calls| ==> calls[i].DeliverTx? || Reads(calls[i])
  }

  function CallsOf(b: Block): seq<Call> {
    [BeginBlock(b.header, b.begin)] + b.body + [EndBlock(b.end), Commit]
  }

  function Txs(calls: seq<Call>): seq<Tx> {
    if calls == [] then []
    else (if calls[0].DeliverTx? then [calls[0].tx] else []) + Txs(calls[1..])
  }

  /** A block's effect from the deliver state it starts on: begin, then the
      delivered transactions in order, then end, with the transient stores emptied. */
  function EffectFrom(c: Config, d: DeliverSpec, b: Block): Multi
    requires d.block.Some?
  {
    var (s1, g1, _) := Start(b.begin, d.state, d.meter);
    var e := DeliverAll(s1, g1, d.block.value, Txs(b.body));
    ClearTransient(Start(b.end, e.state, e.base).0, c.transient)
  }

  /** Deliveries mixed with reads leave the deliver state the deliveries alone would leave. */
  lemma {:induction false} BodyDelivers(c: Config, a: App, calls: seq<Call>)
    requires IsBody(calls) && a.deliver.Some? && a.deliver.value.block.Some? && Steps(c, a, calls).Some?
    ensures var d := a.deliver.value;
            var e := DeliverAll(d.state, d.meter, d.block.value, Txs(calls));
            var r := Steps(c, a, calls);
            && r.value.committed == a.committed && r.value.version == a.version && r.value.params == a.params
            && r.value.deliver == Some(d.(state := e.state, meter := e.base, block := Some(e.block)))
    decreases |calls|
  {
    if calls != [] {
      var a' := Step(c, a, calls[0]).value;
      BodyDelivers(c, a', calls[1..]);
      if calls[0].DeliverTx? {
        assert Txs(calls)[0] == calls[0].tx && Txs(calls)[1..] == Txs(calls[1..]);
      } else {
        assert Txs(calls) == Txs(calls[1..]);
      }
    }
  }

  /** The gas limit of a block, zero where there is none. */
  function BlockGas(params: Option<Params>): Gas {
    var g := MaximumBlockGas(params);
    if g.Some? then g.value else 0
  }

  /** A block that gets through commits its effect, on the deliver state InitChain
      left or on a new one over what was committed, raises the version by one, and
      resets the check state to what was committed. */
  lemma BlockCommits(c: Config, a: App, b: Block)
    requires IsBody(b.body) && Steps(c, a, CallsOf(b)).Some?
    ensures var r := Steps(c, a, CallsOf(b)).value;
            && r.committed == EffectFrom(c, BlockStart(a, b.header, BlockGas(a.params)), b)
            && r.version == a.version + 1 == b.header.height && r.check == r.committed && r.deliver.None? && r.params == a.params
  {
    var begin, rest := [BeginBlock(b.header, b.begin)], [EndBlock(b.end), Commit];
    assert CallsOf(b) == begin + (b.body + rest);
    StepsSplit(c, a, begin, b.body + rest);
    OneStep(c, a, begin[0]);
    var a1 := Step(c, a, begin[0]).value;
    StepsSplit(c, a1, b.body, rest);
    BodyDelivers(c, a1, b.body);
    EndAndCommit(c, Steps(c, a1, b.body).value, b.end);
  }

  lemma OneStep(c: Config, a: App, call: Call)
    ensures Steps(c, a, [call]) == Step(c, a, call)
  {
    assert [call][1..] == [];
  }

  lemma EndAndCommit(c: Config, a: App, end: Handler<()>)
    requires a.deliver.Some? && Steps(c, a, [EndBlock(end), Commit]).Some?
    ensures var r := Steps(c, a, [EndBlock(end), Commit]).value;
            var s := Start(end, a.deliver.value.state, a.deliver.value.meter).0;
            && r.committed == ClearTransient(s, c.transient) && r.version == a.version + 1
            && r.check == r.committed && r.deliver.None? && r.params == a.params
  {
    assert [EndBlock(end), Commit] == [EndBlock(end)] + [Commit];
    StepsSplit(c, a, [EndBlock(end)], [Commit]);
    OneStep(c, a, EndBlock(end));
    OneStep(c, Step(c, a, EndBlock(end)).value, Commit);
  }

  function AllCalls(blocks: seq<Block>): seq<Call> {
    if blocks == [] then [] else CallsOf(blocks[0]) + AllCalls(blocks[1..])
  }

  /** The effects of blocks one after the other.  Only the first may find a
      deliver state; each later one starts on what was committed. */
  function FoldBlocks(c: Config, gas: Gas, s: Multi, left: Option<DeliverSpec>, blocks: seq<Block>): Multi
    decreases |blocks|
  {
    if blocks == [] then s
    else
      var b := blocks[0];
      var d := if left.Some? then left.value else DeliverSpec(s, Infinite(0), None, b.header);
      FoldBlocks(c, gas, EffectFrom(c, d.(header := b.header, block := Some(BlockMeter(gas))), b), None, blocks[1..])
  }

  predicate AreBlocks(blocks: seq<Block>) {
    forall i :: 0 <= i < |blocks| ==> IsBody(blocks[i].body)
  }

  /** After any number of blocks the committed state is the fold of their effects. */
  lemma {:induction false} ChainOfBlocks(c: Config, a: App, blocks: seq<Block>)
    requires AreBlocks(blocks) && Steps(c, a, AllCalls(blocks)).Some?
    ensures var r := Steps(c, a, AllCalls(blocks)).value;
            && r.committed == FoldBlocks(c, BlockGas(a.params), a.committed, a.deliver, blocks)
            && r.version == a.version + |blocks| && r.params == a.params
            && (blocks != [] ==> r.check == r.committed && r.deliver.None?)
    decreases |blocks|
  {
    if blocks != [] {
      StepsSplit(c, a, CallsOf(blocks[0]), AllCalls(blocks[1..]));
      BlockCommits(c, a, blocks[0]);
      ChainOfBlocks(c, Steps(c, a, CallsOf(blocks[0])).value, blocks[1..]);
    }
  }

  /** Every run of blocks, with reads anywhere in it, inside a block or between
      blocks: the committed state is the fold of the effects of the blocks, and
      right after a commit the check state is what was committed. */
  lemma {:induction false} EveryRun(c: Config, a: App, calls: seq<Call>, blocks: seq<Block>)
    requires AreBlocks(blocks) && Erase(calls) == AllCalls(blocks) && Steps(c, a, calls).Some?
    ensures var r := Steps(c, a, calls).value;
            && r.committed == FoldBlocks(c, BlockGas(a.params), a.committed, a.deliver, blocks)
            && r.version == a.version + |blocks| && r.params == a.params
            && (blocks != [] ==> r.deliver.None?)
            && (calls != [] && calls[|calls| - 1].Commit? ==> r.check == r.committed)
  {
    Noninterference(c, a, a, calls);
    ChainOfBlocks(c, a, blocks);
    if calls != [] && calls[|calls| - 1].Commit? { CommitResets(c, a, calls); }
  }

  /** The same for a chain from its start, where the first block runs on the
      deliver state that InitChain left. */
  lemma {:induction false} EveryRunFromInit(c: Config, a: App, init: Call, calls: seq<Call>, blocks: seq<Block>)
    requires init.InitChain? && AreBlocks(blocks) && Erase(calls) == [init] + AllCalls(blocks) && Steps(c, a, calls).Some?
    ensures Step(c, a, init).Some?
    ensures var r, a1 := Steps(c, a, calls).value, Step(c, a, init).value;
            && r.committed == FoldBlocks(c, BlockGas(a1.params), a1.committed, a1.deliver, blocks)
            && r.version == a.version + |blocks| && r.params == a1.params
    ensures calls != [] && (calls[|calls| - 1].Commit? ==> var r := Steps(c, a, calls).value; r.check == r.committed)
  {
    Noninterference(c, a, a, calls);
    InitThenBlocks(c, a, init, blocks);
    if calls != [] && calls[|calls| - 1].Commit? { CommitResets(c, a, calls); }
  }

  lemma {:induction false} InitThenBlocks(c: Config, a: App, init: Call, blocks: seq<Block>)
    requires init.InitChain? && AreBlocks(blocks) && Steps(c, a, [init] + AllCalls(blocks)).Some?
    ensures Step(c, a, init).Some?
    ensures var r, a1 := Steps(c, a, [init] + AllCalls(blocks)).value, Step(c, a, init).value;
            && r.committed == FoldBlocks(c, BlockGas(a1.params), a1.committed, a1.deliver, blocks)
            && r.version == a.version + |blocks| && r.params == a1.params
  {
    StepsSplit(c, a, [init], AllCalls(blocks));
    OneStep(c, a, init);
    ChainOfBlocks(c, Step(c, a, init).value, blocks);
  }

  lemma CommitResets(c: Config, a: App, calls: seq<Call>)
    requires Steps(c, a, calls).Some? && calls != [] && calls[|calls| - 1].Commit?
    ensures var r := Steps(c, a, calls).value;
            r.check == r.committed && r.deliver.None?
  {
    var n := |calls| - 1;
    assert calls == calls[..n] + [Commit];
    StepsSplit(c, a, calls[..n], [Commit]);
    OneStep(c, Steps(c, a, calls[..n]).value, Commit);
  }
}
