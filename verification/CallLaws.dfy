/** What each ABCI call does, told from the handlers and the parts of the state. */
module CallLaws {
  import opened Bytes
  import opened OrderedMap
  import opened CacheMulti
  import opened Gas
  import opened Handlers
  import opened TxSpec
  import opened MsgLaws
  import opened TxLaws
  import opened AppSpec
  import opened AppLaws

  /** InitChain stores the parameters under their key in the main store and
      nothing else, makes both layers new over that, and leaves the initializer's
      writes in the deliver state.  It stops the process exactly when the main store
      is missing for parameters to store, or when the initializer panics. */
  lemma InitChainLaw(c: Config, a: App, newParams: Option<Params>, header: Header, init: Option<Handler<()>>)
    ensures var r := Step(c, a, InitChain(newParams, header, init));
            if newParams.Some? && c.main !in a.committed then r.None?
            else
              var root := WithParams(c, a.committed, newParams);
              if init.Some? && Start(init.value, root, Infinite(0)).2.Panicked? then r.None?
              else
                && r.Some? && r.value.committed == root && r.value.check == root && r.value.checkMeter == Infinite(0)
                && r.value.version == a.version && r.value.params == (if newParams.Some? then newParams else a.params)
                && r.value.deliver == Some(
                     if init.None? then DeliverSpec(root, Infinite(0), None, header)
                     else var (s, g, _) := Start(init.value, root, Infinite(0));
                          DeliverSpec(s, g, Some(Infinite(0)), header))
  {
  }

  /** Storing the parameters changes one key of the main store. */
  lemma StoredParams(c: Config, s: Multi, newParams: Option<Params>, k: StoreKey, x: Bytes)
    requires (newParams.Some? ==> c.main in s) && k in s
    ensures Lookup(WithParams(c, s, newParams)[k], x)
         == if newParams.Some? && k == c.main && x == c.paramsKey then Some(newParams.value.stored) else Lookup(s[k], x)
  {
  }

  /** BeginBlock takes the next height only.  The block meter has the limit of the
      parameters if that is above zero and none otherwise; a limit below -1 stops the
      process, and so does a begin blocker that panics. */
  lemma BeginBlockLaw(c: Config, a: App, header: Header, begin: Handler<()>)
    ensures var r := Step(c, a, BeginBlock(header, begin));
            var (s, g) := if a.deliver.Some? then (a.deliver.value.state, a.deliver.value.meter) else (a.committed, Infinite(0));
            var (s', g', ran) := Start(begin, s, g);
            if || header.height < 1 || header.height != a.version + 1
               || (a.params.Some? && a.params.value.maxGas < -1) || ran.Panicked? then r.None?
            else
              var meter := if a.params.Some? && a.params.value.maxGas > 0 then Basic(a.params.value.maxGas, 0) else Infinite(0);
              r == Some(a.(deliver := Some(DeliverSpec(s', g', Some(meter), header))))
  {
  }

  /** CheckTx keeps the ante handler's writes in the check state exactly when basic
      validation passes and the ante handler returns without aborting, and changes
      nothing else but the meter of that state. */
  lemma CheckTxLaw(c: Config, a: App, tx: Tx)
    ensures var valid := ValidateBasic(tx.msgs) == CodeOK;
            var (s, g, ante) := Start(tx.ante, a.check, a.checkMeter);
            Step(c, a, CheckTx(tx)) ==
              Some(a.(check := if valid && ante.Returned? && !ante.result.abort then s else a.check,
                      checkMeter := if valid then g else a.checkMeter))
  {
    CheckLaws(a.check, a.checkMeter, Infinite(0), tx);
  }

  /** Transactions that differ only in what their handlers do are checked alike. */
  lemma ChecksAlike(c: Config, a: App, tx: Tx, other: Tx)
    requires SameOutside(tx, other)
    ensures Step(c, a, CheckTx(tx)) == Step(c, a, CheckTx(other))
    ensures RunTx(Check, a.check, a.checkMeter, Infinite(0), tx).result == RunTx(Check, a.check, a.checkMeter, Infinite(0), other).result
  {
    CheckIgnoresHandlers(a.check, a.checkMeter, Infinite(0), tx, other);
  }

  /** A simulation changes nothing but the meter of the check state, on which the
      ante handler and, without a meter of its own, the messages have counted. */
  lemma SimulateTxLaw(c: Config, a: App, tx: Tx)
    ensures var (_, g, ante) := Start(tx.ante, a.check, a.checkMeter);
            Step(c, a, SimulateTx(tx)) ==
              Some(a.(checkMeter :=
                        if ValidateBasic(tx.msgs) != CodeOK then a.checkMeter
                        else if LetThrough(a.check, a.checkMeter, tx) && ante.result.newMeter.None? then
                          MsgsFinal(a.check, a.checkMeter, tx).1
                        else g))
  {
    SimulateLaws(a.check, a.checkMeter, Infinite(0), tx);
  }

  /** DeliverTx needs a block under way, and changes its state and meters only. */
  lemma DeliverTxLaw(c: Config, a: App, tx: Tx)
    ensures var r := Step(c, a, DeliverTx(tx));
            if a.deliver.None? || a.deliver.value.block.None? then r.None?
            else
              var d := a.deliver.value;
              var e := RunTx(Deliver, d.state, d.meter, d.block.value, tx);
              r == Some(a.(deliver := Some(DeliverSpec(e.state, e.base, Some(e.block), d.header))))
  {
  }

  lemma EndBlockLaw(c: Config, a: App, end: Handler<()>)
    ensures var r := Step(c, a, EndBlock(end));
            if a.deliver.None? then r.None?
            else
              var d := a.deliver.value;
              var (s, g, ran) := Start(end, d.state, d.meter);
              r == if ran.Panicked? then None else Some(a.(deliver := Some(DeliverSpec(s, g, d.block, d.header))))
  {
  }

  /** Commit stops the process exactly when there is no block or the header has
      reached a halt height or a halt time that is set.  Else the deliver state is
      committed with its transient stores empty, and checked against from then on. */
  lemma CommitLaw(c: Config, a: App)
    ensures var r := Step(c, a, Commit);
            if || a.deliver.None?
               || (c.haltHeight != 0 && HeightReached(a.deliver.value.header.height, c.haltHeight))
               || (c.haltTime != 0 && TimeReached(a.deliver.value.header.time, c.haltTime)) then r.None?
            else
              var d := a.deliver.value;
              && r.Some? && r.value.version == a.version + 1 && r.value.params == a.params && r.value.deliver.None?
              && r.value.check == r.value.committed && r.value.checkMeter == Infinite(0)
              && r.value.committed.Keys == d.state.Keys
              && forall k, x :: k in d.state ==>
                   Lookup(r.value.committed[k], x) == if k in c.transient then None else Lookup(d.state[k], x)
  {
  }

  /** The height is compared as a 64-bit number without a sign, the time as one
      with a sign: a height below zero, or a halt time from 2^63 on, wraps. */
  predicate HeightReached(height: Int64, halt: Gas) {
    if height >= 0 then height >= halt else height + WORD >= halt
  }

  predicate TimeReached(time: Int64, halt: Gas) {
    if halt < HALF_WORD then time >= halt else time >= halt - WORD
  }

  /** A query sees the trees of the version asked for beside the database and the
      transient stores as they are, and changes nothing.  A tree without that version
      makes it fail before the querier is asked, whose panic alone stops the process. */
  lemma QueryLaw(c: Config, a: App, past: Multi, querier: Handler<Bytes>)
    ensures var r := Step(c, a, Query(past, querier));
            var answer := QueryAnswer(c, a, past, querier);
            if exists k :: k in a.committed && k != Db && k !in c.transient && k !in past then r == Some(a) && answer.None?
            else
              var seen := map k | k in a.committed :: if k == Db || k in c.transient then a.committed[k] else past[k];
              match Start(querier, seen, Infinite(0)).2
              case Panicked(_) => r.None?
              case Returned(value) => r == Some(a) && answer == Some(value)
  {
    if !exists k :: k in a.committed && k != Db && k !in c.transient && k !in past {
      var seen := map k | k in a.committed :: if k == Db || k in c.transient then a.committed[k] else past[k];
      assert !exists k :: k in a.committed && !Live(c, k) && k !in past;
      assert AtVersion(c, a.committed, past).value == seen;
    }
  }

  // ---- Block gas in a chain ----

  /** In a block under a limit above zero the meter starts at zero and ends as the
      exact sum of the charges, less than the last charge past the limit. */
  lemma BlockGasOfBlock(c: Config, a: App, b: Block)
    requires a.params.Some? && a.params.value.maxGas > 0 && IsBody(b.body)
    requires Steps(c, a, [BeginBlock(b.header, b.begin)] + b.body).Some?
    requires AllSmall(ChargesOf(a, b))
    ensures var d := Steps(c, a, [BeginBlock(b.header, b.begin)] + b.body).value.deliver;
            var m, charges := a.params.value.maxGas, ChargesOf(a, b);
            && d.Some? && d.value.block.Some? && d.value.block.value.Basic? && d.value.block.value.limit == m
            && d.value.block.value.consumed == Sum(charges)
            && (charges != [] ==> Sum(charges) < m + charges[|charges| - 1])
  {
    var begin, m := BeginBlock(b.header, b.begin), a.params.value.maxGas;
    StepsSplit(c, a, [begin], b.body);
    OneStep(c, a, begin);
    BeginBlockLaw(c, a, b.header, b.begin);
    var a1 := Step(c, a, begin).value;
    BodyDelivers(c, a1, b.body);
    var d := a1.deliver.value;
    BlockGasIsSum(d.state, d.meter, Basic(m, 0), Txs(b.body));
  }

  /** What the transactions of a block are charged. */
  function ChargesOf(a: App, b: Block): seq<Gas> {
    var (s, g) := if a.deliver.Some? then (a.deliver.value.state, a.deliver.value.meter) else (a.committed, Infinite(0));
    var (s', g', _) := Start(b.begin, s, g);
    var limit := if a.params.Some? && a.params.value.maxGas > 0 then Basic(a.params.value.maxGas, 0) else Infinite(0);
    DeliverAll(s', g', limit, Txs(b.body)).charges
  }
}
