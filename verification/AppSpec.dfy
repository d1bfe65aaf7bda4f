/** The application as a state machine over plain maps: the committed state, the
    check state, and the deliver state of the block under way. */
module AppSpec {
  import opened Bytes
  import opened OrderedMap
  import opened CacheMulti
  import opened Gas
  import opened Handlers
  import opened TxSpec

  type Int64 = x: int | -HALF_WORD <= x < HALF_WORD

  datatype Header = Header(height: Int64, time: Int64)

  /** Consensus parameters: their stored form, and the block gas limit in them. */
  datatype Params = Params(stored: Bytes, maxGas: Int64)

  /** What is fixed when the application is sealed.  A halt height or time of zero means none. */
  datatype Config = Config(main: StoreKey, paramsKey: Bytes, transient: set<StoreKey>, haltHeight: Gas, haltTime: Gas)

  datatype DeliverSpec = DeliverSpec(state: Multi, meter: Meter, block: Option<Meter>, header: Header)

  datatype App = App(
    committed: Multi,
    version: nat,
    check: Multi,
    checkMeter: Meter,
    deliver: Option<DeliverSpec>,
    params: Option<Params>)

  datatype Call =
    | InitChain(newParams: Option<Params>, header: Header, init: Option<Handler<()>>)
    | BeginBlock(header: Header, begin: Handler<()>)
    | CheckTx(tx: Tx)
    | SimulateTx(tx: Tx)
    | Query(past: Multi, querier: Handler<Bytes>)
    | DeliverTx(tx: Tx)
    | EndBlock(end: Handler<()>)
    | Commit

  /** Zero when there is no limit; `None` when the parameter makes the source panic. */
  function MaximumBlockGas(params: Option<Params>): Option<Gas> {
    if params.None? then Some(0)
    else if params.value.maxGas < -1 then None
    else if params.value.maxGas == -1 then Some(0)
    else Some(params.value.maxGas)
  }

  function BlockMeter(maxGas: Gas): Meter {
    if maxGas > 0 then Basic(maxGas, 0) else Infinite(0)
  }

  predicate Halts(c: Config, h: Header) {
    (c.haltHeight > 0 && ToUint64(h.height) >= c.haltHeight) || (c.haltTime > 0 && h.time >= ToInt64(c.haltTime))
  }

  /** A commit empties the transient stores. */
  function ClearTransient(s: Multi, transient: set<StoreKey>): (r: Multi)
    ensures r.Keys == s.Keys
  {
    map k | k in s :: if k in transient then map[] else s[k]
  }

  /** Runs a block handler on the deliver state; its panic stops the process. */
  function OnDeliver(d: DeliverSpec, h: Handler<()>): Option<DeliverSpec> {
    var (s, g, ran) := Start(h, d.state, d.meter);
    if ran.Panicked? then None else Some(d.(state := s, meter := g))
  }

  /** The deliver state a block begins with: a new one over the committed state,
      unless InitChain left one. */
  function BlockStart(a: App, header: Header, maxGas: Gas): DeliverSpec {
    var d := if a.deliver.None? then DeliverSpec(a.committed, Infinite(0), None, header) else a.deliver.value;
    d.(header := header, block := Some(BlockMeter(maxGas)))
  }

  /** A state with the parameters stored under their key in the main store. */
  function WithParams(c: Config, s: Multi, newParams: Option<Params>): (r: Multi)
    requires newParams.Some? ==> c.main in s
    ensures r.Keys == s.Keys
  {
    if newParams.None? then s else s[c.main := s[c.main][c.paramsKey := newParams.value.stored]]
  }

  /** The state InitChain starts from: parameters stored in the root, both layers new. */
  function InitStart(c: Config, a: App, newParams: Option<Params>, header: Header, metered: bool): App
    requires newParams.Some? ==> c.main in a.committed
  {
    var root := WithParams(c, a.committed, newParams);
    var d := DeliverSpec(root, Infinite(0), if metered then Some(Infinite(0)) else None, header);
    App(root, a.version, root, Infinite(0), Some(d), if newParams.Some? then newParams else a.params)
  }

  function OnInitChain(c: Config, a: App, newParams: Option<Params>, header: Header, init: Option<Handler<()>>): Option<App> {
    if newParams.Some? && c.main !in a.committed then None
    else
      var a' := InitStart(c, a, newParams, header, init.Some?);
      if init.None? then Some(a')
      else
        var d := OnDeliver(a'.deliver.value, init.value);
        if d.None? then None else Some(a'.(deliver := d))
  }

  function OnBeginBlock(a: App, header: Header, begin: Handler<()>): Option<App> {
    var maxGas := MaximumBlockGas(a.params);
    if header.height < 1 || header.height != a.version + 1 || maxGas.None? then None
    else
      var d := OnDeliver(BlockStart(a, header, maxGas.value), begin);
      if d.None? then None else Some(a.(deliver := d))
  }

  /** The ante handler's writes stay in the check state. */
  function OnCheckTx(a: App, tx: Tx): App {
    var e := RunTx(Check, a.check, a.checkMeter, Infinite(0), tx);
    a.(check := e.state, checkMeter := e.base)
  }

  /** A simulation runs on a cache that is dropped. */
  function OnSimulate(a: App, tx: Tx): App {
    a.(checkMeter := RunTx(Simulate, a.check, a.checkMeter, Infinite(0), tx).base)
  }

  function OnDeliverTx(a: App, tx: Tx): Option<App> {
    if a.deliver.None? || a.deliver.value.block.None? then None
    else
      var d := a.deliver.value;
      var e := RunTx(Deliver, d.state, d.meter, d.block.value, tx);
      Some(a.(deliver := Some(d.(state := e.state, meter := e.base, block := Some(e.block)))))
  }

  function OnEndBlock(a: App, end: Handler<()>): Option<App> {
    if a.deliver.None? then None
    else
      var d := OnDeliver(a.deliver.value, end);
      if d.None? then None else Some(a.(deliver := d))
  }

  function OnCommit(c: Config, a: App): Option<App> {
    if a.deliver.None? || Halts(c, a.deliver.value.header) then None
    else
      var s := ClearTransient(a.deliver.value.state, c.transient);
      Some(App(s, a.version + 1, s, Infinite(0), None, a.params))
  }

  /** The database and the transient stores keep no versions. */
  predicate Live(c: Config, k: StoreKey) {
    k == Db || k in c.transient
  }

  /** The root as a query at a past version sees it: the trees as they were, given
      by `past`, and the live stores as they are.  `None` when some tree has no
      such version. */
  function AtVersion(c: Config, s: Multi, past: Multi): Option<Multi> {
    if exists k :: k in s && !Live(c, k) && k !in past then None
    else Some(map k | k in s :: if Live(c, k) then s[k] else past[k])
  }

  /** A query runs on a cache over the version it asks for, and the cache is
      dropped.  A version that cannot be loaded is an error response. */
  function OnQuery(c: Config, a: App, past: Multi, querier: Handler<Bytes>): Option<App> {
    var s := AtVersion(c, a.committed, past);
    if s.Some? && Start(querier, s.value, Infinite(0)).2.Panicked? then None else Some(a)
  }

  /** What the querier returns; `None` where the version cannot be loaded. */
  function QueryAnswer(c: Config, a: App, past: Multi, querier: Handler<Bytes>): Option<Bytes> {
    var s := AtVersion(c, a.committed, past);
    if s.None? then None
    else
      var ran := Start(querier, s.value, Infinite(0)).2;
      if ran.Panicked? then None else Some(ran.result)
  }

  /** One call; `None` when it stops the process, by an unrecovered panic or by halting. */
  function Step(c: Config, a: App, call: Call): Option<App> {
    match call
    case InitChain(newParams, header, init) => OnInitChain(c, a, newParams, header, init)
    case BeginBlock(header, begin) => OnBeginBlock(a, header, begin)
    case CheckTx(tx) => Some(OnCheckTx(a, tx))
    case SimulateTx(tx) => Some(OnSimulate(a, tx))
    case Query(past, querier) => OnQuery(c, a, past, querier)
    case DeliverTx(tx) => OnDeliverTx(a, tx)
    case EndBlock(end) => OnEndBlock(a, end)
    case Commit => OnCommit(c, a)
  }

  /** What a call answers: nothing of interest, the result of a transaction, or
      what a query found. */
  datatype Answer = Done | Result(result: TxResult) | Found(value: Option<Bytes>)

  function AnswerOf(c: Config, a: App, call: Call): Answer {
    match call
    case CheckTx(tx) => Result(RunTx(Check, a.check, a.checkMeter, Infinite(0), tx).result)
    case SimulateTx(tx) => Result(RunTx(Simulate, a.check, a.checkMeter, Infinite(0), tx).result)
    case DeliverTx(tx) =>
      if a.deliver.None? || a.deliver.value.block.None? then Done
      else
        var d := a.deliver.value;
        Result(RunTx(Deliver, d.state, d.meter, d.block.value, tx).result)
    case Query(past, querier) => Found(QueryAnswer(c, a, past, querier))
    case _ => Done
  }

  /** The answers of a run, up to the call that stops the process. */
  function Answers(c: Config, a: App, calls: seq<Call>): seq<Answer>
    decreases |calls|
  {
    if calls == [] then []
    else
      var a' := Step(c, a, calls[0]);
      if a'.None? then [] else [AnswerOf(c, a, calls[0])] + Answers(c, a'.value, calls[1..])
  }

  function Steps(c: Config, a: App, calls: seq<Call>): Option<App>
    decreases |calls|
  {
    if calls == [] then Some(a)
    else
      var a' := Step(c, a, calls[0]);
      if a'.None? then None else Steps(c, a'.value, calls[1..])
  }
}
