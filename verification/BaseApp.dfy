/** `BaseApp`: the ABCI application on real caches, proved to follow the plain
    state machine call by call and over whole runs. */
module BaseApp {
  import opened Bytes
  import opened OrderedMap
  import opened CacheKV
  import opened CacheMulti
  import opened Gas
  import opened Handlers
  import opened TxSpec
  import opened TxExec
  import opened Layers
  import opened AppSpec

  datatype DeliverState = DeliverState(ms: MultiStore, meter: GasMeter, block: Option<GasMeter>, header: Header)

  ghost function SpecOf(d: DeliverState): DeliverSpec
    requires d.ms.Shape()
    reads d.ms.Repr(), d.meter, if d.block.Some? then {d.block.value} else {}
  {
    DeliverSpec(d.ms.View(), d.meter.meter, if d.block.Some? then Some(d.block.value.meter) else None, d.header)
  }

  ghost function LayerOf(deliver: Option<DeliverState>): Option<MultiStore> {
    if deliver.Some? then Some(deliver.value.ms) else None
  }

  ghost function MetersOf(deliver: Option<DeliverState>): set<GasMeter> {
    if deliver.None? then {}
    else {deliver.value.meter} + if deliver.value.block.Some? then {deliver.value.block.value} else {}
  }

  /** The root is made of trees. */
  ghost predicate IsRoot(root: MultiStore) {
    root.Shape() && forall k :: k in root.stores ==> root.stores[k].Tree?
  }

  /** The layers over the root are apart, and no meter is
      shared or hidden in a store. */
  ghost predicate Layout(app: object, root: MultiStore, check: MultiStore, checkMeter: GasMeter, deliver: Option<DeliverState>,
                         all: set<object>)
  {
    && IsRoot(root)
    && Apart(check, LayerOf(deliver), root)
    && var stores, meters := check.Repr() + Objects(LayerOf(deliver)), MetersOf(deliver);
    && app !in stores && checkMeter !in stores && meters !! stores && checkMeter !in meters
    && stores + {checkMeter} + meters <= all
    && (deliver.Some? && deliver.value.block.Some? ==> deliver.value.meter != deliver.value.block.value)
  }

  lemma WithBlock(app: object, root: MultiStore, check: MultiStore, checkMeter: GasMeter, d: DeliverState, all: set<object>,
                  header: Header, block: GasMeter)
    requires Layout(app, root, check, checkMeter, Some(d), all)
    requires block !in check.Repr() + d.ms.Repr() + MetersOf(Some(d)) + {checkMeter}
    ensures Layout(app, root, check, checkMeter, Some(d.(header := header, block := Some(block))), all + {block})
  {
  }

  /** The plain state that an application's parts stand for. */
  ghost function StateOf(root: MultiStore, version: nat, check: MultiStore, checkMeter: GasMeter, deliver: Option<DeliverState>,
                         params: Option<Params>): App
    requires root.Shape() && check.Shape() && (deliver.Some? ==> deliver.value.ms.Shape())
    reads root.Repr(), check.Repr(), Objects(LayerOf(deliver)), checkMeter, MetersOf(deliver)
  {
    App(root.View(), version, check.View(), checkMeter.meter,
        if deliver.None? then None else Some(SpecOf(deliver.value)), params)
  }

  class BaseApp {
    const config: Config
    const root: MultiStore
    var version: nat
    var check: MultiStore
    var checkMeter: GasMeter
    var deliver: Option<DeliverState>
    var params: Option<Params>
    ghost var Repr: set<object>

    ghost function DeliverLayer(): Option<MultiStore>
      reads this
    {
      LayerOf(deliver)
    }

    ghost function Stores(): set<object>
      reads this
    {
      check.Repr() + Objects(DeliverLayer())
    }

    ghost function DeliverMeters(): set<GasMeter>
      reads this
    {
      MetersOf(deliver)
    }

    ghost predicate Separate()
      reads this
    {
      Layout(this, root, check, checkMeter, deliver, Repr)
    }

    ghost predicate Inv()
      reads this, Stores()
    {
      Separate() && check.Inv() && Coherent(DeliverLayer(), StacksOf(DeliverLayer()))
    }

    ghost function State(): App
      requires Separate()
      reads this, Stores(), checkMeter, DeliverMeters()
    {
      StateOf(root, version, check, checkMeter, deliver, params)
    }

    constructor (config: Config, root: MultiStore, version: nat, params: Option<Params>, check: MultiStore, checkMeter: GasMeter)
      requires IsLayer(check, root) && check.Inv() && checkMeter !in check.Repr()
      requires IsRoot(root)
      ensures this.config == config && this.root == root && this.check == check && this.checkMeter == checkMeter
      ensures this.deliver.None?
      ensures Inv() && State() == App(root.View(), version, check.View(), checkMeter.meter, None, params)
    {
      this.config := config;
      this.root := root;
      this.version := version;
      this.params := params;
      this.check := check;
      this.checkMeter := checkMeter;
      this.deliver := None;
      this.Repr := {checkMeter} + check.Repr();
    }

    method CheckTx(tx: Tx) returns (result: TxResult)
      requires Inv()
      modifies check.Repr(), checkMeter
      ensures Inv() && Repr == old(Repr) && State() == OnCheckTx(old(State()), tx)
      ensures result == RunTx(Check, old(State()).check, old(State()).checkMeter, Infinite(0), tx).result
    {
      result := CheckOnLayer(tx, check, checkMeter, root, DeliverLayer());
    }

    method Simulate(tx: Tx) returns (result: TxResult)
      requires Inv()
      modifies check.Repr(), checkMeter
      ensures Inv() && Repr == old(Repr) && State() == OnSimulate(old(State()), tx)
      ensures result == RunTx(Mode.Simulate, old(State()).check, old(State()).checkMeter, Infinite(0), tx).result
    {
      result := SimulateOnLayer(tx, check, checkMeter, root, DeliverLayer());
    }

    method DeliverTx(tx: Tx) returns (result: Option<TxResult>)
      requires Inv()
      modifies Stores(), DeliverMeters()
      ensures Inv() && Repr == old(Repr)
      ensures var next := OnDeliverTx(old(State()), tx);
              result.Some? == next.Some? && (next.Some? ==> Some(State()) == next)
      ensures result.Some? ==>
                var d := old(State()).deliver.value;
                result.value == RunTx(Deliver, d.state, d.meter, d.block.value, tx).result
    {
      assert State().deliver.Some? == deliver.Some? && (deliver.Some? ==> State().deliver.value.block.Some? == deliver.value.block.Some?);
      if deliver.None? || deliver.value.block.None? { return None; }
      var r := DeliverNow(tx);
      result := Some(r);
    }

    method DeliverNow(tx: Tx) returns (result: TxResult)
      requires Inv() && deliver.Some? && deliver.value.block.Some?
      modifies Stores(), DeliverMeters()
      ensures Inv() && Repr == old(Repr)
      ensures Some(State()) == OnDeliverTx(old(State()), tx)
      ensures var d := old(State()).deliver.value;
              result == RunTx(Deliver, d.state, d.meter, d.block.value, tx).result
    {
      var d := deliver.value;
      assert var e := RunTx(Deliver, d.ms.View(), d.meter.meter, d.block.value.meter, tx);
             OnDeliverTx(State(), tx) == Some(State().(deliver := Some(DeliverSpec(e.state, e.base, Some(e.block), d.header))));
      result := TxOnLayer(Deliver, tx, d.ms, d.meter, d.block.value, root, Some(check));
      assert check.Inv() && d.ms.Inv() && Separate();
    }

    method OnDeliverState(h: Handler<()>) returns (alive: bool)
      requires Inv() && deliver.Some?
      modifies Stores(), deliver.value.meter
      ensures Inv() && Repr == old(Repr)
      ensures var d := OnDeliver(old(State()).deliver.value, h);
              alive == d.Some? && (alive ==> State() == old(State()).(deliver := d))
    {
      var d := deliver.value;
      var r := HandlerOnLayer(h, d.ms, d.meter, root, Some(check));
      assert check.Inv() && d.ms.Inv() && Separate();
      alive := r.Returned?;
    }

    method EndBlock(end: Handler<()>) returns (alive: bool)
      requires Inv()
      modifies Stores(), DeliverMeters()
      ensures Inv() && Repr == old(Repr)
      ensures var next := OnEndBlock(old(State()), end);
              alive == next.Some? && (alive ==> Some(State()) == next)
    {
      assert OnEndBlock(State(), end).None? <== deliver.None?;
      if deliver.None? { return false; }
      assert OnEndBlock(State(), end) == var d := OnDeliver(State().deliver.value, end);
                                         if d.None? then None else Some(State().(deliver := d));
      alive := OnDeliverState(end);
    }

    /** New objects elsewhere change nothing here. */
    twostate lemma Untouched()
      requires old(Inv()) && unchanged(this) && unchanged(Stores()) && unchanged(checkMeter) && unchanged(DeliverMeters())
      ensures Inv() && State() == old(State())
    {
      check.Untouched();
      root.Untouched();
      if deliver.Some? { deliver.value.ms.Untouched(); }
    }

    method SetDeliverState(header: Header) returns (ghost news: set<object>)
      requires Inv() && deliver.None?
      modifies this`deliver, this`Repr
      ensures Inv() && fresh(news) && Repr == old(Repr) + news
      ensures State() == old(State()).(deliver := Some(DeliverSpec(old(State()).committed, Infinite(0), None, header)))
      ensures deliver.Some?
    {
      var ms, meter;
      ms, meter, news := NewDeliverLayer();
      Install(DeliverState(ms, meter, None, header), news);
    }

    method NewDeliverLayer() returns (ms: MultiStore, meter: GasMeter, ghost news: set<object>)
      requires Inv() && deliver.None?
      ensures Inv() && State() == old(State())
      ensures Apart(check, Some(ms), root) && ms.Inv() && ms.View() == root.View()
      ensures news == ms.Tops() + {meter} && fresh(news)
      ensures this !in ms.Repr() && checkMeter !in ms.Repr()
      ensures meter !in ms.Repr() + check.Repr() + {this, checkMeter} && meter.meter == Infinite(0)
    {
      ghost var ours := {this, checkMeter} + check.Repr();
      ms, meter, news := NewLayerApart(root, check, ours);
      Untouched();
    }

    /** Puts a deliver state in place of the one there is. */
    method Install(d: DeliverState, ghost news: set<object>)
      requires Layout(this, root, check, checkMeter, Some(d), Repr + news) && check.Inv() && d.ms.Inv()
      modifies this`deliver, this`Repr
      ensures Inv() && deliver == Some(d) && Repr == old(Repr) + news
      ensures State() == old(StateOf(root, version, check, checkMeter, Some(d), params))
    {
      Put(d, Repr + news);
    }

    method Put(d: DeliverState, ghost all: set<object>)
      requires root.Shape() && check.Shape() && d.ms.Shape() && root.Inv() && check.Inv() && d.ms.Inv()
      requires this !in root.Repr() && this !in check.Repr() && this !in d.ms.Repr()
      modifies this`deliver, this`Repr
      ensures deliver == Some(d) && Repr == all && check.Inv() && d.ms.Inv() && root.Inv()
      ensures StateOf(root, version, check, checkMeter, Some(d), params) == old(StateOf(root, version, check, checkMeter, Some(d), params))
    {
      deliver, Repr := Some(d), all;
      root.Untouched();
      check.Untouched();
      d.ms.Untouched();
    }

    /** Installs a header and a block meter on the deliver state. */
    method SetBlock(header: Header, maxGas: Gas) returns (ghost news: set<object>)
      requires Inv() && deliver.Some?
      modifies this`deliver, this`Repr
      ensures Inv() && fresh(news) && Repr == old(Repr) + news && deliver.Some?
      ensures var d := old(State()).deliver.value;
              State() == old(State()).(deliver := Some(d.(header := header, block := Some(BlockMeter(maxGas)))))
    {
      var block := FreshMeter(BlockMeter(maxGas), Stores() + DeliverMeters() + {this, checkMeter});
      Untouched();
      news := {block};
      WithBlock(this, root, check, checkMeter, deliver.value, Repr, header, block);
      assert var d := deliver.value.(header := header, block := Some(block));
             StateOf(root, version, check, checkMeter, Some(d), params) == State().(deliver := Some(SpecOf(d)));
      Install(deliver.value.(header := header, block := Some(block)), news);
    }

    method PrepareBlock(header: Header, maxGas: Gas)
      requires Inv()
      modifies this`deliver, this`Repr
      ensures Inv() && fresh(Repr - old(Repr)) && deliver.Some?
      ensures State() == old(State()).(deliver := Some(BlockStart(old(State()), header, maxGas)))
    {
      if deliver.None? {
        ghost var news := NewBlock(header, maxGas);
      } else {
        ghost var news := SetBlock(header, maxGas);
      }
    }

    method NewBlock(header: Header, maxGas: Gas) returns (ghost news: set<object>)
      requires Inv() && deliver.None?
      modifies this`deliver, this`Repr
      ensures Inv() && fresh(news) && Repr == old(Repr) + news && deliver.Some?
      ensures State() == old(State()).(deliver := Some(BlockStart(old(State()), header, maxGas)))
    {
      news := SetDeliverState(header);
      ghost var block := SetBlock(header, maxGas);
      news := news + block;
    }

    method BeginBlock(header: Header, begin: Handler<()>) returns (alive: bool)
      requires Inv()
      modifies this`deliver, this`Repr, Repr
      ensures Inv() && fresh(Repr - old(Repr))
      ensures var next := OnBeginBlock(old(State()), header, begin);
              alive == next.Some? && (alive ==> Some(State()) == next)
    {
      assert State().version == version && State().params == params;
      if header.height < 1 || header.height != version + 1 { return false; }
      var maxGas := MaximumBlockGas(params);
      if maxGas.None? { return false; }
      alive := BeginNow(header, maxGas.value, begin);
    }

    method BeginNow(header: Header, maxGas: Gas, begin: Handler<()>) returns (alive: bool)
      requires Inv()
      modifies this`deliver, this`Repr, Repr
      ensures Inv() && fresh(Repr - old(Repr))
      ensures var d := OnDeliver(BlockStart(old(State()), header, maxGas), begin);
              alive == d.Some? && (alive ==> State() == old(State()).(deliver := d))
    {
      PrepareBlock(header, maxGas);
      alive := OnDeliverState(begin);
    }

    /** Drops both layers and wraps a new check layer over the root as it now is. */
    method ResetCheckState(newVersion: nat) returns (ghost news: set<object>)
      requires IsRoot(root)
      requires this !in root.Repr() && root.Repr() <= Repr
      modifies this`version, this`check, this`checkMeter, this`deliver, this`Repr
      ensures Inv() && State() == App(old(root.View()), newVersion, old(root.View()), Infinite(0), None, params)
      ensures fresh(news) && Repr == old(Repr) + news && deliver.None?
    {
      var ms, meter := NewCheckLayer(root, {this});
      label Before:
      news := ms.Tops() + {meter};
      version, check, checkMeter, deliver, Repr := newVersion, ms, meter, None, Repr + news;
      check.Untouched@Before();
      root.Untouched@Before();
    }

    method Commit() returns (alive: bool)
      requires Inv()
      modifies this`version, this`check, this`checkMeter, this`deliver, this`Repr, Repr
      ensures Inv() && fresh(Repr - old(Repr))
      ensures var next := OnCommit(config, old(State()));
              alive == next.Some? && (alive ==> Some(State()) == next)
      ensures !alive ==> State() == old(State())
    {
      alive := deliver.Some? && !Halts(config, deliver.value.header);
      assert OnCommit(config, State()).Some? == alive;
      if alive { CommitNow(); }
    }

    method CommitNow()
      requires Inv() && deliver.Some? && !Halts(config, deliver.value.header)
      modifies this`version, this`check, this`checkMeter, this`deliver, this`Repr, Repr
      ensures Inv() && fresh(Repr - old(Repr))
      ensures Some(State()) == OnCommit(config, old(State()))
    {
      assert var a := State();
             var s := ClearTransient(a.deliver.value.state, config.transient);
             OnCommit(config, a) == Some(App(s, version + 1, s, Infinite(0), None, params));
      CommitDeliverState();
    }

    method CommitDeliverState()
      requires Inv() && deliver.Some?
      modifies this`version, this`check, this`checkMeter, this`deliver, this`Repr, Repr
      ensures Inv() && fresh(Repr - old(Repr))
      ensures var s := ClearTransient(old(State()).deliver.value.state, config.transient);
              State() == App(s, old(version) + 1, s, Infinite(0), None, old(params))
    {
      ghost var s := ClearTransient(deliver.value.ms.View(), config.transient);
      CommitLayer(root, deliver.value.ms, config.transient);
      assert root.View() == s && root.Repr() <= Repr;
      ghost var news := ResetCheckState(version + 1);
    }

    method InitChain(newParams: Option<Params>, header: Header, init: Option<Handler<()>>) returns (alive: bool)
      requires Inv()
      modifies this`version, this`check, this`checkMeter, this`deliver, this`Repr, this`params, Repr
      ensures Inv() && fresh(Repr - old(Repr))
      ensures var next := OnInitChain(config, old(State()), newParams, header, init);
              alive == next.Some? && (alive ==> Some(State()) == next)
    {
      assert State().committed.Keys == root.stores.Keys;
      if newParams.Some? && config.main !in root.stores { return false; }
      if init.None? {
        InitLayers(newParams, header, false);
        alive := true;
      } else {
        alive := InitWith(newParams, header, init.value);
      }
    }

    method InitWith(newParams: Option<Params>, header: Header, init: Handler<()>) returns (alive: bool)
      requires Inv() && (newParams.Some? ==> config.main in root.stores)
      modifies this`version, this`check, this`checkMeter, this`deliver, this`Repr, this`params, Repr
      ensures Inv() && fresh(Repr - old(Repr))
      ensures var a := InitStart(config, old(State()), newParams, header, true);
              var d := OnDeliver(a.deliver.value, init);
              alive == d.Some? && (alive ==> State() == a.(deliver := d))
    {
      InitLayers(newParams, header, true);
      alive := OnDeliverState(init);
    }

    method InitLayers(newParams: Option<Params>, header: Header, metered: bool)
      requires Inv() && (newParams.Some? ==> config.main in root.stores)
      modifies this`version, this`check, this`checkMeter, this`deliver, this`Repr, this`params, Repr
      ensures Inv() && fresh(Repr - old(Repr)) && deliver.Some?
      ensures State() == InitStart(config, old(State()), newParams, header, metered)
    {
      assert var s := WithParams(config, root.View(), newParams);
             var d := DeliverSpec(s, Infinite(0), if metered then Some(Infinite(0)) else None, header);
             InitStart(config, State(), newParams, header, metered)
             == App(s, version, s, Infinite(0), Some(d), if newParams.Some? then newParams else params);
      StoreConsensusParams(newParams);
      ghost var news := Restart(header, metered);
    }

    method Restart(header: Header, metered: bool) returns (ghost news: set<object>)
      requires IsRoot(root) && this !in root.Repr() && root.Repr() <= Repr
      modifies this`version, this`check, this`checkMeter, this`deliver, this`Repr
      ensures Inv() && fresh(news) && Repr == old(Repr) + news && deliver.Some?
      ensures var s := old(root.View());
              var d := DeliverSpec(s, Infinite(0), if metered then Some(Infinite(0)) else None, header);
              State() == App(s, old(version), s, Infinite(0), Some(d), params)
    {
      if metered {
        news := RestartMetered(header);
      } else {
        news := RestartLayers(header);
      }
    }

    method StoreConsensusParams(newParams: Option<Params>)
      requires Inv() && (newParams.Some? ==> config.main in root.stores)
      modifies this`params, root.Repr()
      ensures root.View() == WithParams(config, old(root.View()), newParams)
      ensures params == if newParams.Some? then newParams else old(params)
    {
      if newParams.Some? {
        StoreParams(root, config.main, config.paramsKey, newParams.value.stored);
        label Before:
        params := newParams;
        root.Untouched@Before();
      }
    }

    method RestartMetered(header: Header) returns (ghost news: set<object>)
      requires IsRoot(root)
      requires this !in root.Repr() && root.Repr() <= Repr
      modifies this`version, this`check, this`checkMeter, this`deliver, this`Repr
      ensures Inv() && fresh(news) && Repr == old(Repr) + news && deliver.Some?
      ensures var s := old(root.View());
              State() == App(s, old(version), s, Infinite(0), Some(DeliverSpec(s, Infinite(0), Some(Infinite(0)), header)), params)
    {
      news := RestartLayers(header);
      ghost var block := SetBlock(header, 0);
      news := news + block;
    }

    method RestartLayers(header: Header) returns (ghost news: set<object>)
      requires IsRoot(root)
      requires this !in root.Repr() && root.Repr() <= Repr
      modifies this`version, this`check, this`checkMeter, this`deliver, this`Repr
      ensures Inv() && fresh(news) && Repr == old(Repr) + news && deliver.Some?
      ensures var s := old(root.View());
              State() == App(s, old(version), s, Infinite(0), Some(DeliverSpec(s, Infinite(0), None, header)), params)
    {
      news := ResetCheckState(version);
      ghost var layer := SetDeliverState(header);
      news := news + layer;
    }

    method Query(past: Multi, querier: Handler<Bytes>) returns (alive: bool, answer: Option<Bytes>)
      requires Inv()
      modifies Stores()
      ensures Inv() && Repr == old(Repr) && State() == old(State())
      ensures alive == OnQuery(config, old(State()), past, querier).Some?
      ensures alive ==> answer == QueryAnswer(config, old(State()), past, querier)
    {
      assert State().committed == root.View();
      alive, answer := QueryBeside(config, root, past, querier, check, DeliverLayer());
      assert check.Inv() && Separate();
    }

    method Do(call: Call) returns (alive: bool, answer: Answer)
      requires Inv()
      modifies this, Repr
      ensures Inv() && fresh(Repr - old(Repr))
      ensures var next := Step(config, old(State()), call);
              alive == next.Some? && (alive ==> State() == next.value)
      ensures alive ==> answer == AnswerOf(config, old(State()), call)
    {
      if call.CheckTx? || call.SimulateTx? || call.Query? || call.DeliverTx? {
        alive, answer := Ask(call);
      } else {
        alive := Drive(call);
        answer := Done;
      }
    }

    /** The calls that serve transactions and queries. */
    method Ask(call: Call) returns (alive: bool, answer: Answer)
      requires Inv() && (call.CheckTx? || call.SimulateTx? || call.Query? || call.DeliverTx?)
      modifies this, Repr
      ensures Inv() && Repr == old(Repr)
      ensures var next := Step(config, old(State()), call);
              alive == next.Some? && (alive ==> State() == next.value)
      ensures alive ==> answer == AnswerOf(config, old(State()), call)
    {
      alive, answer := true, Done;
      match call
      case CheckTx(tx) =>
        var r := CheckTx(tx);
        answer := Result(r);
      case SimulateTx(tx) =>
        var r := Simulate(tx);
        answer := Result(r);
      case Query(past, querier) =>
        var found;
        alive, found := Query(past, querier);
        answer := Found(found);
      case DeliverTx(tx) =>
        var r := DeliverTx(tx);
        alive := r.Some?;
        if alive { answer := Result(r.value); }
    }

    /** The calls that drive blocks. */
    method Drive(call: Call) returns (alive: bool)
      requires Inv() && (call.InitChain? || call.BeginBlock? || call.EndBlock? || call.Commit?)
      modifies this, Repr
      ensures Inv() && fresh(Repr - old(Repr))
      ensures var next := Step(config, old(State()), call);
              alive == next.Some? && (alive ==> State() == next.value)
    {
      match call
      case InitChain(newParams, header, init) =>
        assert Step(config, State(), call) == OnInitChain(config, State(), newParams, header, init);
        alive := InitChain(newParams, header, init);
      case BeginBlock(header, begin) =>
        assert Step(config, State(), call) == OnBeginBlock(State(), header, begin);
        alive := BeginBlock(header, begin);
      case EndBlock(end) =>
        assert Step(config, State(), call) == OnEndBlock(State(), end);
        alive := EndBlock(end);
      case Commit =>
        assert Step(config, State(), call) == OnCommit(config, State());
        alive := Commit();
    }

    /** Any run of calls on the caches goes as the run of the plain machine, answer
        for answer. */
    method Replay(calls: seq<Call>) returns (alive: bool, answers: seq<Answer>)
      requires Inv()
      modifies this, Repr
      ensures Inv() && fresh(Repr - old(Repr))
      ensures var last := Steps(config, old(State()), calls);
              alive == last.Some? && (alive ==> State() == last.value)
      ensures answers == Answers(config, old(State()), calls)
    {
      if calls == [] { return true, []; }
      var answer;
      alive, answer := Do(calls[0]);
      if !alive { return false, []; }
      var rest;
      alive, rest := Replay(calls[1..]);
      answers := [answer] + rest;
    }
  }

  /** The same mounted stores, the live ones shared and the trees not. */
  ghost predicate SharesLive(c: Config, root: MultiStore, ms: MultiStore) {
    && IsRoot(root) && IsRoot(ms) && ms.stores.Keys == root.stores.Keys
    && forall k :: k in root.stores ==>
                   if Live(c, k) then ms.stores[k] == root.stores[k] else root.stores[k].tree !in ms.Repr()
  }

  /** One store of a past version; a tree without that version is an error. */
  method LoadStore(live: bool, store: KVStore, past: Option<OrderedMap.Store>) returns (s: Option<KVStore>)
    requires store.Tree?
    ensures s.Some? == (live || past.Some?)
    ensures s.Some? ==> s.value.Tree? && if live then s.value == store else fresh(s.value.tree) && s.value.tree.m == past.value
  {
    if live { return Some(store); }
    if past.None? { return None; }
    var t := new TreeStore(past.value);
    s := Some(Tree(t));
  }

  /** The stores of the root as a past version had them; `None` if some tree lacks it. */
  method LoadVersion(c: Config, root: MultiStore, past: Multi) returns (ms: Option<MultiStore>)
    requires IsRoot(root)
    ensures ms.Some? ==> SharesLive(c, root, ms.value) && fresh(ms.value.Repr() - root.Repr())
    ensures var s := AtVersion(c, root.View(), past);
            ms.Some? == s.Some? && (ms.Some? ==> ms.value.View() == s.value)
  {
    var stores := LoadStores(c, root, past);
    if stores.None? {
      NoVersion(c, root, past);
      return None;
    }
    LoadedView(c, root, MultiStore(stores.value), past);
    ms := Some(MultiStore(stores.value));
  }

  method LoadStores(c: Config, root: MultiStore, past: Multi) returns (r: Option<map<StoreKey, KVStore>>)
    requires IsRoot(root)
    ensures r.Some? == forall k :: k in root.stores && !Live(c, k) ==> k in past
    ensures r.Some? ==> r.value.Keys == root.stores.Keys && IsRoot(MultiStore(r.value))
    ensures r.Some? ==> forall k :: k in root.stores && Live(c, k) ==> r.value[k] == root.stores[k]
    ensures r.Some? ==> forall k :: k in root.stores && !Live(c, k) ==> fresh(r.value[k].tree) && r.value[k].tree.m == past[k]
  {
    var todo, stores: map<StoreKey, KVStore> := root.stores.Keys, map[];
    while todo != {}
      invariant todo <= root.stores.Keys && stores.Keys == root.stores.Keys - todo
      invariant forall k :: k in stores ==> stores[k].Tree?
      invariant forall k :: k in stores && Live(c, k) ==> stores[k] == root.stores[k]
      invariant forall k :: k in stores && !Live(c, k) ==> k in past && fresh(stores[k].tree) && stores[k].tree.m == past[k]
      invariant forall j, k :: j in stores && k in stores && j != k ==> stores[j].tree != stores[k].tree
      decreases todo
    {
      var k :| k in todo;
      var s := LoadStore(Live(c, k), root.stores[k], if k in past then Some(past[k]) else None);
      if s.None? { return None; }
      DifferentTrees(root, k);
      stores, todo := stores[k := s.value], todo - {k};
    }
    r := Some(stores);
  }

  lemma DifferentTrees(root: MultiStore, k: StoreKey)
    requires IsRoot(root) && k in root.stores
    ensures forall j :: j in root.stores && j != k ==> root.stores[j].tree != root.stores[k].tree
  {
    forall j | j in root.stores && j != k
      ensures root.stores[j].tree != root.stores[k].tree
    {
      assert root.stores[j].Repr() !! root.stores[k].Repr();
    }
  }

  lemma NoVersion(c: Config, root: MultiStore, past: Multi)
    requires IsRoot(root) && exists k :: k in root.stores && !Live(c, k) && k !in past
    ensures AtVersion(c, root.View(), past).None?
  {
    var k :| k in root.stores && !Live(c, k) && k !in past;
    assert k in root.View();
  }

  lemma LoadedView(c: Config, root: MultiStore, ms: MultiStore, past: Multi)
    requires IsRoot(root) && IsRoot(ms) && ms.stores.Keys == root.stores.Keys
    requires forall k :: k in root.stores && Live(c, k) ==> ms.stores[k] == root.stores[k]
    requires forall k :: k in root.stores && !Live(c, k) ==> k in past && ms.stores[k].tree.m == past[k]
    ensures AtVersion(c, root.View(), past) == Some(ms.View())
  {
    var s, m := root.View(), ms.View();
    assert s.Keys == root.stores.Keys && m.Keys == root.stores.Keys;
    forall k | k in s
      ensures m[k] == ms.stores[k].tree.m && s[k] == root.stores[k].tree.m
    {
    }
    VersionIs(c, s, past, m);
  }

  lemma VersionIs(c: Config, s: Multi, past: Multi, m: Multi)
    requires m.Keys == s.Keys
    requires forall k :: k in s ==> if Live(c, k) then m[k] == s[k] else k in past && m[k] == past[k]
    ensures AtVersion(c, s, past) == Some(m)
  {
    assert !exists k :: k in s && !Live(c, k) && k !in past;
    assert AtVersion(c, s, past).value == m;
  }

  /** Runs a querier on a cache over the stores given, and drops the cache. */
  method QueryOn(ms: MultiStore, querier: Handler<Bytes>) returns (r: Ran<Bytes>)
    requires IsRoot(ms)
    modifies ms.Repr()
    ensures ms.Stacks() == old(ms.Stacks()) && r == Start(querier, old(ms.View()), Infinite(0)).2
  {
    var layer, meter := NewCheckLayer(ms, {});
    r := HandlerAlone(querier, layer, meter, ms);
  }

  /** The root keeps its content, live stores and trees. */
  method QueryLoaded(c: Config, root: MultiStore, ms: MultiStore, querier: Handler<Bytes>) returns (r: Ran<Bytes>)
    requires SharesLive(c, root, ms)
    modifies ms.Repr()
    ensures root.Inv() && root.Stacks() == old(root.Stacks())
    ensures r == Start(querier, old(ms.View()), Infinite(0)).2
  {
    r := QueryOn(ms, querier);
    forall k | k in root.stores
      ensures root.stores[k].Views() == old(root.stores[k].Views())
    {
      if Live(c, k) { assert ms.Stacks()[k] == old(ms.Stacks())[k]; }
    }
  }

  /** `None` where the version cannot be loaded. */
  method QueryRoot(c: Config, root: MultiStore, past: Multi, querier: Handler<Bytes>) returns (r: Option<Ran<Bytes>>)
    requires IsRoot(root)
    modifies root.Repr()
    ensures root.Inv() && root.Stacks() == old(root.Stacks())
    ensures var s := AtVersion(c, old(root.View()), past);
            r == if s.None? then None else Some(Start(querier, s.value, Infinite(0)).2)
  {
    var ms := LoadVersion(c, root, past);
    root.Untouched();
    if ms.None? { return None; }
    var ran := QueryLoaded(c, root, ms.value, querier);
    r := Some(ran);
  }

  /** A query leaves both layers over the root alone. */
  method QueryBeside(c: Config, root: MultiStore, past: Multi, querier: Handler<Bytes>, ghost check: MultiStore, ghost other: Option<MultiStore>)
    returns (alive: bool, answer: Option<Bytes>)
    requires IsRoot(root) && Apart(check, other, root) && check.Inv() && Coherent(other, StacksOf(other))
    modifies root.Repr()
    ensures check.Inv() && check.Stacks() == old(check.Stacks()) && root.Inv() && root.Stacks() == old(root.Stacks())
    ensures Coherent(other, old(StacksOf(other)))
    ensures var s := AtVersion(c, old(root.View()), past);
            var ran := if s.None? then None else Some(Start(querier, s.value, Infinite(0)).2);
            && alive == (ran.None? || ran.value.Returned?)
            && answer == if ran.Some? && ran.value.Returned? then Some(ran.value.result) else None
  {
    var r := QueryRoot(c, root, past, querier);
    check.StaysCoherent(root);
    if other.Some? { other.value.StaysCoherent(root); }
    alive := r.None? || r.value.Returned?;
    answer := if r.Some? && alive then Some(r.value.result) else None;
  }

  method NewLayerApart(root: MultiStore, check: MultiStore, ghost others: set<object>)
    returns (ms: MultiStore, meter: GasMeter, ghost news: set<object>)
    requires IsLayer(check, root) && root.Inv() && check.Inv()
    ensures Apart(check, Some(ms), root) && ms.Inv() && ms.View() == old(root.View())
    ensures ms.Tops() !! others && unchanged(others)
    ensures news == ms.Tops() + {meter} && fresh(news)
    ensures meter !in ms.Repr() + others && meter.meter == Infinite(0)
  {
    ms := LayerApart(root, check, others);
    label Before:
    meter := FreshMeter(Infinite(0), others + ms.Repr());
    ms.Untouched@Before();
    news := ms.Tops() + {meter};
  }

  method NewCheckLayer(root: MultiStore, ghost others: set<object>) returns (ms: MultiStore, meter: GasMeter)
    requires IsRoot(root) && others !! root.Repr()
    ensures IsLayer(ms, root) && ms.Inv() && root.Inv() && root.Stacks() == old(root.Stacks()) && ms.View() == root.View()
    ensures fresh(ms.Tops()) && ms.Tops() !! others && unchanged(others)
    ensures fresh(meter) && meter !in ms.Repr() + others && meter.meter == Infinite(0)
  {
    ms := NewLayer(root, others);
    label Before:
    meter := FreshMeter(Infinite(0), ms.Repr() + others);
    ms.Untouched@Before();
    root.Untouched@Before();
  }

  method StoreParams(root: MultiStore, main: StoreKey, key: Bytes, stored: Bytes)
    requires IsRoot(root) && main in root.stores
    modifies root.Repr()
    ensures root.View() == old(root.View())[main := old(root.View())[main][key := stored]]
  {
    ghost var st := root.Stacks();
    ghost var m := root.View()[main][key := stored];
    PutHeadParts(st, main, m);
    WithHeadsParts(st, Heads(st)[main := m]);
    root.Set(main, key, stored);
  }

  /** Writes a layer to the root and empties the root's transient stores. */
  method CommitLayer(root: MultiStore, ms: MultiStore, transient: set<StoreKey>)
    requires IsLayer(ms, root) && ms.Inv() && IsRoot(root)
    modifies ms.Repr()
    ensures root.View() == ClearTransient(old(ms.View()), transient)
  {
    WriteLayer(root, ms);
    ClearTransientStores(root, transient);
  }

  method WriteLayer(root: MultiStore, ms: MultiStore)
    requires IsLayer(ms, root) && ms.Inv()
    modifies ms.Repr()
    ensures root.View() == old(ms.View())
  {
    ms.OverStacks(root);
    ghost var st := ms.Stacks();
    WrittenHeads(st, root.Stacks());
    ms.Write();
    ms.OverStacks(root);
  }

  lemma HeadWritten(s: seq<OrderedMap.Store>)
    requires Tail(s) != []
    ensures Head(Tail(Written(s))) == Head(s)
  {
    assert Written(s)[1] == s[0];
  }

  lemma WrittenHeads(st: Stacks, below: Stacks)
    requires Tails(st) == below && forall k :: k in below ==> below[k] != []
    ensures Heads(Tails(AllWritten(st))) == Heads(st)
  {
    forall k | k in st
      ensures Head(Tail(Written(st[k]))) == Head(st[k])
    {
      assert k in below && below[k] == Tail(st[k]);
      HeadWritten(st[k]);
    }
    assert Heads(Tails(AllWritten(st))).Keys == Heads(st).Keys;
  }

  method ClearTransientStores(root: MultiStore, transient: set<StoreKey>)
    requires IsRoot(root)
    modifies root.Repr()
    ensures root.View() == ClearTransient(old(root.View()), transient)
  {
    var todo := transient * root.stores.Keys;
    ClearOnlyMounted(root.View(), transient - todo);
    while todo != {}
      invariant todo <= transient * root.stores.Keys
      invariant root.View() == ClearTransient(old(root.View()), transient - todo)
      decreases todo
    {
      var k :| k in todo;
      ClearNext(old(root.View()), transient - todo, k);
      assert transient - todo + {k} == transient - (todo - {k});
      ClearOne(root, k);
      todo := todo - {k};
    }
    assert transient - {} == transient;
  }

  lemma ClearOnlyMounted(s: Multi, others: set<StoreKey>)
    requires others !! s.Keys
    ensures ClearTransient(s, others) == s
  {
  }

  lemma ClearNext(s: Multi, done: set<StoreKey>, k: StoreKey)
    requires k in s
    ensures ClearTransient(s, done + {k}) == ClearTransient(s, done)[k := map[]]
  {
  }

  method ClearOne(root: MultiStore, k: StoreKey)
    requires IsRoot(root) && k in root.stores
    modifies root.Repr()
    ensures root.View() == old(root.View())[k := map[]]
  {
    assert root.stores[k].Repr() <= root.Repr();
    root.stores[k].tree.m := map[];
    root.OtherStores(k);
  }
}
