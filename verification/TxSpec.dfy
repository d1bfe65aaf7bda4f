/** What running a transaction does to plain state: the meaning `runTx` is proved
    against, and the laws it obeys. */
module TxSpec {
  import opened Bytes
  import opened CacheMulti
  import opened Gas
  import opened Handlers

  datatype Mode = Check | Simulate | Deliver

  datatype Code = CodeOK | CodeOutOfGas | CodeInternal | CodeUnknownRequest | CodeOther

  /** What the ante handler returns.  `newMeter` is the meter of the context it
      hands back, or `None` when that context is the zero one. */
  datatype AnteResult = AnteResult(newMeter: Option<Meter>, code: Code, gasWanted: Gas, abort: bool)

  /** A message: its own validation, and the handler of its route, if there is one. */
  datatype Msg = Msg(basic: Code, handler: Option<Handler<Code>>)

  /** A transaction with the handlers it meets; `refund` is told the gas wanted and used. */
  datatype Tx = Tx(msgs: seq<Msg>, ante: Handler<AnteResult>, refund: (Gas, Gas) -> Handler<bool>)

  datatype TxResult = TxResult(code: Code, gasWanted: Gas, gasUsed: Gas)

  datatype MsgsResult = MsgsResult(code: Code, gasUsed: Gas)

  function Start<R>(h: Handler<R>, s: Multi, g: Meter): (r: (Multi, Meter, Ran<R>))
    ensures r.0.Keys == s.Keys
  {
    Run(h.next, h.bound, [], s, g)
  }

  /** The first failing basic check; a transaction without messages fails too. */
  function ValidateBasic(msgs: seq<Msg>): Code {
    if msgs == [] then CodeUnknownRequest else FirstFailure(msgs)
  }

  function FirstFailure(msgs: seq<Msg>): Code {
    if msgs == [] then CodeOK
    else if msgs[0].basic != CodeOK then msgs[0].basic
    else FirstFailure(msgs[1..])
  }

  /** Messages one after the other, up to the first that fails. */
  function RunMsgs(msgs: seq<Msg>, mode: Mode, s: Multi, g: Meter): (r: (Multi, Meter, Ran<MsgsResult>))
    ensures r.0.Keys == s.Keys
  {
    if msgs == [] then (s, g, Returned(MsgsResult(CodeOK, g.consumed)))
    else if msgs[0].handler.None? then (s, g, Returned(MsgsResult(CodeUnknownRequest, 0)))
    else if mode == Check then RunMsgs(msgs[1..], mode, s, g)
    else
      var (s', g', ran) := Start(msgs[0].handler.value, s, g);
      match ran
      case Panicked(p) => (s', g', Panicked(p))
      case Returned(code) =>
        if code != CodeOK then (s', g', Returned(MsgsResult(code, g'.consumed)))
        else RunMsgs(msgs[1..], mode, s', g')
  }

  /** A transaction up to its deferred calls: the state that got written, the
      context's own meter, the meter of the ante handler's context if there is one,
      and how the body ended. */
  datatype Body = Body(state: Multi, base: Meter, own: Option<Meter>, gasWanted: Gas, ended: Ran<Code>) {
    function Current(): Meter {
      if own.Some? then own.value else base
    }

    function WithCurrent(g: Meter): Body {
      if own.Some? then this.(own := Some(g)) else this.(base := g)
    }
  }

  function RunBody(mode: Mode, s: Multi, base: Meter, tx: Tx): (b: Body)
    ensures b.state.Keys == s.Keys
  {
    var basic := ValidateBasic(tx.msgs);
    if basic != CodeOK then Body(s, base, None, 0, Returned(basic))
    else
      var (s1, base1, ran) := Start(tx.ante, s, base);
      match ran
      case Panicked(p) => Body(s, base1, None, 0, Panicked(p))
      case Returned(ante) =>
        FromAnte(mode, if ante.abort then s else s1, base1, ante, tx)
  }

  /** What follows the ante handler: nothing if it aborts. */
  function FromAnte(mode: Mode, s: Multi, base: Meter, ante: AnteResult, tx: Tx): (b: Body)
    ensures b.state.Keys == s.Keys
  {
    var b := Body(s, base, ante.newMeter, ante.gasWanted, Returned(ante.code));
    if ante.abort then b
    else
      var (s2, g2, ended) := AfterAnte(mode, s, b.Current(), ante.gasWanted, tx);
      b.WithCurrent(g2).(state := s2, ended := ended)
  }

  /** Messages, then the refund, then the write: all of it or the state as the
      ante handler left it. */
  function AfterAnte(mode: Mode, s: Multi, g: Meter, gasWanted: Gas, tx: Tx): (r: (Multi, Meter, Ran<Code>))
    ensures r.0.Keys == s.Keys
  {
    var (s2, g2, ran) := RunMsgs(tx.msgs, mode, s, g);
    match ran
    case Panicked(p) => (s, g2, Panicked(p))
    case Returned(result) =>
      if mode != Deliver then (s, g2, Returned(result.code))
      else
        var ok := result.code == CodeOK;
        var (s3, g3, paid) := Refund(tx.refund(gasWanted, result.gasUsed), s, if ok then s2 else s, g2, ok);
        (s3, g3, if paid.Panicked? then Panicked(paid.panic) else Returned(result.code))
  }

  /** Runs the refund handler on `s2`; what it leaves is kept when the messages
      were OK or the refund was paid, otherwise the state stays `s`. */
  function Refund(h: Handler<bool>, s: Multi, s2: Multi, g: Meter, ok: bool): (r: (Multi, Meter, Ran<bool>))
    requires s2.Keys == s.Keys
    ensures r.0.Keys == s.Keys
  {
    var (s3, g3, paid) := Start(h, s2, g);
    (if paid.Returned? && (ok || paid.result) then s3 else s, g3, paid)
  }

  /** The deferred calls: block gas is charged, whatever panic is under way by
      then is turned into a result. */
  function Finish(mode: Mode, b: Body, block: Meter): (Meter, TxResult) {
    var (block', charged) := if mode == Deliver then ChargeBlockMeter(block, b.Current().ConsumedToLimit()) else (block, None);
    var ended := if charged.Some? then Panicked(charged.value) else b.ended;
    var code := match ended
                case Returned(code) => code
                case Panicked(OutOfGasPanic) => CodeOutOfGas
                case Panicked(OtherPanic) => CodeInternal;
    (block', TxResult(code, b.gasWanted, b.Current().consumed))
  }

  function ChargeBlockMeter(block: Meter, amount: Gas): (Meter, Option<PanicKind>) {
    var (block', panic) := Consume(block, amount);
    (block', if panic == Some(OutOfGas) then Some(OutOfGasPanic)
             else if panic.Some? || block'.consumed < block.consumed then Some(OtherPanic)
             else None)
  }

  datatype TxEffect = TxEffect(state: Multi, base: Meter, block: Meter, result: TxResult)

  function RunTx(mode: Mode, s: Multi, base: Meter, block: Meter, tx: Tx): (e: TxEffect)
    ensures e.state.Keys == s.Keys
  {
    if mode == Deliver && block.IsOutOfGas() then TxEffect(s, base, block, TxResult(CodeOutOfGas, 0, 0))
    else
      var b := RunBody(mode, s, base, tx);
      var (block', result) := Finish(mode, b, block);
      TxEffect(b.state, b.base, block', result)
  }
}
