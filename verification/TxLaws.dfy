/** Laws of transactions: all messages or none, what is answered, and block gas. */
module TxLaws {
  import opened Bytes
  import opened CacheMulti
  import opened Gas
  import opened Handlers
  import opened TxSpec
  import opened MsgLaws

  // ---- The course of a transaction, told from its handlers alone ----

  /** Basic validation passes and the ante handler returns without aborting. */
  predicate LetThrough(s: Multi, base: Meter, tx: Tx) {
    var ante := Start(tx.ante, s, base).2;
    ValidateBasic(tx.msgs) == CodeOK && ante.Returned? && !ante.result.abort
  }

  /** The meter messages run under: the ante handler's own, or the context's. */
  function MeterAfterAnte(s: Multi, base: Meter, tx: Tx): Meter {
    var (_, base', ran) := Start(tx.ante, s, base);
    if ran.Returned? && ran.result.newMeter.Some? then ran.result.newMeter.value else base'
  }

  /** How the messages end, on the state the ante handler left. */
  function MsgsEnding(s: Multi, base: Meter, tx: Tx): Ran<MsgsResult> {
    Ending(tx.msgs, Start(tx.ante, s, base).0, MeterAfterAnte(s, base, tx))
  }

  function MsgsFinal(s: Multi, base: Meter, tx: Tx): (r: (Multi, Meter))
    ensures r.0.Keys == s.Keys
  {
    Final(tx.msgs, Start(tx.ante, s, base).0, MeterAfterAnte(s, base, tx))
  }

  /** The refund: on what the messages left if all were OK, else on what the ante
      handler left. */
  function RefundRun(s: Multi, base: Meter, tx: Tx): (Multi, Meter, Ran<bool>)
    requires LetThrough(s, base, tx) && MsgsEnding(s, base, tx).Returned?
  {
    var (a, _, ante) := Start(tx.ante, s, base);
    var (m, g) := MsgsFinal(s, base, tx);
    var end := MsgsEnding(s, base, tx).result;
    Start(tx.refund(ante.result.gasWanted, end.gasUsed), if end.code == CodeOK then m else a, g)
  }

  datatype Course =
    | Invalid
    | AntePanics(panic: PanicKind)
    | Aborts
    | MsgPanics(panic: PanicKind)
    | RefundPanics(panic: PanicKind)
    | Completes(code: Code)

  function CourseOf(s: Multi, base: Meter, tx: Tx): Course {
    var ante := Start(tx.ante, s, base).2;
    if ValidateBasic(tx.msgs) != CodeOK then Invalid
    else if ante.Panicked? then AntePanics(ante.panic)
    else if ante.result.abort then Aborts
    else
      var end := MsgsEnding(s, base, tx);
      if end.Panicked? then MsgPanics(end.panic)
      else if RefundRun(s, base, tx).2.Panicked? then RefundPanics(RefundRun(s, base, tx).2.panic)
      else Completes(end.result.code)
  }

  /** The meter in force at the end. */
  function LastMeter(s: Multi, base: Meter, tx: Tx): Meter {
    match CourseOf(s, base, tx)
    case Invalid => base
    case AntePanics(_) => Start(tx.ante, s, base).1
    case Aborts => MeterAfterAnte(s, base, tx)
    case MsgPanics(_) => MsgsFinal(s, base, tx).1
    case RefundPanics(_) => RefundRun(s, base, tx).1
    case Completes(_) => RefundRun(s, base, tx).1
  }

  /** What a course leaves: state, meters, gas wanted, and how the body ends. */
  predicate Follows(b: Body, s: Multi, base: Meter, tx: Tx) {
    var c := CourseOf(s, base, tx);
    var (a, base', ante) := Start(tx.ante, s, base);
    && b.Current() == LastMeter(s, base, tx)
    && b.base == (if !c.Invalid? && ante.Returned? && ante.result.newMeter.Some? then base' else LastMeter(s, base, tx))
    && b.gasWanted == (if c.Invalid? || c.AntePanics? then 0 else ante.result.gasWanted)
    && b.ended == (match c
                   case Invalid => Returned(ValidateBasic(tx.msgs))
                   case Aborts => Returned(ante.result.code)
                   case Completes(code) => Returned(code)
                   case AntePanics(p) => Panicked(p)
                   case MsgPanics(p) => Panicked(p)
                   case RefundPanics(p) => Panicked(p))
    && b.state == (match c
                   case Invalid => s
                   case AntePanics(_) => s
                   case Aborts => s
                   case MsgPanics(_) => a
                   case RefundPanics(_) => a
                   case Completes(code) =>
                     if code == CodeOK || RefundRun(s, base, tx).2.result then RefundRun(s, base, tx).0 else a)
  }

  /** The body of a delivered transaction goes its course. */
  lemma BodyCourse(s: Multi, base: Meter, tx: Tx)
    ensures Follows(RunBody(Deliver, s, base, tx), s, base, tx)
  {
    if LetThrough(s, base, tx) { BodyLetThrough(s, base, tx); }
  }

  lemma BodyLetThrough(s: Multi, base: Meter, tx: Tx)
    requires LetThrough(s, base, tx)
    ensures Follows(RunBody(Deliver, s, base, tx), s, base, tx)
  {
    var (a, base', ante) := Start(tx.ante, s, base);
    var g := MeterAfterAnte(s, base, tx);
    MsgsInOrder(tx.msgs, Deliver, a, g);
    assert RunBody(Deliver, s, base, tx) == FromAnte(Deliver, a, base', ante.result, tx);
    assert AfterAnte(Deliver, a, g, ante.result.gasWanted, tx).1 == LastMeter(s, base, tx);
  }

  // ---- Atomicity ----

  /** The ante handler lets the transaction through. */
  predicate Admitted(s: Multi, base: Meter, block: Meter, tx: Tx) {
    !block.IsOutOfGas() && LetThrough(s, base, tx)
  }

  /** Every message is routed and returns OK. */
  predicate AllPass(s: Multi, base: Meter, tx: Tx) {
    var a, g := Start(tx.ante, s, base).0, MeterAfterAnte(s, base, tx);
    forall i :: 0 <= i < |tx.msgs| ==> Passes(tx.msgs, a, g, i)
  }

  /** No proper prefix of the messages is ever visible, whatever panics or fails
      where and whatever code the deferred gas charge leaves behind.  The state is
      left untouched; or with the ante handler's writes; or with those and a refund;
      or, exactly when every message returned OK and the refund did not panic, with
      the whole list of messages in between. */
  lemma DeliverIsAtomic(s: Multi, base: Meter, block: Meter, tx: Tx)
    ensures var s' := RunTx(Deliver, s, base, block, tx).state;
            var (a, _, ante) := Start(tx.ante, s, base);
            var g := MeterAfterAnte(s, base, tx);
            if !Admitted(s, base, block, tx) then s' == s
            else if AllPass(s, base, tx) then
              var (m, gm) := Reached(tx.msgs, a, g, |tx.msgs|);
              var (r, _, paid) := Start(tx.refund(ante.result.gasWanted, gm.consumed), m, gm);
              s' == if paid.Panicked? then a else r
            else
              var n := Stop(tx.msgs, a, g);
              var end, gm := EndOf(tx.msgs, a, g, n), Reached(tx.msgs, a, g, n + 1).1;
              if end.Some? && end.value.Panicked? then s' == a
              else
                var used := if end.Some? then gm.consumed else 0;
                var (r, _, paid) := Start(tx.refund(ante.result.gasWanted, used), a, gm);
                s' == if paid.Panicked? || !paid.result then a else r
  {
    BodyCourse(s, base, tx);
    if LetThrough(s, base, tx) {
      if AllPass(s, base, tx) { WholeList(s, base, tx); } else { NoneOfTheList(s, base, tx); }
    }
  }

  lemma WholeList(s: Multi, base: Meter, tx: Tx)
    requires LetThrough(s, base, tx) && AllPass(s, base, tx)
    ensures var (a, _, ante) := Start(tx.ante, s, base);
            var (m, gm) := Reached(tx.msgs, a, MeterAfterAnte(s, base, tx), |tx.msgs|);
            var (r, _, paid) := Start(tx.refund(ante.result.gasWanted, gm.consumed), m, gm);
            RunBody(Deliver, s, base, tx).state == if paid.Panicked? then a else r
  {
    BodyLetThrough(s, base, tx);
    MsgsByStop(s, base, tx);
  }

  lemma NoneOfTheList(s: Multi, base: Meter, tx: Tx)
    requires LetThrough(s, base, tx) && !AllPass(s, base, tx)
    ensures var (a, _, ante) := Start(tx.ante, s, base);
            var g := MeterAfterAnte(s, base, tx);
            var n := Stop(tx.msgs, a, g);
            n < |tx.msgs| &&
            var end, gm := EndOf(tx.msgs, a, g, n), Reached(tx.msgs, a, g, n + 1).1;
            var s' := RunBody(Deliver, s, base, tx).state;
            if end.Some? && end.value.Panicked? then s' == a
            else
              var used := if end.Some? then gm.consumed else 0;
              var (r, _, paid) := Start(tx.refund(ante.result.gasWanted, used), a, gm);
              s' == if paid.Panicked? || !paid.result then a else r
  {
    BodyLetThrough(s, base, tx);
    MsgsByStop(s, base, tx);
  }

  lemma MsgsByStop(s: Multi, base: Meter, tx: Tx)
    ensures var a, g := Start(tx.ante, s, base).0, MeterAfterAnte(s, base, tx);
            var end, final, n := MsgsEnding(s, base, tx), MsgsFinal(s, base, tx), Stop(tx.msgs, a, g);
            if AllPass(s, base, tx) then
              n == |tx.msgs| && final == Reached(tx.msgs, a, g, n) && end == Returned(MsgsResult(CodeOK, final.1.consumed))
            else
              && n < |tx.msgs| && final == Reached(tx.msgs, a, g, n + 1)
              && match EndOf(tx.msgs, a, g, n)
                 case None => end == Returned(MsgsResult(CodeUnknownRequest, 0))
                 case Some(Panicked(p)) => end == Panicked(p)
                 case Some(Returned(code)) => code != CodeOK && end == Returned(MsgsResult(code, final.1.consumed))
  {
  }

  // ---- Results ----

  /** The code of a recovered panic. */
  function PanicCode(p: PanicKind): Code {
    if p == OutOfGasPanic then CodeOutOfGas else CodeInternal
  }

  predicate ChargeOverflows(block: Meter, amount: Gas) {
    block.consumed + amount > MAX_UINT64
  }

  predicate ChargePastLimit(block: Meter, amount: Gas) {
    !ChargeOverflows(block, amount) && block.Basic? && block.consumed + amount > block.limit
  }

  /** What the block is charged. */
  function Charged(s: Multi, base: Meter, tx: Tx): Gas {
    var m := LastMeter(s, base, tx);
    if m.Basic? && m.consumed > m.limit then m.limit else m.consumed
  }

  /** The answer and the meters of a delivered transaction.  A panic of the block
      charge replaces whatever ended the body. */
  lemma DeliverResult(s: Multi, base: Meter, block: Meter, tx: Tx)
    ensures var e, c, amount := RunTx(Deliver, s, base, block, tx), CourseOf(s, base, tx), Charged(s, base, tx);
            var (_, base', ante) := Start(tx.ante, s, base);
            if block.IsOutOfGas() then e == TxEffect(s, base, block, TxResult(CodeOutOfGas, 0, 0))
            else
              && e.result.gasUsed == LastMeter(s, base, tx).consumed
              && e.result.gasWanted == (if c.Invalid? || c.AntePanics? then 0 else ante.result.gasWanted)
              && e.base == (if !c.Invalid? && ante.Returned? && ante.result.newMeter.Some? then base' else LastMeter(s, base, tx))
              && e.block == block.(consumed := if ChargeOverflows(block, amount) then 0 else block.consumed + amount)
              && e.result.code ==
                   if ChargeOverflows(block, amount) then CodeInternal
                   else if ChargePastLimit(block, amount) then CodeOutOfGas
                   else
                     match c
                     case Invalid => ValidateBasic(tx.msgs)
                     case Aborts => ante.result.code
                     case Completes(code) => code
                     case AntePanics(p) => PanicCode(p)
                     case MsgPanics(p) => PanicCode(p)
                     case RefundPanics(p) => PanicCode(p)
  {
    BodyCourse(s, base, tx);
  }

  /** The charge neither overflows the word nor passes the limit. */
  predicate ChargeFits(s: Multi, base: Meter, block: Meter, tx: Tx) {
    var amount := Charged(s, base, tx);
    !ChargeOverflows(block, amount) && !ChargePastLimit(block, amount)
  }

  /** The answer is OK exactly when the block had gas and the charge fits it, and
      either the transaction was let through, every message returned OK and the
      refund did not panic, or the ante handler aborted with an OK of its own. */
  lemma OkIff(s: Multi, base: Meter, block: Meter, tx: Tx)
    ensures var ante := Start(tx.ante, s, base).2;
            RunTx(Deliver, s, base, block, tx).result.code == CodeOK <==>
              && !block.IsOutOfGas() && ChargeFits(s, base, block, tx)
              && ((LetThrough(s, base, tx) && AllPass(s, base, tx) && !CourseOf(s, base, tx).RefundPanics?)
                  || (CourseOf(s, base, tx).Aborts? && ante.result.code == CodeOK))
  {
    DeliverResult(s, base, block, tx);
    CompletesOkIff(s, base, tx);
  }

  lemma CompletesOkIff(s: Multi, base: Meter, tx: Tx)
    ensures var c := CourseOf(s, base, tx);
            c == Completes(CodeOK) <==> LetThrough(s, base, tx) && AllPass(s, base, tx) && !c.RefundPanics?
    ensures CourseOf(s, base, tx).Invalid? <==> ValidateBasic(tx.msgs) != CodeOK
  {
    MsgsByStop(s, base, tx);
  }

  /** The panic that ends the body, if one does. */
  function BodyPanic(c: Course): Option<PanicKind> {
    match c
    case AntePanics(p) => Some(p)
    case MsgPanics(p) => Some(p)
    case RefundPanics(p) => Some(p)
    case _ => None
  }

  /** The code the body returns, if it returns. */
  function BodyCode(s: Multi, base: Meter, tx: Tx): Option<Code> {
    match CourseOf(s, base, tx)
    case Invalid => Some(ValidateBasic(tx.msgs))
    case Aborts => Some(Start(tx.ante, s, base).2.result.code)
    case Completes(code) => Some(code)
    case _ => None
  }

  /** Out of gas exactly when the block had none left, when the panic that ends
      the run is out of gas, or when that code was returned; internal exactly when
      the panic is another one, or when that code was returned. */
  lemma PanicCodes(s: Multi, base: Meter, block: Meter, tx: Tx)
    ensures var code, c := RunTx(Deliver, s, base, block, tx).result.code, CourseOf(s, base, tx);
            && (code == CodeOutOfGas <==>
                  || block.IsOutOfGas()
                  || ChargePastLimit(block, Charged(s, base, tx))
                  || (ChargeFits(s, base, block, tx) && BodyPanic(c) == Some(OutOfGasPanic))
                  || (ChargeFits(s, base, block, tx) && BodyCode(s, base, tx) == Some(CodeOutOfGas)))
            && (code == CodeInternal <==>
                  && !block.IsOutOfGas()
                  && (|| ChargeOverflows(block, Charged(s, base, tx))
                      || (ChargeFits(s, base, block, tx) && BodyPanic(c) == Some(OtherPanic))
                      || (ChargeFits(s, base, block, tx) && BodyCode(s, base, tx) == Some(CodeInternal))))
  {
    DeliverResult(s, base, block, tx);
  }

  // ---- Check and simulation ----

  /** Checking keeps the ante handler's writes exactly when it lets the transaction
      through, runs no message, and touches no block meter. */
  lemma CheckLaws(s: Multi, base: Meter, block: Meter, tx: Tx)
    ensures var e := RunTx(Check, s, base, block, tx);
            var (a, base', ante) := Start(tx.ante, s, base);
            && e.block == block
            && e.state == (if LetThrough(s, base, tx) then a else s)
            && (ValidateBasic(tx.msgs) != CodeOK ==>
                  e.base == base && e.result == TxResult(ValidateBasic(tx.msgs), 0, base.consumed))
            && (ValidateBasic(tx.msgs) == CodeOK ==>
                  && e.base == base'
                  && e.result == match ante
                                 case Panicked(p) => TxResult(PanicCode(p), 0, base'.consumed)
                                 case Returned(r) =>
                                   TxResult(if r.abort then r.code else if AllRouted(tx.msgs) then CodeOK else CodeUnknownRequest,
                                            r.gasWanted, MeterAfterAnte(s, base, tx).consumed))
  {
    CheckedMsgs(tx.msgs, Start(tx.ante, s, base).0, MeterAfterAnte(s, base, tx));
  }

  /** The same messages to look at, with other bodies in their handlers. */
  ghost predicate SameOutside(tx: Tx, other: Tx) {
    && tx.ante == other.ante && |tx.msgs| == |other.msgs|
    && forall i :: 0 <= i < |tx.msgs| ==>
                   tx.msgs[i].basic == other.msgs[i].basic && tx.msgs[i].handler.Some? == other.msgs[i].handler.Some?
  }

  /** What the handlers would do makes no difference to a check. */
  lemma CheckIgnoresHandlers(s: Multi, base: Meter, block: Meter, tx: Tx, other: Tx)
    requires SameOutside(tx, other)
    ensures RunTx(Check, s, base, block, tx) == RunTx(Check, s, base, block, other)
  {
    CheckLaws(s, base, block, tx);
    CheckLaws(s, base, block, other);
    SameBasic(tx.msgs, other.msgs);
    assert AllRouted(tx.msgs) <==> AllRouted(other.msgs);
  }

  lemma {:induction false} SameBasic(msgs: seq<Msg>, others: seq<Msg>)
    requires |msgs| == |others| && forall i :: 0 <= i < |msgs| ==> msgs[i].basic == others[i].basic
    ensures FirstFailure(msgs) == FirstFailure(others) && ValidateBasic(msgs) == ValidateBasic(others)
  {
    if msgs != [] { SameBasic(msgs[1..], others[1..]); }
  }

  /** A simulation answers as the messages end, without refund or block. */
  lemma SimulateLaws(s: Multi, base: Meter, block: Meter, tx: Tx)
    ensures var e := RunTx(Simulate, s, base, block, tx);
            var (a, base', ante) := Start(tx.ante, s, base);
            && e.block == block
            && (ValidateBasic(tx.msgs) != CodeOK ==>
                  e.base == base && e.result == TxResult(ValidateBasic(tx.msgs), 0, base.consumed))
            && (ValidateBasic(tx.msgs) == CodeOK && !LetThrough(s, base, tx) ==>
                  && e.base == base'
                  && e.result == match ante
                                 case Panicked(p) => TxResult(PanicCode(p), 0, base'.consumed)
                                 case Returned(r) => TxResult(r.code, r.gasWanted, MeterAfterAnte(s, base, tx).consumed))
            && (LetThrough(s, base, tx) ==>
                  var g, end := MsgsFinal(s, base, tx).1, MsgsEnding(s, base, tx);
                  && e.base == (if ante.result.newMeter.Some? then base' else g)
                  && e.result == TxResult(if end.Panicked? then PanicCode(end.panic) else end.result.code,
                                          ante.result.gasWanted, g.consumed))
  {
    if LetThrough(s, base, tx) { SimulatedBody(s, base, tx); }
  }

  lemma SimulatedBody(s: Multi, base: Meter, tx: Tx)
    requires LetThrough(s, base, tx)
    ensures var b, g, end := RunBody(Simulate, s, base, tx), MsgsFinal(s, base, tx).1, MsgsEnding(s, base, tx);
            var (_, base', ante) := Start(tx.ante, s, base);
            && b.Current() == g && b.base == (if ante.result.newMeter.Some? then base' else g)
            && b.gasWanted == ante.result.gasWanted
            && b.ended == if end.Panicked? then Panicked(end.panic) else Returned(end.result.code)
  {
    MsgsInOrder(tx.msgs, Simulate, Start(tx.ante, s, base).0, MeterAfterAnte(s, base, tx));
  }

  // ---- Block gas ----

  /** What a block of transactions does, and what each one that ran was charged. */
  datatype BlockEffect = BlockEffect(state: Multi, base: Meter, block: Meter, charges: seq<Gas>)

  function DeliverAll(s: Multi, base: Meter, block: Meter, txs: seq<Tx>): BlockEffect
    decreases |txs|
  {
    if txs == [] then BlockEffect(s, base, block, [])
    else
      var e := RunTx(Deliver, s, base, block, txs[0]);
      var rest := DeliverAll(e.state, e.base, e.block, txs[1..]);
      rest.(charges := (if block.IsOutOfGas() then [] else [Charged(s, base, txs[0])]) + rest.charges)
  }

  lemma ChargedBlock(s: Multi, base: Meter, block: Meter, tx: Tx)
    requires !block.IsOutOfGas() && block.Basic? && block.consumed + Charged(s, base, tx) <= MAX_UINT64
    ensures RunTx(Deliver, s, base, block, tx).block == Basic(block.limit, block.consumed + Charged(s, base, tx))
  {
    DeliverResult(s, base, block, tx);
  }

  lemma ChargesNext(s: Multi, base: Meter, block: Meter, txs: seq<Tx>)
    requires txs != [] && !block.IsOutOfGas()
    ensures var one, c := RunTx(Deliver, s, base, block, txs[0]), Charged(s, base, txs[0]);
            var e, rest := DeliverAll(s, base, block, txs), DeliverAll(one.state, one.base, one.block, txs[1..]);
            && e == rest.(charges := [c] + rest.charges) && Sum(e.charges) == c + Sum(rest.charges)
            && (AllSmall(e.charges) ==> c < HALF_WORD && AllSmall(rest.charges))
  {
    var one, c := RunTx(Deliver, s, base, block, txs[0]), Charged(s, base, txs[0]);
    var rest := DeliverAll(one.state, one.base, one.block, txs[1..]);
    var charges := [c] + rest.charges;
    assert charges[0] == c && charges[1..] == rest.charges;
    assert forall i :: 0 <= i < |rest.charges| ==> rest.charges[i] == charges[i + 1];
  }

  predicate AllSmall(xs: seq<Gas>) {
    forall i :: 0 <= i < |xs| ==> xs[i] < HALF_WORD
  }

  /** Once the limit is reached no later transaction runs or is charged. */
  lemma {:induction false} ExhaustedBlock(s: Multi, base: Meter, block: Meter, txs: seq<Tx>)
    requires block.IsOutOfGas()
    ensures DeliverAll(s, base, block, txs) == BlockEffect(s, base, block, [])
  {
    if txs != [] { ExhaustedBlock(s, base, block, txs[1..]); }
  }

  /** The block meter is the exact sum of the charges: it never wraps, and it
      passes the limit by less than the last charge. */
  lemma {:induction false} BlockGasIsSum(s: Multi, base: Meter, block: Meter, txs: seq<Tx>)
    requires block.Basic? && block.limit < HALF_WORD && block.consumed <= block.limit
    requires AllSmall(DeliverAll(s, base, block, txs).charges)
    ensures var e := DeliverAll(s, base, block, txs);
            && e.block.Basic? && e.block.limit == block.limit && e.block.consumed == block.consumed + Sum(e.charges)
            && (e.charges != [] ==> e.block.consumed < block.limit + e.charges[|e.charges| - 1])
    decreases |txs|
  {
    if txs != [] {
      if block.IsOutOfGas() {
        ExhaustedBlock(s, base, block, txs);
      } else {
        var one := RunTx(Deliver, s, base, block, txs[0]);
        ChargesNext(s, base, block, txs);
        ChargedBlock(s, base, block, txs[0]);
        if one.block.IsOutOfGas() {
          ExhaustedBlock(one.state, one.base, one.block, txs[1..]);
        } else {
          BlockGasIsSum(one.state, one.base, one.block, txs[1..]);
        }
      }
    }
  }
}
