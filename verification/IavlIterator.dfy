/** The goroutines behind an iterator of the IAVL store, as an interleaving of
    steps: the producer that feeds `iterCh`, the init routine that takes the first
    entry, and any number of callers. */
module IavlIterator {
  import opened Bytes

  datatype Pair = Pair(key: Bytes, value: Bytes)

  datatype Op = Valid | Next | Key | Value

  datatype Result = IsValid(b: bool) | Moved | KeyIs(key: Bytes) | ValueIs(value: Bytes) | Panicked

  /** What callers see, in the order the mutex puts it. */
  datatype Event = Did(op: Op, r: Result) | Closed

  /** `iterateRoutine`: offering entries, returned from the range, channel closed. */
  datatype Producer = Offering | Returned | Finished

  /** `receiveNext`: waiting on the channel, holding what came, key stored, all stored. */
  datatype Receiver = Waiting | Holding(got: Option<Pair>) | KeyStored(pair: Pair) | Stored

  datatype Init = Receiving(r: Receiver) | InitDone

  datatype Caller =
    | Idle
    | AwaitInit(op: Op)
    | AwaitLock(op: Op)
    | Locked(op: Op)
    | InNext(r: Receiver)
    | Unlocking(op: Op, result: Result)

  datatype State = State(
    sent: nat,
    producer: Producer,
    quit: bool,
    init: Init,
    mutex: Option<nat>,
    invalid: bool,
    key: Bytes,
    value: Bytes,
    callers: map<nat, Caller>,
    crashed: bool,
    log: seq<Event>)

  datatype Who = InitRoutine | Caller(t: nat)

  datatype Action =
    | Begin(t: nat, op: Op)   // a caller enters a method
    | CloseQuit               // Close, which its contract allows once
    | Quit                    // the producer's select sees quitCh closed
    | Transfer(to: Who)       // the producer's send meets a receiver
    | Exhaust                 // the range has no more entries
    | CloseIter               // the producer closes iterCh and ends
    | SeeClosed(who: Who)      // a receiver finds iterCh closed
    | Save(who: Who)          // setNext, field by field, or setInvalid
    | FinishInit              // the init routine closes initCh and ends
    | PassInit(t: nat)        // waitInit returns
    | Lock(t: nat)
    | Work(t: nat)            // the body of the method, under the mutex
    | Unlock(t: nat)

  function CallerAt(s: State, t: nat): Caller {
    if t in s.callers then s.callers[t] else Idle
  }

  /** The receiver a goroutine is running, if it is in `receiveNext`. */
  function ReceiverOf(s: State, w: Who): Option<Receiver> {
    match w
    case InitRoutine => if s.init.Receiving? then Some(s.init.r) else None
    case Caller(t) => if CallerAt(s, t).InNext? then Some(CallerAt(s, t).r) else None
  }

  function WithReceiver(s: State, w: Who, r: Receiver): State {
    match w
    case InitRoutine => s.(init := Receiving(r))
    case Caller(t) => s.(callers := s.callers[t := InNext(r)])
  }

  predicate CanSave(r: Receiver) {
    r.Holding? || r.KeyStored?
  }

  predicate Enabled(items: seq<Pair>, s: State, a: Action) {
    !s.crashed &&
    match a
    case Begin(t, op) => CallerAt(s, t).Idle?
    case CloseQuit => !s.quit
    case Quit => s.producer.Offering? && s.sent < |items| && s.quit
    case Transfer(to) => s.producer.Offering? && s.sent < |items| && ReceiverOf(s, to) == Some(Waiting)
    case Exhaust => s.producer.Offering? && s.sent == |items|
    case CloseIter => s.producer.Returned?
    case SeeClosed(who) => s.producer.Finished? && ReceiverOf(s, who) == Some(Waiting)
    case Save(who) => ReceiverOf(s, who).Some? && CanSave(ReceiverOf(s, who).value)
    case FinishInit => s.init == Receiving(Stored)
    case PassInit(t) => CallerAt(s, t).AwaitInit? && s.init.InitDone?
    case Lock(t) => CallerAt(s, t).AwaitLock? && s.mutex.None?
    case Work(t) => CallerAt(s, t).Locked? || CallerAt(s, t) == InNext(Stored)
    case Unlock(t) => CallerAt(s, t).Unlocking?
  }

  function Apply(items: seq<Pair>, s: State, a: Action): State
    requires Enabled(items, s, a)
  {
    match a
    case Begin(t, op) => s.(callers := s.callers[t := AwaitInit(op)])
    case CloseQuit => s.(quit := true, log := s.log + [Closed])
    case Quit => s.(producer := Returned)
    case Transfer(to) => WithReceiver(s.(sent := s.sent + 1), to, Holding(Some(items[s.sent])))
    case Exhaust => s.(producer := Returned)
    case CloseIter => s.(producer := Finished)
    case SeeClosed(who) => WithReceiver(s, who, Holding(None))
    case Save(who) => SaveStep(s, who, ReceiverOf(s, who).value)
    case FinishInit => s.(init := InitDone)
    case PassInit(t) => s.(callers := s.callers[t := AwaitLock(CallerAt(s, t).op)])
    case Lock(t) => s.(mutex := Some(t), callers := s.callers[t := Locked(CallerAt(s, t).op)])
    case Work(t) => WorkStep(s, t)
    case Unlock(t) =>
      var c := CallerAt(s, t);
      s.(mutex := None, callers := s.callers[t := Idle], log := s.log + [Did(c.op, c.result)])
  }

  /** `assertIsValid(false)` guards the first store of `setNext` and of `setInvalid`. */
  function SaveStep(s: State, who: Who, r: Receiver): State
    requires CanSave(r)
  {
    if r.KeyStored? then WithReceiver(s.(value := r.pair.value), who, Stored)
    else if s.invalid then s.(crashed := true)
    else if r.got.Some? then WithReceiver(s.(key := r.got.value.key), who, KeyStored(r.got.value))
    else WithReceiver(s.(invalid := true), who, Stored)
  }

  function WorkStep(s: State, t: nat): State
    requires CallerAt(s, t).Locked? || CallerAt(s, t).InNext?
  {
    var c := CallerAt(s, t);
    var c' :=
      if c.InNext? then Unlocking(Next, Moved)
      else if c.op.Valid? then Unlocking(Valid, IsValid(!s.invalid))
      else if s.invalid then Unlocking(c.op, Panicked)
      else if c.op.Key? then Unlocking(Key, KeyIs(s.key))
      else if c.op.Value? then Unlocking(Value, ValueIs(s.value))
      else InNext(Waiting);
    s.(callers := s.callers[t := c'])
  }

  function Start(): State {
    State(0, Offering, false, Receiving(Waiting), None, false, [], [], map[], false, [])
  }

  // ---- What callers may see ----

  /** What a log tells: how far the completed calls of Next have moved, whether
      the end was seen, whether Close was called, and whether every observation fits. */
  datatype Seen = Seen(position: nat, sawEnd: bool, closed: bool, legal: bool)

  function See(items: seq<Pair>, log: seq<Event>): Seen {
    if log == [] then Seen(0, false, false, true)
    else Extend(items, See(items, log[..|log| - 1]), log[|log| - 1])
  }

  function Extend(items: seq<Pair>, v: Seen, e: Event): Seen {
    Seen(if e == Did(Next, Moved) then v.position + 1 else v.position,
         v.sawEnd || (e.Did? && (e.r == IsValid(false) || e.r.Panicked?)),
         v.closed || e.Closed?,
         v.legal && Fits(items, v, e))
  }

  /** An observation fits a plain list iterator at its position: once the end is
      seen it stays, and the end comes where the list ends, or after Close. */
  predicate Fits(items: seq<Pair>, before: Seen, e: Event) {
    var p := before.position;
    match e
    case Closed => !before.closed
    case Did(op, r) =>
      match r
      case IsValid(true) => op.Valid? && p < |items| && !before.sawEnd
      case IsValid(false) => op.Valid? && (p == |items| || before.closed)
      case Panicked => !op.Valid? && (p == |items| || before.closed)
      case Moved => op.Next? && p < |items| && !before.sawEnd
      case KeyIs(k) => op.Key? && p < |items| && !before.sawEnd && k == items[p].key
      case ValueIs(v) => op.Value? && p < |items| && !before.sawEnd && v == items[p].value
  }

  /** Every observation in the log fits those before it. */
  predicate Legal(items: seq<Pair>, log: seq<Event>) {
    See(items, log).legal
  }

  // ---- The invariant ----

  /** `receiveNext`, begun when `base` entries had been received. */
  predicate ReceiverInv(items: seq<Pair>, s: State, r: Receiver, base: nat) {
    match r
    case Waiting => !s.invalid && s.sent == base
    case Holding(None) => !s.invalid && s.sent == base && s.producer.Finished?
    case Holding(Some(p)) => !s.invalid && base < |items| && s.sent == base + 1 && p == items[base]
    case KeyStored(p) => !s.invalid && base < |items| && s.sent == base + 1 && p == items[base] && s.key == p.key
    case Stored => Settled(items, s, base)
  }

  /** The current entry is the one at position `p`; or there is none, and the
      list ended there or Close was called. */
  predicate Settled(items: seq<Pair>, s: State, p: nat) {
    if s.invalid then s.producer.Finished? && (p == |items| || s.quit)
    else s.sent == p + 1 <= |items| && s.key == items[p].key && s.value == items[p].value
  }

  predicate InSection(c: Caller) {
    c.Locked? || c.InNext? || c.Unlocking?
  }

  predicate CallerInv(items: seq<Pair>, s: State, v: Seen, c: Caller) {
    var p := v.position;
    match c
    case Locked(op) => Settled(items, s, p)
    case InNext(r) => ReceiverInv(items, s, r, p + 1) && p < |items| && !v.sawEnd
    case Unlocking(op, r) =>
      if op.Next? && r.Moved? then Settled(items, s, p + 1) && p < |items| && !v.sawEnd
      else Settled(items, s, p) && Fits(items, v, Did(op, r)) && !r.Moved? &&
           (r == IsValid(false) || r.Panicked? ==> s.invalid)
    case _ => true
  }

  /** Where each goroutine may be, given where the others are and what was seen. */
  predicate InvWith(items: seq<Pair>, s: State, v: Seen) {
    && !s.crashed && s.sent <= |items| && v.legal && v.closed == s.quit
    && (!s.producer.Offering? ==> s.sent == |items| || s.quit)
    && (v.sawEnd ==> s.invalid)
    && (s.init.Receiving? ==>
          && ReceiverInv(items, s, s.init.r, 0) && v.position == 0 && !v.sawEnd
          && forall t :: t in s.callers ==> s.callers[t].Idle? || s.callers[t].AwaitInit?)
    && (s.init.InitDone? && (s.mutex.None? || !InSection(CallerAt(s, s.mutex.value))) ==> Settled(items, s, v.position))
    && (s.mutex.Some? ==> InSection(CallerAt(s, s.mutex.value)))
    && forall t :: t in s.callers && InSection(s.callers[t]) ==> s.mutex == Some(t) && CallerInv(items, s, v, s.callers[t])
  }

  predicate Inv(items: seq<Pair>, s: State) {
    InvWith(items, s, See(items, s.log))
  }

  lemma StartInv(items: seq<Pair>)
    ensures Inv(items, Start())
  {
  }

  lemma Logged(items: seq<Pair>, log: seq<Event>, e: Event)
    ensures See(items, log + [e]) == Extend(items, See(items, log), e)
  {
    var l := log + [e];
    assert l[..|l| - 1] == log && l[|log|] == e;
  }

  /** Every step keeps the invariant. */
  lemma StepInv(items: seq<Pair>, s: State, a: Action)
    requires Inv(items, s) && Enabled(items, s, a)
    ensures Inv(items, Apply(items, s, a))
  {
    match a
    case Begin(t, op) => BeginInv(items, s, t, op);
    case CloseQuit => CloseInv(items, s);
    case Quit => ProducerInv(items, s, a);
    case Transfer(to) => TransferInv(items, s, to);
    case Exhaust => ProducerInv(items, s, a);
    case CloseIter => ProducerInv(items, s, a);
    case SeeClosed(who) => SeeClosedInv(items, s, who);
    case Save(who) => SaveInv(items, s, who);
    case FinishInit => FinishInitInv(items, s);
    case PassInit(t) => PassInitInv(items, s, t);
    case Lock(t) => LockInv(items, s, t);
    case Work(t) => WorkInv(items, s, t);
    case Unlock(t) => UnlockInv(items, s, t);
  }

  lemma BeginInv(items: seq<Pair>, s: State, t: nat, op: Op)
    requires Inv(items, s) && Enabled(items, s, Begin(t, op))
    ensures Inv(items, Apply(items, s, Begin(t, op)))
  {
    var s' := Apply(items, s, Begin(t, op));
    assert s.mutex != Some(t);
    assert forall u :: u != t ==> CallerAt(s', u) == CallerAt(s, u);
  }

  lemma PassInitInv(items: seq<Pair>, s: State, t: nat)
    requires Inv(items, s) && Enabled(items, s, PassInit(t))
    ensures Inv(items, Apply(items, s, PassInit(t)))
  {
  }

  lemma LockInv(items: seq<Pair>, s: State, t: nat)
    requires Inv(items, s) && Enabled(items, s, Lock(t))
    ensures Inv(items, Apply(items, s, Lock(t)))
  {
  }

  lemma FinishInitInv(items: seq<Pair>, s: State)
    requires Inv(items, s) && Enabled(items, s, FinishInit)
    ensures Inv(items, Apply(items, s, FinishInit))
  {
  }

  lemma ProducerInv(items: seq<Pair>, s: State, a: Action)
    requires Inv(items, s) && Enabled(items, s, a) && (a.Quit? || a.Exhaust? || a.CloseIter?)
    ensures Inv(items, Apply(items, s, a))
  {
  }

  lemma CloseInv(items: seq<Pair>, s: State)
    requires Inv(items, s) && Enabled(items, s, CloseQuit)
    ensures Inv(items, Apply(items, s, CloseQuit))
  {
    Logged(items, s.log, Closed);
    var v := See(items, s.log);
    CloseInvWith(items, s, v);
  }

  lemma CloseInvWith(items: seq<Pair>, s: State, v: Seen)
    requires InvWith(items, s, v) && !s.quit
    ensures InvWith(items, s.(quit := true, log := s.log + [Closed]), Extend(items, v, Closed))
  {
  }

  lemma TransferInv(items: seq<Pair>, s: State, who: Who)
    requires Inv(items, s) && Enabled(items, s, Transfer(who))
    ensures Inv(items, Apply(items, s, Transfer(who)))
  {
  }

  lemma SeeClosedInv(items: seq<Pair>, s: State, who: Who)
    requires Inv(items, s) && Enabled(items, s, SeeClosed(who))
    ensures Inv(items, Apply(items, s, SeeClosed(who)))
  {
  }

  lemma SaveInv(items: seq<Pair>, s: State, who: Who)
    requires Inv(items, s) && Enabled(items, s, Save(who))
    ensures Inv(items, Apply(items, s, Save(who)))
  {
    if who.InitRoutine? { InitSaves(items, s); } else { CallerSaves(items, s, who.t); }
  }

  lemma InitSaves(items: seq<Pair>, s: State)
    requires Inv(items, s) && Enabled(items, s, Save(InitRoutine))
    ensures Inv(items, Apply(items, s, Save(InitRoutine)))
  {
  }

  lemma CallerSaves(items: seq<Pair>, s: State, t: nat)
    requires Inv(items, s) && Enabled(items, s, Save(Caller(t)))
    ensures Inv(items, Apply(items, s, Save(Caller(t))))
  {
  }

  /** At most one goroutine is in `receiveNext`. */
  lemma OneReceiver(items: seq<Pair>, s: State, v: Who, w: Who)
    requires Inv(items, s) && ReceiverOf(s, v).Some? && ReceiverOf(s, w).Some?
    ensures v == w
  {
  }

  lemma WorkInv(items: seq<Pair>, s: State, t: nat)
    requires Inv(items, s) && Enabled(items, s, Work(t))
    ensures Inv(items, Apply(items, s, Work(t)))
  {
  }

  lemma UnlockInv(items: seq<Pair>, s: State, t: nat)
    requires Inv(items, s) && Enabled(items, s, Unlock(t))
    ensures Inv(items, Apply(items, s, Unlock(t)))
  {
    var c := CallerAt(s, t);
    Logged(items, s.log, Did(c.op, c.result));
    UnlockInvWith(items, s, See(items, s.log), t);
  }

  lemma UnlockInvWith(items: seq<Pair>, s: State, v: Seen, t: nat)
    requires InvWith(items, s, v) && CallerAt(s, t).Unlocking?
    ensures var c := CallerAt(s, t);
            var e := Did(c.op, c.result);
            InvWith(items, s.(mutex := None, callers := s.callers[t := Idle], log := s.log + [e]), Extend(items, v, e))
  {
  }

  // ---- Whole runs ----

  predicate Runs(items: seq<Pair>, s: State, actions: seq<Action>)
    decreases |actions|
  {
    actions == [] || (Enabled(items, s, actions[0]) && Runs(items, Apply(items, s, actions[0]), actions[1..]))
  }

  function After(items: seq<Pair>, s: State, actions: seq<Action>): State
    requires Runs(items, s, actions)
    decreases |actions|
  {
    if actions == [] then s else After(items, Apply(items, s, actions[0]), actions[1..])
  }

  /** Every interleaving: `setNext` and `setInvalid` never panic, and callers see
      the entries of the range in order, none lost or repeated, as far as they ask
      and until Close. */
  lemma {:induction false} EveryRun(items: seq<Pair>, s: State, actions: seq<Action>)
    requires Inv(items, s) && Runs(items, s, actions)
    ensures Inv(items, After(items, s, actions))
    decreases |actions|
  {
    if actions != [] {
      StepInv(items, s, actions[0]);
      EveryRun(items, Apply(items, s, actions[0]), actions[1..]);
    }
  }

  lemma EveryRunFromStart(items: seq<Pair>, actions: seq<Action>)
    requires Runs(items, Start(), actions)
    ensures var s := After(items, Start(), actions);
            !s.crashed && Legal(items, s.log) && forall v, w | ReceiverOf(s, v).Some? && ReceiverOf(s, w).Some? :: v == w
  {
    StartInv(items);
    EveryRun(items, Start(), actions);
    var s := After(items, Start(), actions);
    forall v, w | ReceiverOf(s, v).Some? && ReceiverOf(s, w).Some? ensures v == w { OneReceiver(items, s, v, w); }
  }

  // ---- Progress ----

  /** Steps of the two goroutines the iterator starts. */
  predicate Background(a: Action) {
    || a.Quit? || a.Exhaust? || a.CloseIter? || a.FinishInit? || a == Transfer(InitRoutine) || a == SeeClosed(InitRoutine)
    || a == Save(InitRoutine)
  }

  function ReceiverLeft(r: Receiver): nat {
    match r
    case Waiting => 4
    case Holding(_) => 3
    case KeyStored(_) => 2
    case Stored => 1
  }

  /** How many steps the background goroutines have left at most. */
  function Left(items: seq<Pair>, s: State): nat
    requires s.sent <= |items|
  {
    |items| - s.sent
    + (match s.producer case Offering => 2 case Returned => 1 case Finished => 0)
    + (if s.init.Receiving? then ReceiverLeft(s.init.r) else 0)
  }

  predicate GoroutinesDone(s: State) {
    s.producer.Finished? && s.init.InitDone?
  }

  /** After Close, the background goroutines always have a step to take until
      both are done. */
  lemma ClosedMovesOn(items: seq<Pair>, s: State) returns (a: Action)
    requires Inv(items, s) && s.quit && !GoroutinesDone(s)
    ensures Background(a) && Enabled(items, s, a)
  {
    if s.producer.Offering? {
      a := if s.sent < |items| then Quit else Exhaust;
    } else if s.producer.Returned? {
      a := CloseIter;
    } else if s.init.r.Waiting? {
      a := SeeClosed(InitRoutine);
    } else if s.init.r.Stored? {
      a := FinishInit;
    } else {
      a := Save(InitRoutine);
    }
  }

  lemma LeftDrops(items: seq<Pair>, s: State, a: Action)
    requires Inv(items, s) && Enabled(items, s, a)
    ensures Apply(items, s, a).sent <= |items| && Left(items, Apply(items, s, a)) + (if Background(a) then 1 else 0) <= Left(items, s)
  {
    if Background(a) { BackgroundDrops(items, s, a); } else { CallersKeepLeft(items, s, a); }
  }

  lemma BackgroundDrops(items: seq<Pair>, s: State, a: Action)
    requires Inv(items, s) && Enabled(items, s, a) && Background(a)
    ensures var s' := Apply(items, s, a);
            s'.sent <= |items| && Left(items, s') < Left(items, s) && s'.callers == s.callers
  {
  }

  lemma CallersKeepLeft(items: seq<Pair>, s: State, a: Action)
    requires Inv(items, s) && Enabled(items, s, a) && !Background(a)
    ensures var s' := Apply(items, s, a);
            s'.sent <= |items| && Left(items, s') <= Left(items, s)
  {
  }

  function BackgroundSteps(actions: seq<Action>): nat {
    if actions == [] then 0 else (if Background(actions[0]) then 1 else 0) + BackgroundSteps(actions[1..])
  }

  /** Whatever the callers do, the background goroutines take a bounded number
      of steps, so with `ClosedMovesOn` they end after a Close. */
  lemma {:induction false} BackgroundEnds(items: seq<Pair>, s: State, actions: seq<Action>)
    requires Inv(items, s) && Runs(items, s, actions)
    ensures After(items, s, actions).sent <= |items|
    ensures BackgroundSteps(actions) + Left(items, After(items, s, actions)) <= Left(items, s)
    decreases |actions|
  {
    if actions != [] {
      StepInv(items, s, actions[0]);
      LeftDrops(items, s, actions[0]);
      BackgroundEnds(items, Apply(items, s, actions[0]), actions[1..]);
    }
  }

  /** From any state after Close, letting the background goroutines run ends them both. */
  lemma {:induction false} CloseFinishes(items: seq<Pair>, s: State) returns (actions: seq<Action>)
    requires Inv(items, s) && s.quit
    ensures Runs(items, s, actions) && GoroutinesDone(After(items, s, actions))
    ensures |actions| <= Left(items, s) && forall a :: a in actions ==> Background(a)
    decreases Left(items, s)
  {
    if GoroutinesDone(s) { return []; }
    var a := ClosedMovesOn(items, s);
    StepInv(items, s, a);
    LeftDrops(items, s, a);
    var rest := CloseFinishes(items, Apply(items, s, a));
    actions := [a] + rest;
    assert actions[1..] == rest;
  }

  /** No call hangs: while one is under way, someone can take a step. */
  lemma CallsMoveOn(items: seq<Pair>, s: State, t: nat) returns (a: Action)
    requires Inv(items, s) && !CallerAt(s, t).Idle?
    ensures Enabled(items, s, a) && !a.Begin? && !a.CloseQuit?
  {
    if s.init.Receiving? {
      a := ReceiverMovesOn(items, s, InitRoutine);
    } else if s.mutex.Some? {
      var h := s.mutex.value;
      if CallerAt(s, h).Unlocking? {
        a := Unlock(h);
      } else if CallerAt(s, h).InNext? {
        a := ReceiverMovesOn(items, s, Caller(h));
      } else {
        a := Work(h);
      }
    } else {
      a := if CallerAt(s, t).AwaitInit? then PassInit(t) else Lock(t);
    }
  }

  lemma ReceiverMovesOn(items: seq<Pair>, s: State, who: Who) returns (a: Action)
    requires Inv(items, s) && ReceiverOf(s, who).Some?
    ensures Enabled(items, s, a) && !a.Begin? && !a.CloseQuit?
  {
    var r := ReceiverOf(s, who).value;
    if CanSave(r) {
      a := Save(who);
    } else if r.Stored? {
      a := if who.InitRoutine? then FinishInit else Work(who.t);
    } else if s.producer.Finished? {
      a := SeeClosed(who);
    } else if s.producer.Returned? {
      a := CloseIter;
    } else {
      a := if s.sent < |items| then Transfer(who) else Exhaust;
    }
  }

  // ---- No call runs for ever ----

  /** How many steps of its own a call has left at most. */
  function CallLeft(c: Caller): nat {
    match c
    case Idle => 0
    case AwaitInit(_) => 8
    case AwaitLock(_) => 7
    case Locked(_) => 6
    case InNext(r) => 1 + ReceiverLeft(r)
    case Unlocking(_, _) => 1
  }

  function CallsLeft(callers: map<nat, Caller>, n: nat): nat {
    if n == 0 then 0
    else CallsLeft(callers, n - 1) + if n - 1 in callers then CallLeft(callers[n - 1]) else 0
  }

  /** The steps that the goroutines and the calls of the first `n` callers have left. */
  function StepsLeft(items: seq<Pair>, s: State, n: nat): nat
    requires s.sent <= |items|
  {
    Left(items, s) + CallsLeft(s.callers, n)
  }

  predicate Below(s: State, n: nat) {
    forall t :: t in s.callers ==> t < n
  }

  lemma {:induction false} CallsLeftUpdate(callers: map<nat, Caller>, n: nat, t: nat, c: Caller)
    requires t in callers || CallLeft(c) > 0
    ensures CallsLeft(callers[t := c], n)
         == CallsLeft(callers, n) + if t < n then CallLeft(c) - (if t in callers then CallLeft(callers[t]) else 0) else 0
  {
    if n > 0 { CallsLeftUpdate(callers, n - 1, t, c); }
  }

  /** The caller whose step an action is. */
  function CallerOf(a: Action): Option<nat> {
    match a
    case Transfer(Caller(t)) => Some(t)
    case SeeClosed(Caller(t)) => Some(t)
    case Save(Caller(t)) => Some(t)
    case PassInit(t) => Some(t)
    case Lock(t) => Some(t)
    case Work(t) => Some(t)
    case Unlock(t) => Some(t)
    case _ => None
  }

  lemma CallDrops(items: seq<Pair>, s: State, a: Action)
    requires Inv(items, s) && Enabled(items, s, a) && CallerOf(a).Some?
    ensures var s', t := Apply(items, s, a), CallerOf(a).value;
            && t in s.callers && t in s'.callers && s'.callers == s.callers[t := s'.callers[t]]
            && CallLeft(s'.callers[t]) < CallLeft(s.callers[t])
  {
  }

  /** Every step but the start of a call and Close brings the end closer. */
  lemma StepLowers(items: seq<Pair>, s: State, a: Action, n: nat)
    requires Inv(items, s) && Enabled(items, s, a) && !a.Begin? && !a.CloseQuit? && Below(s, n)
    ensures var s' := Apply(items, s, a);
            s'.sent <= |items| && Below(s', n) && StepsLeft(items, s', n) < StepsLeft(items, s, n)
  {
    if Background(a) {
      BackgroundDrops(items, s, a);
    } else {
      var s', t := Apply(items, s, a), CallerOf(a).value;
      CallersKeepLeft(items, s, a);
      CallDrops(items, s, a);
      CallsLeftUpdate(s.callers, n, t, s'.callers[t]);
    }
  }

  /** The start of a call adds its steps, and Close adds none. */
  lemma BeginRaises(items: seq<Pair>, s: State, a: Action, n: nat)
    requires Inv(items, s) && Enabled(items, s, a) && (a.CloseQuit? || (a.Begin? && a.t < n)) && Below(s, n)
    ensures var s' := Apply(items, s, a);
            && s'.sent <= |items| && Below(s', n)
            && StepsLeft(items, s', n) == StepsLeft(items, s, n) + if a.Begin? then 8 else 0
  {
    if a.Begin? { CallsLeftUpdate(s.callers, n, a.t, AwaitInit(a.op)); }
  }

  function Begins(actions: seq<Action>): nat {
    if actions == [] then 0 else (if actions[0].Begin? then 1 else 0) + Begins(actions[1..])
  }

  function Closes(actions: seq<Action>): nat {
    if actions == [] then 0 else (if actions[0].CloseQuit? then 1 else 0) + Closes(actions[1..])
  }

  /** In every run, the steps that are neither the start of a call nor Close are at
      most those left at first and eight for each call started: every call ends. */
  lemma {:induction false} RunsAreBounded(items: seq<Pair>, s: State, actions: seq<Action>, n: nat)
    requires Inv(items, s) && Runs(items, s, actions) && Below(s, n)
    requires forall a :: a in actions && a.Begin? ==> a.t < n
    ensures After(items, s, actions).sent <= |items| && Below(After(items, s, actions), n)
    ensures |actions| - Begins(actions) - Closes(actions) + StepsLeft(items, After(items, s, actions), n)
         <= StepsLeft(items, s, n) + 8 * Begins(actions)
    decreases |actions|
  {
    if actions != [] {
      var a := actions[0];
      StepInv(items, s, a);
      if a.Begin? || a.CloseQuit? { BeginRaises(items, s, a, n); } else { StepLowers(items, s, a, n); }
      RunsAreBounded(items, Apply(items, s, a), actions[1..], n);
    }
  }

  predicate AllIdle(s: State) {
    forall t :: t in s.callers ==> s.callers[t].Idle?
  }

  /** From any state, the calls under way can be brought to their ends without a
      new call and without Close. */
  lemma {:induction false} CallsFinish(items: seq<Pair>, s: State, n: nat) returns (actions: seq<Action>)
    requires Inv(items, s) && Below(s, n)
    ensures Runs(items, s, actions) && AllIdle(After(items, s, actions))
    ensures |actions| <= StepsLeft(items, s, n) && forall a :: a in actions ==> !a.Begin? && !a.CloseQuit?
    decreases StepsLeft(items, s, n)
  {
    if AllIdle(s) { return []; }
    var t :| t in s.callers && !s.callers[t].Idle?;
    var a := CallsMoveOn(items, s, t);
    StepInv(items, s, a);
    StepLowers(items, s, a, n);
    var rest := CallsFinish(items, Apply(items, s, a), n);
    actions := [a] + rest;
    assert actions[1..] == rest;
  }

  /** Without Close the producer stays: an entry nobody asks for blocks it. */
  lemma ProducerWaits(items: seq<Pair>, s: State)
    requires Inv(items, s) && s.producer.Offering? && s.sent < |items| && !s.quit
    requires forall w :: ReceiverOf(s, w) != Some(Waiting)
    ensures forall a :: Enabled(items, s, a) ==> Apply(items, s, a).producer.Offering? && Apply(items, s, a).sent == s.sent
  {
  }
}
