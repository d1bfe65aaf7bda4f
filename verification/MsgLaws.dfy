/** What a list of messages does, told message by message from their handlers alone. */
module MsgLaws {
  import opened Bytes
  import opened CacheMulti
  import opened Gas
  import opened Handlers
  import opened TxSpec

  /** State and meter when message `i` is reached, every earlier one having run. */
  function Reached(msgs: seq<Msg>, s: Multi, g: Meter, i: nat): (r: (Multi, Meter))
    requires i <= |msgs|
    ensures r.0.Keys == s.Keys
  {
    if i == 0 then (s, g)
    else
      var (s', g') := Reached(msgs, s, g, i - 1);
      var h := msgs[i - 1].handler;
      if h.None? then (s', g') else (Start(h.value, s', g').0, Start(h.value, s', g').1)
  }

  /** What the handler of message `i` ends with when it is reached; `None` without a route. */
  function EndOf(msgs: seq<Msg>, s: Multi, g: Meter, i: nat): Option<Ran<Code>>
    requires i < |msgs|
  {
    var (s', g') := Reached(msgs, s, g, i);
    if msgs[i].handler.None? then None else Some(Start(msgs[i].handler.value, s', g').2)
  }

  predicate Passes(msgs: seq<Msg>, s: Multi, g: Meter, i: nat)
    requires i < |msgs|
  {
    EndOf(msgs, s, g, i) == Some(Returned(CodeOK))
  }

  /** `n` is the first message that is not routed or does not return OK, or the end of the list. */
  predicate StopsAt(msgs: seq<Msg>, s: Multi, g: Meter, n: nat) {
    && n <= |msgs| && (forall i :: 0 <= i < n ==> Passes(msgs, s, g, i))
    && (n < |msgs| ==> !Passes(msgs, s, g, n))
  }

  function StopFrom(msgs: seq<Msg>, s: Multi, g: Meter, i: nat): (n: nat)
    requires i <= |msgs| && forall j :: 0 <= j < i ==> Passes(msgs, s, g, j)
    ensures StopsAt(msgs, s, g, n)
    decreases |msgs| - i
  {
    if i < |msgs| && Passes(msgs, s, g, i) then StopFrom(msgs, s, g, i + 1) else i
  }

  /** Where the list stops. */
  function Stop(msgs: seq<Msg>, s: Multi, g: Meter): (n: nat)
    ensures StopsAt(msgs, s, g, n)
  {
    StopFrom(msgs, s, g, 0)
  }

  /** How the list ends: OK at its end, the panic or the code of the message it
      stops at, or an unknown route.  Gas is what the meter counts there, except
      that an unknown route reports none. */
  function Ending(msgs: seq<Msg>, s: Multi, g: Meter): Ran<MsgsResult> {
    var n := Stop(msgs, s, g);
    var used := Reached(msgs, s, g, if n < |msgs| then n + 1 else n).1.consumed;
    if n == |msgs| then Returned(MsgsResult(CodeOK, used))
    else
      match EndOf(msgs, s, g, n)
      case None => Returned(MsgsResult(CodeUnknownRequest, 0))
      case Some(Panicked(p)) => Panicked(p)
      case Some(Returned(code)) => Returned(MsgsResult(code, used))
  }

  /** State and meter after the last message that ran. */
  function Final(msgs: seq<Msg>, s: Multi, g: Meter): (r: (Multi, Meter))
    ensures r.0.Keys == s.Keys
  {
    var n := Stop(msgs, s, g);
    Reached(msgs, s, g, if n < |msgs| then n + 1 else n)
  }

  // ---- The fold of handlers and the trace agree ----

  lemma {:induction false} ReachedNext(msgs: seq<Msg>, s: Multi, g: Meter, i: nat)
    requires i < |msgs| && msgs[0].handler.Some?
    ensures var e := Start(msgs[0].handler.value, s, g);
            Reached(msgs, s, g, i + 1) == Reached(msgs[1..], e.0, e.1, i)
  {
    if i > 0 { ReachedNext(msgs, s, g, i - 1); }
  }

  lemma StopNext(msgs: seq<Msg>, s: Multi, g: Meter)
    requires msgs != [] && Passes(msgs, s, g, 0)
    ensures var e := Start(msgs[0].handler.value, s, g);
            Stop(msgs, s, g) == Stop(msgs[1..], e.0, e.1) + 1
  {
    var e := Start(msgs[0].handler.value, s, g);
    var n := Stop(msgs[1..], e.0, e.1);
    forall i | 0 <= i < |msgs| - 1
      ensures Passes(msgs, s, g, i + 1) <==> Passes(msgs[1..], e.0, e.1, i)
    {
      ReachedNext(msgs, s, g, i);
    }
    forall i | 0 <= i < n + 1
      ensures Passes(msgs, s, g, i)
    {
      if i > 0 { assert Passes(msgs[1..], e.0, e.1, i - 1); }
    }
    OneStop(msgs, s, g, n + 1, Stop(msgs, s, g));
  }

  lemma OneStop(msgs: seq<Msg>, s: Multi, g: Meter, m: nat, n: nat)
    requires StopsAt(msgs, s, g, m) && StopsAt(msgs, s, g, n)
    ensures m == n
  {
  }

  /** Outside check mode: the messages run in order up to the first that is not
      routed or does not return OK, and no later one runs. */
  lemma {:induction false} MsgsInOrder(msgs: seq<Msg>, mode: Mode, s: Multi, g: Meter)
    requires mode != Check
    ensures var (s', g') := Final(msgs, s, g);
            RunMsgs(msgs, mode, s, g) == (s', g', Ending(msgs, s, g))
    decreases |msgs|
  {
    if msgs != [] && Passes(msgs, s, g, 0) {
      var e := Start(msgs[0].handler.value, s, g);
      MsgsInOrder(msgs[1..], mode, e.0, e.1);
      EndingNext(msgs, s, g);
    } else {
      OneStop(msgs, s, g, 0, Stop(msgs, s, g));
      if msgs != [] { assert Reached(msgs, s, g, 0) == (s, g); }
    }
  }

  lemma EndingNext(msgs: seq<Msg>, s: Multi, g: Meter)
    requires msgs != [] && Passes(msgs, s, g, 0)
    ensures var e := Start(msgs[0].handler.value, s, g);
            Final(msgs, s, g) == Final(msgs[1..], e.0, e.1) && Ending(msgs, s, g) == Ending(msgs[1..], e.0, e.1)
  {
    var e := Start(msgs[0].handler.value, s, g);
    var n := Stop(msgs[1..], e.0, e.1);
    StopNext(msgs, s, g);
    ReachedNext(msgs, s, g, n);
    if n < |msgs| - 1 { ReachedNext(msgs, s, g, n + 1); }
  }

  /** The list is OK exactly when every message is routed and returned OK; then
      the state is the effect of all of them in turn. */
  lemma SuccessIsWhole(msgs: seq<Msg>, mode: Mode, s: Multi, g: Meter)
    requires mode != Check
    ensures var (s', g', ran) := RunMsgs(msgs, mode, s, g);
            && (ran.Returned? && ran.result.code == CodeOK <==> forall i :: 0 <= i < |msgs| ==> Passes(msgs, s, g, i))
            && (ran.Returned? && ran.result.code == CodeOK ==>
                  (s', g') == Reached(msgs, s, g, |msgs|) && ran.result.gasUsed == g'.consumed)
  {
    MsgsInOrder(msgs, mode, s, g);
    var n := Stop(msgs, s, g);
    if n < |msgs| { assert !Passes(msgs, s, g, n); }
  }

  predicate AllRouted(msgs: seq<Msg>) {
    forall i :: 0 <= i < |msgs| ==> msgs[i].handler.Some?
  }

  /** In check mode no handler runs: only the routes are looked up. */
  lemma {:induction false} CheckedMsgs(msgs: seq<Msg>, s: Multi, g: Meter)
    ensures RunMsgs(msgs, Check, s, g)
         == (s, g, Returned(if AllRouted(msgs) then MsgsResult(CodeOK, g.consumed) else MsgsResult(CodeUnknownRequest, 0)))
    decreases |msgs|
  {
    if msgs != [] && msgs[0].handler.Some? {
      CheckedMsgs(msgs[1..], s, g);
      assert AllRouted(msgs) <==> AllRouted(msgs[1..]) by { assert msgs == [msgs[0]] + msgs[1..]; }
    }
  }

  // ---- Basic validation ----

  /** OK exactly for a list that is not empty and whose messages are all valid;
      else the code of the first that is not. */
  lemma BasicIff(msgs: seq<Msg>)
    ensures ValidateBasic(msgs) == CodeOK <==> msgs != [] && forall i :: 0 <= i < |msgs| ==> msgs[i].basic == CodeOK
    ensures msgs == [] ==> ValidateBasic(msgs) == CodeUnknownRequest
    ensures forall i :: 0 <= i < |msgs| && msgs[i].basic != CodeOK && (forall j :: 0 <= j < i ==> msgs[j].basic == CodeOK) ==>
                        ValidateBasic(msgs) == msgs[i].basic
  {
    FirstFailureIff(msgs);
  }

  lemma {:induction false} FirstFailureIff(msgs: seq<Msg>)
    ensures FirstFailure(msgs) == CodeOK <==> forall i :: 0 <= i < |msgs| ==> msgs[i].basic == CodeOK
    ensures forall i :: 0 <= i < |msgs| && msgs[i].basic != CodeOK && (forall j :: 0 <= j < i ==> msgs[j].basic == CodeOK) ==>
                        FirstFailure(msgs) == msgs[i].basic
  {
    if msgs != [] && msgs[0].basic == CodeOK {
      FirstFailureIff(msgs[1..]);
      forall i | 0 <= i < |msgs| && msgs[i].basic != CodeOK && (forall j :: 0 <= j < i ==> msgs[j].basic == CodeOK)
        ensures FirstFailure(msgs) == msgs[i].basic
      {
        assert msgs[1..][i - 1] == msgs[i];
        assert forall j :: 0 <= j < i - 1 ==> msgs[1..][j] == msgs[j + 1];
      }
      if forall i :: 0 <= i < |msgs[1..]| ==> msgs[1..][i].basic == CodeOK {
        forall i | 0 <= i < |msgs| ensures msgs[i].basic == CodeOK { if i > 0 { assert msgs[1..][i - 1] == msgs[i]; } }
      }
    }
  }
}
