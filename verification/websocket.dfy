/**
 * `WebSocketTaskConnection`: a duplex message connection whose receive loop
 * re-arms itself after every frame and stops at the first failure, and
 * whose events go to a weakly held, possibly absent, delegate.
 *
 * The transport is scripted: each receive the connection issues is
 * completed by the next result of a sequence. The events the delegate
 * observes form a trace.
 */
module WebSocket {

  import opened Basics

  /** An opaque transport error. */
  datatype SocketError = SocketError(code: int)

  /** `URLSessionWebSocketTask.Message`. */
  datatype Message = Text(text: string) | Binary(data: Data)

  /** The result handed to a receive's completion. */
  datatype ReceiveResult = Received(message: Message) | ReceiveFailed(error: SocketError)

  /** The delegate callbacks of `WebSocketConnectionDelegate`. */
  datatype Event =
    | OnConnected
    | OnDisconnected(closeError: Option<SocketError>)
    | OnError(error: SocketError)
    | OnMessageText(text: string)
    | OnMessageData(data: Data)

  /** The close code `disconnect` requests: going away, 1001 (section 7.4.1 of RFC 6455). */
  const GoingAway: int := 1001

  /** `self.delegate?.callback(...)`: delivered when the delegate is present, dropped otherwise. */
  function Notify(delegate: bool, e: Event): (es: seq<Event>)
    ensures delegate ==> es == [e]
    ensures !delegate ==> es == []
  {
    if delegate then [e] else []
  }

  /** The delegate callback a receive result produces. */
  function EventOf(r: ReceiveResult): Event
  {
    match r
    case ReceiveFailed(e) => OnError(e)
    case Received(Text(t)) => OnMessageText(t)
    case Received(Binary(d)) => OnMessageData(d)
  }

  // ---------------------------------------------------------------------
  // The receive loop.

  /**
   * The observable effect of `listen` on a script: the events delivered,
   * how many results were consumed, and whether a receive is still
   * outstanding once the script is exhausted.
   */
  datatype ListenTrace = ListenTrace(events: seq<Event>, consumed: nat, rearmed: bool)

  /** No failure among the first `n` results. */
  predicate AllReceived(script: seq<ReceiveResult>, n: nat)
    requires n <= |script|
  {
    forall i :: 0 <= i < n ==> script[i].Received?
  }

  /** `listen()` run against a script: one receive, and a new one after every frame. */
  function Listen(delegate: bool, script: seq<ReceiveResult>): (t: ListenTrace)
    ensures t.consumed <= |script|
    ensures delegate ==> |t.events| == t.consumed
    ensures !delegate ==> t.events == []
  {
    if |script| == 0 then ListenTrace([], 0, true)
    else match script[0]
      case ReceiveFailed(e) => ListenTrace(Notify(delegate, OnError(e)), 1, false)
      case Received(m) =>
        var rest := Listen(delegate, script[1..]);
        ListenTrace(Notify(delegate, EventOf(script[0])) + rest.events, rest.consumed + 1, rest.rearmed)
  }

  /** The loop stops exactly at the first failure, and consumes nothing after it. */
  lemma {:induction false} ListenStopsAtFirstFailure(delegate: bool, script: seq<ReceiveResult>)
    ensures var t := Listen(delegate, script);
      && (t.rearmed <==> t.consumed == |script| && AllReceived(script, |script|))
      && (!t.rearmed ==> 1 <= t.consumed && AllReceived(script, t.consumed - 1) && script[t.consumed - 1].ReceiveFailed?)
    decreases |script|
  {
    if |script| > 0 && script[0].Received? {
      ListenStopsAtFirstFailure(delegate, script[1..]);
      var t := Listen(delegate, script[1..]);
      forall i | 0 <= i < |script| && i < t.consumed + 1 && (t.rearmed || i < t.consumed)
        ensures script[i].Received?
      {
        if i > 0 {
          assert script[1..][i - 1] == script[i];
        }
      }
      if !t.rearmed {
        assert script[t.consumed] == script[1..][t.consumed - 1];
      }
    }
  }

  /** With a delegate, the trace is the in-order image of the consumed prefix. */
  lemma {:induction false} ListenTraceIsImage(script: seq<ReceiveResult>)
    ensures var t := Listen(true, script);
      forall i :: 0 <= i < t.consumed ==> t.events[i] == EventOf(script[i])
    decreases |script|
  {
    if |script| > 0 && script[0].Received? {
      ListenTraceIsImage(script[1..]);
      var t := Listen(true, script[1..]);
      forall i | 1 <= i < t.consumed + 1
        ensures Listen(true, script).events[i] == EventOf(script[i])
      {
        assert Listen(true, script).events[i] == t.events[i - 1];
        assert script[1..][i - 1] == script[i];
      }
    }
  }

  lemma ListenUnfold(delegate: bool, s: seq<ReceiveResult>)
    requires |s| > 0
    ensures Listen(delegate, s) ==
      if s[0].ReceiveFailed? then ListenTrace(Notify(delegate, EventOf(s[0])), 1, false)
      else
        var rest := Listen(delegate, s[1..]);
        ListenTrace(Notify(delegate, EventOf(s[0])) + rest.events, rest.consumed + 1, rest.rearmed)
  {
  }

  /** The receive loop written as a loop: the same trace as the self-re-arming `listen`. */
  method RunReceiveLoop(delegate: bool, script: seq<ReceiveResult>) returns (events: seq<Event>, consumed: nat, rearmed: bool)
    ensures ListenTrace(events, consumed, rearmed) == Listen(delegate, script)
  {
    events, consumed, rearmed := [], 0, true;
    while rearmed && consumed < |script|
      invariant consumed <= |script|
      invariant rearmed ==>
        var rest := Listen(delegate, script[consumed..]);
        Listen(delegate, script) == ListenTrace(events + rest.events, consumed + rest.consumed, rest.rearmed)
      invariant !rearmed ==> Listen(delegate, script) == ListenTrace(events, consumed, false)
      decreases |script| - consumed, rearmed
    {
      var r := script[consumed];
      var s := script[consumed..];
      ListenUnfold(delegate, s);
      assert s[0] == r;
      assert s[1..] == script[consumed + 1..];
      var step := Notify(delegate, EventOf(r));
      if r.Received? {
        var rest := Listen(delegate, s[1..]);
        assert events + (step + rest.events) == (events + step) + rest.events;
      }
      events := events + step;
      consumed := consumed + 1;
      rearmed := r.Received?;
    }
    if rearmed {
      assert script[consumed..] == [];
    }
  }

  /** A worked trace: a text frame, a binary frame, then an error. */
  lemma TextBinaryErrorScenario(t: string, d: Data, e: SocketError, later: seq<ReceiveResult>)
    ensures Listen(true, [Received(Text(t)), Received(Binary(d)), ReceiveFailed(e)] + later)
      == ListenTrace([OnMessageText(t), OnMessageData(d), OnError(e)], 3, false)
  {
    var s := [Received(Text(t)), Received(Binary(d)), ReceiveFailed(e)] + later;
    ListenUnfold(true, s);
    ListenUnfold(true, s[1..]);
    ListenUnfold(true, s[1..][1..]);
    assert s[1..][1..][0] == ReceiveFailed(e);
  }

  /**
   * `recieveData()`: a single receive whose result is handled once and not
   * followed by another; nothing happens when the connection itself is gone
   * (the `[weak self]` guard).
   */
  function ReceiveOnce(connectionAlive: bool, delegate: bool, r: ReceiveResult): (es: seq<Event>)
    ensures |es| <= 1
    ensures |es| == 1 <==> connectionAlive && delegate
    ensures |es| == 1 ==> es[0] == EventOf(r)
  {
    if connectionAlive then Notify(delegate, EventOf(r)) else []
  }

  /** The one-shot receive reports a result the way the loop does, but never leaves a receive outstanding. */
  lemma ReceiveOnceAgreesWithListen(delegate: bool, r: ReceiveResult)
    ensures ReceiveOnce(true, delegate, r) == Listen(delegate, [r]).events
    ensures Listen(delegate, [r]).rearmed <==> r.Received?
  {
  }

  // ---------------------------------------------------------------------
  // The connection as an event-driven state machine.

  /**
   * The connection: its delegate's presence, how many `listen` receives are
   * outstanding, and the events so far. Every `connect()` starts one more
   * loop, so the count can exceed one.
   */
  datatype Connection = Connection(delegate: bool, outstanding: nat, events: seq<Event>)

  /** What the session can report to the connection. */
  datatype Input =
    | DidOpen
    | DidClose(closeCode: int)
    | ReceiveCompleted(result: ReceiveResult)
    | SendCompleted(error: Option<SocketError>)

  /** `connect()`: resume the task and start one more listening loop. */
  function Connect(c: Connection): (c': Connection)
    ensures c'.outstanding == c.outstanding + 1
    ensures c'.events == c.events && c'.delegate == c.delegate
  {
    c.(outstanding := c.outstanding + 1)
  }

  /** `disconnect()`: ask the task to close with the going-away code; the close callback reports it later. */
  function Disconnect(c: Connection): (r: (Connection, int))
    ensures r.0 == c && r.1 == GoingAway
  {
    (c, GoingAway)
  }

  /**
   * One session callback or completion handler. A receive completion
   * answers one outstanding receive: a frame re-arms it, a failure ends
   * that loop; with none outstanding there is nothing to complete.
   */
  function Step(c: Connection, i: Input): (c': Connection)
    ensures c'.delegate == c.delegate
    ensures c'.outstanding != c.outstanding <==>
      i.ReceiveCompleted? && i.result.ReceiveFailed? && c.outstanding > 0
    ensures c'.outstanding <= c.outstanding
    ensures |c.events| <= |c'.events| <= |c.events| + 1 && c'.events[..|c.events|] == c.events
  {
    match i
    case DidOpen => c.(events := c.events + Notify(c.delegate, OnConnected))
    case DidClose(_) => c.(events := c.events + Notify(c.delegate, OnDisconnected(None)))
    case ReceiveCompleted(r) =>
      if c.outstanding > 0
      then c.(outstanding := if r.Received? then c.outstanding else c.outstanding - 1,
              events := c.events + Notify(c.delegate, EventOf(r)))
      else c
    case SendCompleted(e) =>
      match e
      case Some(err) => c.(events := c.events + Notify(c.delegate, OnError(err)))
      case None => c
  }

  /** A sequence of inputs, in order. */
  function Run(c: Connection, inputs: seq<Input>): (c': Connection)
    decreases |inputs|
  {
    if |inputs| == 0 then c else Run(Step(c, inputs[0]), inputs[1..])
  }

  /** The open callback reports `onConnected`; the close callback `onDisconnected(nil)`, whatever the close code. */
  lemma OpenAndCloseEvents(c: Connection, code: int)
    requires c.delegate
    ensures Step(c, DidOpen).events == c.events + [OnConnected]
    ensures Step(c, DidClose(code)).events == c.events + [OnDisconnected(None)]
    ensures Step(c, DidClose(code)) == Step(c, DidClose(GoingAway))
  {
  }

  /** A send completion reports `onError` exactly when the write failed, and leaves the receive loop alone. */
  lemma SendCompletionEvents(c: Connection, e: Option<SocketError>)
    ensures Step(c, SendCompleted(e)).outstanding == c.outstanding
    ensures Step(c, SendCompleted(e)).events == c.events + (if e.Some? then Notify(c.delegate, OnError(e.value)) else [])
  {
  }

  /** Only the receive completions of an input sequence. */
  function Receives(inputs: seq<Input>): (rs: seq<Input>)
    ensures forall i :: 0 <= i < |rs| ==> rs[i].ReceiveCompleted?
  {
    if |inputs| == 0 then []
    else if inputs[0].ReceiveCompleted? then [inputs[0]] + Receives(inputs[1..])
    else Receives(inputs[1..])
  }

  /** Sends, opens and closes never touch the receive loops: their count is decided by the receive completions alone. */
  lemma {:induction false} SendsNeverAffectReceiving(c: Connection, inputs: seq<Input>)
    ensures Run(c, inputs).outstanding == Run(c, Receives(inputs)).outstanding
    decreases |inputs|
  {
    if |inputs| > 0 {
      var c1 := Step(c, inputs[0]);
      SendsNeverAffectReceiving(c1, inputs[1..]);
      if inputs[0].ReceiveCompleted? {
        assert Receives(inputs) == [inputs[0]] + Receives(inputs[1..]);
        assert Receives(inputs)[1..] == Receives(inputs[1..]);
      } else {
        assert c1.outstanding == c.outstanding;
        ReceivingDependsOnlyOnCount(c, c1, Receives(inputs[1..]));
      }
    }
  }

  /** How many receives remain outstanding depends on how many were outstanding before, not on past events. */
  lemma {:induction false} ReceivingDependsOnlyOnCount(a: Connection, b: Connection, inputs: seq<Input>)
    requires a.outstanding == b.outstanding && a.delegate == b.delegate
    ensures Run(a, inputs).outstanding == Run(b, inputs).outstanding
    decreases |inputs|
  {
    if |inputs| > 0 {
      ReceivingDependsOnlyOnCount(Step(a, inputs[0]), Step(b, inputs[0]), inputs[1..]);
    }
  }

  /** The receive completions fed to a connection. */
  function Completions(script: seq<ReceiveResult>): (inputs: seq<Input>)
    ensures |inputs| == |script|
    ensures forall i :: 0 <= i < |script| ==> inputs[i] == ReceiveCompleted(script[i])
  {
    seq(|script|, i requires 0 <= i < |script| => ReceiveCompleted(script[i]))
  }

  /**
   * With one loop running, feeding the script's results to the connection
   * gives the trace of `listen`; results arriving after the loop stopped
   * change nothing.
   */
  lemma {:induction false} ConnectionFollowsListen(c: Connection, script: seq<ReceiveResult>)
    requires c.outstanding == 1
    ensures Run(c, Completions(script)).events == c.events + Listen(c.delegate, script).events
    ensures Run(c, Completions(script)).outstanding == if Listen(c.delegate, script).rearmed then 1 else 0
    decreases |script|
  {
    if |script| > 0 {
      var c1 := Step(c, ReceiveCompleted(script[0]));
      assert Completions(script)[1..] == Completions(script[1..]);
      if script[0].Received? {
        ConnectionFollowsListen(c1, script[1..]);
      } else {
        StoppedIgnoresReceives(c1, Completions(script[1..]));
      }
    }
  }

  /** Once no receive is outstanding, further receive results change nothing. */
  lemma {:induction false} StoppedIgnoresReceives(c: Connection, inputs: seq<Input>)
    requires c.outstanding == 0
    requires forall i :: 0 <= i < |inputs| ==> inputs[i].ReceiveCompleted?
    ensures Run(c, inputs) == c
    decreases |inputs|
  {
    if |inputs| > 0 {
      StoppedIgnoresReceives(c, inputs[1..]);
    }
  }

  /** Without a delegate the trace stays empty, yet the loop still re-arms on every frame. */
  lemma AbsentDelegateStillRearms(script: seq<ReceiveResult>)
    requires AllReceived(script, |script|)
    ensures Listen(false, script) == ListenTrace([], |script|, true)
  {
  }

  /**
   * Connecting twice starts two loops: one transport failure that completes
   * both pending receives is reported twice, and both loops end.
   */
  lemma ConnectTwiceReportsFailureTwice(c: Connection, e: SocketError)
    requires c.delegate && c.outstanding == 0
    ensures var c' := Run(Connect(Connect(c)), [ReceiveCompleted(ReceiveFailed(e)), ReceiveCompleted(ReceiveFailed(e))]);
      c'.events == c.events + [OnError(e), OnError(e)] && c'.outstanding == 0
  {
    var inputs := [ReceiveCompleted(ReceiveFailed(e)), ReceiveCompleted(ReceiveFailed(e))];
    var c2 := Connect(Connect(c));
    var c3 := Step(c2, inputs[0]);
    assert inputs[1..] == [ReceiveCompleted(ReceiveFailed(e))];
    assert Run(c2, inputs) == Run(c3, inputs[1..]);
    assert Run(c3, inputs[1..]) == Run(Step(c3, inputs[1]), []);
  }
}
