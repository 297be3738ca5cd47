/** The publish/subscribe listener of middleware/redis.go
    (`listenPubSubChannels`): connect, SUBSCRIBE and PSUBSCRIBE the same
    names, dispatch received events to callbacks until one of them ends the
    receive loop, and shut down through the `done` channel.

    The receiving goroutine is modelled by the sequence of events it would
    receive; the ticker/context `select` is reduced to which of its cases is
    ready first. */
module PubSub {
  import opened Wrappers

  /** What `psc.Receive()` returns. */
  datatype Event =
    | ReceiveError(error: Error)
    | Message(channel: string, data: string)
    | PMessage(pattern: string, channel: string, data: string)
    | Subscription(kind: string, channel: string, count: int)
    | Pong(data: string)

  /** The callbacks; a message callback may be nil, `onStart` may not (the
      code calls it without a nil check). */
  datatype Handlers = Handlers(
    onStart: () -> Option<Error>,
    onMessage: Option<(string, string) -> Option<Error>>,
    onPMessage: Option<(string, string, string) -> Option<Error>>)

  /** What the receive loop does with one event, before any callback runs. */
  datatype Action =
    | Skip
    | Deliver(channel: string, data: string)
    | DeliverPattern(pattern: string, channel: string, data: string)
    | Start
    | Finish(result: Option<Error>)

  /** The type switch of the receive loop. A confirmation whose count equals
      the number of channels is tested before the count 0, so with no
      channels count 0 calls `onStart` instead of ending the loop. */
  function Classify(e: Event, nChannels: nat, hasOnMessage: bool, hasOnPMessage: bool): (a: Action)
    ensures e.ReceiveError? ==> a == Finish(Some(e.error))
    ensures e.Message? ==> a == (if hasOnMessage then Deliver(e.channel, e.data) else Skip)
    ensures e.PMessage? ==> a == (if hasOnPMessage then DeliverPattern(e.pattern, e.channel, e.data) else Skip)
    ensures e.Subscription? && e.count == nChannels ==> a == Start
    ensures e.Subscription? && e.count == 0 && nChannels != 0 ==> a == Finish(None)
    ensures e.Subscription? && e.count != nChannels && e.count != 0 ==> a == Skip
    ensures a.Deliver? ==> hasOnMessage
    ensures a.DeliverPattern? ==> hasOnPMessage
    ensures e.Pong? ==> a == Skip
  {
    match e
    case ReceiveError(err) => Finish(Some(err))
    case Message(c, d) => if hasOnMessage then Deliver(c, d) else Skip
    case PMessage(p, c, d) => if hasOnPMessage then DeliverPattern(p, c, d) else Skip
    case Subscription(_, _, count) =>
      if count == nChannels then Start else if count == 0 then Finish(None) else Skip
    case Pong(_) => Skip
  }

  /** Whether one event ends the receive loop, and with which value sent on `done`. */
  function Outcome(e: Event, nChannels: nat, h: Handlers): Option<Option<Error>>
  {
    match Classify(e, nChannels, h.onMessage.Some?, h.onPMessage.Some?)
    case Skip => None
    case Deliver(c, d) => var r := h.onMessage.value(c, d); if r.Some? then Some(r) else None
    case DeliverPattern(p, c, d) => var r := h.onPMessage.value(p, c, d); if r.Some? then Some(r) else None
    case Start => var r := h.onStart(); if r.Some? then Some(r) else None
    case Finish(r) => Some(r)
  }

  /** Where the receive loop stands after the events it was given: it sent
      `result` on `done` after consuming `consumed` events, or it is still
      waiting in `Receive`. */
  datatype Dispatch = Ended(result: Option<Error>, consumed: nat) | Waiting

  /** The receive loop from event `i` on. */
  function DispatchFrom(events: seq<Event>, i: nat, nChannels: nat, h: Handlers): (d: Dispatch)
    requires i <= |events|
    ensures d.Ended? ==> i < d.consumed <= |events|
    decreases |events| - i
  {
    if i == |events| then Waiting
    else match Outcome(events[i], nChannels, h)
      case Some(r) => Ended(r, i + 1)
      case None => DispatchFrom(events, i + 1, nChannels, h)
  }

  /** The loop ends at event k with result r exactly when event k ends it
      with r and no earlier event (from i on) does. */
  lemma {:induction false} DispatchEndsAtFirstOutcome(events: seq<Event>, i: nat, nChannels: nat, h: Handlers, k: nat, r: Option<Error>)
    requires i <= k < |events|
    ensures DispatchFrom(events, i, nChannels, h) == Ended(r, k + 1) <==>
      Outcome(events[k], nChannels, h) == Some(r)
      && forall j :: i <= j < k ==> Outcome(events[j], nChannels, h).None?
    decreases k - i
  {
    if i < k && Outcome(events[i], nChannels, h).None? {
      DispatchEndsAtFirstOutcome(events, i + 1, nChannels, h, k, r);
    }
  }

  /** The loop keeps waiting exactly when no event ends it. */
  lemma {:induction false} DispatchWaits(events: seq<Event>, i: nat, nChannels: nat, h: Handlers)
    requires i <= |events|
    ensures DispatchFrom(events, i, nChannels, h).Waiting? <==>
      forall j :: i <= j < |events| ==> Outcome(events[j], nChannels, h).None?
    decreases |events| - i
  {
    if i < |events| && Outcome(events[i], nChannels, h).None? {
      DispatchWaits(events, i + 1, nChannels, h);
    }
  }

  /** The goroutine's receive loop. */
  method Receive(events: seq<Event>, nChannels: nat, h: Handlers) returns (d: Dispatch)
    ensures d == DispatchFrom(events, 0, nChannels, h)
  {
    var i := 0;
    d := Waiting;
    while i < |events|
      invariant 0 <= i <= |events|
      invariant DispatchFrom(events, 0, nChannels, h) == DispatchFrom(events, i, nChannels, h)
    {
      var a := Classify(events[i], nChannels, h.onMessage.Some?, h.onPMessage.Some?);
      match a {
        case Skip =>
        case Deliver(c, data) =>
          var r := h.onMessage.value(c, data);
          if r.Some? { return Ended(r, i + 1); }
        case DeliverPattern(p, c, data) =>
          var r := h.onPMessage.value(p, c, data);
          if r.Some? { return Ended(r, i + 1); }
        case Start =>
          var r := h.onStart();
          if r.Some? { return Ended(r, i + 1); }
        case Finish(r) =>
          return Ended(r, i + 1);
      }
      i := i + 1;
    }
  }

  /** The connection's answers: getting a pooled connection, SUBSCRIBE,
      PSUBSCRIBE, and the two unsubscribe commands sent at shutdown. */
  datatype Connection = Connection(
    connErr: Option<Error>,
    subscribeErr: Option<Error>,
    psubscribeErr: Option<Error>,
    unsubscribeErr: Option<Error>,
    punsubscribeErr: Option<Error>)

  /** Why the `select` loop stopped without reading `done`. */
  datatype Interrupt = Cancelled | PingFailed(error: Error)

  /** The `select` case that fires first: a value on `done`, or the
      context's cancellation / a failed keep-alive PING on a tick, in which
      case `loopSentFirst` says whether the receive loop's own value already
      sits in the one-slot `done` buffer before the shutdown's first send on
      `done`. */
  datatype FirstReady = DoneReady | Interrupted(cause: Interrupt, loopSentFirst: bool)

  /** How `listenPubSubChannels` ends: it returns `err`, having sent the
      unsubscribe commands or not; or it never returns. */
  datatype ListenResult =
    | Returned(err: Option<Error>, unsubscribed: bool)
    | Blocked

  /** The values in `done` (capacity one) once the shutdown has sent the
      failures of UNSUBSCRIBE and PUNSUBSCRIBE, or None when a send blocks
      on the full buffer. */
  function ShutdownBuffer(start: seq<Option<Error>>, conn: Connection): Option<seq<Option<Error>>>
    requires |start| <= 1
  {
    var afterUnsub :=
      if conn.unsubscribeErr.None? then Some(start)
      else if |start| == 1 then None
      else Some([conn.unsubscribeErr]);
    if afterUnsub.None? then None
    else if conn.punsubscribeErr.None? then afterUnsub
    else if |afterUnsub.value| == 1 then None
    else Some([conn.punsubscribeErr])
  }

  /** The end of `listenPubSubChannels` once the goroutine runs. On
      cancellation or ping failure both unsubscribe commands are sent; a
      failure of either is sent on `done` and a send on the full buffer
      blocks for good. The value finally read from `done` is returned, so
      the ping error itself never is. That read empties the buffer, so a
      later send of the receive loop's own result does not block. */
  function Shutdown(first: FirstReady, conn: Connection, d: Dispatch): ListenResult
  {
    if first.DoneReady? then
      if d.Ended? then Returned(d.result, false) else Blocked
    else
      var sentFirst := first.loopSentFirst && d.Ended?;
      var buf := ShutdownBuffer(if sentFirst then [d.result] else [], conn);
      if buf.None? then Blocked
      else if |buf.value| == 1 then Returned(buf.value[0], true)
      else if d.Ended? then Returned(d.result, true)
      else Blocked
  }

  /** The whole listener: a connection or subscribe failure is returned at
      once, before the goroutine starts. */
  function ListenSpec(conn: Connection, first: FirstReady, events: seq<Event>, channels: seq<string>, h: Handlers): ListenResult
  {
    if conn.connErr.Some? then Returned(conn.connErr, false)
    else if conn.subscribeErr.Some? then Returned(conn.subscribeErr, false)
    else if conn.psubscribeErr.Some? then Returned(conn.psubscribeErr, false)
    else Shutdown(first, conn, DispatchFrom(events, 0, |channels|, h))
  }

  /** `listenPubSubChannels`. */
  method Listen(conn: Connection, first: FirstReady, events: seq<Event>, channels: seq<string>, h: Handlers)
    returns (r: ListenResult)
    ensures r == ListenSpec(conn, first, events, channels, h)
  {
    if conn.connErr.Some? { return Returned(conn.connErr, false); }
    if conn.subscribeErr.Some? { return Returned(conn.subscribeErr, false); }
    if conn.psubscribeErr.Some? { return Returned(conn.psubscribeErr, false); }
    var d := Receive(events, |channels|, h);
    r := Shutdown(first, conn, d);
  }

  /** A receive error ends the listener with exactly that error when the
      loop's own result is what gets returned, and no later event is handled. */
  lemma ReceiveErrorEndsListen(conn: Connection, events: seq<Event>, channels: seq<string>, h: Handlers, k: nat)
    requires conn.connErr.None? && conn.subscribeErr.None? && conn.psubscribeErr.None?
    requires k < |events| && events[k].ReceiveError?
    requires forall j :: 0 <= j < k ==> Outcome(events[j], |channels|, h).None?
    ensures DispatchFrom(events, 0, |channels|, h) == Ended(Some(events[k].error), k + 1)
    ensures ListenSpec(conn, DoneReady, events, channels, h) == Returned(Some(events[k].error), false)
  {
    DispatchEndsAtFirstOutcome(events, 0, |channels|, h, k, Some(events[k].error));
  }

  /** A callback that fails ends the loop with its error and stops dispatch
      there: `onMessage` on a message, `onPMessage` on a pattern message,
      `onStart` on the confirmation counting every channel. */
  lemma HandlerErrorEndsDispatch(events: seq<Event>, channels: seq<string>, h: Handlers, k: nat, e: Error)
    requires k < |events|
    requires match events[k]
      case Message(c, data) => h.onMessage.Some? && h.onMessage.value(c, data) == Some(e)
      case PMessage(p, c, data) => h.onPMessage.Some? && h.onPMessage.value(p, c, data) == Some(e)
      case Subscription(_, _, count) => count == |channels| && h.onStart() == Some(e)
      case _ => false
    requires forall j :: 0 <= j < k ==> Outcome(events[j], |channels|, h).None?
    ensures DispatchFrom(events, 0, |channels|, h) == Ended(Some(e), k + 1)
  {
    DispatchEndsAtFirstOutcome(events, 0, |channels|, h, k, Some(e));
  }

  /** Messages are skipped while their callback is nil. */
  lemma NilHandlerSkips(e: Event, nChannels: nat, h: Handlers)
    requires (e.Message? && h.onMessage.None?) || (e.PMessage? && h.onPMessage.None?)
    ensures Outcome(e, nChannels, h).None?
  {
  }

  /** With an empty channel list a zero-count confirmation runs `onStart`
      instead of ending the loop. */
  lemma NoChannelsZeroCountStarts(kind: string, channel: string, h: Handlers)
    ensures Outcome(Subscription(kind, channel, 0), 0, h) == (if h.onStart().Some? then Some(h.onStart()) else None)
  {
  }

  /** A failed keep-alive PING is not what the listener returns: after both
      unsubscribes succeed it returns the receive loop's own result. */
  lemma PingErrorIsDiscarded(conn: Connection, e: Error, sentFirst: bool, events: seq<Event>, channels: seq<string>, h: Handlers)
    requires conn.connErr.None? && conn.subscribeErr.None? && conn.psubscribeErr.None?
    requires conn.unsubscribeErr.None? && conn.punsubscribeErr.None?
    requires DispatchFrom(events, 0, |channels|, h).Ended?
    ensures ListenSpec(conn, Interrupted(PingFailed(e), sentFirst), events, channels, h)
      == Returned(DispatchFrom(events, 0, |channels|, h).result, true)
  {
  }

  /** Two failing unsubscribe commands fill `done` and block the listener. */
  lemma BothUnsubscribeFailuresBlock(conn: Connection, cause: Interrupt, sentFirst: bool, d: Dispatch)
    requires conn.unsubscribeErr.Some? && conn.punsubscribeErr.Some?
    ensures Shutdown(Interrupted(cause, sentFirst), conn, d) == Blocked
  {
  }

  /** When the shutdown gets to `done` first, a failed UNSUBSCRIBE is what
      the listener returns (whatever the receive loop does afterwards). */
  lemma UnsubscribeFailureIsReturned(conn: Connection, cause: Interrupt, d: Dispatch)
    requires conn.unsubscribeErr.Some? && conn.punsubscribeErr.None?
    ensures Shutdown(Interrupted(cause, false), conn, d) == Returned(conn.unsubscribeErr, true)
  {
  }

  /** When the loop's result is already buffered, any unsubscribe failure blocks. */
  lemma BufferedResultBlocksFailure(conn: Connection, cause: Interrupt, d: Dispatch)
    requires d.Ended? && (conn.unsubscribeErr.Some? || conn.punsubscribeErr.Some?)
    ensures Shutdown(Interrupted(cause, true), conn, d) == Blocked
  {
  }
}
