/**
 * The event loop of the protocol client with `eventHandler` registered on
 * it: events are handed to the handler one at a time, in delivery order,
 * and an outcome that exits the process ends the loop, so nothing after
 * it is handled.
 */
module Stream {
  import opened Messages
  import opened Handler

  /** `eventHandler` as registered on the client, with the reply flag fixed at start-up. */
  function EventHandler(replyTo: bool): Event -> Outcome {
    evt => Classify(evt, replyTo)
  }

  /** The workers started for one outcome: one for a dispatch, none otherwise. */
  function Started(o: Outcome): seq<DispatchRequest> {
    if o.Dispatch? then [o.request] else []
  }

  /** The events `handler` gets to see: all of them up to and including the first it exits on. */
  function Seen(events: seq<Event>, handler: Event -> Outcome): (s: seq<Event>)
    ensures |s| <= |events|
    ensures forall k :: 0 <= k < |s| ==> s[k] == events[k]
    ensures forall k :: 0 <= k < |s| - 1 ==> !handler(s[k]).Exit?
    ensures |s| < |events| ==> |s| > 0 && handler(s[|s| - 1]).Exit?
    decreases |events|
  {
    if |events| == 0 then []
    else if handler(events[0]).Exit? then [events[0]]
    else [events[0]] + Seen(events[1..], handler)
  }

  /** The workers started, in order, when every one of `events` is handled. */
  function Requests(events: seq<Event>, handler: Event -> Outcome): seq<DispatchRequest>
    decreases |events|
  {
    if |events| == 0 then []
    else Started(handler(events[0])) + Requests(events[1..], handler)
  }

  lemma {:induction false} RequestsAppend(xs: seq<Event>, ys: seq<Event>, handler: Event -> Outcome)
    ensures Requests(xs + ys, handler) == Requests(xs, handler) + Requests(ys, handler)
    decreases |xs|
  {
    if |xs| > 0 {
      assert (xs + ys)[1..] == xs[1..] + ys;
      RequestsAppend(xs[1..], ys, handler);
    } else {
      assert xs + ys == ys;
    }
  }

  /** Handling one more event adds the workers that event starts. */
  lemma RequestsStep(events: seq<Event>, i: nat, handler: Event -> Outcome)
    requires i < |events|
    ensures Requests(events[..i + 1], handler) == Requests(events[..i], handler) + Started(handler(events[i]))
  {
    assert events[..i + 1] == events[..i] + [events[i]];
    RequestsAppend(events[..i], [events[i]], handler);
    assert Requests([events[i]], handler) == Started(handler(events[i])) + Requests([], handler);
  }

  /** With no exit among the first `n` events and one at `n`, the first `n + 1` events are seen. */
  lemma SeenUpTo(events: seq<Event>, n: nat, handler: Event -> Outcome)
    requires n <= |events|
    requires forall k :: 0 <= k < n ==> !handler(events[k]).Exit?
    requires n < |events| ==> handler(events[n]).Exit?
    ensures Seen(events, handler) == events[..if n < |events| then n + 1 else n]
  {
    var s := Seen(events, handler);
    if n < |events| {
      assert |s| == n + 1;
    } else {
      assert |s| == n;
    }
  }

  /**
   * The client's loop: hands `events` to `handler` in order until an
   * outcome exits. Returns the workers started and the exit status, if
   * the process exited.
   */
  method Deliver(events: seq<Event>, handler: Event -> Outcome)
    returns (dispatched: seq<DispatchRequest>, exitCode: Option<int>)
    ensures exitCode.Some? <==> exists k :: 0 <= k < |events| && handler(events[k]).Exit?
    ensures exitCode.Some? ==>
      var s := Seen(events, handler); |s| > 0 && exitCode.value == handler(s[|s| - 1]).code
    ensures dispatched == Requests(Seen(events, handler), handler)
  {
    dispatched := [];
    exitCode := None;
    var i := 0;
    while i < |events| && exitCode.None?
      invariant 0 <= i <= |events|
      invariant forall k :: 0 <= k < i - 1 ==> !handler(events[k]).Exit?
      invariant exitCode.None? ==> forall k :: 0 <= k < i ==> !handler(events[k]).Exit?
      invariant exitCode.Some? ==>
        0 < i && handler(events[i - 1]).Exit? && exitCode.value == handler(events[i - 1]).code
      invariant dispatched == Requests(events[..i], handler)
    {
      var o := handler(events[i]);
      RequestsStep(events, i, handler);
      dispatched := dispatched + Started(o);
      if o.Exit? {
        exitCode := Some(o.code);
      }
      i := i + 1;
    }
    if exitCode.Some? {
      SeenUpTo(events, i - 1, handler);
    } else {
      SeenUpTo(events, i, handler);
      assert events[..i] == events;
    }
  }

  /** How many of `events` are messages asking for a sticker. */
  function CountRequests(events: seq<Event>): nat
    decreases |events|
  {
    if |events| == 0 then 0
    else
      var here := if events[0].MessageReceived? && IsStickerRequest(events[0].received) then 1 else 0;
      here + CountRequests(events[1..])
  }

  /** Each sticker request starts exactly one worker, and nothing else starts one. */
  lemma {:induction false} RequestsCount(events: seq<Event>, replyTo: bool)
    ensures |Requests(events, EventHandler(replyTo))| == CountRequests(events)
    decreases |events|
  {
    if |events| > 0 {
      RequestsCount(events[1..], replyTo);
    }
  }

  /**
   * Every worker carries the reply flag and the resolved form of a message
   * among `events` that asks for a sticker.
   */
  lemma {:induction false} RequestsSound(events: seq<Event>, replyTo: bool)
    ensures forall d :: d in Requests(events, EventHandler(replyTo)) ==> d.replyTo == replyTo
    ensures forall d :: d in Requests(events, EventHandler(replyTo)) ==>
      exists k :: 0 <= k < |events| && events[k].MessageReceived?
        && IsStickerRequest(events[k].received) && d.event == Resolve(events[k].received)
    decreases |events|
  {
    if |events| > 0 {
      RequestsSound(events[1..], replyTo);
      forall d | d in Requests(events, EventHandler(replyTo))
        ensures d.replyTo == replyTo
        ensures exists k ::
          0 <= k < |events| && events[k].MessageReceived?
          && IsStickerRequest(events[k].received) && d.event == Resolve(events[k].received)
      {
        if d in Started(Classify(events[0], replyTo)) {
          assert events[0].MessageReceived? && IsStickerRequest(events[0].received);
        } else {
          var k :| 0 <= k < |events[1..]| && events[1..][k].MessageReceived?
            && IsStickerRequest(events[1..][k].received) && d.event == Resolve(events[1..][k].received);
          assert events[k + 1] == events[1..][k];
        }
      }
    }
  }

  /** The position of the first fatal event, or the length of `events` when there is none. */
  function FirstFatal(events: seq<Event>): (n: nat)
    ensures n <= |events|
    ensures forall k :: 0 <= k < n ==> !IsFatal(events[k])
    ensures n < |events| ==> IsFatal(events[n])
    decreases |events|
  {
    if |events| == 0 || IsFatal(events[0]) then 0 else 1 + FirstFatal(events[1..])
  }

  /**
   * After a fatal event, the workers started are one per sticker request
   * among the events before it; with none, one per sticker request.
   */
  lemma SeenRequestsCount(events: seq<Event>, replyTo: bool)
    ensures |Requests(Seen(events, EventHandler(replyTo)), EventHandler(replyTo))|
      == CountRequests(events[..FirstFatal(events)])
  {
    var handler := EventHandler(replyTo);
    var n := FirstFatal(events);
    var s := Seen(events, handler);
    forall k | 0 <= k < n
      ensures !handler(events[k]).Exit?
    {
    }
    SeenUpTo(events, n, handler);
    if n < |events| {
      assert s == events[..n] + [events[n]];
      RequestsAppend(events[..n], [events[n]], handler);
      assert Requests([events[n]], handler) == Started(handler(events[n])) + Requests([], handler);
    } else {
      assert s == events[..n];
    }
    RequestsCount(events[..n], replyTo);
  }

  /**
   * The bot's event loop: it exits, with status 1, exactly when a fatal
   * event arrives; until then every sticker request, and nothing else,
   * starts one worker, in delivery order.
   */
  method HandleEvents(events: seq<Event>, replyTo: bool)
    returns (dispatched: seq<DispatchRequest>, exitCode: Option<int>)
    ensures exitCode.Some? <==> exists k :: 0 <= k < |events| && IsFatal(events[k])
    ensures exitCode.Some? ==> exitCode.value == 1
    ensures exitCode.None? ==> |dispatched| == CountRequests(events)
    ensures forall d :: d in dispatched ==> d.replyTo == replyTo
  {
    var handler := EventHandler(replyTo);
    dispatched, exitCode := Deliver(events, handler);
    var s := Seen(events, handler);
    if exitCode.Some? {
      var k :| 0 <= k < |events| && handler(events[k]).Exit?;
      assert IsFatal(events[k]);
      assert IsFatal(s[|s| - 1]);
    } else {
      forall k | 0 <= k < |events|
        ensures !IsFatal(events[k])
      {
        assert !handler(events[k]).Exit?;
      }
      assert s == events;
      RequestsCount(events, replyTo);
    }
    RequestsSound(s, replyTo);
  }
}
