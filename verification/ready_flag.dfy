/** The standalone whatsapp-web.js client: one `isReady` flag, set by the `ready`
    event and cleared by `disconnected` and `auth_failure`, which decides whether
    a QR code is drawn and whether `!ping` is answered. Events are replayed in
    the order the client emits them, starting from a fresh, not-ready client. */
module ReadyFlag {
  import opened Common

  datatype Event =
    | Qr(code: string)
    | Ready
    | Disconnected
    | AuthFailure
    | MessageCreate(body: string, fromMe: bool)

  datatype Effect = NoEffect | RenderQr(code: string) | Pong

  const Ping := "!ping"

  /** The events that move the flag. */
  predicate IsLifecycle(e: Event) {
    e.Ready? || e.Disconnected? || e.AuthFailure?
  }

  /** The last event of a trace that moves the flag, if any. */
  function LastLifecycle(t: seq<Event>): (r: Option<Event>)
    ensures r.Some? ==> IsLifecycle(r.value) && r.value in t
  {
    if |t| == 0 then None
    else if IsLifecycle(t[|t| - 1]) then Some(t[|t| - 1])
    else LastLifecycle(t[..|t| - 1])
  }

  /** Extending a trace by one event moves the last lifecycle event only when the
      new event is one. */
  lemma LastLifecycleSnoc(t: seq<Event>, e: Event)
    ensures LastLifecycle(t + [e]) == if IsLifecycle(e) then Some(e) else LastLifecycle(t)
  {
    assert (t + [e])[..|t|] == t;
  }

  /** One handler run: the flag after it and what it did. */
  function Step(ready: bool, e: Event): (r: (bool, Effect))
    // a QR code is drawn only while not ready, and leaves the flag alone
    ensures e.Qr? ==> r == (ready, if ready then NoEffect else RenderQr(e.code))
    ensures e.Ready? ==> r.0
    ensures e.Disconnected? || e.AuthFailure? ==> !r.0
    // a pong answers exactly a `!ping` from someone else while ready
    ensures e.MessageCreate? ==> r.0 == ready && (r.1 == Pong <==> e.body == Ping && ready && !e.fromMe)
    ensures r.1 != NoEffect ==> !IsLifecycle(e)
  {
    match e
    case Qr(code) => if !ready then (ready, RenderQr(code)) else (ready, NoEffect)
    case Ready => if !ready then (true, NoEffect) else (ready, NoEffect)
    case Disconnected => (false, NoEffect)
    case AuthFailure => (false, NoEffect)
    case MessageCreate(body, fromMe) =>
      if body == Ping && ready && !fromMe then (ready, Pong) else (ready, NoEffect)
  }

  /** A `!ping` from someone else. */
  predicate IsPing(e: Event) {
    e == MessageCreate(Ping, false)
  }

  /** What the handler of `e` did, given whether the client was ready before it. */
  predicate Answered(e: Event, wasReady: bool, effect: Effect) {
    && (effect == Pong <==> IsPing(e) && wasReady)
    && (effect.RenderQr? <==> e.Qr? && !wasReady)
  }

  /** One run moves the flag exactly on a lifecycle event, and its effect is the
      one its event calls for. */
  lemma StepAnswers(ready: bool, e: Event)
    ensures Step(ready, e).0 == if IsLifecycle(e) then e == Ready else ready
    ensures Answered(e, ready, Step(ready, e).1)
  {
  }

  /** The client over a whole trace: the flag is set exactly when the last
      lifecycle event was `ready`, and that is what every QR and ping handler
      sees. */
  method Replay(trace: seq<Event>) returns (ready: bool, effects: seq<Effect>)
    ensures ready <==> LastLifecycle(trace) == Some(Ready)
    ensures |effects| == |trace|
    ensures forall i :: 0 <= i < |trace| ==>
      (effects[i] == Pong <==> IsPing(trace[i]) && LastLifecycle(trace[..i]) == Some(Ready))
    ensures forall i :: 0 <= i < |trace| ==>
      (effects[i].RenderQr? <==> trace[i].Qr? && LastLifecycle(trace[..i]) != Some(Ready))
  {
    ready := false;
    effects := [];
    var i := 0;
    while i < |trace|
      invariant 0 <= i <= |trace|
      invariant ready <==> LastLifecycle(trace[..i]) == Some(Ready)
      invariant |effects| == i
      invariant forall k :: 0 <= k < i ==> Answered(trace[k], LastLifecycle(trace[..k]) == Some(Ready), effects[k])
    {
      LastLifecycleSnoc(trace[..i], trace[i]);
      assert trace[..i + 1] == trace[..i] + [trace[i]];
      var r := Step(ready, trace[i]);
      StepAnswers(ready, trace[i]);
      forall k | 0 <= k < i + 1
        ensures Answered(trace[k], LastLifecycle(trace[..k]) == Some(Ready), (effects + [r.1])[k])
      {
        if k < i {
          assert (effects + [r.1])[k] == effects[k];
        }
      }
      ready := r.0;
      effects := effects + [r.1];
      i := i + 1;
    }
    assert trace[..i] == trace;
  }

  /** Whatever came before, a disconnection clears the flag until the next
      `ready`, which sets it again. */
  lemma {:induction false} ReadyAgainAfterDisconnect(before: seq<Event>, between: seq<Event>)
    requires forall k :: 0 <= k < |between| ==> !IsLifecycle(between[k])
    ensures LastLifecycle(before + [Disconnected] + between) == Some(Disconnected)
    ensures LastLifecycle(before + [Disconnected] + between + [Ready]) == Some(Ready)
    decreases |between|
  {
    if |between| > 0 {
      var t := before + [Disconnected] + between;
      assert t[..|t| - 1] == before + [Disconnected] + between[..|between| - 1];
      ReadyAgainAfterDisconnect(before, between[..|between| - 1]);
    } else {
      assert before + [Disconnected] + between == before + [Disconnected];
    }
  }
}
