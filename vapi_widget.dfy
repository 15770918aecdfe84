/** `src/components/shared/VapiWidget.tsx`: the floating button that starts and ends a voice call
    with the HOA assistant. Its status moves between idle, connecting, active and ended on clicks
    and on the call client's events; the 2-second return from 'ended' to 'idle' is a pending timer
    that fires on `Tick`. */
module VapiWidget {
  datatype CallStatus = Idle | Connecting | Active | Ended

  /** How the awaited part of `startCall` ends: the SDK import throws (no client is made), the
      client is made and `start` throws, or `start` returns. */
  datatype StartOutcome = ImportFailed | StartFailed | StartReturned

  /** `getColor`: the button's theme colour. */
  function GetColor(status: CallStatus): (r: string)
    ensures r == "primary.main" <==> status == Idle
    ensures r == "warning.main" <==> status == Connecting
    ensures r == "error.main" <==> status == Active
    ensures r == "text.secondary" <==> status == Ended
  {
    match status
    case Connecting => "warning.main"
    case Active => "error.main"
    case Ended => "text.secondary"
    case Idle => "primary.main"
  }

  /** `getTooltip`: the button's hint. */
  function GetTooltip(status: CallStatus): (r: string)
    ensures r == "Talk to HOA Assistant" <==> status == Idle
    ensures r == "Connecting..." <==> status == Connecting
    ensures r == "Tap to end call" <==> status == Active
    ensures r == "Call ended" <==> status == Ended
  {
    match status
    case Connecting => "Connecting..."
    case Active => "Tap to end call"
    case Ended => "Call ended"
    case Idle => "Talk to HOA Assistant"
  }

  /** Colour and hint each tell the four statuses apart. */
  lemma ColorAndTooltipDistinguish(s: CallStatus, t: CallStatus)
    requires s != t
    ensures GetColor(s) != GetColor(t) && GetTooltip(s) != GetTooltip(t)
  {
  }

  class Widget {
    var status: CallStatus
    /** `vapiRef.current` is set. */
    var hasClient: bool
    /** The `stop` calls made on the client. */
    var stops: nat
    /** The 2-second timers still to fire, each of which sets the status to 'idle'. */
    var pendingIdle: nat
    /** The "Need help?" bubble's own flag, cleared by the 5-second timer. */
    var showLabel: bool

    /** 'ended' never lasts: while the status is 'ended' a timer is pending that ends it. */
    predicate Valid()
      reads this
    {
      status == Ended ==> pendingIdle > 0
    }

    constructor ()
      ensures Valid()
      ensures status == Idle && !hasClient && stops == 0 && pendingIdle == 0 && showLabel
    {
      status := Idle;
      hasClient := false;
      stops := 0;
      pendingIdle := 0;
      showLabel := true;
    }

    /** The bubble is shown while its flag is set or a call is active. */
    function LabelVisible(): bool
      reads this
    {
      showLabel || status == Active
    }

    /** The synchronous part of `startCall`. While a call is active or connecting, a click stops
        the client and shows 'ended' (with the return to 'idle' pending), or does nothing when no
        client exists yet. From 'idle' or 'ended' a click starts connecting. */
    method Click()
      requires Valid()
      modifies this
      ensures Valid()
      ensures (old(status) == Active || old(status) == Connecting) && old(hasClient) ==>
        status == Ended && stops == old(stops) + 1 && pendingIdle == old(pendingIdle) + 1
      ensures (old(status) == Active || old(status) == Connecting) && !old(hasClient) ==>
        status == old(status) && stops == old(stops) && pendingIdle == old(pendingIdle)
      ensures old(status) == Idle || old(status) == Ended ==>
        status == Connecting && stops == old(stops) && pendingIdle == old(pendingIdle)
      ensures hasClient == old(hasClient) && showLabel == old(showLabel)
    {
      if status == Active || status == Connecting {
        if hasClient {
          stops := stops + 1;
          status := Ended;
          pendingIdle := pendingIdle + 1;
        }
        return;
      }
      status := Connecting;
    }

    /** The awaited part of `startCall` settles: a failed import or a throwing `start` returns to
        'idle'; a new client is kept in either case once it was made. */
    method StartSettled(outcome: StartOutcome)
      requires Valid()
      modifies this
      ensures Valid()
      ensures hasClient == (old(hasClient) || outcome != ImportFailed)
      ensures outcome != StartReturned ==> status == Idle
      ensures outcome == StartReturned ==> status == old(status)
      ensures stops == old(stops) && pendingIdle == old(pendingIdle) && showLabel == old(showLabel)
    {
      if outcome != ImportFailed {
        hasClient := true;
      }
      if outcome != StartReturned {
        status := Idle;
      }
    }

    /** The client's 'call-start' event. */
    method CallStart()
      requires Valid()
      modifies this
      ensures Valid()
      ensures status == Active
      ensures hasClient == old(hasClient) && stops == old(stops) && pendingIdle == old(pendingIdle)
      ensures showLabel == old(showLabel)
    {
      status := Active;
    }

    /** The client's 'call-end' event: 'ended', with the return to 'idle' pending. */
    method CallEnd()
      requires Valid()
      modifies this
      ensures Valid()
      ensures status == Ended && pendingIdle == old(pendingIdle) + 1
      ensures hasClient == old(hasClient) && stops == old(stops) && showLabel == old(showLabel)
    {
      status := Ended;
      pendingIdle := pendingIdle + 1;
    }

    /** The client's 'error' event. */
    method Error()
      requires Valid()
      modifies this
      ensures Valid()
      ensures status == Idle
      ensures hasClient == old(hasClient) && stops == old(stops) && pendingIdle == old(pendingIdle)
      ensures showLabel == old(showLabel)
    {
      status := Idle;
    }

    /** One pending 2-second timer fires: the status becomes 'idle' whatever it is by then. */
    method Tick()
      requires Valid() && pendingIdle > 0
      modifies this
      ensures Valid()
      ensures status == Idle && pendingIdle == old(pendingIdle) - 1
      ensures hasClient == old(hasClient) && stops == old(stops) && showLabel == old(showLabel)
    {
      status := Idle;
      pendingIdle := pendingIdle - 1;
    }

    /** The 5-second timer hides the bubble, except while a call is active. */
    method LabelTimerFires()
      requires Valid()
      modifies this
      ensures Valid()
      ensures !showLabel && (LabelVisible() <==> status == Active)
      ensures status == old(status) && hasClient == old(hasClient) && stops == old(stops)
      ensures pendingIdle == old(pendingIdle)
    {
      showLabel := false;
    }
  }
}
