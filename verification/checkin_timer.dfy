/** The check-in timer component (frontend/src/components/CheckinTimer.jsx) as a
    state machine. Every handler is split at its `await`: the synchronous part runs
    on the user's action and the rest when the request settles, with the request's
    outcome as a parameter. One interval callback is one `Tick`. */
module CheckinTimer {
  import opened Common
  import TF = TimeFormat

  datatype Status = Idle | Running | Expired | Cancelled | Error | Sos

  /** `triggers` counts the calls of `triggerSOS`: each is one trigger attempt, which
      sends a request only once the position is obtained. */
  datatype Timer = Timer(duration: int, status: Status, countdown: Option<int>, ticking: bool,
                         error: string, expiresAt: Option<int>, triggers: nat)

  const MinuteMs: int := 60000

  const Initial: Timer := Timer(10, Idle, None, false, "", None, 0)

  /** The duration input: `Number(e.target.value)` of a numeric entry. */
  function SetDuration(t: Timer, minutes: int): (r: Timer)
    ensures r == t.(duration := minutes)
  {
    t.(duration := minutes)
  }

  /** `startTimer` up to its first `await`. */
  function PressStart(t: Timer): (r: Timer)
    ensures r.status == Running && r.error == ""
    ensures r.(status := t.status, error := t.error) == t
  {
    t.(status := Running, error := "")
  }

  /** The rest of `startTimer` once the location and the start request settled. */
  function StartSettled(t: Timer, ok: bool, now: int): (r: Timer)
    ensures ok ==> r == t.(expiresAt := Some(now + t.duration * MinuteMs),
                           countdown := Some(t.duration * 60), ticking := true)
    ensures !ok ==> r == t.(error := "Failed to start check-in", status := Error)
  {
    if ok then t.(expiresAt := Some(now + t.duration * MinuteMs), countdown := Some(t.duration * 60), ticking := true)
    else t.(error := "Failed to start check-in", status := Error)
  }

  /** The countdown as the interval callback reads it: `null` compares as 0. */
  function Prev(t: Timer): int
  {
    match t.countdown case None => 0 case Some(n) => n
  }

  /** The interval stops, the countdown shows 0 and the status is "expired". */
  function Expire(t: Timer): (r: Timer)
    ensures r.status == Expired && r.countdown == Some(0) && !r.ticking
  {
    t.(countdown := Some(0), ticking := false, status := Expired)
  }

  /** `triggerSOS` up to its first `await`: the status becomes "sos" and one trigger
      attempt begins; it waits for the position before any request is sent. */
  function TriggerSos(t: Timer): (r: Timer)
    ensures r.status == Sos && r.triggers == t.triggers + 1
  {
    t.(status := Sos, triggers := t.triggers + 1)
  }

  /** One interval callback; nothing happens once the interval is cleared. */
  function Tick(t: Timer): (r: Timer)
    ensures !t.ticking ==> r == t
    ensures t.ticking && Prev(t) <= 1 ==> r == TriggerSos(Expire(t))
    ensures t.ticking && Prev(t) > 1 ==> r == t.(countdown := Some(Prev(t) - 1))
    ensures t.ticking ==> (r.countdown.Some? && r.countdown.value >= 0)
  {
    if !t.ticking then t
    else if Prev(t) <= 1 then TriggerSos(Expire(t))
    else t.(countdown := Some(Prev(t) - 1))
  }

  function Ticks(t: Timer, k: nat): Timer
    decreases k
  {
    if k == 0 then t else Ticks(Tick(t), k - 1)
  }

  /** The rest of `triggerSOS`: only the error text records a failure. `ok` is false
      both when the position cannot be obtained, so no request is sent, and when the
      trigger request fails. */
  function TriggerSettled(t: Timer, ok: bool): (r: Timer)
    ensures ok ==> r == t
    ensures !ok ==> r == t.(error := "Failed to trigger SOS")
  {
    if ok then t else t.(error := "Failed to trigger SOS")
  }

  /** `cancelTimer` up to its `await`: cancelled, and the interval cleared. */
  function PressCancel(t: Timer): (r: Timer)
    ensures r == t.(error := "", status := Cancelled, ticking := false)
  {
    t.(error := "", status := Cancelled, ticking := false)
  }

  function CancelSettled(t: Timer, ok: bool): (r: Timer)
    ensures ok ==> r == t
    ensures !ok ==> r == t.(error := "Failed to cancel")
  {
    if ok then t else t.(error := "Failed to cancel")
  }

  // ---------------------------------------------------------------------------
  // Rendering
  // ---------------------------------------------------------------------------

  predicate FormShown(t: Timer) { t.status == Idle }

  predicate CancelShown(t: Timer) { t.status == Running }

  /** The big countdown text shown while running. */
  function CountdownText(t: Timer): string
  {
    TF.FormatTime(Prev(t))
  }

  /** The status line under the controls. */
  function StatusLine(t: Timer): (r: Option<string>)
    ensures r.None? <==> t.status in {Idle, Running}
    ensures t.status == Error ==> r == Some(t.error)
  {
    match t.status
    case Idle => None
    case Running => None
    case Cancelled => Some("Check-in cancelled.")
    case Expired => Some("Timer expired! SOS triggered.")
    case Sos => Some("SOS sent due to missed check-in.")
    case Error => Some(t.error)
  }

  /** At most one of the form and the Cancel button is on screen. */
  lemma ControlsExclusive(t: Timer)
    ensures !(FormShown(t) && CancelShown(t))
    ensures FormShown(t) ==> StatusLine(t).None?
  {
  }

  // ---------------------------------------------------------------------------
  // Properties
  // ---------------------------------------------------------------------------

  /** A started timer with `n` seconds left counts down one second per tick, ends
      at 0 with the interval stopped, the status "sos" and one trigger attempt. */
  lemma {:induction false} CountsDownToSos(t: Timer, n: nat)
    requires t.ticking && t.countdown == Some(n) && n >= 1
    ensures forall k :: 0 <= k < n ==> Ticks(t, k).countdown == Some(n - k) && Ticks(t, k).ticking
    ensures var e := Ticks(t, n);
      e.status == Sos && e.countdown == Some(0) && !e.ticking && e.triggers == t.triggers + 1
    decreases n
  {
    if n == 1 {
      assert Ticks(t, 1) == Tick(t);
    } else {
      var u := Tick(t);
      assert u == t.(countdown := Some(n - 1));
      CountsDownToSos(u, n - 1);
      forall k | 0 <= k < n ensures Ticks(t, k).countdown == Some(n - k) && Ticks(t, k).ticking {
        if k > 0 {
          assert Ticks(t, k) == Ticks(u, k - 1);
        }
      }
      assert Ticks(t, n) == Ticks(u, n - 1);
    }
  }

  /** Ticks change nothing once the interval is cleared, so the countdown never
      goes below 0. */
  lemma {:induction false} StoppedStaysStopped(t: Timer, k: nat)
    requires !t.ticking
    ensures Ticks(t, k) == t
    decreases k
  {
    if k > 0 {
      StoppedStaysStopped(Tick(t), k - 1);
    }
  }

  /** From a fresh component: start, a successful start request, then the whole
      countdown ends in "sos". */
  lemma StartedTimerEndsInSos(minutes: int, now: int)
    requires minutes >= 1
    ensures var t := StartSettled(PressStart(SetDuration(Initial, minutes)), true, now);
      && t.countdown == Some(minutes * 60)
      && t.expiresAt == Some(now + minutes * 60000)
      && Ticks(t, minutes * 60).status == Sos
  {
    var t := StartSettled(PressStart(SetDuration(Initial, minutes)), true, now);
    CountsDownToSos(t, minutes * 60);
  }

  /** Cancelling stops the countdown whatever the cancel request answers. */
  lemma CancelStopsCountdown(t: Timer, ok: bool, k: nat)
    ensures var c := CancelSettled(PressCancel(t), ok);
      c.status == Cancelled && Ticks(c, k) == c
  {
    StoppedStaysStopped(CancelSettled(PressCancel(t), ok), k);
  }

  /** A cancel pressed while the start request is still pending is overtaken: the
      start's completion installs the interval after the cancel cleared it, and the
      countdown still runs to "sos" although the screen said "cancelled". */
  lemma CancelBeforeStartSettles(minutes: int, now: int)
    requires minutes >= 1
    ensures var t := StartSettled(PressCancel(PressStart(SetDuration(Initial, minutes))), true, now);
      && t.status == Cancelled && t.ticking
      && Ticks(t, minutes * 60).status == Sos
  {
    var t := StartSettled(PressCancel(PressStart(SetDuration(Initial, minutes))), true, now);
    CountsDownToSos(t, minutes * 60);
  }

  /** `startTimer`'s completion when it first checks that the timer is still the
      one it started: a cancel pressed meanwhile is left in force. */
  function StartSettledCorrected(t: Timer, ok: bool, now: int): (r: Timer)
    ensures t.status != Running ==> r == t
    ensures t.status == Running ==> r == StartSettled(t, ok, now)
  {
    if t.status != Running then t else StartSettled(t, ok, now)
  }

  /** With the corrected completion a cancel pressed during the start request
      sticks: no interval runs and no trigger attempt is ever made, whatever
      the start request answers. An uncancelled start still runs to "sos". */
  lemma CorrectedCancelBeforeStartSettles(minutes: int, now: int, ok: bool, k: nat)
    requires minutes >= 1
    ensures var t := StartSettledCorrected(PressCancel(PressStart(SetDuration(Initial, minutes))), ok, now);
      && t.status == Cancelled && !t.ticking
      && Ticks(t, k) == t && t.triggers == 0
    ensures Ticks(StartSettledCorrected(PressStart(SetDuration(Initial, minutes)), true, now), minutes * 60).status == Sos
  {
    var t := StartSettledCorrected(PressCancel(PressStart(SetDuration(Initial, minutes))), ok, now);
    StoppedStaysStopped(t, k);
    StartedTimerEndsInSos(minutes, now);
  }
  /** Only a failed start is ever reported on screen. A failed trigger attempt or cancel
      request records its error, but the status stays "sos" or "cancelled", whose
      lines do not show it; the interval stays cleared, so no later tick counts
      down again or makes a second trigger attempt. */
  lemma OnlyStartFailureShown(t: Timer, n: nat, ok: bool, now: int, k: nat)
    requires t.ticking && t.countdown == Some(n) && n >= 1
    ensures StatusLine(StartSettled(PressStart(t), false, now)) == Some("Failed to start check-in")
    ensures var e := TriggerSettled(Ticks(t, n), ok);
      && StatusLine(e) == Some("SOS sent due to missed check-in.")
      && (!ok ==> e.error == "Failed to trigger SOS")
      && e.triggers == t.triggers + 1 && Ticks(e, k) == e
    ensures var c := CancelSettled(PressCancel(t), ok);
      && StatusLine(c) == Some("Check-in cancelled.")
      && c.error == (if ok then "" else "Failed to cancel")
      && Ticks(c, k) == c && c.triggers == t.triggers
  {
    CountsDownToSos(t, n);
    StoppedStaysStopped(TriggerSettled(Ticks(t, n), ok), k);
    StoppedStaysStopped(CancelSettled(PressCancel(t), ok), k);
  }
}
