/** The action screen (frontend/src/components/ActionScreen.jsx): an SOS button and
    a five-minute check-in button with its own countdown. Handlers are split at
    their `await` as in the check-in timer model; the countdown effect is `Settle`,
    applied after every step that can change `running`, and one timeout callback is
    one `Tick`. */
module ActionScreen {
  import opened Common
  import TF = TimeFormat

  const CheckinMinutes: int := 5

  const InitialCountdown: int := 5 * 60

  datatype Screen = Screen(sosSent: bool, running: bool, countdown: int, loading: bool, error: string)

  const Initial: Screen := Screen(false, false, InitialCountdown, false, "")

  /** The countdown effect's reset branch: while not running the countdown is
      put back to five minutes. */
  function Settle(s: Screen): (r: Screen)
    ensures !s.running ==> r == s.(countdown := InitialCountdown)
    ensures s.running ==> r == s
  {
    if s.running then s else s.(countdown := InitialCountdown)
  }

  /** The countdown effect's timeout firing. */
  function Tick(s: Screen): (r: Screen)
    ensures s.running && s.countdown > 0 ==> r == s.(countdown := s.countdown - 1)
    ensures !(s.running && s.countdown > 0) ==> r == s
  {
    if s.running && s.countdown > 0 then s.(countdown := s.countdown - 1) else s
  }

  function Ticks(s: Screen, k: nat): Screen
    decreases k
  {
    if k == 0 then s else Ticks(Tick(s), k - 1)
  }

  /** The synchronous start of every handler: loading, and the error cleared. */
  function Press(s: Screen): (r: Screen)
    ensures r == s.(loading := true, error := "")
  {
    s.(loading := true, error := "")
  }

  /** The body `handleCheckin` posts to /api/checkin/start. */
  datatype StartRequest = StartRequest(userId: string, durationMinutes: int)

  function CheckinRequest(userId: string): (r: StartRequest)
    ensures r.userId == userId && r.durationMinutes * 60 == InitialCountdown
  {
    StartRequest(userId, CheckinMinutes)
  }

  function CheckinSettled(s: Screen, ok: bool): (r: Screen)
    ensures r.running == (s.running || ok) && !r.loading
    ensures r.sosSent == s.sosSent
    ensures r.error == (if ok then s.error else "Failed to start check-in")
    ensures r.countdown == (if r.running then s.countdown else InitialCountdown)
  {
    var t := if ok then s.(running := true) else s.(error := "Failed to start check-in");
    Settle(t.(loading := false))
  }

  function CancelSettled(s: Screen, ok: bool): (r: Screen)
    ensures r.running == (s.running && !ok) && !r.loading
    ensures r.sosSent == s.sosSent
    ensures r.error == (if ok then s.error else "Failed to cancel check-in")
    ensures r.countdown == (if r.running then s.countdown else InitialCountdown)
  {
    var t := if ok then s.(running := false) else s.(error := "Failed to cancel check-in");
    Settle(t.(loading := false))
  }

  /** How the SOS request ended, had it been awaited. */
  datatype Delivery = Delivered | HttpError | NetworkFailure

  /** The rest of `handleSOS` as written: `await` applies to `api.sos`, which the
      API client does not define, so the request itself is not awaited and its
      outcome never reaches the `catch`; only a location failure does. */
  function SosSettled(s: Screen, located: bool, delivery: Delivery): (r: Screen)
    ensures r.sosSent <==> s.sosSent || located
    ensures r.error == (if located then s.error else "Failed to send SOS")
    ensures r.running == s.running && r.countdown == s.countdown && !r.loading
  {
    var t := if located then s.(sosSent := true) else s.(error := "Failed to send SOS");
    t.(loading := false)
  }

  /** `handleSOS` with the request awaited and a non-OK answer treated as a failure. */
  function SosSettledCorrected(s: Screen, located: bool, delivery: Delivery): (r: Screen)
    ensures r.sosSent <==> s.sosSent || (located && delivery == Delivered)
    ensures r.error == (if located && delivery == Delivered then s.error else "Failed to send SOS")
    ensures r.running == s.running && r.countdown == s.countdown && !r.loading
  {
    var t := if located && delivery == Delivered then s.(sosSent := true) else s.(error := "Failed to send SOS");
    t.(loading := false)
  }

  /** As written, a located SOS is reported sent even when the server refuses it. */
  lemma SosReportedDespiteRefusal(s: Screen)
    ensures SosSettled(Press(s), true, HttpError).sosSent
    ensures SosSettled(Press(s), true, HttpError).error == ""
    ensures !SosSettledCorrected(Press(s), true, HttpError).sosSent || s.sosSent
    ensures SosSettledCorrected(Press(s), true, HttpError).error == "Failed to send SOS"
  {
  }

  /** The auto-SOS effect's condition. */
  predicate AutoSosDue(s: Screen)
  {
    s.running && s.countdown == 0
  }

  /** The auto-SOS effect up to its `await`. */
  function AutoSosStarted(s: Screen): (r: Screen)
    ensures r == s.(loading := true)
  {
    s.(loading := true)
  }

  function AutoSosSettled(s: Screen, ok: bool): (r: Screen)
    ensures r == s.(loading := false, error := if ok then s.error else "Failed to trigger auto-SOS")
  {
    s.(loading := false, error := if ok then s.error else "Failed to trigger auto-SOS")
  }

  /** The return to the journal is scheduled after a sent SOS or an expired check-in. */
  predicate ReturnScheduled(s: Screen)
  {
    s.sosSent || AutoSosDue(s)
  }

  // ---------------------------------------------------------------------------
  // The check-in button
  // ---------------------------------------------------------------------------

  datatype Action = Checkin | Cancel

  function ButtonAction(s: Screen): (a: Action)
    ensures a == Cancel <==> s.running
  {
    if s.running then Cancel else Checkin
  }

  function ButtonLabel(s: Screen): (l: string)
    ensures s.running ==> l == "Cancel (" + TF.FormatTime(s.countdown) + ")"
    ensures !s.running ==> l == "Check-In"
  {
    if s.running then "Cancel (" + TF.FormatTime(s.countdown) + ")" else "Check-In"
  }

  /** Both buttons are disabled while a request is loading. */
  predicate ButtonsEnabled(s: Screen)
  {
    !s.loading
  }

  // ---------------------------------------------------------------------------
  // Invariant and properties
  // ---------------------------------------------------------------------------

  /** The countdown stays within five minutes and is full whenever not running. */
  predicate Inv(s: Screen)
  {
    0 <= s.countdown <= InitialCountdown && (!s.running ==> s.countdown == InitialCountdown)
  }

  lemma InitialInv()
    ensures Inv(Initial) && !AutoSosDue(Initial) && ButtonLabel(Initial) == "Check-In"
  {
  }

  /** Every step keeps the invariant. */
  lemma StepsKeepInv(s: Screen, ok: bool, located: bool, delivery: Delivery)
    requires Inv(s)
    ensures Inv(Settle(s)) && Inv(Tick(s)) && Inv(Press(s)) && Inv(AutoSosStarted(s)) && Inv(AutoSosSettled(s, ok))
    ensures Inv(CheckinSettled(s, ok)) && Inv(CancelSettled(s, ok))
    ensures Inv(SosSettled(s, located, delivery)) && Inv(SosSettledCorrected(s, located, delivery))
  {
  }

  /** Running with `c` seconds left, `k <= c` ticks leave `c - k`; after all `c` the
      auto-SOS is due and further ticks change nothing. */
  lemma {:induction false} CountsDown(s: Screen, k: nat)
    requires s.running && k <= s.countdown
    ensures Ticks(s, k) == s.(countdown := s.countdown - k)
    ensures k == s.countdown ==> AutoSosDue(Ticks(s, k)) && Tick(Ticks(s, k)) == Ticks(s, k)
    decreases k
  {
    if k > 0 {
      CountsDown(Tick(s), k - 1);
    }
  }

  /** A successful check-in from the initial screen: five minutes shown, and after
      300 ticks the auto-SOS is due and the return is scheduled. */
  lemma CheckinRunsFiveMinutes()
    ensures var s := CheckinSettled(Press(Initial), true);
      && s.running && s.countdown == 300
      && ButtonLabel(s) == "Cancel (5:00)"
      && AutoSosDue(Ticks(s, 300)) && ReturnScheduled(Ticks(s, 300))
  {
    var s := CheckinSettled(Press(Initial), true);
    assert s == Screen(false, true, 300, false, "");
    TF.FiveMinutesShown();
    assert ButtonLabel(s) == "Cancel (" + "5:00" + ")";
    CountsDown(s, 300);
  }

  /** A failed request leaves `running` as it was; only a settled request changes it. */
  lemma FailuresKeepRunning(s: Screen)
    ensures CheckinSettled(s, false).running == s.running
    ensures CancelSettled(s, false).running == s.running
    ensures Tick(s).running == s.running && Press(s).running == s.running
  {
  }
}
