/** The PIN gate (frontend/src/components/PinGate.jsx): setting a PIN with a
    security question, unlocking with it, the forgot-PIN question and the reset.
    Local storage is a map from keys to strings. The 500 ms lockout timer is a
    separate step, `LockoutElapsed`, that runs once three failures are counted. */
module PinGate {
  import opened Common
  import opened Text

  type Storage = map<string, string>

  const PinKey: string := "app_pin"
  const QuestionKey: string := "app_sec_q"
  const AnswerKey: string := "app_sec_a"

  const MinPinLength: nat := 4
  const MaxAttempts: nat := 3

  datatype Mode = SetMode | EnterMode | ResetMode

  datatype Gate = Gate(
    storage: Storage, mode: Mode, pin: string, error: string, question: string, answer: string,
    showForgot: bool, forgotAnswer: string, resetPin: string, failedAttempts: nat,
    lockoutPending: bool)

  /** The callbacks a step invokes. */
  datatype Signal = NoSignal | Success | Fail

  datatype Step = Step(gate: Gate, signal: Signal)

  /** The initial mode: "enter" when a non-empty PIN is stored, "set" otherwise. */
  function InitialMode(storage: Storage): (m: Mode)
    ensures m == EnterMode <==> Truthy(Get(storage, PinKey))
    ensures m != ResetMode
  {
    if Truthy(Get(storage, PinKey)) then EnterMode else SetMode
  }

  function Mount(storage: Storage): (g: Gate)
    ensures g.storage == storage && g.mode == InitialMode(storage) && g.failedAttempts == 0
  {
    Gate(storage, InitialMode(storage), "", "", "", "", false, "", "", 0, false)
  }

  /** `handleSet`. */
  function HandleSet(g: Gate): (r: Gate)
    ensures |g.pin| < MinPinLength ==> r == g.(error := "PIN must be at least 4 digits")
    ensures |g.pin| >= MinPinLength && (IsBlank(g.question) || IsBlank(g.answer)) ==>
      r == g.(error := "Security question and answer required")
    ensures r.storage != g.storage ==> |g.pin| >= MinPinLength && !IsBlank(g.question) && !IsBlank(g.answer)
    ensures |g.pin| >= MinPinLength && !IsBlank(g.question) && !IsBlank(g.answer) ==>
      && r.storage == g.storage[PinKey := g.pin][QuestionKey := g.question][AnswerKey := Lower(g.answer)]
      && r.pin == "" && r.question == "" && r.answer == ""
      && r.mode == EnterMode && r.error == "PIN set! Please enter it to continue."
  {
    if |g.pin| < MinPinLength then g.(error := "PIN must be at least 4 digits")
    else
      TrimEmptyIffBlank(g.question);
      TrimEmptyIffBlank(g.answer);
      if Trim(g.question) == [] || Trim(g.answer) == [] then
        g.(error := "Security question and answer required")
      else
        g.(storage := g.storage[PinKey := g.pin][QuestionKey := g.question][AnswerKey := Lower(g.answer)],
           pin := "", question := "", answer := "", mode := EnterMode,
           error := "PIN set! Please enter it to continue.")
  }

  /** `handleEnter`. A wrong PIN counts a failure; the third one schedules the lockout. */
  function HandleEnter(g: Gate): (r: Step)
    ensures r.gate.storage == g.storage && r.gate.mode == g.mode
    ensures r.signal == Success <==> Get(g.storage, PinKey) == Some(g.pin)
    ensures r.signal == Success ==>
      r.gate == g.(error := "", pin := "", failedAttempts := 0)
    ensures r.signal != Success ==>
      && r.signal == NoSignal
      && r.gate == g.(error := "Incorrect PIN", failedAttempts := g.failedAttempts + 1,
                      lockoutPending := g.lockoutPending || g.failedAttempts + 1 >= MaxAttempts)
  {
    if Get(g.storage, PinKey) == Some(g.pin) then
      Step(g.(error := "", pin := "", failedAttempts := 0), Success)
    else
      Step(g.(error := "Incorrect PIN", failedAttempts := g.failedAttempts + 1,
              lockoutPending := g.lockoutPending || g.failedAttempts + 1 >= MaxAttempts), NoSignal)
  }

  /** The lockout timer firing: the counter and the message are cleared and the
      fail callback runs. */
  function LockoutElapsed(g: Gate): (r: Step)
    ensures g.lockoutPending ==> r == Step(g.(failedAttempts := 0, error := "", lockoutPending := false), Fail)
    ensures !g.lockoutPending ==> r == Step(g, NoSignal)
  {
    if g.lockoutPending then Step(g.(failedAttempts := 0, error := "", lockoutPending := false), Fail)
    else Step(g, NoSignal)
  }

  /** "Forgot PIN?" and the forgot view's Cancel. */
  function OpenForgot(g: Gate): (r: Gate)
    ensures r == g.(showForgot := true, error := "")
  {
    g.(showForgot := true, error := "")
  }

  function CloseForgot(g: Gate): (r: Gate)
    ensures r == g.(showForgot := false, error := "")
  {
    g.(showForgot := false, error := "")
  }

  /** `handleForgot`: the lower-cased answer is compared with the stored one. */
  function HandleForgot(g: Gate): (r: Gate)
    ensures r.storage == g.storage
    ensures Some(Lower(g.forgotAnswer)) == Get(g.storage, AnswerKey) ==>
      r == g.(showForgot := false, mode := ResetMode, forgotAnswer := "", error := "Correct! Set a new PIN.")
    ensures Some(Lower(g.forgotAnswer)) != Get(g.storage, AnswerKey) ==>
      r == g.(error := "Incorrect answer")
  {
    if Some(Lower(g.forgotAnswer)) == Get(g.storage, AnswerKey) then
      g.(showForgot := false, mode := ResetMode, forgotAnswer := "", error := "Correct! Set a new PIN.")
    else g.(error := "Incorrect answer")
  }

  /** `handleReset`: only the stored PIN is replaced. */
  function HandleReset(g: Gate): (r: Gate)
    ensures |g.resetPin| < MinPinLength ==> r == g.(error := "PIN must be at least 4 digits")
    ensures |g.resetPin| >= MinPinLength ==>
      && r.storage == g.storage[PinKey := g.resetPin]
      && r == g.(storage := r.storage, resetPin := "", mode := EnterMode,
                 error := "PIN reset! Please enter it to continue.")
  {
    if |g.resetPin| < MinPinLength then g.(error := "PIN must be at least 4 digits")
    else g.(storage := g.storage[PinKey := g.resetPin], resetPin := "", mode := EnterMode,
            error := "PIN reset! Please enter it to continue.")
  }

  // ---------------------------------------------------------------------------
  // Rendering
  // ---------------------------------------------------------------------------

  datatype View = SetView | ForgotView(question: string) | ResetView | EnterView

  /** The form on screen: "set" first, then the forgot view, then "reset", then "enter". */
  function Render(g: Gate): (v: View)
    ensures g.mode == SetMode <==> v == SetView
    ensures v.ForgotView? <==> g.mode != SetMode && g.showForgot
    ensures v == ResetView <==> g.mode == ResetMode && !g.showForgot
    ensures v.ForgotView? ==>
      v.question == (if Truthy(Get(g.storage, QuestionKey)) then g.storage[QuestionKey] else "Security question")
  {
    if g.mode == SetMode then SetView
    else if g.showForgot then
      var q := Get(g.storage, QuestionKey);
      ForgotView(if Truthy(q) then q.value else "Security question")
    else if g.mode == ResetMode then ResetView
    else EnterView
  }

  // ---------------------------------------------------------------------------
  // Properties
  // ---------------------------------------------------------------------------

  /** A PIN that was set unlocks the gate, and the answer given at set-up, in any
      letter case, opens the reset form. */
  lemma SetThenEnter(g: Gate, pin: string, question: string, answer: string)
    requires |pin| >= MinPinLength && !IsBlank(question) && !IsBlank(answer)
    ensures var s := HandleSet(g.(pin := pin, question := question, answer := answer));
      && s.mode == EnterMode
      && HandleEnter(s.(pin := pin)).signal == Success
      && HandleForgot(OpenForgot(s).(forgotAnswer := answer)).mode == ResetMode
      && HandleForgot(OpenForgot(s).(forgotAnswer := Lower(answer))).mode == ResetMode
  {
    LowerIdempotent(answer);
  }

  /** Three wrong PINs in a row from a clean counter schedule the lockout; when it
      fires the counter is back to 0 and the fail callback runs. */
  lemma ThreeStrikes(g: Gate)
    requires g.failedAttempts == 0 && !g.lockoutPending
    requires Get(g.storage, PinKey) != Some(g.pin)
    ensures var g1 := HandleEnter(g).gate;
      var g2 := HandleEnter(g1).gate;
      var g3 := HandleEnter(g2).gate;
      && !g1.lockoutPending && !g2.lockoutPending && g3.lockoutPending
      && g3.failedAttempts == 3 && g3.error == "Incorrect PIN"
      && LockoutElapsed(g3) == Step(g3.(failedAttempts := 0, error := "", lockoutPending := false), Fail)
  {
  }

  /** A correct PIN clears the counter and cancels nothing already scheduled. */
  lemma CorrectPinClearsCounter(g: Gate)
    requires Get(g.storage, PinKey) == Some(g.pin)
    ensures HandleEnter(g).gate.failedAttempts == 0 && HandleEnter(g).gate.pin == ""
    ensures HandleEnter(g).gate.lockoutPending == g.lockoutPending
  {
  }

  /** A reset keeps the security question and answer, and the new PIN unlocks. */
  lemma ResetKeepsQuestion(g: Gate, newPin: string)
    requires |newPin| >= MinPinLength
    ensures var r := HandleReset(g.(resetPin := newPin));
      && Get(r.storage, QuestionKey) == Get(g.storage, QuestionKey)
      && Get(r.storage, AnswerKey) == Get(g.storage, AnswerKey)
      && HandleEnter(r.(pin := newPin)).signal == Success
  {
  }

  /** A rejected set-up writes nothing. */
  lemma RejectedSetWritesNothing(g: Gate)
    requires |g.pin| < MinPinLength || IsBlank(g.question) || IsBlank(g.answer)
    ensures HandleSet(g).storage == g.storage && HandleSet(g).mode == g.mode
  {
  }
  /** The stored security answer is in lower case. */
  predicate AnswerStoredLower(g: Gate)
  {
    AnswerKey in g.storage ==> Lower(g.storage[AnswerKey]) == g.storage[AnswerKey]
  }

  /** Every step keeps the stored answer in lower case: set-up stores it lower-cased
      and no other step writes it. */
  lemma StepsKeepAnswerLower(g: Gate)
    requires AnswerStoredLower(g)
    ensures AnswerStoredLower(HandleSet(g)) && AnswerStoredLower(HandleEnter(g).gate)
    ensures AnswerStoredLower(LockoutElapsed(g).gate) && AnswerStoredLower(HandleReset(g))
    ensures AnswerStoredLower(OpenForgot(g)) && AnswerStoredLower(CloseForgot(g))
    ensures AnswerStoredLower(HandleForgot(g))
  {
    LowerIdempotent(g.answer);
  }

  /** With the answer stored in lower case, the forgot check accepts a typed answer
      exactly when it equals the stored one up to letter case. */
  lemma ForgotMatchesIgnoringCase(g: Gate, typed: string)
    requires AnswerStoredLower(g) && AnswerKey in g.storage
    ensures HandleForgot(g.(forgotAnswer := typed)).error == "Correct! Set a new PIN." <==>
      Lower(typed) == Lower(g.storage[AnswerKey])
  {
  }

  /** Outside set-up, "Forgot PIN?" puts the question form on screen and its Cancel
      takes it off again, back to the form that was there; neither writes storage. */
  lemma ForgotFormToggles(g: Gate)
    requires g.mode != SetMode && !g.showForgot
    ensures Render(OpenForgot(g)).ForgotView? && OpenForgot(g).storage == g.storage
    ensures Render(CloseForgot(OpenForgot(g))) == Render(g) && CloseForgot(OpenForgot(g)).storage == g.storage
  {
  }
}
