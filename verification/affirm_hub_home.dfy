/** The AffirmHub home screen (frontend/src/components/AffirmHub/AffirmHubHome.jsx):
    a carousel of five quotes that advances every 8 seconds or jumps to a clicked
    dot, and a reflection box whose save is simulated by a 500 ms timeout. Timer
    callbacks are steps of their own: `Rotate` for the interval, `SaveCompleted`
    for the save timeout and `HideSuccess` for the 3 second message timeout. */
module AffirmHubHome {
  import opened Text

  datatype Quote = Quote(text: string, author: string)

  const Quotes: seq<Quote> := [
    Quote("The power you have is to be the best version of yourself you can be, so you can create a better world.", "Lupita Nyong'o"),
    Quote("You don't have to be perfect to inspire others. Let people get inspired by how you deal with your imperfections.", "Chimamanda Ngozi Adichie"),
    Quote("If you want to go fast, go alone. If you want to go far, go together.", "African Proverb"),
    Quote("The future belongs to those who believe in the beauty of their dreams.", "Ellen Johnson Sirleaf"),
    Quote("You can never go back and change the beginning, but you can start where you are and change the ending.", "Tsitsi Dangarembga")
  ]

  /** The component state. `pending` holds the texts captured by save timeouts that
      have not fired yet, oldest first; `hideTimers` counts the pending 3 second
      timeouts that clear the success message. */
  datatype Home = Home(
    reflection: string, quoteIndex: nat, isSaving: bool, saveSuccess: bool,
    pending: seq<string>, hideTimers: nat)

  const Initial: Home := Home("", 0, false, false, [], 0)

  // ---------------------------------------------------------------------------
  // Quotes
  // ---------------------------------------------------------------------------

  /** The interval callback: the next quote, wrapping after the last one. */
  function Rotate(h: Home): (r: Home)
    ensures r.quoteIndex < |Quotes|
    ensures h.quoteIndex + 1 < |Quotes| ==> r.quoteIndex == h.quoteIndex + 1
    ensures h.quoteIndex + 1 == |Quotes| ==> r.quoteIndex == 0
    ensures r == h.(quoteIndex := r.quoteIndex)
  {
    h.(quoteIndex := (h.quoteIndex + 1) % |Quotes|)
  }

  function Rotations(h: Home, k: nat): (r: Home)
    ensures r == h.(quoteIndex := r.quoteIndex)
    decreases k
  {
    if k == 0 then h else Rotate(Rotations(h, k - 1))
  }

  /** `k` rotations advance the index by `k` places around the carousel. */
  lemma {:induction false} RotationsAdvance(h: Home, k: nat)
    requires h.quoteIndex < |Quotes|
    ensures Rotations(h, k).quoteIndex == (h.quoteIndex + k) % |Quotes|
    decreases k
  {
    if k > 0 {
      RotationsAdvance(h, k - 1);
    }
  }

  /** Five rotations show the same quote again. */
  lemma FullCycle(h: Home)
    requires h.quoteIndex < |Quotes|
    ensures Rotations(h, |Quotes|) == h
  {
    RotationsAdvance(h, |Quotes|);
  }

  /** The dot for quote `k`; there is one dot per quote. */
  function SelectQuote(h: Home, k: nat): (r: Home)
    requires k < |Quotes|
    ensures r.quoteIndex == k && r == h.(quoteIndex := k)
  {
    h.(quoteIndex := k)
  }

  /** The quote on display. */
  function Shown(h: Home): Quote
    requires h.quoteIndex < |Quotes|
  {
    Quotes[h.quoteIndex]
  }

  // ---------------------------------------------------------------------------
  // Saving a reflection
  // ---------------------------------------------------------------------------

  /** The text area's change handler. */
  function TypeText(h: Home, text: string): (r: Home)
    ensures r.reflection == text && r == h.(reflection := text)
  {
    h.(reflection := text)
  }

  /** `disabled={!reflection.trim() || isSaving}`. */
  predicate SaveDisabled(h: Home)
  {
    Trim(h.reflection) == "" || h.isSaving
  }

  /** `handleSaveReflection`: a whitespace-only text is ignored; otherwise saving is
      switched on and a timeout is scheduled that holds the text as typed now. */
  function HandleSave(h: Home): (r: Home)
    ensures IsBlank(h.reflection) ==> r == h
    ensures !IsBlank(h.reflection) ==>
      r == h.(isSaving := true, pending := h.pending + [h.reflection])
  {
    TrimEmptyIffBlank(h.reflection);
    if Trim(h.reflection) == "" then h
    else h.(isSaving := true, pending := h.pending + [h.reflection])
  }

  /** A click on the save button, which does nothing while the button is disabled. */
  function Click(h: Home): (r: Home)
    ensures SaveDisabled(h) ==> r == h
    ensures !SaveDisabled(h) ==> r == HandleSave(h)
  {
    if SaveDisabled(h) then h else HandleSave(h)
  }

  /** The button is disabled exactly when the text is whitespace-only or a save is
      in progress. */
  lemma DisabledIff(h: Home)
    ensures SaveDisabled(h) <==> IsBlank(h.reflection) || h.isSaving
  {
    TrimEmptyIffBlank(h.reflection);
  }

  datatype Completion = Completion(home: Home, sent: string)

  /** The oldest save timeout fires: its captured text goes to `onSaveReflection`
      unchanged, the text area is cleared, saving is off, the success message is on
      and its hide timeout is scheduled. */
  function SaveCompleted(h: Home): (c: Completion)
    requires h.pending != []
    ensures c.sent == h.pending[0]
    ensures c.home.reflection == "" && !c.home.isSaving && c.home.saveSuccess
    ensures c.home.pending == h.pending[1..] && c.home.hideTimers == h.hideTimers + 1
    ensures c.home.quoteIndex == h.quoteIndex
  {
    Completion(h.(reflection := "", isSaving := false, saveSuccess := true,
                  pending := h.pending[1..], hideTimers := h.hideTimers + 1), h.pending[0])
  }

  /** A hide timeout fires and clears the success message, whichever save set it. */
  function HideSuccess(h: Home): (r: Home)
    requires h.hideTimers > 0
    ensures !r.saveSuccess && r.hideTimers == h.hideTimers - 1
    ensures r == h.(saveSuccess := false, hideTimers := h.hideTimers - 1)
  {
    h.(saveSuccess := false, hideTimers := h.hideTimers - 1)
  }

  function ButtonLabel(h: Home): (s: string)
    ensures s == "Saving..." <==> h.isSaving
  {
    if h.isSaving then "Saving..." else "Save Reflection"
  }

  // ---------------------------------------------------------------------------
  // Invariant and properties
  // ---------------------------------------------------------------------------

  /** The quote index names a quote, and through the button at most one save is
      pending, exactly while saving is on. */
  predicate Inv(h: Home)
  {
    h.quoteIndex < |Quotes| && |h.pending| <= 1 && (h.isSaving <==> |h.pending| == 1)
  }

  lemma InitialInv()
    ensures Inv(Initial)
  {
  }

  /** Every user action and timer keeps the invariant. */
  lemma StepsKeepInv(h: Home, text: string, k: nat)
    requires Inv(h)
    ensures Inv(Rotate(h)) && Inv(TypeText(h, text)) && Inv(Click(h))
    ensures k < |Quotes| ==> Inv(SelectQuote(h, k))
    ensures h.pending != [] ==> Inv(SaveCompleted(h).home)
    ensures h.hideTimers > 0 ==> Inv(HideSuccess(h))
  {
    DisabledIff(h);
  }

  /** A click on an enabled button followed by the timeout sends exactly the text
      as typed, surrounding whitespace included, and resets the text area. */
  lemma ClickThenCompleteSendsText(h: Home)
    requires Inv(h) && !SaveDisabled(h)
    ensures Click(h).pending == [h.reflection]
    ensures var c := SaveCompleted(Click(h));
      c.sent == h.reflection && c.home.reflection == "" && !c.home.isSaving && c.home.saveSuccess
  {
    DisabledIff(h);
  }

  /** Text typed while a save is in progress is discarded by its completion: the
      text sent is the one captured at the click. */
  lemma TypingDuringSaveIsLost(h: Home, later: string)
    requires Inv(h) && !SaveDisabled(h)
    ensures var during := TypeText(Click(h), later);
      SaveDisabled(during)
      && SaveCompleted(during).sent == h.reflection
      && SaveCompleted(during).home.reflection == ""
  {
    DisabledIff(h);
  }

  /** A whitespace-only reflection is never sent. */
  lemma BlankNeverSent(h: Home)
    requires IsBlank(h.reflection)
    ensures Click(h) == h && HandleSave(h) == h
  {
    DisabledIff(h);
  }
}
