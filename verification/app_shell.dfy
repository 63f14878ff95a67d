/** The application shell (frontend/src/App.jsx): which of the journal, action and
    settings screens is shown, navigation by horizontal swipes, the shared settings
    record, the theme toggle handed to the journal, and the onboarding overlay
    whose dismissal is remembered under the storage key "onboarding_dismissed". */
module AppShell {
  import opened Common
  import J = Journal

  datatype Nav = JournalView | ActionView | SettingsView

  /** `onSwipedLeft`: the journal gives way to the settings and the action screen to
      the journal; on the settings screen nothing happens. */
  function SwipeLeft(v: Nav): (r: Nav)
    ensures v == JournalView ==> r == SettingsView
    ensures v == ActionView ==> r == JournalView
    ensures v == SettingsView ==> r == SettingsView
  {
    match v
    case JournalView => SettingsView
    case ActionView => JournalView
    case SettingsView => SettingsView
  }

  /** `onSwipedRight`: the journal gives way to the action screen and the settings
      to the journal; on the action screen nothing happens. */
  function SwipeRight(v: Nav): (r: Nav)
    ensures v == JournalView ==> r == ActionView
    ensures v == SettingsView ==> r == JournalView
    ensures v == ActionView ==> r == ActionView
  {
    match v
    case JournalView => ActionView
    case SettingsView => JournalView
    case ActionView => ActionView
  }

  /** A swipe followed by the opposite swipe comes back, except from the screen at
      the far end in the first swipe's direction. */
  lemma SwipeBack(v: Nav)
    ensures SwipeRight(SwipeLeft(v)) == v <==> v != SettingsView
    ensures SwipeLeft(SwipeRight(v)) == v <==> v != ActionView
  {
  }

  /** From the journal either swipe and its opposite return to the journal. */
  lemma SwipesFromJournal()
    ensures SwipeRight(SwipeLeft(JournalView)) == JournalView
    ensures SwipeLeft(SwipeRight(JournalView)) == JournalView
  {
    SwipeBack(JournalView);
  }

  /** Every screen reaches the journal in at most one swipe. */
  lemma JournalOneSwipeAway(v: Nav)
    ensures v == JournalView || SwipeLeft(v) == JournalView || SwipeRight(v) == JournalView
  {
  }

  // ---------------------------------------------------------------------------
  // Settings and theme
  // ---------------------------------------------------------------------------

  const InitialSettings: map<string, string> :=
    map["theme" := "warm", "font" := "Inter", "background" := "plain"]

  /** The journal's theme toggle: "dark" becomes "warm"; anything else, a missing
      theme included, becomes "dark". The other settings are kept. */
  function ToggleTheme(s: map<string, string>): (r: map<string, string>)
    ensures r.Keys == s.Keys + {"theme"}
    ensures r["theme"] == (if Get(s, "theme") == Some("dark") then "warm" else "dark")
    ensures forall k :: k in s && k != "theme" ==> r[k] == s[k]
  {
    s["theme" := if Get(s, "theme") == Some("dark") then "warm" else "dark"]
  }

  /** Two toggles restore the settings exactly when the theme was "dark" or "warm". */
  lemma ToggleTwice(s: map<string, string>)
    ensures ToggleTheme(ToggleTheme(s)) == s <==> Get(s, "theme") == Some("dark") || Get(s, "theme") == Some("warm")
  {
    if ToggleTheme(ToggleTheme(s)) == s {
      assert "theme" in s;
      assert s["theme"] == ToggleTheme(ToggleTheme(s))["theme"];
    }
  }

  /** `handleSettingsChange`: the given keys are merged over the current ones. */
  function SettingsChange(s: map<string, string>, change: map<string, string>): (r: map<string, string>)
    ensures r.Keys == s.Keys + change.Keys
    ensures forall k :: k in change ==> r[k] == change[k]
    ensures forall k :: k in s && k !in change ==> r[k] == s[k]
  {
    Spread(s, change)
  }

  /** A change that sets no key leaves the settings as they are, and one that
      repeats the current values does too. */
  lemma SettingsChangeNeutral(s: map<string, string>, change: map<string, string>)
    requires forall k :: k in change ==> k in s && s[k] == change[k]
    ensures SettingsChange(s, change) == s
  {
  }

  // ---------------------------------------------------------------------------
  // The shell's state
  // ---------------------------------------------------------------------------

  const DismissedKey: string := "onboarding_dismissed"

  datatype App = App(view: Nav, settings: map<string, string>, showOnboarding: bool, storage: map<string, string>)

  /** The initial state: the journal, the initial settings, and the overlay unless a
      truthy dismissal flag is stored. */
  function Mount(storage: map<string, string>): (a: App)
    ensures a.view == JournalView && a.settings == InitialSettings && a.storage == storage
    ensures a.showOnboarding <==> !(DismissedKey in storage && storage[DismissedKey] != "")
  {
    App(JournalView, InitialSettings, !Truthy(Get(storage, DismissedKey)), storage)
  }

  /** `handleDismissOnboarding`: the flag "1" is stored and the overlay hidden. */
  function Dismiss(a: App): (r: App)
    ensures !r.showOnboarding && r.storage == a.storage[DismissedKey := "1"]
    ensures r.view == a.view && r.settings == a.settings
  {
    a.(storage := a.storage[DismissedKey := "1"], showOnboarding := false)
  }

  /** A dismissal is remembered: the next mount does not show the overlay. */
  lemma DismissPersists(a: App)
    ensures !Mount(Dismiss(a).storage).showOnboarding
  {
  }

  function Swiped(a: App, left: bool): (r: App)
    ensures r.view == (if left then SwipeLeft(a.view) else SwipeRight(a.view))
    ensures r == a.(view := r.view)
  {
    a.(view := if left then SwipeLeft(a.view) else SwipeRight(a.view))
  }

  function Toggled(a: App): (r: App)
    ensures r.settings == ToggleTheme(a.settings) && r == a.(settings := r.settings)
  {
    a.(settings := ToggleTheme(a.settings))
  }

  function Changed(a: App, change: map<string, string>): (r: App)
    ensures r.settings == SettingsChange(a.settings, change) && r == a.(settings := r.settings)
  {
    a.(settings := SettingsChange(a.settings, change))
  }

  /** The action screen's `onReturn` and the settings screen's `onFail`. */
  function BackToJournal(a: App): (r: App)
    ensures r.view == JournalView && r == a.(view := JournalView)
  {
    a.(view := JournalView)
  }

  /** The page colours: dark grey with white text for the dark theme, white with
      dark grey text otherwise. */
  function PageColours(s: map<string, string>): (c: (string, string))
    ensures Get(s, "theme") == Some("dark") <==> c == ("#222", "#fff")
    ensures Get(s, "theme") != Some("dark") <==> c == ("#fff", "#222")
  {
    if Get(s, "theme") == Some("dark") then ("#222", "#fff") else ("#fff", "#222")
  }

  /** The journal reads the shell's settings over its own defaults: with the initial
      settings it is light and plain, after one toggle it is dark, and the page and
      the journal agree on darkness at every step. */
  lemma JournalFollowsShell(s: map<string, string>)
    ensures !J.IsDark(InitialSettings) && J.BackgroundStyle(InitialSettings) == J.NoBackground
    ensures J.IsDark(ToggleTheme(InitialSettings))
    ensures J.IsDark(s) <==> PageColours(s) == ("#222", "#fff")
  {
  }

  /** The toggle alternates the theme between "dark" and "warm" once it has run. */
  lemma ToggleAlternates(s: map<string, string>)
    ensures var t := ToggleTheme(s);
      Get(t, "theme") == Some("dark") || Get(t, "theme") == Some("warm")
    ensures ToggleTheme(ToggleTheme(ToggleTheme(s))) == ToggleTheme(s)
  {
    ToggleTwice(ToggleTheme(s));
  }
  /** The journal's theme button offers the way back: after a toggle it reads
      "Switch to light mode" exactly when the theme before it was not "dark". */
  lemma ThemeLabelAfterToggle(s: map<string, string>)
    ensures J.ThemeButtonLabel(ToggleTheme(s)) == "Switch to light mode" <==> Get(s, "theme") != Some("dark")
  {
  }

  /** Only the dismissal writes storage or hides the overlay: swipes, the toggle, a
      settings change and the return to the journal keep both, and only the toggle
      and a settings change touch the settings. */
  lemma ShellStepsKeepStorage(a: App, left: bool, change: map<string, string>)
    ensures var steps := [Swiped(a, left), Toggled(a), Changed(a, change), BackToJournal(a)];
      forall i :: 0 <= i < |steps| ==> steps[i].storage == a.storage && steps[i].showOnboarding == a.showOnboarding
    ensures Swiped(a, left).settings == a.settings && BackToJournal(a).settings == a.settings
    ensures Toggled(a).view == a.view && Changed(a, change).view == a.view
  {
  }
}
