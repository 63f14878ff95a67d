/** The AffirmHub shell (frontend/src/components/AffirmHub/AffirmHub.jsx): the list of
    saved reflections mirrored in the browser storage key "affirm_reflections", the
    view selected by the drawer, and the drawer flag. The storage holds the list
    itself; its JSON encoding is not modelled. `Date.now()` and the ISO date string
    are parameters. */
module AffirmHub {
  import opened Common
  import SR = SavedReflections
  import HH = AffirmHubHome

  const Home: string := "home"
  const Grow: string := "grow"
  const Learn: string := "learn"
  const Heal: string := "heal"
  const Reflections: string := "reflections"

  /** The panels `renderView` can show; the reflections panel receives the list. */
  datatype Panel = HomePanel | GrowPanel | LearnPanel | HealPanel | ReflectionsPanel(reflections: seq<SR.Reflection>)

  datatype Hub = Hub(drawerOpen: bool, currentView: string, saved: seq<SR.Reflection>, storage: Option<seq<SR.Reflection>>)

  /** The mount effect: `JSON.parse(localStorage.getItem(...)) || []`. */
  function Mount(storage: Option<seq<SR.Reflection>>): (h: Hub)
    ensures !h.drawerOpen && h.currentView == Home && h.storage == storage
    ensures storage.Some? ==> h.saved == storage.value
    ensures storage.None? ==> h.saved == []
  {
    Hub(false, Home, if storage.Some? then storage.value else [], storage)
  }

  /** `saveReflection`: the new reflection, stamped with the clock, goes at the end
      of the list, and that same list is written to storage and put in state. */
  function SaveReflection(h: Hub, text: string, now: int, iso: string): (r: Hub)
    ensures |r.saved| == |h.saved| + 1 && r.saved[..|h.saved|] == h.saved
    ensures r.saved[|h.saved|] == SR.Reflection(now, text, iso)
    ensures r.storage == Some(r.saved)
    ensures r.drawerOpen == h.drawerOpen && r.currentView == h.currentView
  {
    var updated := h.saved + [SR.Reflection(now, text, iso)];
    assert updated[..|h.saved|] == h.saved;
    h.(saved := updated, storage := Some(updated))
  }

  datatype Event = Event(kind: string, key: string)

  /** The handler made by `toggleDrawer(open)`: Tab and Shift key presses leave the
      drawer as it is; any other event sets it to `open`. */
  function ToggleDrawer(h: Hub, open: bool, e: Event): (r: Hub)
    ensures r == h.(drawerOpen := r.drawerOpen)
    ensures r.drawerOpen == (if e.kind == "keydown" && (e.key == "Tab" || e.key == "Shift") then h.drawerOpen else open)
  {
    if e.kind == "keydown" && (e.key == "Tab" || e.key == "Shift") then h
    else h.(drawerOpen := open)
  }

  /** The drawer's `onNavigate`, and the home panel's "View Saved Reflections". */
  function Navigate(h: Hub, view: string): (r: Hub)
    ensures r.currentView == view && r == h.(currentView := view)
  {
    h.(currentView := view)
  }

  /** `renderView`. */
  function Render(h: Hub): Panel
  {
    if h.currentView == Grow then GrowPanel
    else if h.currentView == Learn then LearnPanel
    else if h.currentView == Heal then HealPanel
    else if h.currentView == Reflections then ReflectionsPanel(h.saved)
    else HomePanel
  }

  /** The four named views show their own panel, the reflections panel shows the
      state's list, and every other value, "home" included, shows the home panel. */
  lemma RenderDispatch(h: Hub)
    ensures Render(h) == GrowPanel <==> h.currentView == Grow
    ensures Render(h) == LearnPanel <==> h.currentView == Learn
    ensures Render(h) == HealPanel <==> h.currentView == Heal
    ensures Render(h).ReflectionsPanel? <==> h.currentView == Reflections
    ensures Render(h).ReflectionsPanel? ==> Render(h).reflections == h.saved
    ensures Render(h) == HomePanel <==> h.currentView !in {Grow, Learn, Heal, Reflections}
  {
  }

  /** The delete button of the reflections panel: after the confirmation the list
      without that id is written to storage and the page reloads. The model takes
      the reloaded page to mount the hub afresh from storage; the application shell
      in frontend/src/App.jsx does not mount this hub, so which page the reload
      shows is outside the source modelled here. */
  function DeleteAndReload(h: Hub, id: int, confirmed: bool): (r: Hub)
    ensures !confirmed ==> r == h
    ensures confirmed ==> r == Mount(Some(SR.HandleDelete(h.saved, id, true)))
  {
    if confirmed then Mount(Some(SR.HandleDelete(h.saved, id, true))) else h
  }

  /** The state list and the stored list agree: equal once something was stored,
      and empty while nothing is. */
  predicate Mirrored(h: Hub)
  {
    match h.storage
    case Some(s) => h.saved == s
    case None => h.saved == []
  }

  lemma MountMirrored(storage: Option<seq<SR.Reflection>>)
    ensures Mirrored(Mount(storage))
  {
  }

  /** Every step of the hub keeps the state and the storage in agreement. */
  lemma StepsKeepMirrored(h: Hub, text: string, now: int, iso: string, open: bool, e: Event, view: string, id: int, confirmed: bool)
    requires Mirrored(h)
    ensures Mirrored(SaveReflection(h, text, now, iso))
    ensures Mirrored(ToggleDrawer(h, open, e)) && Mirrored(Navigate(h, view))
    ensures Mirrored(DeleteAndReload(h, id, confirmed))
  {
  }

  /** Deleting from the reflections panel reloads the page, which lands on the home
      panel with the drawer closed. */
  lemma DeleteLeavesReflectionsPanel(h: Hub, id: int)
    ensures Render(DeleteAndReload(h, id, true)) == HomePanel
    ensures !DeleteAndReload(h, id, true).drawerOpen
  {
  }

  /** A saved reflection whose text contains the search term is found by the search,
      as the last match. */
  lemma {:induction false} SavedIsSearchable(h: Hub, text: string, now: int, iso: string, term: string)
    requires SR.Matches(SR.Reflection(now, text, iso), term)
    ensures var found := SR.Filtered(SaveReflection(h, text, now, iso).saved, term);
      found == SR.Filtered(h.saved, term) + [SR.Reflection(now, text, iso)]
  {
    var x := SR.Reflection(now, text, iso);
    SR.FilteredAppend(h.saved, [x], term);
    assert [x][1..] == [];
  }

  /** A reflection saved and then deleted by its id is gone, and the reflections with
      other ids are kept. */
  lemma SaveThenDelete(h: Hub, text: string, now: int, iso: string, x: SR.Reflection)
    requires x in h.saved && x.id != now
    ensures var after := DeleteAndReload(SaveReflection(h, text, now, iso), now, true);
      SR.Reflection(now, text, iso) !in after.saved && x in after.saved
  {
    var s := SaveReflection(h, text, now, iso);
    assert x in s.saved by {
      var i :| 0 <= i < |h.saved| && h.saved[i] == x;
      assert s.saved[i] == x;
    }
  }

  /** The home panel's save, end to end: a click on an enabled button and its
      timeout append the text exactly as typed to the hub's list and storage. */
  lemma HomeSaveReachesHub(h: Hub, home: HH.Home, now: int, iso: string)
    requires HH.Inv(home) && !HH.SaveDisabled(home)
    ensures var c := HH.SaveCompleted(HH.Click(home));
      var r := SaveReflection(h, c.sent, now, iso);
      r.saved == h.saved + [SR.Reflection(now, home.reflection, iso)] && r.storage == Some(r.saved)
  {
    HH.ClickThenCompleteSendsText(home);
  }
}
