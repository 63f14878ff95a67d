/** The journal screen (frontend/src/components/Journal.jsx): entries with a title
    and a text, newest first, and the look chosen by the settings. Entry ids and
    creation times come from the clock and are parameters. */
module Journal {
  import opened Common
  import opened Text

  datatype Entry = Entry(id: int, title: string, text: string, createdAt: string)

  datatype Journal = Journal(title: string, text: string, entries: seq<Entry>)

  const DefaultSettings: map<string, string> :=
    map["theme" := "light", "background" := "plain", "fontSize" := "medium"]

  /** `{ ...defaultSettings, ...settings }`. */
  function EffectiveSettings(settings: map<string, string>): (r: map<string, string>)
    ensures r.Keys == DefaultSettings.Keys + settings.Keys
    ensures forall k :: k in r ==> r[k] == (if k in settings then settings[k] else DefaultSettings[k])
  {
    Spread(DefaultSettings, settings)
  }

  datatype Background = Lined | Gradient | NoBackground

  function BackgroundStyle(settings: map<string, string>): (b: Background)
    ensures b == Lined <==> EffectiveSettings(settings)["background"] == "lined"
    ensures b == Gradient <==> EffectiveSettings(settings)["background"] == "gradient"
  {
    var bg := EffectiveSettings(settings)["background"];
    if bg == "lined" then Lined else if bg == "gradient" then Gradient else NoBackground
  }

  predicate IsDark(settings: map<string, string>)
  {
    EffectiveSettings(settings)["theme"] == "dark"
  }

  /** The theme button's accessible label. */
  function ThemeButtonLabel(settings: map<string, string>): (l: string)
    ensures IsDark(settings) <==> l == "Switch to light mode"
  {
    if IsDark(settings) then "Switch to light mode" else "Switch to dark mode"
  }

  /** `handleSave`: nothing happens when both fields are blank; otherwise the trimmed
      entry goes in front and the inputs are cleared. */
  function HandleSave(j: Journal, id: int, createdAt: string): (r: Journal)
    ensures IsBlank(j.title) && IsBlank(j.text) ==> r == j
    ensures !(IsBlank(j.title) && IsBlank(j.text)) ==>
      && r.title == "" && r.text == ""
      && |r.entries| == |j.entries| + 1
      && r.entries[0] == Entry(id, Trim(j.title), Trim(j.text), createdAt)
      && r.entries[1..] == j.entries
  {
    TrimEmptyIffBlank(j.title);
    TrimEmptyIffBlank(j.text);
    if Trim(j.text) == [] && Trim(j.title) == [] then j
    else Journal("", "", [Entry(id, Trim(j.title), Trim(j.text), createdAt)] + j.entries)
  }

  function EntryId(e: Entry): int { e.id }

  /** `handleDelete`. */
  function HandleDelete(j: Journal, id: int): (r: Journal)
    ensures r.title == j.title && r.text == j.text
    ensures forall e :: e in r.entries <==> e in j.entries && e.id != id
  {
    j.(entries := WithoutId(j.entries, EntryId, id))
  }

  /** Deleting a just-saved entry by its fresh id gives back the earlier entries. */
  lemma DeleteUndoesSave(j: Journal, id: int, createdAt: string)
    requires !(IsBlank(j.title) && IsBlank(j.text))
    requires forall i :: 0 <= i < |j.entries| ==> j.entries[i].id != id
    ensures HandleDelete(HandleSave(j, id, createdAt), id).entries == j.entries
  {
    var s := HandleSave(j, id, createdAt);
    assert s.entries == [s.entries[0]] + j.entries;
    WithoutIdAppend([s.entries[0]], j.entries, EntryId, id);
    WithoutAbsentId(j.entries, EntryId, id);
  }

  /** Deleting an id keeps the order of every other entry. */
  lemma DeleteKeepsOrder(a: seq<Entry>, e: Entry, b: seq<Entry>, title: string, text: string)
    requires forall i :: 0 <= i < |a| ==> a[i].id != e.id
    requires forall i :: 0 <= i < |b| ==> b[i].id != e.id
    ensures HandleDelete(Journal(title, text, a + [e] + b), e.id).entries == a + b
  {
    var id := e.id;
    var ae := a + [e];
    WithoutIdAppend(ae, b, EntryId, id);
    WithoutIdAppend(a, [e], EntryId, id);
    WithoutAbsentId(a, EntryId, id);
    WithoutAbsentId(b, EntryId, id);
    assert [e][1..] == [];
    assert WithoutId([e], EntryId, id) == [];
    assert WithoutId(ae, EntryId, id) == a;
  }

  /** With no settings at all the defaults apply: light theme, no background. */
  lemma DefaultLook()
    ensures !IsDark(map[]) && BackgroundStyle(map[]) == NoBackground
    ensures EffectiveSettings(map[]) == DefaultSettings
  {
  }
}
