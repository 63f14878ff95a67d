/** The saved-reflections list (frontend/src/components/AffirmHub/SavedReflections.jsx):
    a case-insensitive search, the grouping of the matches under a date heading, and
    deletion. The date heading is computed by the date-fns formatter; here it is a
    parameter `dateKey` from the stored date to its heading. */
module SavedReflections {
  import opened Common
  import opened Text

  datatype Reflection = Reflection(id: int, text: string, date: string)

  // ---------------------------------------------------------------------------
  // Search
  // ---------------------------------------------------------------------------

  predicate Matches(r: Reflection, term: string)
  {
    Contains(Lower(r.text), Lower(term))
  }

  /** `reflections.filter(...)` with the search predicate. */
  function Filtered(rs: seq<Reflection>, term: string): (r: seq<Reflection>)
    ensures forall x :: x in r <==> x in rs && Matches(x, term)
    ensures |r| <= |rs|
  {
    if rs == [] then []
    else (if Matches(rs[0], term) then [rs[0]] else []) + Filtered(rs[1..], term)
  }

  /** Filtering distributes over concatenation, so the matches keep their order. */
  lemma {:induction false} FilteredAppend(a: seq<Reflection>, b: seq<Reflection>, term: string)
    ensures Filtered(a + b, term) == Filtered(a, term) + Filtered(b, term)
    decreases |a|
  {
    if a == [] {
      assert a + b == b;
    } else {
      assert (a + b)[0] == a[0];
      assert (a + b)[1..] == a[1..] + b;
      FilteredAppend(a[1..], b, term);
    }
  }

  /** The empty search term keeps every reflection. */
  lemma {:induction false} EmptyTermKeepsAll(rs: seq<Reflection>)
    ensures Filtered(rs, "") == rs
    decreases |rs|
  {
    if rs != [] {
      assert OccursAt(Lower(rs[0].text), "", 0);
      assert Lower("") == "";
      EmptyTermKeepsAll(rs[1..]);
      assert [rs[0]] + rs[1..] == rs;
    }
  }

  /** The search ignores the letter case of the term. */
  lemma SearchIgnoresTermCase(r: Reflection, term: string)
    ensures Matches(r, Lower(term)) <==> Matches(r, term)
  {
    LowerIdempotent(term);
  }

  // ---------------------------------------------------------------------------
  // Grouping by date
  // ---------------------------------------------------------------------------

  datatype Group = Group(key: string, items: seq<Reflection>)

  /** The reflections whose heading is `k`, in order. */
  function OnDate(rs: seq<Reflection>, dateKey: string -> string, k: string): (r: seq<Reflection>)
    ensures forall x :: x in r ==> x in rs && dateKey(x.date) == k
  {
    if rs == [] then []
    else OnDate(rs[..|rs| - 1], dateKey, k) + (if dateKey(rs[|rs| - 1].date) == k then [rs[|rs| - 1]] else [])
  }

  lemma {:induction false} OnDateNone(rs: seq<Reflection>, dateKey: string -> string, k: string)
    requires forall i :: 0 <= i < |rs| ==> dateKey(rs[i].date) != k
    ensures OnDate(rs, dateKey, k) == []
    decreases |rs|
  {
    if rs != [] {
      OnDateNone(rs[..|rs| - 1], dateKey, k);
    }
  }

  function FindGroup(gs: seq<Group>, k: string): (r: Option<nat>)
    ensures r.Some? ==> r.value < |gs| && gs[r.value].key == k
    ensures r.None? ==> forall i :: 0 <= i < |gs| ==> gs[i].key != k
  {
    if gs == [] then None
    else if gs[|gs| - 1].key == k then Some(|gs| - 1)
    else FindGroup(gs[..|gs| - 1], k)
  }

  /** One step of the `reduce`: put `x` in the group of its heading, opening a new
      group at the end when there is none yet. */
  function AddTo(gs: seq<Group>, x: Reflection, k: string): seq<Group>
  {
    match FindGroup(gs, k)
    case None => gs + [Group(k, [x])]
    case Some(i) => gs[i := gs[i].(items := gs[i].items + [x])]
  }

  function GroupBy(rs: seq<Reflection>, dateKey: string -> string): seq<Group>
  {
    if rs == [] then []
    else AddTo(GroupBy(rs[..|rs| - 1], dateKey), rs[|rs| - 1], dateKey(rs[|rs| - 1].date))
  }

  predicate DistinctKeys(gs: seq<Group>)
  {
    forall i, j :: 0 <= i < j < |gs| ==> gs[i].key != gs[j].key
  }

  /** Each group holds exactly the reflections with its heading, in order, and is
      not empty. */
  predicate ExactItems(gs: seq<Group>, rs: seq<Reflection>, dateKey: string -> string)
  {
    forall i :: 0 <= i < |gs| ==> gs[i].items == OnDate(rs, dateKey, gs[i].key) && gs[i].items != []
  }

  /** Every reflection's heading has a group. */
  predicate Covered(gs: seq<Group>, rs: seq<Reflection>, dateKey: string -> string)
  {
    forall n :: 0 <= n < |rs| ==> FindGroup(gs, dateKey(rs[n].date)).Some?
  }

  /** `gs` groups `rs`. */
  predicate GroupsOf(gs: seq<Group>, rs: seq<Reflection>, dateKey: string -> string)
  {
    DistinctKeys(gs) && ExactItems(gs, rs, dateKey) && Covered(gs, rs, dateKey)
  }

  /** Appending `x` adds it to the end of its own heading's list only. */
  lemma OnDateSnoc(p: seq<Reflection>, x: Reflection, dateKey: string -> string, k: string)
    ensures OnDate(p + [x], dateKey, k) == OnDate(p, dateKey, k) + (if dateKey(x.date) == k then [x] else [])
  {
    assert (p + [x])[..|p + [x]| - 1] == p;
  }

  /** A heading that has a group keeps one when groups are appended or extended. */
  lemma FindGroupKept(gs: seq<Group>, out: seq<Group>, k: string)
    requires FindGroup(gs, k).Some?
    requires |gs| <= |out| && forall i :: 0 <= i < |gs| ==> out[i].key == gs[i].key
    ensures FindGroup(out, k).Some?
  {
    var i := FindGroup(gs, k).value;
    assert out[i].key == k;
  }

  /** A reflection whose heading has no group yet opens a new group at the end. */
  lemma {:induction false} AddNewGroup(gs: seq<Group>, p: seq<Reflection>, x: Reflection, dateKey: string -> string)
    requires GroupsOf(gs, p, dateKey)
    requires FindGroup(gs, dateKey(x.date)).None?
    ensures GroupsOf(gs + [Group(dateKey(x.date), [x])], p + [x], dateKey)
  {
    var k := dateKey(x.date);
    var rs, out := p + [x], gs + [Group(k, [x])];
    forall n | 0 <= n < |p| ensures dateKey(p[n].date) != k {
      var i := FindGroup(gs, dateKey(p[n].date)).value;
      assert gs[i].key == dateKey(p[n].date);
    }
    OnDateNone(p, dateKey, k);
    OnDateSnoc(p, x, dateKey, k);
    forall i | 0 <= i < |out| ensures out[i].items == OnDate(rs, dateKey, out[i].key) && out[i].items != [] {
      if i < |gs| {
        assert out[i] == gs[i];
        OnDateSnoc(p, x, dateKey, gs[i].key);
      }
    }
    assert DistinctKeys(out);
    forall n | 0 <= n < |rs| ensures FindGroup(out, dateKey(rs[n].date)).Some? {
      if n == |p| {
        assert out[|gs|].key == dateKey(rs[n].date);
      } else {
        assert rs[n] == p[n];
        FindGroupKept(gs, out, dateKey(p[n].date));
      }
    }
  }

  /** A reflection whose heading has group `g` is appended to that group's items. */
  lemma {:induction false} AddToGroup(gs: seq<Group>, p: seq<Reflection>, x: Reflection, dateKey: string -> string, g: nat)
    requires GroupsOf(gs, p, dateKey)
    requires g < |gs| && gs[g].key == dateKey(x.date)
    ensures GroupsOf(gs[g := gs[g].(items := gs[g].items + [x])], p + [x], dateKey)
  {
    var k := dateKey(x.date);
    var rs, out := p + [x], gs[g := gs[g].(items := gs[g].items + [x])];
    forall i | 0 <= i < |out| ensures out[i].items == OnDate(rs, dateKey, out[i].key) && out[i].items != [] {
      OnDateSnoc(p, x, dateKey, gs[i].key);
      if i != g {
        assert out[i] == gs[i];
        assert gs[i].key != k;
      }
    }
    assert DistinctKeys(out);
    forall n | 0 <= n < |rs| ensures FindGroup(out, dateKey(rs[n].date)).Some? {
      if n == |p| {
        assert out[g].key == dateKey(rs[n].date);
      } else {
        assert rs[n] == p[n];
        FindGroupKept(gs, out, dateKey(p[n].date));
      }
    }
  }

  lemma {:induction false} GroupByCorrect(rs: seq<Reflection>, dateKey: string -> string)
    ensures GroupsOf(GroupBy(rs, dateKey), rs, dateKey)
    decreases |rs|
  {
    if rs != [] {
      var p, x := rs[..|rs| - 1], rs[|rs| - 1];
      assert rs == p + [x];
      var gs := GroupBy(p, dateKey);
      GroupByCorrect(p, dateKey);
      match FindGroup(gs, dateKey(x.date))
      case None => AddNewGroup(gs, p, x, dateKey);
      case Some(g) => AddToGroup(gs, p, x, dateKey, g);
    }
  }

  lemma {:induction false} OnDateContains(rs: seq<Reflection>, dateKey: string -> string, n: nat)
    requires n < |rs|
    ensures rs[n] in OnDate(rs, dateKey, dateKey(rs[n].date))
    decreases |rs|
  {
    if n < |rs| - 1 {
      OnDateContains(rs[..|rs| - 1], dateKey, n);
    }
  }

  /** Every listed reflection appears under its own heading. */
  lemma {:induction false} GroupedUnderOwnHeading(rs: seq<Reflection>, dateKey: string -> string, n: nat)
    requires n < |rs|
    ensures FindGroup(GroupBy(rs, dateKey), dateKey(rs[n].date)).Some?
    ensures rs[n] in GroupBy(rs, dateKey)[FindGroup(GroupBy(rs, dateKey), dateKey(rs[n].date)).value].items
  {
    var gs := GroupBy(rs, dateKey);
    GroupByCorrect(rs, dateKey);
    assert Covered(gs, rs, dateKey);
    var i := FindGroup(gs, dateKey(rs[n].date)).value;
    assert ExactItems(gs, rs, dateKey);
    assert gs[i].items == OnDate(rs, dateKey, dateKey(rs[n].date));
    OnDateContains(rs, dateKey, n);
  }

  /** A group lists only reflections of the list, each under its own heading. */
  lemma {:induction false} GroupedUnderNoOther(rs: seq<Reflection>, dateKey: string -> string, x: Reflection, i: nat)
    requires i < |GroupBy(rs, dateKey)| && x in GroupBy(rs, dateKey)[i].items
    ensures x in rs && GroupBy(rs, dateKey)[i].key == dateKey(x.date)
  {
    var gs := GroupBy(rs, dateKey);
    GroupByCorrect(rs, dateKey);
    assert ExactItems(gs, rs, dateKey);
    assert gs[i].items == OnDate(rs, dateKey, gs[i].key);
  }

  /** The grouped view of the search results. */
  function Grouped(rs: seq<Reflection>, term: string, dateKey: string -> string): seq<Group>
  {
    GroupBy(Filtered(rs, term), dateKey)
  }

  // ---------------------------------------------------------------------------
  // Deletion and the empty state
  // ---------------------------------------------------------------------------

  function ReflectionId(x: Reflection): int { x.id }

  /** `handleDelete`: after the confirmation, the full list without that id is what
      gets stored, whatever the search shows. */
  function HandleDelete(all: seq<Reflection>, id: int, confirmed: bool): (r: seq<Reflection>)
    ensures !confirmed ==> r == all
    ensures confirmed ==> forall x :: x in r <==> x in all && x.id != id
  {
    if confirmed then WithoutId(all, ReflectionId, id) else all
  }

  /** A reflection hidden by the search survives the deletion of another id. */
  lemma DeleteIgnoresSearch(all: seq<Reflection>, term: string, id: int, x: Reflection)
    requires x in all && !Matches(x, term) && x.id != id
    ensures x !in Filtered(all, term) && x in HandleDelete(all, id, true)
  {
  }

  datatype EmptyState = EmptyState(heading: string, hint: string)

  /** The message shown when no reflection matches, which depends on the term alone. */
  function EmptyMessage(term: string): (m: EmptyState)
    ensures term != "" ==> m == EmptyState("No matching reflections found", "Try a different search term.")
    ensures term == "" ==> m == EmptyState("No reflections yet", "Your reflections will appear here once you save them.")
  {
    if term != "" then EmptyState("No matching reflections found", "Try a different search term.")
    else EmptyState("No reflections yet", "Your reflections will appear here once you save them.")
  }

  predicate EmptyShown(rs: seq<Reflection>, term: string)
  {
    |Filtered(rs, term)| == 0
  }

  /** Without a search term the empty state appears only for an empty list. */
  lemma EmptyWithoutTerm(rs: seq<Reflection>)
    ensures EmptyShown(rs, "") <==> rs == []
  {
    EmptyTermKeepsAll(rs);
  }
}
