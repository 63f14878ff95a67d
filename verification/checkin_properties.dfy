/** Properties of the check-in/SOS engine over sequences of requests: the store
    invariant every handler keeps, how the number of active records moves, and the
    lifecycle scenarios (start, cancel, trigger before, at and after expiry, a cancel
    landing before the trigger). */
module CheckinProperties {
  import opened Common
  import opened EngineStore
  import opened CheckinRoutes
  import CM = CheckinModel
  import EV = SOSEventModel
  import SosRoute

  // ---------------------------------------------------------------------------
  // Selection and counting
  // ---------------------------------------------------------------------------

  lemma FirstActiveUnique(cs: seq<CM.Checkin>, u: string, i: int, j: int)
    requires IsFirstActive(cs, u, i) && IsFirstActive(cs, u, j)
    ensures i == j
  {
  }

  /** With no active record of `u` in `cs`, an appended active record of `u` is the one selected. */
  lemma FindActiveAppended(cs: seq<CM.Checkin>, u: string, c: CM.Checkin)
    requires NoActive(cs, u) && c.userId == u && c.active
    ensures FindActive(cs + [c], u) == Some(|cs|)
  {
    var xs := cs + [c];
    forall j | 0 <= j < |cs|
      ensures !ActiveOf(xs, u, j)
    {
      assert xs[j] == cs[j];
      assert !ActiveOf(cs, u, j);
    }
    assert IsFirstActive(xs, u, |cs|);
  }

  /** Deactivating the appended record leaves `u` without an active record. */
  lemma NoActiveAfterDeactivatingAppended(cs: seq<CM.Checkin>, u: string, c: CM.Checkin)
    requires NoActive(cs, u)
    ensures NoActive(Deactivate(cs + [c], |cs|), u)
  {
    var xs := Deactivate(cs + [c], |cs|);
    forall j | 0 <= j < |xs|
      ensures !ActiveOf(xs, u, j)
    {
      if j < |cs| {
        assert xs[j] == (cs + [c])[j] == cs[j];
        assert !ActiveOf(cs, u, j);
      } else {
        assert j == |cs| && !xs[j].active;
      }
    }
  }

  lemma ActiveCountAppend(cs: seq<CM.Checkin>, u: string, c: CM.Checkin)
    ensures ActiveCount(cs + [c], u) == ActiveCount(cs, u) + (if c.userId == u && c.active then 1 else 0)
  {
    assert (cs + [c])[..|cs|] == cs;
  }

  /** No active record of `u` exactly when `u`'s active count is zero. */
  lemma {:induction false} ActiveCountZeroIffNone(cs: seq<CM.Checkin>, u: string)
    ensures ActiveCount(cs, u) == 0 <==> NoActive(cs, u)
    decreases |cs|
  {
    if cs != [] {
      var init := cs[..|cs| - 1];
      ActiveCountZeroIffNone(init, u);
      assert forall j :: 0 <= j < |init| ==> init[j] == cs[j];
      if NoActive(init, u) && !ActiveOf(cs, u, |cs| - 1) {
        assert NoActive(cs, u) by {
          forall j | 0 <= j < |cs|
            ensures !ActiveOf(cs, u, j)
          {
            if j < |init| {
              assert !ActiveOf(init, u, j);
            }
          }
        }
      }
      if NoActive(cs, u) {
        assert NoActive(init, u) by {
          forall j | 0 <= j < |init|
            ensures !ActiveOf(init, u, j)
          {
            assert !ActiveOf(cs, u, j);
          }
        }
      }
    }
  }

  /** Deactivating an active record of `u` lowers `u`'s count by one and no other user's. */
  lemma {:induction false} ActiveCountDeactivate(cs: seq<CM.Checkin>, u: string, i: nat, v: string)
    requires ActiveOf(cs, u, i)
    ensures ActiveCount(Deactivate(cs, i), v) == ActiveCount(cs, v) - (if v == u then 1 else 0)
    decreases |cs|
  {
    var ds := Deactivate(cs, i);
    var n := |cs| - 1;
    assert ds[..n] == if i == n then cs[..n] else Deactivate(cs[..n], i);
    if i < n {
      ActiveCountDeactivate(cs[..n], u, i, v);
    }
  }

  // ---------------------------------------------------------------------------
  // Store invariant
  // ---------------------------------------------------------------------------

  lemma StartWellFormed(st: Store, userId: Option<string>, d: Option<int>, loc: Option<EV.LocationFields>, now: int)
    requires WellFormed(st)
    ensures WellFormed(Start(st, userId, d, loc, now).store)
  {
    var r := Start(st, userId, d, loc, now);
    if r.response.status == 201 {
      var cs := r.store.checkins;
      assert forall i :: 0 <= i < |st.checkins| ==> cs[i] == st.checkins[i];
    }
  }

  lemma DeactivateWellFormed(st: Store, i: nat)
    requires WellFormed(st) && i < |st.checkins|
    ensures WellFormed(st.(checkins := Deactivate(st.checkins, i)))
  {
  }

  lemma CancelWellFormed(st: Store, u: string)
    requires WellFormed(st)
    ensures WellFormed(Cancel(st, u).store)
  {
    match FindActive(st.checkins, u)
    case None =>
    case Some(i) => DeactivateWellFormed(st, i);
  }

  lemma TriggerWellFormed(st: Store, u: string, loc: Option<EV.LocationFields>, now: int)
    requires WellFormed(st)
    ensures WellFormed(Trigger(st, u, loc, now).store)
    ensures WellFormed(TriggerCorrected(st, u, loc, now).store)
  {
    match FindActive(st.checkins, u)
    case None =>
    case Some(i) =>
      if st.checkins[i].expiresAt <= now {
        var saved := st.(checkins := Deactivate(st.checkins, i));
        DeactivateWellFormed(st, i);
        SaveEventWellFormed(saved, EV.EventFields(None, loc, Some("auto-triggered")), EV.SchemaStatuses, now,
                            "Auto-SOS triggered", "Could not trigger auto-SOS");
        SaveEventWellFormed(saved, EV.EventFields(Some(st.checkins[i].userId), loc, Some("auto-triggered")),
                            CorrectedStatuses, now, "Auto-SOS triggered", "Could not trigger auto-SOS");
      }
  }

  lemma SosPostWellFormed(st: Store, caller: string, loc: Option<EV.LocationFields>, now: int)
    requires WellFormed(st)
    ensures WellFormed(SosRoute.Post(st, loc, now).store)
    ensures WellFormed(SosRoute.PostAuthenticated(st, caller, loc, now).store)
  {
    SaveEventWellFormed(st, EV.EventFields(Some(caller), loc, None), EV.SchemaStatuses, now,
                        "SOS alert triggered", "Could not trigger SOS");
  }

  // ---------------------------------------------------------------------------
  // Counting across handlers
  // ---------------------------------------------------------------------------

  /** A successful cancel removes exactly one active record of the caller and leaves
      every other user's records as they were. */
  lemma CancelRemovesOneActive(st: Store, u: string, v: string)
    requires Cancel(st, u).response.status == 200
    ensures ActiveCount(Cancel(st, u).store.checkins, v) == ActiveCount(st.checkins, v) - (if v == u then 1 else 0)
  {
    var i := FindActive(st.checkins, u).value;
    ActiveCountDeactivate(st.checkins, u, i, v);
  }

  /** Start does not look at existing records: two starts for one user leave two more active records. */
  lemma DoubleStartTwoActive(st: Store, u: string, d1: int, d2: int, loc: Option<EV.LocationFields>, t1: int, t2: int)
    requires u != "" && InDateRange(t1 + d1 * MinuteMs) && InDateRange(t2 + d2 * MinuteMs)
    ensures var s1 := Start(st, Some(u), Some(d1), loc, t1);
            var s2 := Start(s1.store, Some(u), Some(d2), loc, t2);
            s1.response.status == 201 && s2.response.status == 201
            && ActiveCount(s2.store.checkins, u) == ActiveCount(st.checkins, u) + 2
  {
    var s1 := Start(st, Some(u), Some(d1), loc, t1);
    var s2 := Start(s1.store, Some(u), Some(d2), loc, t2);
    ActiveCountAppend(st.checkins, u, s1.response.body.checkin);
    ActiveCountAppend(s1.store.checkins, u, s2.response.body.checkin);
  }

  /** An expiry past the Date range is an Invalid Date: the start is refused with
      400 and nothing is stored, however valid the user. */
  lemma OutOfRangeExpiryRefused(st: Store, u: string, d: int, loc: Option<EV.LocationFields>, now: int)
    requires !InDateRange(now + d * MinuteMs)
    ensures Start(st, Some(u), Some(d), loc, now) == Outcome(st, Response(400, ErrorBody("Could not start check-in")))
    ensures Start(st, Some(u), Some(200000000000), loc, 0).response.status == 400
  {
  }

  // ---------------------------------------------------------------------------
  // Lifecycle scenarios
  // ---------------------------------------------------------------------------

  /** Start, then cancel: the new record is deactivated and returned; a second cancel
      answers 404 and changes nothing. */
  lemma StartThenCancelTwice(st: Store, u: string, d: int, loc: Option<EV.LocationFields>, now: int)
    requires u != "" && NoActive(st.checkins, u) && InDateRange(now + d * MinuteMs)
    ensures var s1 := Start(st, Some(u), Some(d), loc, now);
            var s2 := Cancel(s1.store, u);
            var s3 := Cancel(s2.store, u);
            && s2.response.status == 200
            && s2.response.body.checkin == s1.response.body.checkin.(active := false)
            && s3 == Outcome(s2.store, Response(404, ErrorBody("No active check-in found")))
  {
    var s1 := Start(st, Some(u), Some(d), loc, now);
    var c := s1.response.body.checkin;
    FindActiveAppended(st.checkins, u, c);
    NoActiveAfterDeactivatingAppended(st.checkins, u, c);
  }

  /** A trigger before the expiry instant is refused and leaves the record active. */
  lemma TriggerBeforeExpiryRefused(st: Store, u: string, d: int, loc: Option<EV.LocationFields>,
                                   loc2: Option<EV.LocationFields>, now: int, later: int)
    requires u != "" && NoActive(st.checkins, u) && InDateRange(now + d * MinuteMs)
    requires later < now + d * MinuteMs
    ensures var s1 := Start(st, Some(u), Some(d), loc, now);
            var s2 := Trigger(s1.store, u, loc2, later);
            && s2 == Outcome(s1.store, Response(400, ErrorBody("No expired check-in to trigger SOS")))
            && s2.store.checkins[|st.checkins|].active
  {
    var s1 := Start(st, Some(u), Some(d), loc, now);
    FindActiveAppended(st.checkins, u, s1.response.body.checkin);
  }

  /** At exactly the expiry instant the record counts as expired: it is deactivated,
      the doomed event is rejected, and a later trigger finds nothing to expire. */
  lemma TriggerAtExpiryDeactivates(st: Store, u: string, d: int, loc: Option<EV.LocationFields>,
                                   loc2: Option<EV.LocationFields>, now: int, later: int)
    requires u != "" && NoActive(st.checkins, u) && InDateRange(now + d * MinuteMs)
    ensures var s1 := Start(st, Some(u), Some(d), loc, now);
            var s2 := Trigger(s1.store, u, loc2, now + d * MinuteMs);
            var s3 := Trigger(s2.store, u, loc2, later);
            && s2.response == Response(400, ErrorBody("Could not trigger auto-SOS"))
            && !s2.store.checkins[|st.checkins|].active
            && s2.store.events == st.events
            && s3 == Outcome(s2.store, Response(400, ErrorBody("No expired check-in to trigger SOS")))
  {
    var s1 := Start(st, Some(u), Some(d), loc, now);
    var c := s1.response.body.checkin;
    FindActiveAppended(st.checkins, u, c);
    assert IsFirstActive(s1.store.checkins, u, |st.checkins|);
    assert SelectedExpired(s1.store.checkins, u, now + d * MinuteMs);
    var s2 := Trigger(s1.store, u, loc2, now + d * MinuteMs);
    var i :| IsFirstActive(s1.store.checkins, u, i) && s1.store.checkins[i].expiresAt <= now + d * MinuteMs
             && s2.store == s1.store.(checkins := Deactivate(s1.store.checkins, i));
    FirstActiveUnique(s1.store.checkins, u, i, |st.checkins|);
    NoActiveAfterDeactivatingAppended(st.checkins, u, c);
  }

  /** A cancel that lands between expiry and the trigger wins: the trigger answers
      "No expired check-in" even though the record had expired. */
  lemma CancelBeforeTriggerWins(st: Store, u: string, d: int, loc: Option<EV.LocationFields>,
                                loc2: Option<EV.LocationFields>, now: int, later: int)
    requires u != "" && NoActive(st.checkins, u) && InDateRange(now + d * MinuteMs)
    requires later >= now + d * MinuteMs
    ensures var s1 := Start(st, Some(u), Some(d), loc, now);
            var s2 := Cancel(s1.store, u);
            var s3 := Trigger(s2.store, u, loc2, later);
            && s2.response.status == 200
            && s3 == Outcome(s2.store, Response(400, ErrorBody("No expired check-in to trigger SOS")))
  {
    var s1 := Start(st, Some(u), Some(d), loc, now);
    var c := s1.response.body.checkin;
    FindActiveAppended(st.checkins, u, c);
    NoActiveAfterDeactivatingAppended(st.checkins, u, c);
  }

  /** The intended trigger, on the same timeline: at expiry it stores exactly one
      auto-triggered event for a user named by an ObjectId, and a second trigger
      finds nothing. */
  lemma CorrectedTriggerStoresOneEvent(st: Store, u: string, d: int, loc: Option<EV.LocationFields>,
                                       lat: real, lng: real, now: int, later: int)
    requires EV.ObjectIdCastable(u) && NoActive(st.checkins, u) && InDateRange(now + d * MinuteMs)
    ensures var s1 := Start(st, Some(u), Some(d), loc, now);
            var s2 := TriggerCorrected(s1.store, u, Some(EV.LocationFields(EV.Num(lat), EV.Num(lng))), now + d * MinuteMs);
            var s3 := TriggerCorrected(s2.store, u, Some(EV.LocationFields(EV.Num(lat), EV.Num(lng))), later);
            && s2.response.status == 201
            && |s2.store.events| == |st.events| + 1
            && s2.store.events[|st.events|].status == EV.AutoTriggered
            && s2.store.events[|st.events|].user == u
            && s3.response == Response(400, ErrorBody("No expired check-in to trigger SOS"))
  {
    var s1 := Start(st, Some(u), Some(d), loc, now);
    var c := s1.response.body.checkin;
    var t := now + d * MinuteMs;
    var l := Some(EV.LocationFields(EV.Num(lat), EV.Num(lng)));
    FindActiveAppended(st.checkins, u, c);
    assert IsFirstActive(s1.store.checkins, u, |st.checkins|);
    assert SelectedExpired(s1.store.checkins, u, t);
    var s2 := TriggerCorrected(s1.store, u, l, t);
    var i :| IsFirstActive(s1.store.checkins, u, i) && s1.store.checkins[i].expiresAt <= t
             && s2.store.checkins == Deactivate(s1.store.checkins, i);
    FirstActiveUnique(s1.store.checkins, u, i, |st.checkins|);
    NoActiveAfterDeactivatingAppended(st.checkins, u, c);
  }
}
