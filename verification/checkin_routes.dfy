/** The check-in routes (backend/routes/checkin.js): `/start`, `/cancel` and
    `/trigger` as transitions of the engine's store. `now` is the server clock in
    milliseconds; where several active records of a user match a query, the first
    one in store order is the one selected. */
module CheckinRoutes {
  import opened Common
  import opened EngineStore
  import CM = CheckinModel
  import EV = SOSEventModel

  const MinuteMs: int := 60000

  // ---------------------------------------------------------------------------
  // Queries
  // ---------------------------------------------------------------------------

  /** Record `i` matches the query `{ userId: u, active: true }`. */
  predicate ActiveOf(cs: seq<CM.Checkin>, u: string, i: int)
  {
    0 <= i < |cs| && cs[i].userId == u && cs[i].active
  }

  predicate NoActive(cs: seq<CM.Checkin>, u: string)
  {
    forall i :: 0 <= i < |cs| ==> !ActiveOf(cs, u, i)
  }

  /** Record `i` is the first record in store order that matches the query. */
  predicate IsFirstActive(cs: seq<CM.Checkin>, u: string, i: int)
  {
    ActiveOf(cs, u, i) && forall j :: 0 <= j < i ==> !ActiveOf(cs, u, j)
  }

  function FindActiveFrom(cs: seq<CM.Checkin>, u: string, k: nat): (r: Option<nat>)
    requires k <= |cs|
    requires forall j :: 0 <= j < k ==> !ActiveOf(cs, u, j)
    ensures r.Some? ==> IsFirstActive(cs, u, r.value)
    ensures r.None? ==> NoActive(cs, u)
    decreases |cs| - k
  {
    if k == |cs| then None
    else if cs[k].userId == u && cs[k].active then Some(k)
    else FindActiveFrom(cs, u, k + 1)
  }

  /** `findOne({ userId, active: true })`: the first matching record, if any. */
  function FindActive(cs: seq<CM.Checkin>, u: string): (r: Option<nat>)
    ensures r.Some? ==> IsFirstActive(cs, u, r.value)
    ensures r.None? <==> NoActive(cs, u)
  {
    FindActiveFrom(cs, u, 0)
  }

  /** The number of active records of user `u`. */
  function ActiveCount(cs: seq<CM.Checkin>, u: string): nat
  {
    if cs == [] then 0
    else ActiveCount(cs[..|cs| - 1], u) + (if cs[|cs| - 1].userId == u && cs[|cs| - 1].active then 1 else 0)
  }

  /** The selected active record of `u` exists and its expiry is not after `now`. */
  predicate SelectedExpired(cs: seq<CM.Checkin>, u: string, now: int)
  {
    exists i :: 0 <= i < |cs| && IsFirstActive(cs, u, i) && cs[i].expiresAt <= now
  }

  function Deactivate(cs: seq<CM.Checkin>, i: nat): (r: seq<CM.Checkin>)
    requires i < |cs|
    ensures |r| == |cs| && !r[i].active
    ensures forall j :: 0 <= j < |cs| && j != i ==> r[j] == cs[j]
    ensures r[i] == cs[i].(active := false)
  {
    cs[i := cs[i].(active := false)]
  }

  // ---------------------------------------------------------------------------
  // Handlers
  // ---------------------------------------------------------------------------

  /** The largest distance from the epoch, in milliseconds, that a JavaScript Date
      can hold; beyond it `new Date(ms)` is an Invalid Date (section 21.4.1.31,
      TimeClip, of ECMA-262). */
  const MaxTimeMs: int := 8640000000000000

  predicate InDateRange(ms: int)
  {
    -MaxTimeMs <= ms <= MaxTimeMs
  }

  /** `new Date(Date.now() + durationMinutes * 60000)`; `None` is an invalid date. */
  function ExpiryOf(durationMinutes: Option<int>, now: int): (r: Option<int>)
    ensures r.Some? <==> durationMinutes.Some? && InDateRange(now + durationMinutes.value * MinuteMs)
    ensures r.Some? ==> r.value == now + durationMinutes.value * MinuteMs
  {
    match durationMinutes
    case None => None
    case Some(d) => if InDateRange(now + d * MinuteMs) then Some(now + d * MinuteMs) else None
  }

  /** POST /start. The location is read from the request and never stored, and the
      existing records are never consulted. */
  function Start(st: Store, userId: Option<string>, durationMinutes: Option<int>,
                 location: Option<EV.LocationFields>, now: int): (r: Outcome)
    ensures r.response.status == 201 <==>
      Truthy(userId) && durationMinutes.Some? && InDateRange(now + durationMinutes.value * MinuteMs)
    ensures r.response.status != 201 ==>
      r == Outcome(st, Response(400, ErrorBody("Could not start check-in")))
    ensures r.response.status == 201 ==>
      var c := CM.Checkin(st.nextId, userId.value, now + durationMinutes.value * 60000, true, now);
      && r.response.body == CheckinBody("Check-in started", c)
      && r.store == st.(checkins := st.checkins + [c], nextId := st.nextId + 1)
  {
    match CM.Build(CM.CheckinFields(userId, ExpiryOf(durationMinutes, now), None), st.nextId, now)
    case Valid(c) =>
      Outcome(st.(checkins := st.checkins + [c], nextId := st.nextId + 1), Response(201, CheckinBody("Check-in started", c)))
    case Invalid(_) =>
      Outcome(st, Response(400, ErrorBody("Could not start check-in")))
  }

  /** POST /cancel: `findOneAndUpdate({ userId, active: true }, { active: false }, { new: true })`. */
  function Cancel(st: Store, u: string): (r: Outcome)
    ensures r.response.status == 200 || r.response.status == 404
    ensures r.response.status == 404 <==> NoActive(st.checkins, u)
    ensures r.response.status == 404 ==>
      r == Outcome(st, Response(404, ErrorBody("No active check-in found")))
    ensures r.response.status == 200 ==>
      exists i :: IsFirstActive(st.checkins, u, i)
        && r.store == st.(checkins := Deactivate(st.checkins, i))
        && r.response.body == CheckinBody("Check-in cancelled", r.store.checkins[i])
  {
    match FindActive(st.checkins, u)
    case None =>
      Outcome(st, Response(404, ErrorBody("No active check-in found")))
    case Some(i) =>
      var cs := Deactivate(st.checkins, i);
      Outcome(st.(checkins := cs), Response(200, CheckinBody("Check-in cancelled", cs[i])))
  }

  /** POST /trigger as written: the selected record is deactivated and saved first,
      then an event is built with status "auto-triggered" and no user. The schema
      rejects that event, so no event is ever stored and the answer is always 400. */
  function Trigger(st: Store, u: string, location: Option<EV.LocationFields>, now: int): (r: Outcome)
    ensures r.response.status == 400
    ensures r.store.events == st.events && r.store.nextId == st.nextId
    ensures !SelectedExpired(st.checkins, u, now) ==>
      r == Outcome(st, Response(400, ErrorBody("No expired check-in to trigger SOS")))
    ensures SelectedExpired(st.checkins, u, now) ==>
      exists i :: IsFirstActive(st.checkins, u, i) && st.checkins[i].expiresAt <= now
        && r.store == st.(checkins := Deactivate(st.checkins, i))
        && r.response.body == ErrorBody("Could not trigger auto-SOS")
  {
    match FindActive(st.checkins, u)
    case None =>
      Outcome(st, Response(400, ErrorBody("No expired check-in to trigger SOS")))
    case Some(i) =>
      if st.checkins[i].expiresAt > now then
        Outcome(st, Response(400, ErrorBody("No expired check-in to trigger SOS")))
      else
        var saved := st.(checkins := Deactivate(st.checkins, i));
        var fields := EV.EventFields(None, location, Some("auto-triggered"));
        EV.MissingUserRejected(fields, saved.nextId, now);
        SaveEvent(saved, EV.Build(fields, saved.nextId, now), "Auto-SOS triggered", "Could not trigger auto-SOS")
  }

  /** The schema enumeration extended with "auto-triggered". */
  const CorrectedStatuses: set<EV.Status> := EV.SchemaStatuses + {EV.AutoTriggered}

  /** POST /trigger as evidently intended: the event carries the check-in's user and
      its status "auto-triggered" is accepted; the write order is the source's. The
      `user` path still casts to an ObjectId, so the event is stored only when the
      check-in's userId is one. */
  function TriggerCorrected(st: Store, u: string, location: Option<EV.LocationFields>, now: int): (r: Outcome)
    ensures !SelectedExpired(st.checkins, u, now) ==>
      r == Outcome(st, Response(400, ErrorBody("No expired check-in to trigger SOS")))
    ensures SelectedExpired(st.checkins, u, now) ==>
      exists i :: IsFirstActive(st.checkins, u, i) && st.checkins[i].expiresAt <= now
        && r.store.checkins == Deactivate(st.checkins, i)
    ensures (SelectedExpired(st.checkins, u, now) && EV.ObjectIdCastable(u)
             && EV.LatOf(location).Num? && EV.LngOf(location).Num?) ==>
      var e := EV.SOSEvent(st.nextId, u, EV.Location(EV.LatOf(location).v, EV.LngOf(location).v),
                           EV.AutoTriggered, now, now, now);
      && r.response == Response(201, EventBody("Auto-SOS triggered", e))
      && r.store.events == st.events + [e]
    ensures SelectedExpired(st.checkins, u, now)
            && !(EV.ObjectIdCastable(u) && EV.LatOf(location).Num? && EV.LngOf(location).Num?) ==>
      r.response == Response(400, ErrorBody("Could not trigger auto-SOS")) && r.store.events == st.events
  {
    match FindActive(st.checkins, u)
    case None =>
      Outcome(st, Response(400, ErrorBody("No expired check-in to trigger SOS")))
    case Some(i) =>
      if st.checkins[i].expiresAt > now then
        Outcome(st, Response(400, ErrorBody("No expired check-in to trigger SOS")))
      else
        var saved := st.(checkins := Deactivate(st.checkins, i));
        var fields := EV.EventFields(Some(st.checkins[i].userId), location, Some("auto-triggered"));
        assert EV.ParseStatus("auto-triggered") == Some(EV.AutoTriggered);
        SaveEvent(saved, EV.BuildWith(fields, CorrectedStatuses, saved.nextId, now), "Auto-SOS triggered", "Could not trigger auto-SOS")
  }
}
