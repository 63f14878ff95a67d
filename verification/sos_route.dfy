/** The direct SOS route (backend/routes/sos.js): POST /api/sos builds an event from
    the request's `location` alone and saves it. The route has no authentication
    middleware and never attaches a `user`, so with the schema's required `user` every
    save is rejected. `PostAuthenticated` is the route with the caller's id attached. */
module SosRoute {
  import opened Common
  import opened EngineStore
  import EV = SOSEventModel

  /** The event fields the route passes to `new SOSEvent(...)`. */
  function RequestFields(location: Option<EV.LocationFields>): (f: EV.EventFields)
    ensures f.user.None? && f.status.None? && f.location == location
  {
    EV.EventFields(None, location, None)
  }

  /** POST /api/sos as written: whatever the location, the answer is 400
      "Could not trigger SOS" and neither collection changes. */
  function Post(st: Store, location: Option<EV.LocationFields>, now: int): (r: Outcome)
    ensures r.response == Response(400, ErrorBody("Could not trigger SOS"))
    ensures r.store == st
  {
    var fields := RequestFields(location);
    EV.MissingUserRejected(fields, st.nextId, now);
    SaveEvent(st, EV.Build(fields, st.nextId, now), "SOS alert triggered", "Could not trigger SOS")
  }

  /** A valid location alone does not rescue the request: the missing user is enough. */
  lemma PostRejectsValidLocation(st: Store, lat: real, lng: real, now: int)
    ensures var f := RequestFields(Some(EV.LocationFields(EV.Num(lat), EV.Num(lng))));
      EV.FailingPaths(f, EV.SchemaStatuses) == {"user"}
    ensures Post(st, Some(EV.LocationFields(EV.Num(lat), EV.Num(lng))), now).response.status == 400
  {
    var f := RequestFields(Some(EV.LocationFields(EV.Num(lat), EV.Num(lng))));
    assert "user" in EV.FailingPaths(f, EV.SchemaStatuses);
  }

  /** POST /api/sos with the authenticated caller's id attached as `user`. The id of
      a stored User document is an ObjectId, so for a caller that `protect` admitted
      the cast succeeds. */
  function PostAuthenticated(st: Store, caller: string, location: Option<EV.LocationFields>, now: int): (r: Outcome)
    ensures r.response.status == 201 <==>
      EV.ObjectIdCastable(caller) && EV.LatOf(location).Num? && EV.LngOf(location).Num?
    ensures r.response.status != 201 ==>
      r == Outcome(st, Response(400, ErrorBody("Could not trigger SOS")))
    ensures r.response.status == 201 ==>
      var e := EV.SOSEvent(st.nextId, caller, EV.Location(EV.LatOf(location).v, EV.LngOf(location).v),
                           EV.Triggered, now, now, now);
      && r.response == Response(201, EventBody("SOS alert triggered", e))
      && r.store == st.(events := st.events + [e], nextId := st.nextId + 1)
  {
    var fields := EV.EventFields(Some(caller), location, None);
    SaveEvent(st, EV.Build(fields, st.nextId, now), "SOS alert triggered", "Could not trigger SOS")
  }
}
