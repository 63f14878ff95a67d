/** The client screens against the server routes. The API client
    (frontend/src/api/api.js) turns every answer outside 200-299 into a rejected
    promise, so a screen's "request succeeded" outcome is the status class of the
    route's response. Client and server read the same clock value `now`. */
module ClientServer {
  import opened Common
  import ES = EngineStore
  import EV = SOSEventModel
  import CR = CheckinRoutes
  import SR = SosRoute
  import AS = ActionScreen
  import CT = CheckinTimer
  import SB = SosButton

  /** `handleResponse`: the request succeeded exactly for a 2xx status. */
  predicate Succeeded(status: nat)
  {
    200 <= status < 300
  }

  /** The raw `fetch` of the SOS button: `res.ok` is the same status class. */
  function ReplyOf(status: nat): (r: SB.Reply)
    ensures r == SB.Ok <==> Succeeded(status)
    ensures r != SB.Ok ==> r == SB.NotOk
  {
    if Succeeded(status) then SB.Ok else SB.NotOk
  }

  /** How the action screen's SOS request would end, had it been awaited. */
  function DeliveryOf(status: nat): (d: AS.Delivery)
    ensures d == AS.Delivered <==> Succeeded(status)
  {
    if Succeeded(status) then AS.Delivered else AS.HttpError
  }

  function Located(lat: real, lng: real): Option<EV.LocationFields>
  {
    Some(EV.LocationFields(EV.Num(lat), EV.Num(lng)))
  }

  // ---------------------------------------------------------------------------
  // Check-in
  // ---------------------------------------------------------------------------

  /** The action screen's check-in is accepted for any non-empty user id at any
      clock reading whose five-minute expiry is a valid Date, and the stored record
      expires exactly when the screen's five-minute countdown ends. */
  lemma ActionCheckinAccepted(st: ES.Store, s: AS.Screen, u: string, loc: Option<EV.LocationFields>, now: int)
    requires u != "" && CR.InDateRange(now + AS.InitialCountdown * 1000)
    ensures var o := CR.Start(st, Some(u), Some(AS.CheckinRequest(u).durationMinutes), loc, now);
      && Succeeded(o.response.status)
      && o.store.checkins == st.checkins + [o.store.checkins[|st.checkins|]]
      && o.store.checkins[|st.checkins|].expiresAt == now + AS.InitialCountdown * 1000
      && AS.CheckinSettled(AS.Press(s), Succeeded(o.response.status)).running
  {
    var o := CR.Start(st, Some(u), Some(AS.CheckinRequest(u).durationMinutes), loc, now);
    assert o.store.checkins[|st.checkins|] == o.store.checkins[|o.store.checkins| - 1];
  }

  /** The check-in timer's start: the server's expiry and the one the component
      records from the same clock reading agree whenever that expiry is a valid Date. */
  lemma TimerExpiryAgrees(st: ES.Store, t: CT.Timer, u: string, loc: Option<EV.LocationFields>, now: int)
    requires u != "" && CR.InDateRange(now + t.duration * CR.MinuteMs)
    ensures var o := CR.Start(st, Some(u), Some(t.duration), loc, now);
      var r := CT.StartSettled(CT.PressStart(t), Succeeded(o.response.status), now);
      && r.ticking
      && r.expiresAt == Some(o.store.checkins[|o.store.checkins| - 1].expiresAt)
  {
  }

  /** A start request without a user id makes the start fail on the screen. The
      action screen itself always sends the non-empty id `getUserId` returns, so
      only another client can send such a request. */
  lemma CheckinWithoutUserFails(st: ES.Store, s: AS.Screen, d: Option<int>, loc: Option<EV.LocationFields>, now: int)
    ensures var o := CR.Start(st, None, d, loc, now);
      AS.CheckinSettled(AS.Press(s), Succeeded(o.response.status)).error == "Failed to start check-in"
  {
  }

  // ---------------------------------------------------------------------------
  // Automatic SOS
  // ---------------------------------------------------------------------------

  /** Both screens' automatic SOS always ends in their failure message, because
      the trigger route answers 400 whatever the store holds. */
  lemma AutoSosReportsFailure(st: ES.Store, s: AS.Screen, t: CT.Timer, u: string, loc: Option<EV.LocationFields>, now: int)
    ensures var ok := Succeeded(CR.Trigger(st, u, loc, now).response.status);
      && AS.AutoSosSettled(AS.AutoSosStarted(s), ok).error == "Failed to trigger auto-SOS"
      && CT.TriggerSettled(CT.TriggerSos(t), ok).error == "Failed to trigger SOS"
  {
  }

  /** With the corrected trigger route, an expired check-in whose userId is an
      ObjectId, with a position, reaches the screens as a success. */
  lemma CorrectedAutoSosSucceeds(st: ES.Store, s: AS.Screen, u: string, lat: real, lng: real, now: int)
    requires CR.SelectedExpired(st.checkins, u, now) && EV.ObjectIdCastable(u)
    ensures var ok := Succeeded(CR.TriggerCorrected(st, u, Located(lat, lng), now).response.status);
      ok && AS.AutoSosSettled(AS.AutoSosStarted(s), ok).error == s.error
  {
  }

  /** The screens start check-ins under the id `getUserId` generates, "user_" and a
      random suffix. That id is no ObjectId, so even the corrected trigger refuses
      the event and both screens show their failure message. */
  lemma ClientIdAutoSosStillFails(st: ES.Store, s: AS.Screen, t: CT.Timer, suffix: string, lat: real, lng: real, now: int)
    ensures var o := CR.TriggerCorrected(st, "user_" + suffix, Located(lat, lng), now);
      && o.response.status == 400 && o.store.events == st.events
      && AS.AutoSosSettled(AS.AutoSosStarted(s), Succeeded(o.response.status)).error == "Failed to trigger auto-SOS"
      && CT.TriggerSettled(CT.TriggerSos(t), Succeeded(o.response.status)).error == "Failed to trigger SOS"
  {
    EV.ClientIdRejected(suffix, Located(lat, lng), Some("auto-triggered"), CR.CorrectedStatuses, st.nextId, now);
  }

  // ---------------------------------------------------------------------------
  // Manual SOS
  // ---------------------------------------------------------------------------

  /** The SOS button reports the route's refusal: with a position the button ends
      in "SOS failed" and offers a retry. */
  lemma SosButtonSeesRefusal(st: ES.Store, b: SB.Button, lat: real, lng: real, now: int)
    requires !SB.Disabled(b)
    ensures var reply := ReplyOf(SR.Post(st, Located(lat, lng), now).response.status);
      var r := SB.Click(b, SB.Located(lat, lng), reply);
      r.status == SB.Failed && r.error == "SOS failed" && SB.Label(r) == "Try Again"
  {
  }

  /** The action screen, against the same route, reports the SOS as sent; with the
      request awaited and checked it reports the failure. */
  lemma ActionScreenMissesRefusal(st: ES.Store, s: AS.Screen, lat: real, lng: real, now: int)
    requires !s.sosSent
    ensures var d := DeliveryOf(SR.Post(st, Located(lat, lng), now).response.status);
      && AS.SosSettled(AS.Press(s), true, d).sosSent
      && !AS.SosSettledCorrected(AS.Press(s), true, d).sosSent
      && AS.SosSettledCorrected(AS.Press(s), true, d).error == "Failed to send SOS"
  {
  }

  /** If the SOS button's request reaches the corrected route with an authenticated
      caller whose id is an ObjectId, the event is stored and the button ends in
      success. The button as written sends neither a token nor its cookies, so behind
      an authenticating route its request would be refused; the corrected route is
      taken to receive the caller. */
  lemma AuthenticatedSosSucceeds(st: ES.Store, b: SB.Button, caller: string, lat: real, lng: real, now: int)
    requires !SB.Disabled(b) && EV.ObjectIdCastable(caller)
    ensures var o := SR.PostAuthenticated(st, caller, Located(lat, lng), now);
      && SB.Click(b, SB.Located(lat, lng), ReplyOf(o.response.status)).status == SB.Success
      && |o.store.events| == |st.events| + 1
  {
  }
}
