/** The server-side state of the check-in/SOS engine: the check-in collection and the
    SOS event collection, kept in store order, plus a counter that stands for the
    generation of fresh document ids. Handlers are pure functions from a store and a
    request to a new store and a response. */
module EngineStore {
  import opened Common
  import CM = CheckinModel
  import EV = SOSEventModel

  datatype Store = Store(checkins: seq<CM.Checkin>, events: seq<EV.SOSEvent>, nextId: nat)

  /** The JSON bodies the engine's handlers answer with. */
  datatype Body =
    | CheckinBody(message: string, checkin: CM.Checkin)
    | EventBody(message: string, event: EV.SOSEvent)
    | ErrorBody(error: string)

  datatype Response = Response(status: nat, body: Body)

  datatype Outcome = Outcome(store: Store, response: Response)

  const Empty: Store := Store([], [], 0)

  /** `await sosEvent.save()` inside a `try`: a valid event is appended and answered
      with 201 and `created`; a rejected one is answered with 400 and `failed`. */
  function SaveEvent(st: Store, built: EV.Validated, created: string, failed: string): Outcome
  {
    match built
    case Valid(e) =>
      Outcome(st.(events := st.events + [e], nextId := st.nextId + 1), Response(201, EventBody(created, e)))
    case Invalid(_) =>
      Outcome(st, Response(400, ErrorBody(failed)))
  }

  // ---------------------------------------------------------------------------
  // Store invariant
  // ---------------------------------------------------------------------------

  predicate CheckinIdsFresh(cs: seq<CM.Checkin>, next: nat)
  {
    && (forall i :: 0 <= i < |cs| ==> cs[i].id < next)
    && (forall i, j :: 0 <= i < j < |cs| ==> cs[i].id != cs[j].id)
  }

  predicate EventIdsFresh(es: seq<EV.SOSEvent>, next: nat)
  {
    && (forall i :: 0 <= i < |es| ==> es[i].id < next)
    && (forall i, j :: 0 <= i < j < |es| ==> es[i].id != es[j].id)
  }

  /** Ids are distinct within each collection and below the id counter, every stored
      check-in satisfies its schema, and every stored event names its user by an
      ObjectId. */
  predicate WellFormed(st: Store)
  {
    && CheckinIdsFresh(st.checkins, st.nextId)
    && EventIdsFresh(st.events, st.nextId)
    && (forall i :: 0 <= i < |st.checkins| ==> CM.Conforms(st.checkins[i]))
    && (forall i :: 0 <= i < |st.events| ==> EV.ObjectIdCastable(st.events[i].user))
  }

  lemma EmptyWellFormed()
    ensures WellFormed(Empty)
  {
  }

  /** Saving an event built with the current id counter keeps the store well formed. */
  lemma SaveEventWellFormed(st: Store, f: EV.EventFields, allowed: set<EV.Status>, now: int, created: string, failed: string)
    requires WellFormed(st)
    ensures WellFormed(SaveEvent(st, EV.BuildWith(f, allowed, st.nextId, now), created, failed).store)
  {
    var built := EV.BuildWith(f, allowed, st.nextId, now);
    if built.Valid? {
      var es := st.events + [built.event];
      assert forall i :: 0 <= i < |st.events| ==> es[i] == st.events[i];
    }
  }
}
