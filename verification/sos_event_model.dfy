/** The SOS event schema (backend/models/SOSEvent.js): a required `user` reference,
    required numeric `location.lat` and `location.lng`, a `status` restricted to an
    enumeration and defaulting to "triggered", a `timestamp` defaulting to the
    creation time, `createdAt`/`updatedAt` from the timestamps option, and a JSON form
    without the version key `__v`. */
module SOSEventModel {
  import opened Common

  /** Every status name the application uses. "auto-triggered" is written by the
      check-in trigger route; the schema's enumeration does not contain it. */
  datatype Status = Triggered | Acknowledged | Resolved | AutoTriggered

  function StatusName(s: Status): string
  {
    match s
    case Triggered => "triggered"
    case Acknowledged => "acknowledged"
    case Resolved => "resolved"
    case AutoTriggered => "auto-triggered"
  }

  function ParseStatus(name: string): (r: Option<Status>)
    ensures r.Some? ==> StatusName(r.value) == name
  {
    if name == "triggered" then Some(Triggered)
    else if name == "acknowledged" then Some(Acknowledged)
    else if name == "resolved" then Some(Resolved)
    else if name == "auto-triggered" then Some(AutoTriggered)
    else None
  }

  /** Status names and statuses are in one-to-one correspondence. */
  lemma StatusNameRoundTrip(s: Status, name: string)
    ensures ParseStatus(StatusName(s)) == Some(s)
    ensures ParseStatus(name).Some? <==> exists t: Status :: StatusName(t) == name
  {
    if exists t: Status :: StatusName(t) == name {
      var t: Status :| StatusName(t) == name;
      assert ParseStatus(name) == Some(t) by {
        match t
        case Triggered =>
        case Acknowledged =>
        case Resolved =>
        case AutoTriggered =>
      }
    }
  }

  /** The enumeration declared on the `status` path. */
  const SchemaStatuses: set<Status> := {Triggered, Acknowledged, Resolved}

  /** A coordinate as Mongoose's Number cast sees it: a number it accepts, a value
      it cannot cast (a non-numeric string, NaN, an object), or nothing. */
  datatype Coord = Num(v: real) | NotANumber | Absent

  datatype LocationFields = LocationFields(lat: Coord, lng: Coord)

  /** The fields given to `new SOSEvent({...})`. A missing `location` object leaves
      both nested paths missing. */
  datatype EventFields = EventFields(user: Option<string>, location: Option<LocationFields>, status: Option<string>)

  datatype Location = Location(lat: real, lng: real)

  datatype SOSEvent = SOSEvent(
    id: nat, user: string, location: Location, status: Status,
    timestamp: int, createdAt: int, updatedAt: int)

  datatype Validated = Valid(event: SOSEvent) | Invalid(paths: set<string>)

  function LatOf(loc: Option<LocationFields>): Coord
  {
    match loc case None => Absent case Some(l) => l.lat
  }

  function LngOf(loc: Option<LocationFields>): Coord
  {
    match loc case None => Absent case Some(l) => l.lng
  }

  /** Whether the given status survives the `status` path's default, `required`
      and enumeration validators for the enumeration `allowed`. */
  predicate StatusAccepted(status: Option<string>, allowed: set<Status>)
  {
    match status
    case None => Triggered in allowed
    case Some(name) => ParseStatus(name).Some? && ParseStatus(name).value in allowed
  }

  predicate IsHexDigit(c: char)
  {
    '0' <= c <= '9' || 'a' <= c <= 'f' || 'A' <= c <= 'F'
  }

  /** Whether the `user` path's ObjectId cast accepts the string: exactly 24
      hexadecimal digits. */
  predicate ObjectIdCastable(s: string)
  {
    |s| == 24 && forall i :: 0 <= i < |s| ==> IsHexDigit(s[i])
  }

  /** Whether the `user` path survives its ObjectId cast and `required` validator. */
  predicate UserAccepted(user: Option<string>)
  {
    Truthy(user) && ObjectIdCastable(user.value)
  }

  /** The schema paths whose validators reject the given fields. */
  function FailingPaths(f: EventFields, allowed: set<Status>): (paths: set<string>)
    ensures "user" in paths <==> !Truthy(f.user) || !ObjectIdCastable(f.user.value)
    ensures "location.lat" in paths <==> !LatOf(f.location).Num?
    ensures "location.lng" in paths <==> !LngOf(f.location).Num?
    ensures "status" in paths <==> !StatusAccepted(f.status, allowed)
    ensures paths <= {"user", "location.lat", "location.lng", "status"}
  {
    (if UserAccepted(f.user) then {} else {"user"})
    + (if LatOf(f.location).Num? then {} else {"location.lat"})
    + (if LngOf(f.location).Num? then {} else {"location.lng"})
    + (if StatusAccepted(f.status, allowed) then {} else {"status"})
  }

  /** Document construction plus validation against the enumeration `allowed`. */
  function BuildWith(f: EventFields, allowed: set<Status>, id: nat, now: int): (r: Validated)
    ensures r.Invalid? <==> FailingPaths(f, allowed) != {}
    ensures r.Invalid? ==> r.paths == FailingPaths(f, allowed)
    ensures r.Valid? ==> r.event.id == id && r.event.user == f.user.value
    ensures r.Valid? ==> r.event.location == Location(LatOf(f.location).v, LngOf(f.location).v)
    ensures r.Valid? ==> r.event.status in allowed
    ensures r.Valid? ==> r.event.status == (if f.status.None? then Triggered else ParseStatus(f.status.value).value)
    ensures r.Valid? ==> r.event.timestamp == now && r.event.createdAt == now && r.event.updatedAt == now
  {
    var paths := FailingPaths(f, allowed);
    if paths == {} then
      assert "location.lat" !in paths && "location.lng" !in paths && "status" !in paths;
      var status := match f.status case None => Triggered case Some(name) => ParseStatus(name).value;
      Valid(SOSEvent(id, f.user.value, Location(LatOf(f.location).v, LngOf(f.location).v), status, now, now, now))
    else
      Invalid(paths)
  }

  /** Validation against the schema as declared. */
  function Build(f: EventFields, id: nat, now: int): Validated
  {
    BuildWith(f, SchemaStatuses, id, now)
  }

  /** The schema's validity condition, stated field by field: an event is stored
      exactly when it names a user by an ObjectId, both coordinates are numbers and
      the status is absent or one of triggered, acknowledged, resolved. */
  lemma BuildValidIff(f: EventFields, id: nat, now: int)
    ensures Build(f, id, now).Valid? <==>
      && Truthy(f.user) && ObjectIdCastable(f.user.value)
      && LatOf(f.location).Num? && LngOf(f.location).Num?
      && (f.status.None? || f.status.value in {"triggered", "acknowledged", "resolved"})
  {
    if f.status.Some? {
      var name := f.status.value;
      if ParseStatus(name).Some? {
        assert StatusName(ParseStatus(name).value) == name;
      }
    }
  }

  /** An event without a user is rejected whatever else it carries. */
  lemma MissingUserRejected(f: EventFields, id: nat, now: int)
    requires f.user.None?
    ensures Build(f, id, now).Invalid? && "user" in Build(f, id, now).paths
  {
  }

  /** The ids the client generates for itself ("user_" and a random suffix) are
      never ObjectIds, so an event naming one is rejected at the `user` path. */
  lemma ClientIdRejected(suffix: string, location: Option<LocationFields>, status: Option<string>,
                         allowed: set<Status>, id: nat, now: int)
    ensures !ObjectIdCastable("user_" + suffix)
    ensures var r := BuildWith(EventFields(Some("user_" + suffix), location, status), allowed, id, now);
      r.Invalid? && "user" in r.paths
  {
    var s := "user_" + suffix;
    assert s[4] == '_' && !IsHexDigit(s[4]);
  }

  /** "auto-triggered" is not in the declared enumeration. */
  lemma AutoTriggeredRejected(f: EventFields, id: nat, now: int)
    requires f.status == Some("auto-triggered")
    ensures Build(f, id, now).Invalid? && "status" in Build(f, id, now).paths
  {
    assert ParseStatus("auto-triggered") == Some(AutoTriggered);
  }

  /** Leaving `status` out yields "triggered"; leaving `timestamp` out yields now. */
  lemma DefaultsApplied(f: EventFields, id: nat, now: int)
    requires f.status.None? && Build(f, id, now).Valid?
    ensures Build(f, id, now).event.status == Triggered
    ensures StatusName(Build(f, id, now).event.status) == "triggered"
    ensures Build(f, id, now).event.timestamp == now
  {
  }

  // ---------------------------------------------------------------------------
  // JSON form
  // ---------------------------------------------------------------------------

  /** A field value of a stored document. */
  datatype Value = Id(n: nat) | Text(s: string) | Number(x: real) | Date(ms: int) | Object(fields: map<string, Value>)

  /** The stored document of an event, with the version key Mongoose adds. */
  function Document(e: SOSEvent): map<string, Value>
  {
    map[
      "_id" := Id(e.id),
      "user" := Text(e.user),
      "location" := Object(map["lat" := Number(e.location.lat), "lng" := Number(e.location.lng)]),
      "status" := Text(StatusName(e.status)),
      "timestamp" := Date(e.timestamp),
      "createdAt" := Date(e.createdAt),
      "updatedAt" := Date(e.updatedAt),
      "__v" := Number(0.0)
    ]
  }

  /** The `toJSON` transform: deletes `__v` and returns every other field as it is. */
  function ToJson(doc: map<string, Value>): (r: map<string, Value>)
    ensures r.Keys == doc.Keys - {"__v"}
    ensures forall k :: k in r ==> r[k] == doc[k]
  {
    map k | k in doc && k != "__v" :: doc[k]
  }

  /** The JSON form of an event carries exactly its seven schema fields. */
  lemma JsonOfEvent(e: SOSEvent)
    ensures ToJson(Document(e)).Keys == {"_id", "user", "location", "status", "timestamp", "createdAt", "updatedAt"}
    ensures ToJson(Document(e))["status"] == Text(StatusName(e.status))
    ensures ToJson(ToJson(Document(e))) == ToJson(Document(e))
  {
  }
}
