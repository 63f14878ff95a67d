/** The check-in record schema (backend/models/Checkin.js): a required string `userId`,
    a required date `expiresAt`, `active` defaulting to true and `createdAt` defaulting
    to the creation time. Dates are integer milliseconds. */
module CheckinModel {
  import opened Common

  /** A check-in record as it is persisted. `id` stands for the generated `_id`. */
  datatype Checkin = Checkin(id: nat, userId: string, expiresAt: int, active: bool, createdAt: int)

  /** The fields given to `new Checkin({...})`; each may be left out. An `expiresAt`
      of `None` stands for an invalid date (the product of `undefined` or a
      non-numeric duration with 60000 is NaN). */
  datatype CheckinFields = CheckinFields(userId: Option<string>, expiresAt: Option<int>, active: Option<bool>)

  /** The outcome of validating a new record: the record, or the failing paths. */
  datatype Validated = Valid(checkin: Checkin) | Invalid(paths: set<string>)

  /** The schema paths whose validators reject the given fields. A required
      String rejects a missing value and the empty string. */
  function FailingPaths(f: CheckinFields): (paths: set<string>)
    ensures "userId" in paths <==> !Truthy(f.userId)
    ensures "expiresAt" in paths <==> f.expiresAt.None?
    ensures paths <= {"userId", "expiresAt"}
  {
    (if Truthy(f.userId) then {} else {"userId"}) + (if f.expiresAt.Some? then {} else {"expiresAt"})
  }

  /** Document construction plus validation, as `save()` performs it. */
  function Build(f: CheckinFields, id: nat, now: int): (r: Validated)
    ensures r.Valid? <==> Truthy(f.userId) && f.expiresAt.Some?
    ensures r.Invalid? ==> r.paths == FailingPaths(f) && r.paths != {}
    ensures r.Valid? ==> r.checkin.id == id
    ensures r.Valid? ==> r.checkin.userId == f.userId.value && r.checkin.expiresAt == f.expiresAt.value
    ensures r.Valid? ==> r.checkin.active == (f.active.None? || f.active.value)
    ensures r.Valid? ==> r.checkin.createdAt == now
  {
    var paths := FailingPaths(f);
    if paths == {} then
      var active := match f.active case None => true case Some(b) => b;
      Valid(Checkin(id, f.userId.value, f.expiresAt.value, active, now))
    else
      assert "userId" in paths || "expiresAt" in paths;
      Invalid(paths)
  }

  /** Every stored record satisfies the schema. */
  predicate Conforms(c: Checkin)
  {
    c.userId != ""
  }

  /** A record that passed validation conforms to the schema, and one whose
      `userId` is missing or empty never passes. */
  lemma BuildConforms(f: CheckinFields, id: nat, now: int)
    ensures Build(f, id, now).Valid? ==> Conforms(Build(f, id, now).checkin)
    ensures !Truthy(f.userId) ==> Build(f, id, now) == Invalid(FailingPaths(f))
    ensures !Truthy(f.userId) ==> "userId" in Build(f, id, now).paths
  {
  }
}
