/** The browser-side pseudo-user id (`getUserId` in
    frontend/src/components/ActionScreen.jsx, duplicated in CheckinTimer.jsx): the
    id kept in local storage under "user_id", created on first use. Local storage is
    a map; the random suffix is a parameter. */
module ClientIdentity {
  import opened Common

  type Storage = map<string, string>

  const UserIdKey: string := "user_id"

  datatype Identity = Identity(id: string, storage: Storage)

  /** `getUserId()`: a non-empty stored id is returned as it is; otherwise
      "user_" + `suffix` is stored and returned. */
  function GetUserId(storage: Storage, suffix: string): (r: Identity)
    ensures r.id != ""
    ensures Truthy(Get(storage, UserIdKey)) ==> r == Identity(storage[UserIdKey], storage)
    ensures !Truthy(Get(storage, UserIdKey)) ==>
      r.id == "user_" + suffix && r.storage == storage[UserIdKey := r.id]
    ensures Get(r.storage, UserIdKey) == Some(r.id)
    ensures forall k :: k in storage && k != UserIdKey ==> k in r.storage && r.storage[k] == storage[k]
  {
    var stored := Get(storage, UserIdKey);
    if Truthy(stored) then Identity(stored.value, storage)
    else
      var id := "user_" + suffix;
      Identity(id, storage[UserIdKey := id])
  }

  /** Once an id exists every later call returns it and leaves storage alone,
      whatever random suffix it would have drawn. */
  lemma GetUserIdStable(storage: Storage, first: string, later: string)
    ensures var a := GetUserId(storage, first);
      GetUserId(a.storage, later) == a
  {
  }
}
