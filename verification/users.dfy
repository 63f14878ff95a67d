/** The user records the authentication code reads. The user schema itself
    (backend/models/User.js) is not part of this model; only the fields the
    controllers and middleware touch appear here. */
module Users {
  import opened Common

  /** A stored user; `password` stands for whatever the user model stores for it. */
  datatype User = User(id: string, email: string, password: string, name: string, phone: string, role: string)

  /** `User.findById(id)`: the first user with that id. */
  function FindById(users: seq<User>, id: string): (r: Option<User>)
    ensures r.Some? ==> r.value in users && r.value.id == id
    ensures r.None? <==> forall i :: 0 <= i < |users| ==> users[i].id != id
  {
    if users == [] then None
    else if users[0].id == id then Some(users[0])
    else FindById(users[1..], id)
  }

  /** `User.findOne({ email })`: the first user with that email. */
  function FindByEmail(users: seq<User>, email: string): (r: Option<User>)
    ensures r.Some? ==> r.value in users && r.value.email == email
    ensures r.None? <==> forall i :: 0 <= i < |users| ==> users[i].email != email
  {
    if users == [] then None
    else if users[0].email == email then Some(users[0])
    else FindByEmail(users[1..], email)
  }
}
