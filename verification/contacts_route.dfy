/** The emergency-contact routes (backend/routes/contacts.js) with their own
    `authenticate` middleware. The contact schema (backend/models/Contact.js) is not
    part of this model: whether `save` accepts a contact is a parameter. Contact ids
    are numbers handed out by a counter; a path id that cannot be cast to an id is
    `None`. */
module ContactsRoute {
  import opened Common
  import opened Text
  import opened Users
  import AM = AuthMiddleware

  datatype Contact = Contact(id: nat, owner: string, name: string, phone: string,
                             relationship: string, isEmergencyContact: bool)

  datatype ContactStore = ContactStore(contacts: seq<Contact>, nextId: nat)

  /** The fields of a contact in the creation answer: the owner is not echoed. */
  datatype ContactView = ContactView(id: nat, name: string, phone: string, relationship: string,
                                     isEmergencyContact: bool)

  datatype Body =
    | ErrorBody(error: string)
    | ContactList(contacts: seq<Contact>)
    | CreatedBody(message: string, view: ContactView)
    | ContactBody(contact: Contact)
    | DeletedBody(message: string)

  datatype Response = Response(status: nat, body: Body)

  datatype Outcome = Outcome(store: ContactStore, response: Response)

  /** The user lookup `User.findOne({ _id: decoded.userId })`: found, not found, or a
      thrown error (an id that cannot be cast, say). */
  datatype Lookup = Found(user: User) | NotFound | LookupThrew

  datatype Auth = Authenticated(user: User) | Refused(error: string)

  // ---------------------------------------------------------------------------
  // authenticate
  // ---------------------------------------------------------------------------

  /** `req.header('Authorization')?.replace('Bearer ', '')`: the first occurrence of
      "Bearer " anywhere in the header is removed. */
  function StripBearer(authorization: Option<string>): (r: Option<string>)
    ensures authorization.None? <==> r.None?
  {
    match authorization
    case None => None
    case Some(h) => Some(ReplaceFirst(h, "Bearer ", ""))
  }

  lemma StripBearerCases(t: string, h: string)
    ensures StripBearer(Some("Bearer " + t)) == Some(t)
    ensures !Contains(h, "Bearer ") ==> StripBearer(Some(h)) == Some(h)
  {
    ReplaceFirstLeading("Bearer ", t, "");
    assert "" + t == t;
    if !Contains(h, "Bearer ") {
      ReplaceFirstAbsent(h, "Bearer ", "");
    }
  }

  /** The removal is not anchored at the start of the header. */
  lemma StripBearerNotAnchored()
    ensures StripBearer(Some("xBearer y")) == Some("xy")
  {
    var s := "xBearer y";
    assert OccursAt(s, "Bearer ", 1);
    assert s[0..7][0] == 'x';
    assert !OccursAt(s, "Bearer ", 0);
    assert IndexOf(s, "Bearer ") == Some(1);
    assert s[..1] + "" + s[8..] == "xy";
  }

  /** The claim the middleware looks the user up by: `decoded.userId` as written,
      `decoded.id` (the claim tokens are issued with) when corrected. */
  function UserClaim(p: AM.Payload, corrected: bool): (r: Option<string>)
    ensures r == (if corrected then p.id else p.userId)
  {
    if corrected then p.id else p.userId
  }

  function AuthenticateBy(authorization: Option<string>, verify: string -> AM.Verified,
                          lookup: Option<string> -> Lookup, corrected: bool): Auth
  {
    var t := StripBearer(authorization);
    if !Truthy(t) then Refused("Authentication required")
    else
      match verify(t.value)
      case Thrown(_) => Refused("Please authenticate")
      case Decoded(p) =>
        match lookup(UserClaim(p, corrected))
        case Found(u) => Authenticated(u)
        case NotFound => Refused("User not found")
        case LookupThrew => Refused("Please authenticate")
  }

  /** `authenticate` as written: every refusal is a 401 with the message in `error`,
      and the user is looked up by the token's `userId` claim. */
  function Authenticate(authorization: Option<string>, verify: string -> AM.Verified,
                        lookup: Option<string> -> Lookup): (r: Auth)
    ensures !Truthy(StripBearer(authorization)) ==> r == Refused("Authentication required")
    ensures r.Authenticated? <==>
      var t := StripBearer(authorization);
      && Truthy(t)
      && verify(t.value).Decoded?
      && lookup(verify(t.value).payload.userId).Found?
    ensures r.Authenticated? ==>
      r.user == lookup(verify(StripBearer(authorization).value).payload.userId).user
    ensures Truthy(StripBearer(authorization)) && verify(StripBearer(authorization).value).Thrown? ==>
      r == Refused("Please authenticate")
    ensures r.Refused? ==> r.error in {"Authentication required", "Please authenticate", "User not found"}
  {
    AuthenticateBy(authorization, verify, lookup, false)
  }

  /** `authenticate` looking the user up by the `id` claim. */
  function AuthenticateCorrected(authorization: Option<string>, verify: string -> AM.Verified,
                                 lookup: Option<string> -> Lookup): (r: Auth)
    ensures !Truthy(StripBearer(authorization)) ==> r == Refused("Authentication required")
    ensures r.Authenticated? <==>
      var t := StripBearer(authorization);
      && Truthy(t)
      && verify(t.value).Decoded?
      && lookup(verify(t.value).payload.id).Found?
    ensures r.Authenticated? ==>
      r.user == lookup(verify(StripBearer(authorization).value).payload.id).user
    ensures Truthy(StripBearer(authorization)) && verify(StripBearer(authorization).value).Thrown? ==>
      r == Refused("Please authenticate")
    ensures r.Refused? ==> r.error in {"Authentication required", "Please authenticate", "User not found"}
  {
    AuthenticateBy(authorization, verify, lookup, true)
  }

  function RefusedAnswer(st: ContactStore, error: string): (r: Outcome)
    ensures r == Outcome(st, Response(401, ErrorBody(error)))
  {
    Outcome(st, Response(401, ErrorBody(error)))
  }

  // ---------------------------------------------------------------------------
  // Routes
  // ---------------------------------------------------------------------------

  /** The contacts of `owner`, in store order. */
  function OwnedBy(cs: seq<Contact>, owner: string): (r: seq<Contact>)
    ensures forall c :: c in r <==> c in cs && c.owner == owner
    ensures |r| <= |cs|
  {
    if cs == [] then []
    else (if cs[0].owner == owner then [cs[0]] else []) + OwnedBy(cs[1..], owner)
  }

  /** The owner filter distributes over concatenation, so the listed contacts keep
      their store order. */
  lemma {:induction false} OwnedByAppend(a: seq<Contact>, b: seq<Contact>, owner: string)
    ensures OwnedBy(a + b, owner) == OwnedBy(a, owner) + OwnedBy(b, owner)
    decreases |a|
  {
    if a == [] {
      assert a + b == b;
    } else {
      assert (a + b)[0] == a[0];
      assert (a + b)[1..] == a[1..] + b;
      OwnedByAppend(a[1..], b, owner);
    }
  }

  /** GET /api/contacts. */
  function List(st: ContactStore, auth: Auth): (r: Outcome)
    ensures r.store == st
    ensures auth.Refused? ==> r.response == Response(401, ErrorBody(auth.error))
    ensures auth.Authenticated? ==>
      r.response.status == 200 && r.response.body.ContactList?
      && (forall c :: c in r.response.body.contacts <==> c in st.contacts && c.owner == auth.user.id)
  {
    match auth
    case Refused(e) => RefusedAnswer(st, e)
    case Authenticated(u) => Outcome(st, Response(200, ContactList(OwnedBy(st.contacts, u.id))))
  }

  /** What `contact.save()` does: stores it, or rejects it with a validation error
      message or another error. */
  datatype Save = Saved | ValidationFailed(message: string) | SaveFailed

  function ViewOf(c: Contact): ContactView
  {
    ContactView(c.id, c.name, c.phone, c.relationship, c.isEmergencyContact)
  }

  /** POST /api/contacts. */
  function Create(st: ContactStore, auth: Auth, name: Option<string>, phone: Option<string>,
                  relationship: Option<string>, isEmergencyContact: Option<bool>, save: Save): (r: Outcome)
    ensures auth.Refused? ==> r == Outcome(st, Response(401, ErrorBody(auth.error)))
    ensures auth.Authenticated? && (!Truthy(name) || !Truthy(phone)) ==>
      r == Outcome(st, Response(400, ErrorBody("Name and phone are required")))
    ensures r.response.status == 201 <==>
      auth.Authenticated? && Truthy(name) && Truthy(phone) && save.Saved?
    ensures r.response.status == 201 ==>
      var c := Contact(st.nextId, auth.user.id, name.value, phone.value,
                       if Truthy(relationship) then relationship.value else "Other",
                       isEmergencyContact == Some(true));
      && r.store == ContactStore(st.contacts + [c], st.nextId + 1)
      && r.response.body == CreatedBody("Contact created successfully", ViewOf(c))
    ensures r.response.status != 201 ==> r.store == st
    ensures auth.Authenticated? && Truthy(name) && Truthy(phone) && !save.Saved? ==>
      r.response == Response(400, ErrorBody(if save.ValidationFailed? then save.message else "Invalid contact data"))
  {
    match auth
    case Refused(e) => RefusedAnswer(st, e)
    case Authenticated(u) =>
      if !Truthy(name) || !Truthy(phone) then
        Outcome(st, Response(400, ErrorBody("Name and phone are required")))
      else
        var c := Contact(st.nextId, u.id, name.value, phone.value,
                         if Truthy(relationship) then relationship.value else "Other",
                         isEmergencyContact == Some(true));
        match save
        case Saved =>
          Outcome(ContactStore(st.contacts + [c], st.nextId + 1),
                  Response(201, CreatedBody("Contact created successfully", ViewOf(c))))
        case ValidationFailed(m) => Outcome(st, Response(400, ErrorBody(m)))
        case SaveFailed => Outcome(st, Response(400, ErrorBody("Invalid contact data")))
  }

  /** The position of the first contact satisfying the filter `{ _id: id }` and, when
      `owner` is given, `{ user: owner }`. */
  predicate Matches(c: Contact, id: nat, owner: Option<string>)
  {
    c.id == id && (owner.None? || c.owner == owner.value)
  }

  function FindFrom(cs: seq<Contact>, id: nat, owner: Option<string>, k: nat): (r: Option<nat>)
    requires k <= |cs|
    requires forall j :: 0 <= j < k ==> !Matches(cs[j], id, owner)
    ensures r.Some? ==>
      (r.value < |cs| && Matches(cs[r.value], id, owner)
       && forall j :: 0 <= j < r.value ==> !Matches(cs[j], id, owner))
    ensures r.None? ==> forall j :: 0 <= j < |cs| ==> !Matches(cs[j], id, owner)
    decreases |cs| - k
  {
    if k == |cs| then None
    else if Matches(cs[k], id, owner) then Some(k)
    else FindFrom(cs, id, owner, k + 1)
  }

  function Find(cs: seq<Contact>, id: nat, owner: Option<string>): (r: Option<nat>)
    ensures r.Some? ==>
      (r.value < |cs| && Matches(cs[r.value], id, owner)
       && forall j :: 0 <= j < r.value ==> !Matches(cs[j], id, owner))
    ensures r.None? <==> forall j :: 0 <= j < |cs| ==> !Matches(cs[j], id, owner)
  {
    FindFrom(cs, id, owner, 0)
  }

  /** The update document `{ name, phone, relationship }`: an `undefined` value leaves
      its field as it is. */
  function ApplyUpdate(c: Contact, name: Option<string>, phone: Option<string>, relationship: Option<string>): (r: Contact)
    ensures r.id == c.id && r.owner == c.owner && r.isEmergencyContact == c.isEmergencyContact
    ensures r.name == (if name.Some? then name.value else c.name)
    ensures r.phone == (if phone.Some? then phone.value else c.phone)
    ensures r.relationship == (if relationship.Some? then relationship.value else c.relationship)
  {
    c.(name := if name.Some? then name.value else c.name,
       phone := if phone.Some? then phone.value else c.phone,
       relationship := if relationship.Some? then relationship.value else c.relationship)
  }

  /** PUT /api/contacts/:id. The route has no authentication: any caller may update
      any contact. */
  function Update(st: ContactStore, id: Option<nat>, name: Option<string>, phone: Option<string>,
                  relationship: Option<string>): (r: Outcome)
    ensures id.None? ==> r == Outcome(st, Response(400, ErrorBody("Invalid data")))
    ensures r.store.nextId == st.nextId && |r.store.contacts| == |st.contacts|
    ensures r.response.status == 200 || r.response.status == 400 || r.response.status == 404
    ensures r.response.status == 404 <==>
      id.Some? && forall j :: 0 <= j < |st.contacts| ==> st.contacts[j].id != id.value
    ensures r.response.status == 404 ==> r == Outcome(st, Response(404, ErrorBody("Not found")))
    ensures r.response.status == 200 ==>
      exists i :: 0 <= i < |st.contacts| && st.contacts[i].id == id.value
        && r.store.contacts == st.contacts[i := ApplyUpdate(st.contacts[i], name, phone, relationship)]
        && r.response.body == ContactBody(r.store.contacts[i])
  {
    match id
    case None => Outcome(st, Response(400, ErrorBody("Invalid data")))
    case Some(n) =>
      match Find(st.contacts, n, None)
      case None => Outcome(st, Response(404, ErrorBody("Not found")))
      case Some(i) =>
        var c := ApplyUpdate(st.contacts[i], name, phone, relationship);
        Outcome(st.(contacts := st.contacts[i := c]), Response(200, ContactBody(c)))
  }

  function RemoveAt(cs: seq<Contact>, i: nat): (r: seq<Contact>)
    requires i < |cs|
    ensures |r| == |cs| - 1
    ensures forall j :: 0 <= j < i ==> r[j] == cs[j]
    ensures forall j :: i <= j < |r| ==> r[j] == cs[j + 1]
  {
    cs[..i] + cs[i + 1..]
  }

  /** DELETE /api/contacts/:id: `findOneAndDelete({ _id: id, user: caller })`. */
  function Delete(st: ContactStore, auth: Auth, id: Option<nat>): (r: Outcome)
    ensures auth.Refused? ==> r == Outcome(st, Response(401, ErrorBody(auth.error)))
    ensures auth.Authenticated? && id.None? ==>
      r == Outcome(st, Response(500, ErrorBody("Server error while deleting contact")))
    ensures r.store.nextId == st.nextId
    ensures r.response.status == 200 <==>
      auth.Authenticated? && id.Some?
      && exists j :: 0 <= j < |st.contacts| && Matches(st.contacts[j], id.value, Some(auth.user.id))
    ensures r.response.status == 200 ==>
      && r.response.body == DeletedBody("Contact deleted successfully")
      && exists i :: 0 <= i < |st.contacts| && Matches(st.contacts[i], id.value, Some(auth.user.id))
           && r.store.contacts == RemoveAt(st.contacts, i)
    ensures auth.Authenticated? && id.Some? && r.response.status != 200 ==>
      r == Outcome(st, Response(404, ErrorBody("Contact not found or not authorized")))
  {
    match auth
    case Refused(e) => RefusedAnswer(st, e)
    case Authenticated(u) =>
      match id
      case None => Outcome(st, Response(500, ErrorBody("Server error while deleting contact")))
      case Some(n) =>
        match Find(st.contacts, n, Some(u.id))
        case None => Outcome(st, Response(404, ErrorBody("Contact not found or not authorized")))
        case Some(i) =>
          Outcome(st.(contacts := RemoveAt(st.contacts, i)), Response(200, DeletedBody("Contact deleted successfully")))
  }

  // ---------------------------------------------------------------------------
  // Store invariant and properties
  // ---------------------------------------------------------------------------

  /** Contact ids are distinct and below the counter. */
  predicate WellFormed(st: ContactStore)
  {
    && (forall i :: 0 <= i < |st.contacts| ==> st.contacts[i].id < st.nextId)
    && (forall i, j :: 0 <= i < j < |st.contacts| ==> st.contacts[i].id != st.contacts[j].id)
  }

  lemma CreateWellFormed(st: ContactStore, auth: Auth, name: Option<string>, phone: Option<string>,
                         relationship: Option<string>, isEmergencyContact: Option<bool>, save: Save)
    requires WellFormed(st)
    ensures WellFormed(Create(st, auth, name, phone, relationship, isEmergencyContact, save).store)
  {
    var r := Create(st, auth, name, phone, relationship, isEmergencyContact, save);
    if r.response.status == 201 {
      var cs := r.store.contacts;
      assert forall i :: 0 <= i < |st.contacts| ==> cs[i] == st.contacts[i];
    }
  }

  lemma UpdateWellFormed(st: ContactStore, id: Option<nat>, name: Option<string>, phone: Option<string>,
                         relationship: Option<string>)
    requires WellFormed(st)
    ensures WellFormed(Update(st, id, name, phone, relationship).store)
  {
  }

  lemma DeleteWellFormed(st: ContactStore, auth: Auth, id: Option<nat>)
    requires WellFormed(st)
    ensures WellFormed(Delete(st, auth, id).store)
  {
  }

  /** In a well-formed store the deletion removes exactly the caller's contact with
      that id and keeps every other contact, in order. */
  lemma {:induction false} DeleteRemovesOnlyMatch(st: ContactStore, auth: Auth, id: nat)
    requires WellFormed(st) && auth.Authenticated?
    ensures forall c :: c in Delete(st, auth, Some(id)).store.contacts <==>
      c in st.contacts && !Matches(c, id, Some(auth.user.id))
  {
    var r := Delete(st, auth, Some(id));
    var cs := st.contacts;
    match Find(cs, id, Some(auth.user.id))
    case None =>
    case Some(i) =>
      var rs := RemoveAt(cs, i);
      assert r.store.contacts == rs;
      forall c ensures c in rs <==> c in cs && !Matches(c, id, Some(auth.user.id)) {
        if c in rs {
          var k :| 0 <= k < |rs| && rs[k] == c;
          var j := if k < i then k else k + 1;
          assert cs[j] == c;
          assert j != i;
          assert cs[j].id != cs[i].id;
        }
        if c in cs && !Matches(c, id, Some(auth.user.id)) {
          var j :| 0 <= j < |cs| && cs[j] == c;
          assert j != i;
          if j < i { assert rs[j] == c; } else { assert rs[j - 1] == c; }
        }
      }
  }

  /** Another user's contact survives a deletion request for its id. */
  lemma DeleteKeepsOthersContacts(st: ContactStore, auth: Auth, id: nat)
    requires auth.Authenticated?
    requires forall j :: 0 <= j < |st.contacts| ==> st.contacts[j].owner != auth.user.id
    ensures Delete(st, auth, Some(id)) == Outcome(st, Response(404, ErrorBody("Contact not found or not authorized")))
  {
  }

  /** A created contact is listed for its owner afterwards. */
  lemma CreatedContactListed(st: ContactStore, u: User, name: string, phone: string,
                             relationship: Option<string>, isEmergencyContact: Option<bool>)
    requires name != "" && phone != ""
    ensures var r := Create(st, Authenticated(u), Some(name), Some(phone), relationship, isEmergencyContact, Saved);
      && r.response.status == 201
      && ViewOf(r.store.contacts[|r.store.contacts| - 1]) == r.response.body.view
      && r.store.contacts[|r.store.contacts| - 1] in List(r.store, Authenticated(u)).response.body.contacts
  {
  }

  /** The optional fields take their defaults when left out. */
  lemma CreateDefaults(st: ContactStore, u: User, name: string, phone: string)
    requires name != "" && phone != ""
    ensures var r := Create(st, Authenticated(u), Some(name), Some(phone), None, None, Saved);
      r.response.body.view.relationship == "Other" && !r.response.body.view.isEmergencyContact
  {
  }
}
