/** Properties that connect token issuing (backend/controllers/authController.js)
    with the two middlewares that read tokens (backend/middleware/auth.js and the
    `authenticate` of backend/routes/contacts.js). `verify` is assumed to return the
    payload a token was signed over, which is what `jwt.verify` does for an unexpired
    token signed with the same secret. */
module AuthProperties {
  import opened Common
  import opened Text
  import opened Users
  import AM = AuthMiddleware
  import AC = AuthController
  import CR = ContactsRoute

  /** `verify` inverts `sign` on the token issued for `id`. */
  predicate RoundTrips(id: string, sign: AM.Payload -> string, verify: string -> AM.Verified)
  {
    verify(AC.GenerateToken(id, sign)) == AM.Decoded(AM.Payload(Some(id), None))
  }

  /** A token issued for a stored user passes `protect`, in the header and in the
      cookie, and `protect` attaches that user. */
  lemma IssuedTokenPassesProtect(users: seq<User>, u: User, sign: AM.Payload -> string,
                                 verify: string -> AM.Verified)
    requires u.id != "" && FindById(users, u.id) == Some(u)
    requires RoundTrips(u.id, sign, verify)
    requires var t := AC.GenerateToken(u.id, sign); t != "" && ' ' !in t
    ensures var t := AC.GenerateToken(u.id, sign);
      && AM.Protect(Some("Bearer " + t), None, verify, users) == AM.Pass(u)
      && AM.Protect(None, Some(t), verify, users) == AM.Pass(u)
  {
    var t := AC.GenerateToken(u.id, sign);
    AM.WellFormedBearer(t, None);
  }

  /** A successful login followed by GET /api/auth/me with the answered cookie
      yields the logged-in user's profile. */
  lemma LoginThenGetMe(users: seq<User>, email: string, password: string,
                       matches: (User, string) -> bool, sign: AM.Payload -> string,
                       verify: string -> AM.Verified)
    requires AC.Login(users, Some(email), Some(password), matches, sign).status == 200
    requires var u := FindByEmail(users, email).value;
      && u.id != "" && FindById(users, u.id) == Some(u)
      && RoundTrips(u.id, sign, verify) && AC.GenerateToken(u.id, sign) != ""
    ensures var login := AC.Login(users, Some(email), Some(password), matches, sign);
      var gate := AM.Protect(None, login.cookie, verify, users);
      && gate == AM.Pass(FindByEmail(users, email).value)
      && AC.GetMe(users, Some(gate.user.id)) == AC.Response(200, AC.Profile(AC.Public(gate.user)), None)
  {
  }

  /** A registered user can log in with the password `comparePassword` accepts, and
      is answered with the same user view as at registration. */
  lemma RegisterThenLogin(users: seq<User>, email: string, u: User, password: string,
                          matches: (User, string) -> bool, sign: AM.Payload -> string)
    requires email != "" && password != ""
    requires FindByEmail(users, email).None? && u.email == email && matches(u, password)
    ensures var reg := AC.Register(users, email, AC.Created(u), sign);
      && reg.response.status == 201
      && var login := AC.Login(reg.users, Some(email), Some(password), matches, sign);
      && login.status == 200
      && login.body.user == reg.response.body.user
  {
    var reg := AC.Register(users, email, AC.Created(u), sign);
    var found := FindByEmail(reg.users, email);
    assert reg.users[|users|] == u;
    assert found.Some?;
    forall k | 0 <= k < |users| ensures users[k] != found.value {
      assert users[k].email != email;
    }
    assert found.value == u;
  }

  /** Once an email is registered, a second registration with it is refused and adds
      nobody, whatever `User.create` would have done. */
  lemma SecondRegistrationRefused(users: seq<User>, email: string, u: User,
                                  again: AC.Creation, sign: AM.Payload -> string)
    requires FindByEmail(users, email).None? && u.email == email
    ensures var reg := AC.Register(users, email, AC.Created(u), sign);
      var second := AC.Register(reg.users, email, again, sign);
      && second.users == reg.users
      && second.response == AC.Response(400, AC.Message("User already exists with this email"), None)
  {
    var reg := AC.Register(users, email, AC.Created(u), sign);
    assert reg.users[|users|] == u;
  }

  /** As written, the contacts middleware looks an issued token's user up by the
      claim `userId`, which issued tokens do not carry: the outcome is the lookup of
      an undefined id, the same for every user. */
  lemma ContactsLookupIgnoresIssuedId(u: User, sign: AM.Payload -> string, verify: string -> AM.Verified,
                                      lookup: Option<string> -> CR.Lookup)
    requires RoundTrips(u.id, sign, verify) && AC.GenerateToken(u.id, sign) != ""
    ensures var t := AC.GenerateToken(u.id, sign);
      && (CR.Authenticate(Some("Bearer " + t), verify, lookup).Authenticated? <==> lookup(None).Found?)
      && (CR.Authenticate(Some("Bearer " + t), verify, lookup).Authenticated? ==>
            CR.Authenticate(Some("Bearer " + t), verify, lookup).user == lookup(None).user)
  {
    var t := AC.GenerateToken(u.id, sign);
    CR.StripBearerCases(t, "");
  }

  /** Looking the user up by `id`, an issued token authenticates its own user. */
  lemma ContactsCorrectedAcceptsIssuedToken(u: User, sign: AM.Payload -> string, verify: string -> AM.Verified,
                                            lookup: Option<string> -> CR.Lookup)
    requires RoundTrips(u.id, sign, verify) && AC.GenerateToken(u.id, sign) != ""
    requires lookup(Some(u.id)) == CR.Found(u)
    ensures CR.AuthenticateCorrected(Some("Bearer " + AC.GenerateToken(u.id, sign)), verify, lookup)
      == CR.Authenticated(u)
  {
    CR.StripBearerCases(AC.GenerateToken(u.id, sign), "");
  }
}
