/** The `protect` and `authorize` middleware (backend/middleware/auth.js). Token
    verification is a parameter: `verify` stands for `jwt.verify` with the server's
    secret and answers either the decoded payload or the name of the error it throws. */
module AuthMiddleware {
  import opened Common
  import opened Text
  import opened Users

  /** The claims of a decoded token that the application reads. */
  datatype Payload = Payload(id: Option<string>, userId: Option<string>)

  /** The result of `jwt.verify`: a payload, or a thrown error identified by its name. */
  datatype Verified = Decoded(payload: Payload) | Thrown(name: string)

  /** What a middleware does with a request: hand it on with a user, or answer it. */
  datatype Gate = Pass(user: User) | Deny(status: nat, message: string)

  /** The header selects its second space-separated field when it is non-empty and
      begins with "Bearer"; otherwise the cookie is used when it is non-empty. */
  predicate BearerHeader(authorization: Option<string>)
  {
    Truthy(authorization) && StartsWith(authorization.value, "Bearer")
  }

  /** The token candidate `protect` selects; `None` is `undefined`. */
  function SelectToken(authorization: Option<string>, cookieToken: Option<string>): (r: Option<string>)
    ensures BearerHeader(authorization) ==>
      (r.Some? <==> |Split(authorization.value, ' ')| > 1)
      && (r.Some? ==> ' ' !in r.value && Contains(authorization.value, r.value))
    ensures BearerHeader(authorization) && |Split(authorization.value, ' ')| > 1 ==>
      r == Some(Split(authorization.value, ' ')[1])
    ensures !BearerHeader(authorization) ==> r == (if Truthy(cookieToken) then cookieToken else None)
  {
    if BearerHeader(authorization) then
      var parts := Split(authorization.value, ' ');
      if |parts| > 1 then
        SplitPieceOccurs(authorization.value, ' ', 1);
        Some(parts[1])
      else None
    else if Truthy(cookieToken) then cookieToken
    else None
  }

  /** Every piece of a split occurs in the split string. */
  lemma {:induction false} SplitPieceOccurs(s: string, c: char, k: nat)
    requires k < |Split(s, c)|
    ensures Contains(s, Split(s, c)[k])
    decreases |s|
  {
    var j := IndexOf(s, [c]);
    if j.None? {
      assert c !in s by {
        forall i | 0 <= i < |s| ensures s[i] != c {
          assert !OccursAt(s, [c], i);
        }
      }
      SplitNoSeparator(s, c);
      assert OccursAt(s, s, 0);
    } else {
      var a, b := s[..j.value], s[j.value + 1..];
      assert s == a + [c] + b;
      assert c !in a by {
        forall i | 0 <= i < |a| ensures a[i] != c {
          assert !OccursAt(s, [c], i);
        }
      }
      SplitAtFirst(a, c, b);
      if k == 0 {
        assert OccursAt(s, a, 0);
      } else {
        SplitPieceOccurs(b, c, k - 1);
        var p := Split(b, c)[k - 1];
        assert Split(s, c)[k] == p;
        var i :| 0 <= i <= |b| - |p| && OccursAt(b, p, i);
        assert s[j.value + 1 + i..j.value + 1 + i + |p|] == b[i..i + |p|];
        assert OccursAt(s, p, j.value + 1 + i);
      }
    }
  }

  /** A well-formed header "Bearer <t>" yields `t`, whatever the cookie holds. */
  lemma WellFormedBearer(t: string, cookieToken: Option<string>)
    requires ' ' !in t
    ensures SelectToken(Some("Bearer " + t), cookieToken) == Some(t)
  {
    assert "Bearer " + t == "Bearer" + [' '] + t;
    SplitAtFirst("Bearer", ' ', t);
    SplitNoSeparator(t, ' ');
    assert StartsWith("Bearer " + t, "Bearer");
  }

  /** Every header that begins with "Bearer" and holds a space yields exactly the
      text between its first space and the next space (or the end): the second
      field of `split(' ')`, whatever follows it and whatever the cookie holds. */
  lemma SelectTokenIsSecondField(a: string, t: string, rest: string, cookieToken: Option<string>)
    requires ' ' !in a && ' ' !in t && (rest == [] || rest[0] == ' ')
    requires StartsWith(a + [' '] + t + rest, "Bearer")
    ensures SelectToken(Some(a + [' '] + t + rest), cookieToken) == Some(t)
  {
    var h := a + [' '] + t + rest;
    assert h == a + [' '] + (t + rest);
    SplitAtFirst(a, ' ', t + rest);
    if rest == [] {
      assert t + rest == t;
      SplitNoSeparator(t, ' ');
    } else {
      assert t + rest == t + [' '] + rest[1..];
      SplitAtFirst(t, ' ', rest[1..]);
    }
  }

  /** A header that begins with "Bearer" but has no space yields no token, and the
      cookie is not consulted as a fallback. */
  lemma BearerWithoutSpaceIgnoresCookie(h: string, cookieToken: Option<string>)
    requires StartsWith(h, "Bearer") && ' ' !in h
    ensures SelectToken(Some(h), cookieToken) == None
  {
    SplitNoSeparator(h, ' ');
  }

  /** The header test is case-sensitive: "bearer <t>" falls back to the cookie. */
  lemma LowerCaseBearerUsesCookie(t: string, cookieToken: Option<string>)
    ensures SelectToken(Some("bearer " + t), cookieToken) == (if Truthy(cookieToken) then cookieToken else None)
  {
    assert ("bearer " + t)[0] == 'b';
  }

  /** The message of the 401 answered when verification or the lookup fails. */
  function FailureMessage(errorName: string): (m: string)
    ensures errorName == "JsonWebTokenError" <==> m == "Invalid token"
    ensures errorName == "TokenExpiredError" <==> m == "Token expired"
    ensures errorName != "JsonWebTokenError" && errorName != "TokenExpiredError" ==>
      m == "Not authorized, token failed"
  {
    if errorName == "JsonWebTokenError" then "Invalid token"
    else if errorName == "TokenExpiredError" then "Token expired"
    else "Not authorized, token failed"
  }

  /** `protect`: select a token, verify it, require an `id` claim and find the user.
      The errors it throws itself ("Invalid token payload", "User not found") are
      plain `Error`s and map to the generic message. */
  function Protect(authorization: Option<string>, cookieToken: Option<string>,
                   verify: string -> Verified, users: seq<User>): (r: Gate)
    ensures r.Deny? ==> r.status == 401
    ensures !Truthy(SelectToken(authorization, cookieToken)) ==>
      r == Deny(401, "Not authorized to access this route")
    ensures r.Pass? <==>
      var token := SelectToken(authorization, cookieToken);
      && Truthy(token)
      && verify(token.value).Decoded?
      && Truthy(verify(token.value).payload.id)
      && FindById(users, verify(token.value).payload.id.value).Some?
    ensures r.Pass? ==>
      (r.user in users && r.user.id == verify(SelectToken(authorization, cookieToken).value).payload.id.value)
  {
    var token := SelectToken(authorization, cookieToken);
    if !Truthy(token) then Deny(401, "Not authorized to access this route")
    else
      match verify(token.value)
      case Thrown(name) => Deny(401, FailureMessage(name))
      case Decoded(p) =>
        if !Truthy(p.id) then Deny(401, FailureMessage("Error"))
        else
          match FindById(users, p.id.value)
          case None => Deny(401, FailureMessage("Error"))
          case Some(u) => Pass(u)
  }

  /** A verification error decides the message; no user lookup happens. */
  lemma ThrownVerificationMessage(authorization: Option<string>, cookieToken: Option<string>,
                                  verify: string -> Verified, users: seq<User>)
    requires Truthy(SelectToken(authorization, cookieToken))
    requires verify(SelectToken(authorization, cookieToken).value).Thrown?
    ensures Protect(authorization, cookieToken, verify, users)
      == Deny(401, FailureMessage(verify(SelectToken(authorization, cookieToken).value).name))
  {
  }

  /** `authorize(...roles)`: the user passes when its role is listed. */
  function Authorize(roles: seq<string>, user: User): (r: Gate)
    ensures r.Pass? <==> user.role in roles
    ensures r.Pass? ==> r.user == user
    ensures r.Deny? ==>
      (r.status == 403 && r.message == "User role " + user.role + " is not authorized to access this route")
  {
    if user.role in roles then Pass(user)
    else Deny(403, "User role " + user.role + " is not authorized to access this route")
  }

  /** Listing more roles never turns away a user who was let through. */
  lemma AuthorizeMonotone(roles: seq<string>, more: seq<string>, user: User)
    requires Authorize(roles, user).Pass?
    ensures Authorize(roles + more, user) == Pass(user)
  {
  }
}
