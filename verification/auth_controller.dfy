/** The authentication controller (backend/controllers/authController.js):
    registration, login, the current-user lookup, logout and token issuing. Signing
    (`jwt.sign` with the server's secret), the password check (`comparePassword`)
    and `User.create` are parameters. */
module AuthController {
  import opened Common
  import opened Text
  import opened Users
  import AM = AuthMiddleware

  /** The user object in register and login answers: no password, no role. */
  datatype UserView = UserView(id: string, email: string, name: string, phone: string)

  /** The document `findById(...).select('-password')` yields. */
  datatype PublicUser = PublicUser(id: string, email: string, name: string, phone: string, role: string)

  datatype Body =
    | Message(message: string)
    | Session(token: string, user: UserView)
    | Profile(data: PublicUser)
    | NoData

  /** `cookie` is the value written to the `token` cookie, when one is set. */
  datatype Response = Response(status: nat, body: Body, cookie: Option<string>)

  /** The error `User.create` rejects with: its `name`, its `code` and the messages of
      its `errors` entries in order. */
  datatype CreateError = CreateError(name: string, code: Option<int>, messages: seq<string>)

  /** What `User.create` does with the request's fields. */
  datatype Creation = Created(user: User) | Rejected(error: CreateError)

  datatype Registration = Registration(users: seq<User>, response: Response)

  function View(u: User): (v: UserView)
    ensures v.id == u.id && v.email == u.email && v.name == u.name && v.phone == u.phone
  {
    UserView(u.id, u.email, u.name, u.phone)
  }

  function Public(u: User): (p: PublicUser)
    ensures p.id == u.id && p.email == u.email && p.name == u.name && p.phone == u.phone && p.role == u.role
  {
    PublicUser(u.id, u.email, u.name, u.phone, u.role)
  }

  /** `generateToken(id)`: a token signed over the payload `{ id }` alone. */
  function GenerateToken(id: string, sign: AM.Payload -> string): (t: string)
    ensures t == sign(AM.Payload(Some(id), None))
  {
    sign(AM.Payload(Some(id), None))
  }

  /** The status and message answered for a rejected `User.create`. */
  function CreateFailure(e: CreateError): (r: Response)
    ensures r.cookie.None? && r.body.Message?
    ensures e.code == Some(11000) ==> r == Response(400, Message("Email already in use"), None)
    ensures e.code != Some(11000) && e.name == "ValidationError" ==>
      r == Response(400, Message(Join(e.messages, ". ")), None)
    ensures r.status == 500 <==> e.code != Some(11000) && e.name != "ValidationError"
    ensures r.status == 500 ==> r.body.message == "Server error during registration"
  {
    if e.code == Some(11000) then Response(400, Message("Email already in use"), None)
    else if e.name == "ValidationError" then Response(400, Message(Join(e.messages, ". ")), None)
    else Response(500, Message("Server error during registration"), None)
  }

  /** POST /api/auth/register. */
  function Register(users: seq<User>, email: string, create: Creation, sign: AM.Payload -> string): (r: Registration)
    ensures FindByEmail(users, email).Some? ==>
      r == Registration(users, Response(400, Message("User already exists with this email"), None))
    ensures r.response.status == 201 <==> FindByEmail(users, email).None? && create.Created?
    ensures r.response.status == 201 ==>
      && r.users == users + [create.user]
      && r.response.body == Session(GenerateToken(create.user.id, sign), View(create.user))
      && r.response.cookie == Some(r.response.body.token)
    ensures r.response.status != 201 ==> r.users == users && r.response.cookie.None?
    ensures FindByEmail(users, email).None? && create.Rejected? ==>
      r.response == CreateFailure(create.error)
  {
    if FindByEmail(users, email).Some? then
      Registration(users, Response(400, Message("User already exists with this email"), None))
    else
      match create
      case Rejected(e) => Registration(users, CreateFailure(e))
      case Created(u) =>
        var token := GenerateToken(u.id, sign);
        Registration(users + [u], Response(201, Session(token, View(u)), Some(token)))
  }

  /** POST /api/auth/login. `matches(u, p)` stands for `u.comparePassword(p)`. */
  function Login(users: seq<User>, email: Option<string>, password: Option<string>,
                 matches: (User, string) -> bool, sign: AM.Payload -> string): (r: Response)
    ensures !Truthy(email) || !Truthy(password) ==>
      r == Response(400, Message("Please provide both email and password"), None)
    ensures r.status == 200 <==>
      && Truthy(email) && Truthy(password)
      && FindByEmail(users, email.value).Some?
      && matches(FindByEmail(users, email.value).value, password.value)
    ensures r.status == 200 ==>
      var u := FindByEmail(users, email.value).value;
      r == Response(200, Session(GenerateToken(u.id, sign), View(u)), Some(GenerateToken(u.id, sign)))
    ensures r.status != 200 && Truthy(email) && Truthy(password) ==>
      r == Response(401, Message("Invalid credentials"), None)
  {
    if !Truthy(email) || !Truthy(password) then
      Response(400, Message("Please provide both email and password"), None)
    else
      match FindByEmail(users, email.value)
      case None => Response(401, Message("Invalid credentials"), None)
      case Some(u) =>
        if !matches(u, password.value) then Response(401, Message("Invalid credentials"), None)
        else
          var token := GenerateToken(u.id, sign);
          Response(200, Session(token, View(u)), Some(token))
  }

  /** An unknown email and a wrong password are answered identically. */
  lemma LoginFailuresIndistinguishable(users: seq<User>, email: string, password: string,
                                        matches: (User, string) -> bool, sign: AM.Payload -> string)
    requires email != "" && password != ""
    requires FindByEmail(users, email).None? ||
      (FindByEmail(users, email).Some? && !matches(FindByEmail(users, email).value, password))
    ensures Login(users, Some(email), Some(password), matches, sign)
      == Login([], Some(email), Some(password), matches, sign)
      == Response(401, Message("Invalid credentials"), None)
  {
  }

  /** GET /api/auth/me, given the `id` of the user `protect` attached. */
  function GetMe(users: seq<User>, callerId: Option<string>): (r: Response)
    ensures r.cookie.None?
    ensures !Truthy(callerId) ==> r == Response(401, Message("User not authenticated"), None)
    ensures Truthy(callerId) && FindById(users, callerId.value).None? ==>
      r == Response(404, Message("User not found"), None)
    ensures r.status == 200 <==> Truthy(callerId) && FindById(users, callerId.value).Some?
    ensures r.status == 200 ==>
      r.body.Profile? && r.body.data == Public(FindById(users, callerId.value).value)
  {
    if !Truthy(callerId) then Response(401, Message("User not authenticated"), None)
    else
      match FindById(users, callerId.value)
      case None => Response(404, Message("User not found"), None)
      case Some(u) => Response(200, Profile(Public(u)), None)
  }

  const LogoutCookieLifetimeMs: int := 10 * 1000

  datatype LogoutResult = LogoutResult(response: Response, cookieExpiresAt: int)

  /** GET /api/auth/logout: the cookie is overwritten with "none" for ten seconds. */
  function Logout(now: int): (r: LogoutResult)
    ensures r.response == Response(200, NoData, Some("none"))
    ensures r.cookieExpiresAt - now == 10000
  {
    LogoutResult(Response(200, NoData, Some("none")), now + LogoutCookieLifetimeMs)
  }
}
