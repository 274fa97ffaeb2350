/** The pure parts of the authentication controller: the user record a
    registration stores, the lookup by e-mail, the login decision, the public
    user shape, and the cookie that carries the token. Registration itself
    writes the user table and is a method of the store. */
module AuthController {
  import opened Common
  import opened Listing

  /** A stored user. `password` is whatever the user model stores for the
      password; hashing happens in the user model, which is not part of this
      model. `role` is free text. */
  datatype User = User(name: string, email: string, password: string, role: string)

  /** The user as the response shows it: id, name, e-mail, role and creation
      time. It has no password field. */
  datatype UserResponse = UserResponse(id: Id, name: string, email: string, role: string, createdAt: int)

  /** A `Set-Cookie` with its options; `sameSite` is absent when not set. */
  datatype Cookie = Cookie(name: string, value: string, expires: int, httpOnly: bool, secure: bool,
                           sameSite: Option<string>)

  /** The JSON body and cookie of a successful register or login. */
  datatype TokenResponse = TokenResponse(status: int, success: bool, message: string, user: UserResponse,
                                         token: string, cookie: Cookie)

  const DefaultRole: string := "freelancer"
  const DefaultCookieExpireDays: int := 7
  const MillisPerDay: int := 24 * 60 * 60 * 1000
  const LogoutGraceMillis: int := 10 * 1000

  /** `role || 'freelancer'`: an absent or empty role becomes "freelancer". */
  function RoleOrDefault(role: Option<string>): (r: string)
    ensures r != ""
    ensures role.Some? && role.value != "" ==> r == role.value
    ensures role.None? || role.value == "" ==> r == DefaultRole
  {
    if role.Some? && role.value != "" then role.value else DefaultRole
  }

  /** The record `User.create` receives at registration. */
  function NewUser(name: string, email: string, password: string, role: Option<string>): (u: User)
    ensures u.email == email && u.name == name && u.password == password
    ensures u.role == RoleOrDefault(role)
  {
    User(name, email, password, RoleOrDefault(role))
  }

  /** `User.findOne({ email })`: the earliest created user with that e-mail
      among the ids below `bound`, if any. */
  function FindByEmail(users: map<Id, User>, bound: nat, email: string): (r: Option<Id>)
    ensures r.Some? ==> r.value in users && r.value < bound && users[r.value].email == email
    ensures r.None? <==> forall k :: k in users && k < bound ==> users[k].email != email
    ensures r.Some? ==> forall k :: k in users && k < r.value ==> users[k].email != email
  {
    var matches := NewestFirst(users, bound, (u: User) => u.email == email);
    if matches == [] then None
    else
      var oldest := matches[|matches| - 1];
      assert oldest in matches;
      Some(oldest)
  }

  /** `login`: the user with that e-mail if the password matches. An unknown
      e-mail and a wrong password give the same 401, so the response does not
      reveal which one failed. `comparePassword` stands for the user model's
      password check. */
  function Login(users: map<Id, User>, bound: nat, email: string, password: string,
                 comparePassword: (string, string) -> bool): (r: Result<Id>)
    ensures r.Ok? <==> FindByEmail(users, bound, email).Some?
                       && comparePassword(users[FindByEmail(users, bound, email).value].password, password)
    ensures r.Ok? ==> r.value in users && users[r.value].email == email
    ensures r.Err? ==> r.error == ApiError(Unauthorized, "Invalid credentials")
  {
    match FindByEmail(users, bound, email)
    case None => Err(ApiError(Unauthorized, "Invalid credentials"))
    case Some(id) =>
      if comparePassword(users[id].password, password) then Ok(id)
      else Err(ApiError(Unauthorized, "Invalid credentials"))
  }

  /** `config.jwt.cookieExpire`: the configured number of days, where an
      absent, unparsable or zero setting falls back to 7. */
  function CookieExpireDays(setting: Option<int>): (days: int)
    ensures days != 0
    ensures setting.Some? && setting.value != 0 ==> days == setting.value
    ensures setting.None? || setting.value == 0 ==> days == DefaultCookieExpireDays
  {
    if setting.Some? && setting.value != 0 then setting.value else DefaultCookieExpireDays
  }

  /** The cookie that carries the token: it expires `days` days after `now`
      (in milliseconds), is HTTP-only, is `secure` exactly in production and
      uses `strict` same-site in production and `lax` elsewhere. */
  function TokenCookie(token: string, now: int, days: int, env: string): (c: Cookie)
    ensures c.name == "token" && c.value == token
    ensures c.expires - now == days * 86400000
    ensures c.httpOnly
    ensures c.secure <==> env == "production"
    ensures c.sameSite == Some(if env == "production" then "strict" else "lax")
  {
    var production := env == "production";
    Cookie("token", token, now + days * MillisPerDay, true, production,
           Some(if production then "strict" else "lax"))
  }

  /** The public shape of a user: everything but the password. */
  function ToResponse(id: Id, u: User, createdAt: int): (r: UserResponse)
    ensures r.id == id && r.name == u.name && r.email == u.email && r.role == u.role && r.createdAt == createdAt
  {
    UserResponse(id, u.name, u.email, u.role, createdAt)
  }

  /** `sendTokenResponse`: the status, message, public user, the token in the
      body and the same token in the cookie. */
  function SendTokenResponse(id: Id, u: User, createdAt: int, status: int, message: string,
                             token: string, now: int, days: int, env: string): (r: TokenResponse)
    ensures r.success && r.status == status && r.message == message
    ensures r.token == token && r.cookie.value == token
    ensures r.user == ToResponse(id, u, createdAt)
  {
    TokenResponse(status, true, message, ToResponse(id, u, createdAt), token, TokenCookie(token, now, days, env))
  }

  /** `logout`: the cookie `token` is overwritten with "none" and expires ten
      seconds from `now`; it sets no `secure` or same-site option. */
  function LogoutCookie(now: int): (c: Cookie)
    ensures c.name == "token" && c.value == "none"
    ensures c.expires == now + 10000
    ensures c.httpOnly && !c.secure && c.sameSite.None?
  {
    Cookie("token", "none", now + LogoutGraceMillis, true, false, None)
  }

  const RegisterStatus: int := 201
  const LoginStatus: int := 200

  /** The response of a successful `register`: 201 Created with its message,
      the new user's public fields and the token in the body and the cookie. */
  function RegisterResponse(id: Id, u: User, createdAt: int, token: string, now: int, days: int, env: string)
    : (r: TokenResponse)
    ensures r.success && r.status == 201 && r.message == "User registered successfully"
    ensures r.token == token && r.cookie == TokenCookie(token, now, days, env)
    ensures r.user == ToResponse(id, u, createdAt)
  {
    SendTokenResponse(id, u, createdAt, RegisterStatus, "User registered successfully", token, now, days, env)
  }

  /** The response of a successful `login`: 200 OK with its message, the
      user's public fields and the token in the body and the cookie. */
  function LoginResponse(id: Id, u: User, createdAt: int, token: string, now: int, days: int, env: string)
    : (r: TokenResponse)
    ensures r.success && r.status == 200 && r.message == "Login successful"
    ensures r.token == token && r.cookie == TokenCookie(token, now, days, env)
    ensures r.user == ToResponse(id, u, createdAt)
  {
    SendTokenResponse(id, u, createdAt, LoginStatus, "Login successful", token, now, days, env)
  }
}
