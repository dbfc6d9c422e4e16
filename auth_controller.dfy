/**
 * `AuthController`: `register`, `login`, `refresh` and `logout` as steps over the user table,
 * the refresh-token table and the two cookies of the response.
 */
module AuthController {
  import opened Wrappers
  import opened Http
  import opened Calendar
  import opened Users
  import opened Auth

  const AccessCookieMaxAgeMs := 15 * 60 * 1000
  const RefreshCookieMaxAgeMs := 7 * 24 * 60 * 60 * 1000

  /** `{ httpOnly, secure, sameSite, maxAge }` of `res.cookie`. */
  datatype CookieOptions = CookieOptions(httpOnly: bool, secure: bool, sameSite: string, maxAgeMs: int)

  /** What a handler does to the client's cookies. */
  datatype CookieOp = SetCookie(name: string, value: string, options: CookieOptions) | ClearCookie(name: string)

  /** The JSON bodies the handlers answer with. */
  datatype Body =
    | MessageBody(message: string)
    | SessionBody(message: string, user: UserSummary)
    | RegisteredBody(message: string, registered: PublicUser)

  datatype Response = Response(status: int, body: Body, cookies: seq<CookieOp>)

  /** Both session cookies: http-only, not secure, `lax`, living 15 minutes and 7 days. */
  function SessionCookies(tokens: Tokens): (ops: seq<CookieOp>)
    ensures |ops| == 2
    ensures ops[0] == SetCookie("access_token", tokens.accessToken, CookieOptions(true, false, "lax", 900000))
    ensures ops[1] == SetCookie("refresh_token", tokens.refreshToken, CookieOptions(true, false, "lax", RefreshTtlMs))
  {
    [ SetCookie("access_token", tokens.accessToken, CookieOptions(true, false, "lax", AccessCookieMaxAgeMs)),
      SetCookie("refresh_token", tokens.refreshToken, CookieOptions(true, false, "lax", RefreshCookieMaxAgeMs)) ]
  }

  /** `req.cookies?.refresh_token` when truthy. */
  function RefreshCookie(req: Request): (t: Option<string>)
    ensures t.Some? <==> "refresh_token" in req.cookies && req.cookies["refresh_token"] != ""
    ensures t.Some? ==> t.value == req.cookies["refresh_token"]
  {
    if "refresh_token" in req.cookies && req.cookies["refresh_token"] != "" then Some(req.cookies["refresh_token"])
    else None
  }

  const LogoutResponse := Response(Ok, MessageBody("Logout successful"), [ClearCookie("access_token"), ClearCookie("refresh_token")])

  class AuthController {
    const authService: AuthService
    const usersService: UsersService

    /** Both handlers' services are the application's single instances. */
    ghost predicate Valid()
      reads this, authService
    {
      authService.Valid() && authService.usersService == usersService
    }

    constructor (authService: AuthService, usersService: UsersService)
      requires authService.Valid() && authService.usersService == usersService
      ensures this.authService == authService && this.usersService == usersService
      ensures Valid()
    {
      this.authService := authService;
      this.usersService := usersService;
    }

    /** `register`: 201 with the new user minus the password, or the service's 409 and no change. */
    method Register(dto: CreateUserDto, id: string, salt: seq<bv8>, now: int, today: Date) returns (r: Response)
      requires Valid()
      modifies usersService
      ensures Valid()
      ensures old(usersService.FindByEmail(dto.userEmail)).Some? ==>
                r == Response(Conflict, MessageBody("Email already exists"), [])
                && usersService.users == old(usersService.users)
      ensures old(usersService.FindByEmail(dto.userEmail)).None? ==>
                r == Response(Created, RegisteredBody("User registered successfully", Strip(NewUser(dto, id, salt, now, today))), [])
                && usersService.users == old(usersService.users) + [NewUser(dto, id, salt, now, today)]
    {
      var created := usersService.Create(dto, id, salt, now, today);
      if created.Failure? {
        return Response(Conflict, MessageBody("Email already exists"), []);
      }
      r := Response(Created, RegisteredBody("User registered successfully", Strip(created.value)), []);
    }

    /** `login` for the user the credential guard authenticated: both cookies and the six public fields. */
    method Login(user: PublicUser, bytes: seq<bv8>, now: int, sign: JwtPayload -> string) returns (r: Response)
      requires Valid() && |bytes| == RefreshTokenBytes
      modifies authService, usersService
      ensures Valid()
      ensures usersService.users == StampLastLogin(old(usersService.users), user.userId, now)
      ensures var tokens := Tokens(sign(PayloadFor(user.userId, user.userEmail)), RefreshTokenOf(bytes));
        r == Response(Ok, SessionBody("Login successful", Summary(user)), SessionCookies(tokens))
        && authService.refreshTokens == Saved(old(authService.refreshTokens), old(authService.nextTokenId), user.userId, tokens.refreshToken, now)
    {
      var result := authService.Login(user, bytes, now, sign);
      r := Response(Ok, SessionBody("Login successful", result.user), SessionCookies(result.tokens));
    }

    /**
     * `refresh`: 401 without a cookie (no change) and 401 for a token that does not validate
     * (an expired one is deleted); otherwise both tokens are reissued, the presented one
     * deleted with the rest of the user's records.
     */
    method Refresh(req: Request, bytes: seq<bv8>, now: int, sign: JwtPayload -> string) returns (r: Response)
      requires Valid() && |bytes| == RefreshTokenBytes
      modifies authService
      ensures Valid()
      ensures RefreshCookie(req).None? ==>
                r == Response(Unauthorized, MessageBody("No refresh token provided"), [])
                && authService.refreshTokens == old(authService.refreshTokens)
      ensures RefreshCookie(req).Some? ==>
                var t := RefreshCookie(req).value;
                var u := ValidatedUser(old(authService.refreshTokens), usersService.users, t, now);
                (u.None? ==> r == Response(Unauthorized, MessageBody("Invalid or expired refresh token"), [])
                             && authService.refreshTokens == AfterValidation(old(authService.refreshTokens), t, now))
                && (u.Some? ==>
                      var tokens := Tokens(sign(PayloadFor(u.value.userId, u.value.userEmail)), RefreshTokenOf(bytes));
                      r == Response(Ok, SessionBody("Tokens refreshed successfully", SummaryOfUser(u.value)), SessionCookies(tokens))
                      && authService.refreshTokens == Saved(old(authService.refreshTokens), old(authService.nextTokenId), u.value.userId, tokens.refreshToken, now))
    {
      var t := RefreshCookie(req);
      if t.None? {
        return Response(Unauthorized, MessageBody("No refresh token provided"), []);
      }
      var user := authService.ValidateRefreshToken(t.value, now);
      if user.None? {
        return Response(Unauthorized, MessageBody("Invalid or expired refresh token"), []);
      }
      var tokens := authService.GenerateTokens(user.value.userId, user.value.userEmail, bytes, now, sign);
      r := Response(Ok, SessionBody("Tokens refreshed successfully", SummaryOfUser(user.value)), SessionCookies(tokens));
    }

    /**
     * `logout`: always 200 and both cookies cleared. A token that validates gets its owner's
     * records revoked; validation itself deletes an expired token; otherwise nothing changes.
     */
    method Logout(req: Request, now: int) returns (r: Response)
      requires Valid()
      modifies authService
      ensures Valid()
      ensures r == LogoutResponse
      ensures RefreshCookie(req).None? ==> authService.refreshTokens == old(authService.refreshTokens)
      ensures RefreshCookie(req).Some? ==>
                var t := RefreshCookie(req).value;
                var after := AfterValidation(old(authService.refreshTokens), t, now);
                var u := ValidatedUser(old(authService.refreshTokens), usersService.users, t, now);
                authService.refreshTokens == if u.Some? then Revoked(after, u.value.userId) else after
    {
      var t := RefreshCookie(req);
      if t.Some? {
        var user := authService.ValidateRefreshToken(t.value, now);
        if user.Some? {
          authService.RevokeRefreshTokens(user.value.userId);
        }
      }
      r := LogoutResponse;
    }
  }

  /**
   * A refresh at `now` followed by a second refresh with the same cookie at `laterNow`, whatever
   * that moment is: the second answers 401 when the tokens in the table were distinct and the reissued
   * token differs from the old one.
   */
  method RefreshTwice(c: AuthController, req: Request, bytes: seq<bv8>, nextBytes: seq<bv8>, now: int, laterNow: int,
                      sign: JwtPayload -> string)
    returns (first: Response, second: Response)
    requires c.Valid() && |bytes| == RefreshTokenBytes && |nextBytes| == RefreshTokenBytes
    requires DistinctTokens(c.authService.refreshTokens)
    requires RefreshCookie(req).Some? && RefreshTokenOf(bytes) != RefreshCookie(req).value
    modifies c.authService
    ensures first.status == Ok ==> second.status == Unauthorized
  {
    ghost var records := c.authService.refreshTokens;
    ghost var id := c.authService.nextTokenId;
    var t := RefreshCookie(req).value;
    first := c.Refresh(req, bytes, now, sign);
    if first.status == Ok {
      SecondRefreshRefused(records, id, c.usersService.users, t, RefreshTokenOf(bytes), now, laterNow);
    }
    second := c.Refresh(req, nextBytes, laterNow, sign);
  }
}
