/** The protected user routes: the authentication gate followed by a user
    handler. The gate, as written, records the user id with `c.Set`, which
    sets a response header, while the handlers read the request-scoped value
    `c.Locals("user_id")`; so a request that passes the gate still reaches
    the handler without an authenticated user. This module composes the two
    as written and as evidently intended. The effect shows once the user
    router (internal/fiber/v1/user/router.go) is mounted; the server in
    internal/fiber/server.go mounts only the product routes. */
module ProtectedRoutes {
  import opened Common
  import opened Http
  import opened Middleware
  import opened UserService
  import opened UserHandler
  import opened Request
  import opened UserTypes

  /** The context of a request that has just arrived: no request-scoped
      values and no response headers. */
  const FreshCtx := Ctx(map[], map[])

  /** Run the gate (as written or fixed) and, if it lets the request
      through, the handler on the request-scoped values the gate left. */
  function Route(h: Handled, handler: map<string, string> -> Response): Response
  {
    match h
    case Reject(resp) => resp
    case Next(ctx) => handler(ctx.locals)
  }

  /** `GET /v1/user` as written, on the chain the user router builds (the
      server in internal/fiber/server.go does not mount that router). */
  function GetMeAsWritten<Token>(
    header: string, parse: string -> Result<Token>, tokenType: Token -> Result<string>,
    subject: Token -> Result<string>, parseUuid: string -> Option<Uuid>, svc: UserServiceApi): (r: Response)
    ensures r == Respond(StatusUnauthorized,
      ErrorText(if Gate(header, parse, tokenType, subject).Authenticated? then "user not authenticated"
                else RejectMessage(Gate(header, parse, tokenType, subject))))
  {
    Route(AuthMiddleware(FreshCtx, header, parse, tokenType, subject),
          locals => GetUserByPublicIDHandler(locals, parseUuid, svc))
  }

  /** `GET /v1/user` with the user id stored where the handler reads it, on
      the same unmounted chain. */
  function GetMeFixed<Token>(
    header: string, parse: string -> Result<Token>, tokenType: Token -> Result<string>,
    subject: Token -> Result<string>, parseUuid: string -> Option<Uuid>, svc: UserServiceApi): (r: Response)
    ensures !Gate(header, parse, tokenType, subject).Authenticated? ==>
      r == Respond(StatusUnauthorized, ErrorText(RejectMessage(Gate(header, parse, tokenType, subject))))
    ensures Gate(header, parse, tokenType, subject).Authenticated? ==>
      r == GetUserByPublicIDHandler(map[UserIdKey := Gate(header, parse, tokenType, subject).userId], parseUuid, svc)
  {
    Route(AuthMiddlewareFixed(FreshCtx, header, parse, tokenType, subject),
          locals => GetUserByPublicIDHandler(locals, parseUuid, svc))
  }

  /** As written, the three routes that read the user id (get, update and
      delete) answer 401 to every request, whatever the header, the token
      oracles and the service say: either the gate rejects, or the handler
      finds no authenticated user. */
  lemma AsWrittenAlwaysUnauthorized<Token>(
    header: string, parse: string -> Result<Token>, tokenType: Token -> Result<string>,
    subject: Token -> Result<string>, parseUuid: string -> Option<Uuid>, svc: UserServiceApi,
    body: seq<Byte>, decode: seq<Byte> -> Option<UpdateUserRequest>, isEmail: string -> bool)
    ensures GetMeAsWritten(header, parse, tokenType, subject, parseUuid, svc).status == StatusUnauthorized
    ensures Route(AuthMiddleware(FreshCtx, header, parse, tokenType, subject),
                  locals => UpdateUserHandler(locals, parseUuid, body, decode, isEmail, svc)).status
            == StatusUnauthorized
    ensures Route(AuthMiddleware(FreshCtx, header, parse, tokenType, subject),
                  locals => DeleteUserHandler(locals, parseUuid, svc)).status
            == StatusUnauthorized
  {
    var h := AuthMiddleware(FreshCtx, header, parse, tokenType, subject);
    if h.Next? {
      assert UserIdKey !in h.ctx.locals;
    }
  }

  /** A concrete request that shows it: a token the oracles accept, naming a
      user the service finds, still gets "user not authenticated". */
  lemma AsWrittenRejectsValidToken(user: UserRecord)
    ensures var parse := (t: string) => Ok(t);
      var tokenType := (t: string) => Ok("access");
      var subject := (t: string) => Ok(t);
      var svc := UserServiceApi(id => Ok(user), id => None, (id, p) => None, req => None);
      && Gate("Bearer 0a1b", parse, tokenType, subject) == Authenticated("0a1b")
      && GetMeAsWritten("Bearer 0a1b", parse, tokenType, subject, s => Some(s), svc)
         == Respond(StatusUnauthorized, ErrorText("user not authenticated"))
  {
    var parse := (t: string) => Ok(t);
    var tokenType := (t: string) => Ok("access");
    var subject := (t: string) => Ok(t);
    assert BearerPrefix <= "Bearer 0a1b";
    assert TokenOf("Bearer 0a1b") == "0a1b";
  }

  /** With the fix, a request whose token passes the gate and whose subject
      is a UUID naming an existing user is answered 200 with that user. */
  lemma FixedServesAuthenticatedUser<Token>(
    header: string, parse: string -> Result<Token>, tokenType: Token -> Result<string>,
    subject: Token -> Result<string>, parseUuid: string -> Option<Uuid>, svc: UserServiceApi)
    requires Gate(header, parse, tokenType, subject).Authenticated?
    requires parseUuid(Gate(header, parse, tokenType, subject).userId).Some?
    requires svc.getUserByPublicId(parseUuid(Gate(header, parse, tokenType, subject).userId).value).Ok?
    ensures GetMeFixed(header, parse, tokenType, subject, parseUuid, svc)
         == Respond(StatusOK, UserLoaded("user loaded successfully",
              svc.getUserByPublicId(parseUuid(Gate(header, parse, tokenType, subject).userId).value).value))
  {
    var u := Gate(header, parse, tokenType, subject).userId;
    var locals := map[UserIdKey := u];
    assert AuthenticatedId(locals, parseUuid) == Proceed(parseUuid(u).value);
  }

  /** The same concrete request as in `AsWrittenRejectsValidToken` is
      served with the fix. */
  lemma FixedAcceptsValidToken(user: UserRecord)
    ensures var parse := (t: string) => Ok(t);
      var tokenType := (t: string) => Ok("access");
      var subject := (t: string) => Ok(t);
      var svc := UserServiceApi(id => Ok(user), id => None, (id, p) => None, req => None);
      GetMeFixed("Bearer 0a1b", parse, tokenType, subject, s => Some(s), svc)
      == Respond(StatusOK, UserLoaded("user loaded successfully", user))
  {
    var parse := (t: string) => Ok(t);
    var tokenType := (t: string) => Ok("access");
    var subject := (t: string) => Ok(t);
    var svc := UserServiceApi(id => Ok(user), id => None, (id, p) => None, req => None);
    assert BearerPrefix <= "Bearer 0a1b";
    assert TokenOf("Bearer 0a1b") == "0a1b";
    FixedServesAuthenticatedUser("Bearer 0a1b", parse, tokenType, subject, s => Some(s), svc);
  }

  /** User creation is registered behind the same gate. It does not read
      the request-scoped user id, so the misplaced id does not affect it:
      without a token that passes the gate the request is a 401 with the
      gate's message, and with one it is answered by the handler. */
  lemma CreateRouteNeedsToken<Token>(
    header: string, parse: string -> Result<Token>, tokenType: Token -> Result<string>,
    subject: Token -> Result<string>, body: seq<Byte>, decode: seq<Byte> -> Option<CreateUserRequest>,
    isEmail: string -> bool, svc: UserServiceApi)
    ensures var r := Route(AuthMiddleware(FreshCtx, header, parse, tokenType, subject),
                           locals => CreateUserHandler(body, decode, isEmail, svc));
      && (!Gate(header, parse, tokenType, subject).Authenticated? ==>
            r == Respond(StatusUnauthorized, ErrorText(RejectMessage(Gate(header, parse, tokenType, subject)))))
      && (Gate(header, parse, tokenType, subject).Authenticated? ==>
            r == CreateUserHandler(body, decode, isEmail, svc))
  {
  }
}
