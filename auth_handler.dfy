/** The login endpoint: read the body, validate it, log in, issue a token,
    and map each outcome to a status code. The login request's validation
    rules are not part of this model: `validate.Struct` on the login request
    is an oracle `validate`. */
module AuthHandler {
  import opened Common
  import opened UserTypes
  import opened Http
  import opened Request
  import opened AuthErrors
  import opened AuthService
  import Jwt

  /** 1 << 20 bytes. */
  const MaxBodySize := 1_048_576

  /** How a login error reaches the client: the two credential errors are a
      401 carrying the error's own text, anything else a 500 with a fixed
      message. */
  function LoginErrorResponse(e: Error): (r: Response)
    ensures r.Respond?
    ensures r.status == StatusUnauthorized <==> e == MatchDataUser || e == UserNotFound
    ensures r.status == StatusUnauthorized ==> r.body == ErrorText(Text(e))
    ensures r.status != StatusUnauthorized ==>
      r == Respond(StatusInternalServerError, ErrorText("failed to login user"))
  {
    match e
    case MatchDataUser => Respond(StatusUnauthorized, ErrorText(Text(e)))
    case UserNotFound => Respond(StatusUnauthorized, ErrorText(Text(e)))
    case _ => Respond(StatusInternalServerError, ErrorText("failed to login user"))
  }

  /** `AuthLoginHandler`. A body error is handed back to the framework
      unanswered; a validation failure is a 400 with the field map and the
      service is not called; login errors map through `LoginErrorResponse`;
      a successful login gets a token for the user's public id, and the
      answer is 200 with that token or 500 if issuing fails. */
  function AuthLoginHandler(
    body: seq<Byte>,
    decode: seq<Byte> -> Option<LoginRequest>,
    validate: LoginRequest -> Option<ValidateError>,
    login: LoginRequest -> LoginReply,
    createToken: string -> Result<string>): (r: Response)
    ensures var b := LimitBodyJSON(body, MaxBodySize, decode);
      && (b.Err? <==> r.Returned?)
      && (b.Err? ==> r.err == b.error)
      && (b.Ok? && validate(b.value).Some? ==>
            r == Respond(StatusBadRequest, ErrorFields(ValidationMessages(validate(b.value).value))))
      && (b.Ok? && validate(b.value).None? && login(b.value).err.Some? ==>
            r == LoginErrorResponse(login(b.value).err.value))
      && (r.Respond? && r.status == StatusOK <==>
            b.Ok? && validate(b.value).None? && login(b.value).err.None?
            && createToken(login(b.value).user.publicId).Ok?)
      && (r.Respond? && r.status == StatusOK ==>
            r.body == AccessToken(createToken(login(b.value).user.publicId).value))
      && (b.Ok? && validate(b.value).None? && login(b.value).err.None?
          && createToken(login(b.value).user.publicId).Err? ==>
            r == Respond(StatusInternalServerError, ErrorText("failed to create access token")))
      && (r.Respond? ==> r.status in {StatusOK, StatusBadRequest, StatusUnauthorized, StatusInternalServerError})
  {
    match LimitBodyJSON(body, MaxBodySize, decode)
    case Err(e) => Returned(e)
    case Ok(req) =>
      match validate(req)
      case Some(verr) => Respond(StatusBadRequest, ErrorFields(ValidationMessages(verr)))
      case None =>
        var reply := login(req);
        match reply.err
        case Some(e) => LoginErrorResponse(e)
        case None =>
          match createToken(reply.user.publicId)
          case Err(_) => Respond(StatusInternalServerError, ErrorText("failed to create access token"))
          case Ok(access) => Respond(StatusOK, AccessToken(access))
  }

  /** A request that fails validation never reaches the login service. */
  lemma ValidationFailureSkipsLogin(
    body: seq<Byte>, decode: seq<Byte> -> Option<LoginRequest>,
    validate: LoginRequest -> Option<ValidateError>,
    login1: LoginRequest -> LoginReply, login2: LoginRequest -> LoginReply,
    createToken: string -> Result<string>)
    requires LimitBodyJSON(body, MaxBodySize, decode).Ok?
    requires validate(LimitBodyJSON(body, MaxBodySize, decode).value).Some?
    ensures AuthLoginHandler(body, decode, validate, login1, createToken)
         == AuthLoginHandler(body, decode, validate, login2, createToken)
  {
  }

  /** Both credential failures are 401s, but their bodies differ, so a
      client can tell an unknown email from a wrong password. */
  lemma UnauthorizedBodiesDiffer()
    ensures LoginErrorResponse(MatchDataUser).status == LoginErrorResponse(UserNotFound).status == StatusUnauthorized
    ensures LoginErrorResponse(MatchDataUser).body != LoginErrorResponse(UserNotFound).body
  {
    assert Text(MatchDataUser)[0] != Text(UserNotFound)[0];
  }

  /** The whole login flow over a user store, the hash comparison, two clock
      readings and the signer: when the store holds a user for the email,
      the password matches and signing succeeds, the answer is 200 with the
      token signed over the access claims of the user's public id. */
  lemma LoginIssuesTokenForPublicId(
    body: seq<Byte>, decode: seq<Byte> -> Option<LoginRequest>,
    validate: LoginRequest -> Option<ValidateError>,
    getUserByEmail: string -> Result<UserRecord>, matches: (string, string) -> bool,
    firstNow: int, secondNow: int, secret: string,
    sign: (string, Jwt.Claims, string) -> Result<string>)
    requires LimitBodyJSON(body, MaxBodySize, decode).Ok?
    requires var req := LimitBodyJSON(body, MaxBodySize, decode).value;
      && validate(req).None?
      && getUserByEmail(req.email).Ok?
      && matches(getUserByEmail(req.email).value.passwordHash, req.password)
      && sign(Jwt.SigningMethod,
              Jwt.AccessClaims(getUserByEmail(req.email).value.publicId, firstNow, secondNow), secret).Ok?
    ensures var req := LimitBodyJSON(body, MaxBodySize, decode).value;
      var user := getUserByEmail(req.email).value;
      var claims := Jwt.AccessClaims(user.publicId, firstNow, secondNow);
      && claims.userId == user.publicId && claims.tokenType == "access"
      && AuthLoginHandler(body, decode, validate,
           r => Login(r, getUserByEmail, matches),
           id => Jwt.CreateAccessToken(id, firstNow, secondNow, secret, sign))
         == Respond(StatusOK, AccessToken(sign(Jwt.SigningMethod, claims, secret).value))
  {
    var req := LimitBodyJSON(body, MaxBodySize, decode).value;
    var reply := Login(req, getUserByEmail, matches);
    assert reply.err == None && reply.user == getUserByEmail(req.email).value;
  }
}
