/** The request gate in front of the protected routes: it reads the
    `Authorization` header, strips the `Bearer ` scheme, and asks three token
    oracles, in order, whether the token parses, whether its type is
    "access", and which user it names. The token oracles are parameters; the
    gate never inspects the token itself. */
module Middleware {
  import opened Common
  import opened Http

  /** The key under which the gate records the authenticated user. */
  const UserIdKey := "user_id"

  /** The scheme prefix, compared case-sensitively and with its space. */
  const BearerPrefix := "Bearer "

  /** `strings.TrimPrefix`: drop one leading `prefix` if it is there. */
  function TrimPrefix(s: string, prefix: string): (r: string)
    ensures prefix <= s ==> s == prefix + r
    ensures !(prefix <= s) ==> r == s
  {
    if prefix <= s then s[|prefix|..] else s
  }

  /** For the non-empty scheme prefix, trimming leaves the header unchanged
      exactly when the header does not start with the prefix. */
  lemma TrimUnchangedIffNoPrefix(header: string)
    ensures TrimPrefix(header, BearerPrefix) == header <==> !(BearerPrefix <= header)
  {
    if BearerPrefix <= header {
      assert |TrimPrefix(header, BearerPrefix)| == |header| - |BearerPrefix|;
    }
  }

  /** The stage at which the gate stops. */
  datatype GateOutcome =
    | MissingHeader
    | BadFormat
    | InvalidToken
    | WrongType
    | BadClaims
    | Authenticated(userId: string)

  /** The token text: the header without its scheme prefix. */
  function TokenOf(header: string): string
    requires BearerPrefix <= header
  {
    header[|BearerPrefix|..]
  }

  /** The five checks in the order the gate makes them. The gate
      authenticates exactly when the header carries the scheme, the token
      parses, its type claim reads "access" and its subject can be read; the
      identity is that subject. */
  function Gate<Token>(
    header: string,
    parse: string -> Result<Token>,
    tokenType: Token -> Result<string>,
    subject: Token -> Result<string>): (g: GateOutcome)
    ensures g == MissingHeader <==> header == ""
    ensures g == BadFormat <==> header != "" && !(BearerPrefix <= header)
    ensures g == InvalidToken <==> BearerPrefix <= header && parse(TokenOf(header)).Err?
    ensures g == WrongType <==>
      BearerPrefix <= header && parse(TokenOf(header)).Ok?
      && tokenType(parse(TokenOf(header)).value) != Ok("access")
    ensures g.Authenticated? <==>
      BearerPrefix <= header && parse(TokenOf(header)).Ok?
      && tokenType(parse(TokenOf(header)).value) == Ok("access")
      && subject(parse(TokenOf(header)).value).Ok?
    ensures g.Authenticated? ==> g.userId == subject(parse(TokenOf(header)).value).value
  {
    if header == "" then MissingHeader
    else
      var token := TrimPrefix(header, BearerPrefix);
      TrimUnchangedIffNoPrefix(header);
      if token == header then BadFormat
      else match parse(token)
        case Err(_) => InvalidToken
        case Ok(t) =>
          match tokenType(t)
          case Err(_) => WrongType
          case Ok(kind) =>
            if kind != "access" then WrongType
            else match subject(t)
              case Err(_) => BadClaims
              case Ok(userId) => Authenticated(userId)
  }

  /** The fixed message of each rejection. */
  function RejectMessage(g: GateOutcome): string
  {
    match g
    case MissingHeader => "missing Authorization header"
    case BadFormat => "invalid Authorization header format"
    case InvalidToken => "invalid token"
    case WrongType => "invalid token type"
    case BadClaims => "invalid token claims"
    case Authenticated(_) => ""
  }

  /** The parts of the request context the gate can write: the
      request-scoped values (`c.Locals`) and the response headers (`c.Set`). */
  datatype Ctx = Ctx(locals: map<string, string>, responseHeaders: map<string, string>)

  /** A request is either answered by the gate or passed on to the next
      handler with the context the gate leaves behind. */
  datatype Handled = Reject(response: Response) | Next(ctx: Ctx)

  /** The gate as written: every rejection is a terminal 401 with the
      stage's message and leaves no trace; on success the user id is written
      with `c.Set`, which in the web framework sets a response header, and
      the request-scoped values are left as they were. */
  function AuthMiddleware<Token>(
    ctx: Ctx,
    header: string,
    parse: string -> Result<Token>,
    tokenType: Token -> Result<string>,
    subject: Token -> Result<string>): (h: Handled)
    ensures var g := Gate(header, parse, tokenType, subject);
      && (h.Next? <==> g.Authenticated?)
      && (h.Reject? ==> h.response == Respond(StatusUnauthorized, ErrorText(RejectMessage(g))))
      && (h.Next? ==> h.ctx.locals == ctx.locals
                      && h.ctx.responseHeaders == ctx.responseHeaders[UserIdKey := g.userId])
  {
    match Gate(header, parse, tokenType, subject)
    case Authenticated(userId) =>
      Next(ctx.(responseHeaders := ctx.responseHeaders[UserIdKey := userId]))
    case g => Reject(Respond(StatusUnauthorized, ErrorText(RejectMessage(g))))
  }

  /** The gate as evidently intended: the same checks, with the user id
      stored among the request-scoped values that the handlers read. */
  function AuthMiddlewareFixed<Token>(
    ctx: Ctx,
    header: string,
    parse: string -> Result<Token>,
    tokenType: Token -> Result<string>,
    subject: Token -> Result<string>): (h: Handled)
    ensures var g := Gate(header, parse, tokenType, subject);
      && (h.Next? <==> g.Authenticated?)
      && (h.Reject? ==> h.response == Respond(StatusUnauthorized, ErrorText(RejectMessage(g))))
      && (h.Next? ==> h.ctx.responseHeaders == ctx.responseHeaders
                      && h.ctx.locals == ctx.locals[UserIdKey := g.userId])
  {
    match Gate(header, parse, tokenType, subject)
    case Authenticated(userId) => Next(ctx.(locals := ctx.locals[UserIdKey := userId]))
    case g => Reject(Respond(StatusUnauthorized, ErrorText(RejectMessage(g))))
  }

  /** The five rejection messages are pairwise distinct, so a client can
      tell at which stage its request stopped. */
  lemma RejectMessagesDistinct(g1: GateOutcome, g2: GateOutcome)
    requires !g1.Authenticated? && !g2.Authenticated? && g1 != g2
    ensures RejectMessage(g1) != RejectMessage(g2)
  {
    assert |RejectMessage(g1)| != |RejectMessage(g2)|;
  }

  /** An empty header is answered before the token is looked at: the
      outcome does not depend on any of the three token oracles. */
  lemma EmptyHeaderNeverParsed<Token>(
    parse1: string -> Result<Token>, tokenType1: Token -> Result<string>, subject1: Token -> Result<string>,
    parse2: string -> Result<Token>, tokenType2: Token -> Result<string>, subject2: Token -> Result<string>)
    ensures Gate("", parse1, tokenType1, subject1) == Gate("", parse2, tokenType2, subject2) == MissingHeader
  {
  }

  /** A header without the exact, case-sensitive `Bearer ` prefix is
      rejected without parsing: "bearer x" and "Bearer" (no space) both are. */
  lemma SchemeIsCaseSensitive<Token>(
    parse: string -> Result<Token>, tokenType: Token -> Result<string>, subject: Token -> Result<string>)
    ensures Gate("bearer x", parse, tokenType, subject) == BadFormat
    ensures Gate("Bearer", parse, tokenType, subject) == BadFormat
    ensures Gate("Token x", parse, tokenType, subject) == BadFormat
  {
    assert !(BearerPrefix <= "bearer x") by { assert "bearer x"[0] != BearerPrefix[0]; }
    assert !(BearerPrefix <= "Token x") by { assert "Token x"[0] != BearerPrefix[0]; }
  }

  /** The header `Bearer ` alone passes the format check and hands the empty
      string to the parser. */
  lemma BareSchemeParsesEmptyToken<Token>(
    parse: string -> Result<Token>, tokenType: Token -> Result<string>, subject: Token -> Result<string>)
    ensures parse("").Err? ==> Gate("Bearer ", parse, tokenType, subject) == InvalidToken
    ensures parse("").Ok? ==> Gate("Bearer ", parse, tokenType, subject) != BadFormat
  {
    assert TokenOf("Bearer ") == "";
  }

  /** Only the text after the one stripped prefix reaches the parser: two
      parsers that agree on it give the same outcome. In particular
      `Bearer Bearer t` hands `Bearer t` to the parser. */
  lemma ParserSeesHeaderWithoutPrefix<Token>(
    header: string,
    parse1: string -> Result<Token>, parse2: string -> Result<Token>,
    tokenType: Token -> Result<string>, subject: Token -> Result<string>)
    requires BearerPrefix <= header
    requires parse1(header[|BearerPrefix|..]) == parse2(header[|BearerPrefix|..])
    ensures Gate(header, parse1, tokenType, subject) == Gate(header, parse2, tokenType, subject)
  {
  }

  /** A token that does not parse stops the chain: the type and subject
      oracles are not consulted. */
  lemma ParseFailureStopsChain<Token>(
    header: string, parse: string -> Result<Token>,
    tokenType1: Token -> Result<string>, subject1: Token -> Result<string>,
    tokenType2: Token -> Result<string>, subject2: Token -> Result<string>)
    requires BearerPrefix <= header && parse(TokenOf(header)).Err?
    ensures Gate(header, parse, tokenType1, subject1) == Gate(header, parse, tokenType2, subject2) == InvalidToken
  {
  }

  /** A token of the wrong type stops the chain before the subject is read. */
  lemma WrongTypeStopsChain<Token>(
    header: string, parse: string -> Result<Token>, tokenType: Token -> Result<string>,
    subject1: Token -> Result<string>, subject2: Token -> Result<string>)
    requires BearerPrefix <= header && parse(TokenOf(header)).Ok?
    requires tokenType(parse(TokenOf(header)).value) != Ok("access")
    ensures Gate(header, parse, tokenType, subject1) == Gate(header, parse, tokenType, subject2) == WrongType
  {
  }
}
