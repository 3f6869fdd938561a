/** Login: one lookup of the stored user by email, then one comparison of
    the stored password hash with the given password. The user store and the
    hash comparison (bcrypt) are oracles. */
module AuthService {
  import opened Common
  import opened UserTypes

  datatype LoginRequest = LoginRequest(email: string, password: string)

  /** The `(GetUserResponse, error)` pair that `Login` returns. */
  datatype LoginReply = LoginReply(user: UserRecord, err: Option<Error>)

  /** `authService.Login`. It succeeds exactly when the store finds a user
      for the request's email and the password matches that user's hash, and
      then returns the stored user unchanged. A lookup error is returned as
      it is; any failed comparison becomes `MatchDataUser`. Every failure
      comes with the zero-value user. */
  function Login(
    req: LoginRequest,
    getUserByEmail: string -> Result<UserRecord>,
    matches: (string, string) -> bool): (r: LoginReply)
    ensures r.err == None <==>
      getUserByEmail(req.email).Ok? && matches(getUserByEmail(req.email).value.passwordHash, req.password)
    ensures r.err == None ==> r.user == getUserByEmail(req.email).value
    ensures r.err != None ==> r.user == ZeroUser
    ensures getUserByEmail(req.email).Err? ==> r.err == Some(getUserByEmail(req.email).error)
    ensures getUserByEmail(req.email).Ok? && r.err != None ==> r.err == Some(MatchDataUser)
  {
    match getUserByEmail(req.email)
    case Err(e) => LoginReply(ZeroUser, Some(e))
    case Ok(user) =>
      if !matches(user.passwordHash, req.password) then LoginReply(ZeroUser, Some(MatchDataUser))
      else LoginReply(user, None)
  }

  /** A store that files every user under that user's own email. */
  ghost predicate KeyedByEmail(getUserByEmail: string -> Result<UserRecord>)
  {
    forall e :: getUserByEmail(e).Ok? ==> getUserByEmail(e).value.email == e
  }

  /** With a store keyed by email, a successful login returns the user whose
      email is the one requested. */
  lemma LoginReturnsRequestedUser(
    req: LoginRequest, getUserByEmail: string -> Result<UserRecord>, matches: (string, string) -> bool)
    requires KeyedByEmail(getUserByEmail)
    ensures Login(req, getUserByEmail, matches).err == None ==>
      Login(req, getUserByEmail, matches).user.email == req.email
  {
  }

  /** The store is consulted only at the request's email: two stores that
      agree there give the same reply. */
  lemma LoginLooksUpOnlyRequestEmail(
    req: LoginRequest,
    getUserByEmail1: string -> Result<UserRecord>, getUserByEmail2: string -> Result<UserRecord>,
    matches: (string, string) -> bool)
    requires getUserByEmail1(req.email) == getUserByEmail2(req.email)
    ensures Login(req, getUserByEmail1, matches) == Login(req, getUserByEmail2, matches)
  {
  }

  /** When the lookup fails no password comparison is made: the reply does
      not depend on the comparison. */
  lemma LookupErrorSkipsComparison(
    req: LoginRequest, getUserByEmail: string -> Result<UserRecord>,
    matches1: (string, string) -> bool, matches2: (string, string) -> bool)
    requires getUserByEmail(req.email).Err?
    ensures Login(req, getUserByEmail, matches1) == Login(req, getUserByEmail, matches2)
  {
  }
}
