/** The user endpoints. Each handler is a chain of guards that ends in a
    status code: the authenticated user id is read from the request-scoped
    values under "user_id", checked to be a UUID (an oracle `parseUuid`),
    and handed to the user service; request bodies are read under the size
    limit, decoded (an oracle) and validated by the request rules. */
module UserHandler {
  import opened Common
  import opened UserTypes
  import opened Http
  import opened Request
  import opened UserService

  /** 1 << 20 bytes. */
  const MaxBodySize := 1_048_576

  /** The outcome of the guards before the service call: the value to go on
      with, or the response that ends the request. */
  datatype Guard<T> = Proceed(value: T) | Stop(response: Response)

  /** Read and check the authenticated user id: absent is a 401, not a UUID
      is a 400 "INVALID_USER_ID". */
  function AuthenticatedId(locals: map<string, string>, parseUuid: string -> Option<Uuid>): (g: Guard<Uuid>)
    ensures g.Proceed? <==> "user_id" in locals && parseUuid(locals["user_id"]).Some?
    ensures g.Proceed? ==> g.value == parseUuid(locals["user_id"]).value
    ensures "user_id" !in locals ==> g == Stop(Respond(StatusUnauthorized, ErrorText("user not authenticated")))
    ensures "user_id" in locals && parseUuid(locals["user_id"]).None? ==>
      g == Stop(Respond(StatusBadRequest, ErrorText("INVALID_USER_ID")))
  {
    if "user_id" !in locals then Stop(Respond(StatusUnauthorized, ErrorText("user not authenticated")))
    else match parseUuid(locals["user_id"])
      case None => Stop(Respond(StatusBadRequest, ErrorText("INVALID_USER_ID")))
      case Some(id) => Proceed(id)
  }

  /** How a service error of the get, update and delete handlers reaches the
      client: a missing user is a 400, anything else a 500. */
  function ServiceErrorResponse(e: Error): (r: Response)
    ensures r.Respond? && r.body.ErrorText?
    ensures e == UserNotFound <==> r.status == StatusBadRequest
    ensures e == UserNotFound ==> r.body.error == "USER_NOT_FOUND"
    ensures e != UserNotFound ==> r == Respond(StatusInternalServerError, ErrorText("INTERNAL_ERROR"))
  {
    if e == UserNotFound then Respond(StatusBadRequest, ErrorText("USER_NOT_FOUND"))
    else Respond(StatusInternalServerError, ErrorText("INTERNAL_ERROR"))
  }

  /** Read, size-check and decode a body; any failure is a 400 carrying the
      error's text. */
  function ReadBody<T>(body: seq<Byte>, decode: seq<Byte> -> Option<T>): (g: Guard<T>)
    ensures g.Proceed? <==> LimitBodyJSON(body, MaxBodySize, decode).Ok?
    ensures g.Proceed? ==> g.value == decode(body).value
    ensures g.Stop? ==> g.response == Respond(StatusBadRequest, ErrorText(Text(LimitBodyJSON(body, MaxBodySize, decode).error)))
  {
    match LimitBodyJSON(body, MaxBodySize, decode)
    case Err(e) => Stop(Respond(StatusBadRequest, ErrorText(Text(e))))
    case Ok(v) => Proceed(v)
  }

  /** `GetUserByPublicIDHandler`: 200 with the user exactly when the id is
      present, is a UUID and the service finds the user. */
  function GetUserByPublicIDHandler(
    locals: map<string, string>, parseUuid: string -> Option<Uuid>, svc: UserServiceApi): (r: Response)
    ensures r.Respond?
    ensures AuthenticatedId(locals, parseUuid).Stop? ==> r == AuthenticatedId(locals, parseUuid).response
    ensures r.status == StatusOK <==>
      AuthenticatedId(locals, parseUuid).Proceed?
      && svc.getUserByPublicId(AuthenticatedId(locals, parseUuid).value).Ok?
    ensures r.status == StatusOK ==>
      r.body == UserLoaded("user loaded successfully",
                           svc.getUserByPublicId(AuthenticatedId(locals, parseUuid).value).value)
    ensures AuthenticatedId(locals, parseUuid).Proceed?
            && svc.getUserByPublicId(AuthenticatedId(locals, parseUuid).value).Err? ==>
      r == ServiceErrorResponse(svc.getUserByPublicId(AuthenticatedId(locals, parseUuid).value).error)
  {
    match AuthenticatedId(locals, parseUuid)
    case Stop(resp) => resp
    case Proceed(id) =>
      match svc.getUserByPublicId(id)
      case Err(e) => ServiceErrorResponse(e)
      case Ok(user) => Respond(StatusOK, UserLoaded("user loaded successfully", user))
  }

  /** `CreateUserHandler`: a body or validation failure is a 400 and the
      service is not called; any service error is a 500; success is 201. */
  function CreateUserHandler(
    body: seq<Byte>, decode: seq<Byte> -> Option<CreateUserRequest>,
    isEmail: string -> bool, svc: UserServiceApi): (r: Response)
    ensures r.Respond? && r.status in {StatusCreated, StatusBadRequest, StatusInternalServerError}
    ensures ReadBody(body, decode).Stop? ==> r == ReadBody(body, decode).response
    ensures ReadBody(body, decode).Proceed? && !CreateUserValid(ReadBody(body, decode).value, isEmail) ==>
      r == Respond(StatusBadRequest, ErrorValidation(ValidateCreateUser(ReadBody(body, decode).value, isEmail)))
    ensures r.status == StatusCreated <==>
      ReadBody(body, decode).Proceed? && CreateUserValid(ReadBody(body, decode).value, isEmail)
      && svc.createUser(ReadBody(body, decode).value).None?
    ensures r.status == StatusInternalServerError ==> r.body == ErrorText("INTERNAL_ERROR")
    ensures r.status == StatusCreated ==> r.body == Message("user created successfully")
    ensures ReadBody(body, decode).Proceed? && CreateUserValid(ReadBody(body, decode).value, isEmail)
            && svc.createUser(ReadBody(body, decode).value).Some? ==>
      r == Respond(StatusInternalServerError, ErrorText("INTERNAL_ERROR"))
  {
    match ReadBody(body, decode)
    case Stop(resp) => resp
    case Proceed(req) =>
      var failures := ValidateCreateUser(req, isEmail);
      if failures != [] then Respond(StatusBadRequest, ErrorValidation(failures))
      else if svc.createUser(req).Some? then Respond(StatusInternalServerError, ErrorText("INTERNAL_ERROR"))
      else Respond(StatusCreated, Message("user created successfully"))
  }

  /** `UpdateUserHandler`: the guards run in the order authentication, UUID,
      body, validation, service; success is 200. */
  function UpdateUserHandler(
    locals: map<string, string>, parseUuid: string -> Option<Uuid>,
    body: seq<Byte>, decode: seq<Byte> -> Option<UpdateUserRequest>,
    isEmail: string -> bool, svc: UserServiceApi): (r: Response)
    ensures r.Respond?
    ensures AuthenticatedId(locals, parseUuid).Stop? ==> r == AuthenticatedId(locals, parseUuid).response
    ensures AuthenticatedId(locals, parseUuid).Proceed? && ReadBody(body, decode).Stop? ==>
      r == ReadBody(body, decode).response
    ensures AuthenticatedId(locals, parseUuid).Proceed? && ReadBody(body, decode).Proceed?
            && !UpdateUserValid(ReadBody(body, decode).value, isEmail) ==>
      r == Respond(StatusBadRequest, ErrorValidation(ValidateUpdateUser(ReadBody(body, decode).value, isEmail)))
    ensures r.status == StatusOK <==>
      AuthenticatedId(locals, parseUuid).Proceed? && ReadBody(body, decode).Proceed?
      && UpdateUserValid(ReadBody(body, decode).value, isEmail)
      && svc.updateUser(AuthenticatedId(locals, parseUuid).value, ReadBody(body, decode).value).None?
    ensures r.status == StatusOK ==> r.body == Message("user updated successfully")
    ensures AuthenticatedId(locals, parseUuid).Proceed? && ReadBody(body, decode).Proceed?
            && UpdateUserValid(ReadBody(body, decode).value, isEmail)
            && svc.updateUser(AuthenticatedId(locals, parseUuid).value, ReadBody(body, decode).value).Some? ==>
      r == ServiceErrorResponse(svc.updateUser(AuthenticatedId(locals, parseUuid).value, ReadBody(body, decode).value).value)
  {
    match AuthenticatedId(locals, parseUuid)
    case Stop(resp) => resp
    case Proceed(id) =>
      match ReadBody(body, decode)
      case Stop(resp) => resp
      case Proceed(req) =>
        var failures := ValidateUpdateUser(req, isEmail);
        if failures != [] then Respond(StatusBadRequest, ErrorValidation(failures))
        else match svc.updateUser(id, req)
          case Some(e) => ServiceErrorResponse(e)
          case None => Respond(StatusOK, Message("user updated successfully"))
  }

  /** `DeleteUserHandler`: authentication, UUID, then the service; success
      is 200. */
  function DeleteUserHandler(
    locals: map<string, string>, parseUuid: string -> Option<Uuid>, svc: UserServiceApi): (r: Response)
    ensures r.Respond?
    ensures AuthenticatedId(locals, parseUuid).Stop? ==> r == AuthenticatedId(locals, parseUuid).response
    ensures r.status == StatusOK <==>
      AuthenticatedId(locals, parseUuid).Proceed?
      && svc.softDeleteUser(AuthenticatedId(locals, parseUuid).value).None?
    ensures r.status == StatusOK ==> r.body == Message("user successfully deleted")
    ensures AuthenticatedId(locals, parseUuid).Proceed?
            && svc.softDeleteUser(AuthenticatedId(locals, parseUuid).value).Some? ==>
      r == ServiceErrorResponse(svc.softDeleteUser(AuthenticatedId(locals, parseUuid).value).value)
  {
    match AuthenticatedId(locals, parseUuid)
    case Stop(resp) => resp
    case Proceed(id) =>
      match svc.softDeleteUser(id)
      case Some(e) => ServiceErrorResponse(e)
      case None => Respond(StatusOK, Message("user successfully deleted"))
  }

  /** A request without an authenticated user id, or with one that is not a
      UUID, is answered before the service is called: the handlers' answers
      do not depend on the service. */
  lemma GuardsStopBeforeService(
    locals: map<string, string>, parseUuid: string -> Option<Uuid>,
    body: seq<Byte>, decode: seq<Byte> -> Option<UpdateUserRequest>, isEmail: string -> bool,
    svc1: UserServiceApi, svc2: UserServiceApi)
    requires "user_id" !in locals || parseUuid(locals["user_id"]).None?
    ensures GetUserByPublicIDHandler(locals, parseUuid, svc1) == GetUserByPublicIDHandler(locals, parseUuid, svc2)
    ensures UpdateUserHandler(locals, parseUuid, body, decode, isEmail, svc1)
         == UpdateUserHandler(locals, parseUuid, body, decode, isEmail, svc2)
    ensures DeleteUserHandler(locals, parseUuid, svc1) == DeleteUserHandler(locals, parseUuid, svc2)
  {
  }

  /** An update with an id that is not a UUID and no body is a 400 about
      the id: the UUID guard runs before the body is read. */
  lemma UpdateChecksIdBeforeBody(
    locals: map<string, string>, parseUuid: string -> Option<Uuid>,
    decode: seq<Byte> -> Option<UpdateUserRequest>, isEmail: string -> bool, svc: UserServiceApi)
    requires "user_id" in locals && parseUuid(locals["user_id"]).None?
    ensures UpdateUserHandler(locals, parseUuid, [], decode, isEmail, svc)
         == Respond(StatusBadRequest, ErrorText("INVALID_USER_ID"))
  {
  }

  /** A creation request that fails the rules never reaches the service. */
  lemma InvalidCreateSkipsService(
    body: seq<Byte>, decode: seq<Byte> -> Option<CreateUserRequest>, isEmail: string -> bool,
    svc1: UserServiceApi, svc2: UserServiceApi)
    requires ReadBody(body, decode).Proceed? && !CreateUserValid(ReadBody(body, decode).value, isEmail)
    ensures CreateUserHandler(body, decode, isEmail, svc1) == CreateUserHandler(body, decode, isEmail, svc2)
    ensures CreateUserHandler(body, decode, isEmail, svc1).status == StatusBadRequest
  {
  }
}
