/** The user service: thin delegation to the user repository. Reads go
    straight through; deletes and updates first look the user up by public
    id and then act on the internal id the lookup found. Each repository
    call's answer is an oracle, and every operation reports the repository
    calls it made, in order. */
module UserService {
  import opened Common
  import opened UserTypes

  /** A call on the user repository. */
  datatype RepoCall =
    | GetUserByPublicId(publicId: Uuid)
    | SoftDelete(id: int)
    | Update(id: int, params: UpdateUserRequest)
    | Create(req: CreateUserRequest)
  {
    predicate IsWrite() { !GetUserByPublicId? }
  }

  /** The repository's answers. */
  datatype UserRepo = UserRepo(
    getUserByPublicId: Uuid -> Result<UserRecord>,
    softDeleteUser: int -> Option<Error>,
    updateUser: (int, UpdateUserRequest) -> Option<Error>,
    createUser: CreateUserRequest -> Option<Error>)

  /** The discipline of the lookup-then-act operations: the first call is
      the lookup of `publicId`; a write happens only when that lookup found
      a user, and then it is the single call after the lookup and targets
      the internal id of the user found. */
  ghost predicate WritesFoundUser(repo: UserRepo, publicId: Uuid, calls: seq<RepoCall>)
  {
    && 1 <= |calls| <= 2
    && calls[0] == GetUserByPublicId(publicId)
    && (|calls| == 2 <==> repo.getUserByPublicId(publicId).Ok?)
    && (|calls| == 2 ==>
          && (calls[1].SoftDelete? || calls[1].Update?)
          && calls[1].id == repo.getUserByPublicId(publicId).value.id)
  }

  /** `GetUserByPublicID`: one lookup, whose user or error is returned
      unchanged. */
  function GetUserByPublicID(repo: UserRepo, publicId: Uuid): (r: Run<Result<UserRecord>, RepoCall>)
    ensures r.calls == [GetUserByPublicId(publicId)]
    ensures r.result == repo.getUserByPublicId(publicId)
  {
    Run(repo.getUserByPublicId(publicId), [GetUserByPublicId(publicId)])
  }

  /** `SoftDeleteUser`: a failed lookup's error is returned and nothing is
      deleted; otherwise the user found is deleted by its internal id and
      the delete's error, if any, is returned unchanged. */
  function SoftDeleteUser(repo: UserRepo, publicId: Uuid): (r: Run<Option<Error>, RepoCall>)
    ensures WritesFoundUser(repo, publicId, r.calls)
    ensures forall c :: c in r.calls && c.IsWrite() ==> c.SoftDelete?
    ensures repo.getUserByPublicId(publicId).Err? ==> r.result == Some(repo.getUserByPublicId(publicId).error)
    ensures repo.getUserByPublicId(publicId).Ok? ==>
      r.result == repo.softDeleteUser(repo.getUserByPublicId(publicId).value.id)
  {
    match repo.getUserByPublicId(publicId)
    case Err(e) => Run(Some(e), [GetUserByPublicId(publicId)])
    case Ok(user) =>
      Run(repo.softDeleteUser(user.id), [GetUserByPublicId(publicId), SoftDelete(user.id)])
  }

  /** `UpdateUser`: the same lookup-then-act shape, passing the update
      parameters through unchanged. */
  function UpdateUser(repo: UserRepo, publicId: Uuid, params: UpdateUserRequest): (r: Run<Option<Error>, RepoCall>)
    ensures WritesFoundUser(repo, publicId, r.calls)
    ensures forall c :: c in r.calls && c.IsWrite() ==> c.Update? && c.params == params
    ensures repo.getUserByPublicId(publicId).Err? ==> r.result == Some(repo.getUserByPublicId(publicId).error)
    ensures repo.getUserByPublicId(publicId).Ok? ==>
      r.result == repo.updateUser(repo.getUserByPublicId(publicId).value.id, params)
  {
    match repo.getUserByPublicId(publicId)
    case Err(e) => Run(Some(e), [GetUserByPublicId(publicId)])
    case Ok(user) =>
      Run(repo.updateUser(user.id, params), [GetUserByPublicId(publicId), Update(user.id, params)])
  }

  /** `CreateUser`: the request is forwarded unchanged, with no lookup, and
      the repository's error is returned. */
  function CreateUser(repo: UserRepo, req: CreateUserRequest): (r: Run<Option<Error>, RepoCall>)
    ensures r.calls == [Create(req)]
    ensures r.result == repo.createUser(req)
  {
    Run(repo.createUser(req), [Create(req)])
  }

  /** The interface the handlers see: the operations' results without the
      call record. */
  datatype UserServiceApi = UserServiceApi(
    getUserByPublicId: Uuid -> Result<UserRecord>,
    softDeleteUser: Uuid -> Option<Error>,
    updateUser: (Uuid, UpdateUserRequest) -> Option<Error>,
    createUser: CreateUserRequest -> Option<Error>)

  /** The service built on a repository. */
  function Service(repo: UserRepo): UserServiceApi
  {
    UserServiceApi(
      publicId => GetUserByPublicID(repo, publicId).result,
      publicId => SoftDeleteUser(repo, publicId).result,
      (publicId, params) => UpdateUser(repo, publicId, params).result,
      req => CreateUser(repo, req).result)
  }

  /** A user the lookup cannot find is neither deleted nor updated, and the
      caller sees the lookup's error: `UserNotFound` stays `UserNotFound`. */
  lemma MissingUserIsNeverWritten(repo: UserRepo, publicId: Uuid, params: UpdateUserRequest)
    requires repo.getUserByPublicId(publicId) == Err(UserNotFound)
    ensures SoftDeleteUser(repo, publicId) == Run(Some(UserNotFound), [GetUserByPublicId(publicId)])
    ensures UpdateUser(repo, publicId, params) == Run(Some(UserNotFound), [GetUserByPublicId(publicId)])
  {
  }
}
