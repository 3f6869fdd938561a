/** Values shared by every part of the model: Go's `error` results, the
    sentinel errors the handlers compare by identity, and the shapes that the
    struct validator reports. */
module Common {

  /** A Go value that may be nil. */
  datatype Option<+T> = None | Some(value: T)

  /** A Go `(T, error)` pair where exactly one side is meaningful. */
  datatype Result<+T> = Ok(value: T) | Err(error: Error)

  /** What an operation returns, with the calls it made on the store
      behind it, in order. */
  datatype Run<T, C> = Run(result: T, calls: seq<C>)

  /** A UUID, represented by its canonical text form. */
  type Uuid = string

  /** The error values of the repository. The sentinels are distinct values
      (Go compares them by identity); `Other` is any error that the core only
      passes on, such as a database or signing failure. */
  datatype Error =
    | UserNotFound
    | UserCreationFailed
    | MatchDataUser
    | BodyTooLarge
    | JsonDecode
    | ProductNotFound
    | NoRows
    | Other(text: string)

  /** `err.Error()` */
  function Text(e: Error): string
  {
    match e
    case UserNotFound => "user not found"
    case UserCreationFailed => "failed to create user"
    case MatchDataUser => "email or password incorrect"
    case BodyTooLarge => "request body too large"
    case JsonDecode => "failed to decode json body"
    case ProductNotFound => "product not found"
    case NoRows => "sql: no rows in result set"
    case Other(t) => t
  }

  /** One failed rule reported by the struct validator: the struct field's
      name and the tag that failed. */
  datatype FieldError = FieldError(field: string, tag: string)

  /** What `validate.Struct` returns when it fails: either the list of field
      failures, or an error of another kind. */
  datatype ValidateError =
    | ValidationErrors(failures: seq<FieldError>)
    | InvalidValidation
}
