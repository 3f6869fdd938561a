# prodify core, modelled in Dafny

prodify is a small HTTP service for products and users. It has JWT login,
an authentication gate in front of the user routes, user handlers over a
user service, a password-strength validator, a check of the database
settings, and a product repository over SQL.

This project models that core:

- **Authentication gate.** The `Authorization: Bearer <token>` header is
  checked in five stages, each with its own 401 message. On success the
  gate records the user id.
- **Access tokens.** A token is issued over the claims `user_id`, `exp`,
  `iat` and `type`, signed with HS256.
- **Login.** A store lookup by email, then a password-hash comparison. The
  login endpoint maps each outcome to a status code.
- **User service and handlers.** The guards run in order: authenticated
  id, UUID check, body read under a 1 MiB limit, field validation, then the
  service call. The service looks a user up before it deletes or updates.
- **Password validator.** Characters are classified into six classes, and
  the rejection reasons come in a fixed order.
- **Settings check.** The database settings are checked for the first
  missing one.
- **Product repository.** Sort and pagination are normalised, with 64-bit
  offset arithmetic. "No rows" is mapped to "product not found". Scanning
  keeps row order. Delete and update look the product up first, and update
  stamps the product in place.

Everything outside the process is a function-typed parameter (an
"oracle"): the JWT library, bcrypt, JSON decoding, the UUID and email
checks, the user store and the SQL database. Clock readings are parameters
in nanoseconds. Where the code performs a loop or changes a value in place,
the model does the same: the loop or the change is proved against a
specification function. Everything else is functions and lemmas.

One module per source file:

- `middleware.dfy`, `jwt.dfy`, `auth_service.dfy`, `auth_handler.dfy` and
  `auth_errors.dfy` cover authentication.
- `user_types.dfy`, `user_service.dfy` and `user_handler.dfy` cover users.
- `request.dfy` covers body reading.
- `password_errors.dfy` and `password_validator.dfy` cover passwords.
- `config.dfy` and `product_repository.dfy` cover settings and products.
- `common.dfy` and `http.dfy` hold shared values.
- `protected_routes.dfy` composes the gate with the user handlers.

## Model

| member | source | states |
|---|---|---|
| Middleware.TrimPrefix | internal/fiber/middleware/auth.go:22 | when the header starts with the prefix, it is the prefix followed by the result; otherwise the result is the header unchanged |
| Middleware.TrimUnchangedIffNoPrefix | internal/fiber/middleware/auth.go:22-27 | trimming "Bearer " leaves the header unchanged exactly when the header does not start with "Bearer ", which is the format test the gate uses |
| Middleware.Gate | internal/fiber/middleware/auth.go:15-48 | each of the five rejections happens exactly when its stage fails and the earlier ones pass (empty header, no "Bearer " prefix, unparsable token, type not "access", unreadable subject); the gate authenticates exactly when all pass, and the identity is the token's subject |
| Middleware.AuthMiddleware | internal/fiber/middleware/auth.go:12-53 | as written: a rejection is a 401 with the stage's message; on success the request goes on with the user id written to the response headers (`c.Set`) and the request-scoped values untouched |
| Middleware.AuthMiddlewareFixed | internal/fiber/middleware/auth.go:50-51 | corrected: the same checks and rejections, with the user id written to the request-scoped values under "user_id" and the response headers untouched |
| Middleware.RejectMessagesDistinct | internal/fiber/middleware/auth.go:17-47 | the five rejection messages are pairwise different, so each stage can be told apart |
| Middleware.EmptyHeaderNeverParsed | internal/fiber/middleware/auth.go:15-20 | an empty header is rejected as missing, whatever the token oracles do |
| Middleware.SchemeIsCaseSensitive | internal/fiber/middleware/auth.go:22-27 | "bearer x", "Bearer" without its space, and "Token x" are all rejected as badly formatted |
| Middleware.BareSchemeParsesEmptyToken | internal/fiber/middleware/auth.go:22-34 | the header "Bearer " passes the format check and hands the empty token to the parser |
| Middleware.ParserSeesHeaderWithoutPrefix | internal/fiber/middleware/auth.go:22-29 | only the text after the single stripped prefix reaches the parser |
| Middleware.ParseFailureStopsChain | internal/fiber/middleware/auth.go:29-34 | an unparsable token is rejected without consulting the type or subject oracles |
| Middleware.WrongTypeStopsChain | internal/fiber/middleware/auth.go:36-41 | a token whose type is not "access" is rejected before its subject is read |
| Jwt.AccessClaims | pkg/jwt/jwt.go:12-18 | the claims carry the given user id and the type "access"; `exp` is the first clock reading's Unix second plus 900; `iat` is the second reading's Unix second |
| Jwt.ValidityWindow | pkg/jwt/jwt.go:15-16 | with a clock that does not run backwards, `exp - iat` is at most 15 minutes, and equals it exactly when both readings fall in the same second |
| Jwt.CreateAccessToken | pkg/jwt/jwt.go:11-21 | the token is the HS256 signature of the access claims under the secret; a signing error is returned unchanged |
| Request.LimitBodyJSON | pkg/request/LimitBodyRead.go:15-30 | the body is accepted exactly when it has 1 to `limit` bytes and decodes, and the value is then the decoded one; an empty body is a decode error; "too large" happens exactly for a non-empty body over the limit; every failure is one of the two sentinels |
| Request.EmptyBeforeSize | pkg/request/LimitBodyRead.go:16-23 | the emptiness check comes before the size check: an empty body is a decode error even with a negative limit |
| Request.LimitIsInclusive | pkg/request/LimitBodyRead.go:21-23 | a body of exactly `limit` bytes is not too large; the decoder alone decides |
| AuthErrors.FieldMessages | internal/auth/errors/auth_errors.go:16-24 | the map's keys are among "Email" and "Password", and each key maps to "<field> is required" |
| AuthErrors.FieldMessagesKeys | internal/auth/errors/auth_errors.go:15-24 | a field is a key exactly when it is "Email" or "Password" and some failure concerns it |
| AuthErrors.LoginValidateError | internal/auth/errors/auth_errors.go:12-27 | the loop builds the map of its specification: the field failures, visited in order, or the empty map for any other validation error |
| AuthService.Login | internal/auth/service/auth_service.go:25-36 | login succeeds exactly when the lookup by the request's email finds a user and the password matches that user's hash, and then returns the stored user; a lookup error is returned unchanged; a mismatch is "email or password incorrect"; a failure returns the zero-value user |
| AuthService.LoginReturnsRequestedUser | internal/auth/service/auth_service.go:26-35 | with a store keyed by email, a successful login returns the user with the requested email |
| AuthService.LoginLooksUpOnlyRequestEmail | internal/auth/service/auth_service.go:26 | the store is consulted only at the request's email |
| AuthService.LookupErrorSkipsComparison | internal/auth/service/auth_service.go:26-29 | when the lookup fails, the password comparison does not influence the reply |
| AuthHandler.LoginErrorResponse | internal/fiber/v1/auth/auth_handler.go:47-56 | the answer is 401 exactly for the two credential errors, carrying the error's own text; any other error is a 500 "failed to login user" |
| AuthHandler.AuthLoginHandler | internal/fiber/v1/auth/auth_handler.go:33-67 | a body error goes back to the framework unanswered; a validation failure is a 400 with the field-message map; login errors are mapped as above; the answer is 200 exactly when every step succeeds, and then carries the token for the user's public id; a failed signing is a 500 "failed to create access token"; no other status occurs |
| AuthHandler.ValidationFailureSkipsLogin | internal/fiber/v1/auth/auth_handler.go:40-46 | a request that fails validation never reaches the login service |
| AuthHandler.UnauthorizedBodiesDiffer | internal/fiber/v1/auth/auth_handler.go:48-52 | an unknown email and a wrong password are both 401s, but their bodies differ |
| AuthHandler.LoginIssuesTokenForPublicId | internal/fiber/v1/auth/auth_handler.go:46-66 | end to end over login and token issuance: valid credentials with successful signing give 200 with the HS256 token over the access claims of the user's public id |
| UserTypes.ValidateCreateUser | internal/user/type/user_type.go:5-10 | no failure exactly when the creation request meets its rules; each of Name (3 to 50 characters), Email (non-empty, well formed), Password (non-empty) and IsActive (true) is reported exactly when its rule fails, and no other field is reported; at most one failure per field, in field order |
| UserTypes.ValidateUpdateUser | internal/user/type/user_type.go:12-15 | no failure exactly when the update request meets its rules; Name (empty, or 3 to 100 characters) and Email (empty, or well formed) are each reported exactly when their rule fails; at most one failure per field, Name before Email |
| UserTypes.CreateExampleRejected | internal/user/type/user_type.go:6-9 | a one-character name, a malformed email and an empty password give the failures Name/min, Email/email and Password/required, in that order |
| UserTypes.UpdateExampleRejected | internal/user/type/user_type.go:13-14 | a one-character name is rejected by the update rules with Name/min |
| UserService.GetUserByPublicID | internal/user/service/user_service.go:32-38 | one lookup by public id, whose user or error is returned unchanged |
| UserService.SoftDeleteUser | internal/user/service/user_service.go:40-50 | the lookup comes first; a delete is made exactly when the lookup finds the user, and it targets that user's internal id; the lookup's or the delete's error is returned unchanged |
| UserService.UpdateUser | internal/user/service/user_service.go:52-64 | the lookup comes first; an update is made exactly when the lookup finds the user, and it carries that user's internal id and the parameters unchanged; errors are returned unchanged |
| UserService.CreateUser | internal/user/service/user_service.go:66-73 | the request is forwarded unchanged in a single call, and the store's error is returned |
| UserService.MissingUserIsNeverWritten | internal/user/service/user_service.go:40-56 | a user the lookup cannot find is neither deleted nor updated, and "user not found" reaches the caller |
| UserHandler.AuthenticatedId | internal/fiber/v1/user/user_handler.go:48-59 | the request goes on exactly when "user_id" is present and is a UUID; a missing id is a 401 "user not authenticated", and an id that is not a UUID is a 400 "INVALID_USER_ID" |
| UserHandler.ServiceErrorResponse | internal/fiber/v1/user/user_handler.go:62-70 | "user not found" is exactly the 400 "USER_NOT_FOUND" case; any other error is a 500 "INTERNAL_ERROR" |
| UserHandler.ReadBody | internal/fiber/v1/user/user_handler.go:94-97 | the body goes on exactly when the size-limited read and decoding succeed; otherwise it is a 400 with that error's text |
| UserHandler.GetUserByPublicIDHandler | internal/fiber/v1/user/user_handler.go:46-78 | the id guards answer first; the answer is 200 "user loaded successfully" with the user exactly when the id is a present UUID and the service finds the user; service errors are mapped as above |
| UserHandler.CreateUserHandler | internal/fiber/v1/user/user_handler.go:90-112 | a body error, or a request that fails its rules, is a 400; the answer is 201 "user created successfully" exactly when the request is valid and the service succeeds; any service error is a 500 "INTERNAL_ERROR" |
| UserHandler.UpdateUserHandler | internal/fiber/v1/user/user_handler.go:126-168 | the guards run in the order authentication, UUID, body, validation, service; the answer is 200 "user updated successfully" exactly when all pass and the update succeeds; service errors are mapped as above |
| UserHandler.DeleteUserHandler | internal/fiber/v1/user/user_handler.go:181-210 | the id guards answer first; the answer is 200 "user successfully deleted" exactly when the soft delete succeeds; service errors are mapped as above |
| UserHandler.GuardsStopBeforeService | internal/fiber/v1/user/user_handler.go:48-59 | a request without a UUID user id is answered without the service: get, update and delete do not depend on it |
| UserHandler.UpdateChecksIdBeforeBody | internal/fiber/v1/user/user_handler.go:130-146 | an update with an invalid id and an empty body is answered "INVALID_USER_ID", because the id is checked before the body is read |
| UserHandler.InvalidCreateSkipsService | internal/fiber/v1/user/user_handler.go:99-105 | a creation request that fails its rules is a 400 that never reaches the service |
| ProtectedRoutes.GetMeAsWritten | internal/fiber/middleware/auth.go:50-51 | as written, GET /v1/user (on the chain the user router builds, once it is mounted) always answers 401: with the gate's message when it rejects, and with "user not authenticated" when it passes |
| ProtectedRoutes.GetMeFixed | internal/fiber/v1/user/router.go:16 | with the fix, a gate rejection is a 401 with the gate's message, and a pass runs the handler on the authenticated id |
| ProtectedRoutes.AsWrittenAlwaysUnauthorized | internal/fiber/v1/user/user_handler.go:48-52 | as written, the get, update and delete routes answer 401 to every request, whatever the header, the token and the service |
| ProtectedRoutes.AsWrittenRejectsValidToken | internal/fiber/middleware/auth.go:43-51 | a concrete token that passes the gate and names a user the service finds still gets "user not authenticated" |
| ProtectedRoutes.FixedServesAuthenticatedUser | internal/fiber/v1/user/user_handler.go:48-77 | with the fix, a token that passes the gate, whose subject is a UUID naming an existing user, gets 200 with that user |
| ProtectedRoutes.FixedAcceptsValidToken | internal/fiber/v1/user/user_handler.go:61-77 | the concrete request that as written gets 401 is served 200 with the user |
| ProtectedRoutes.CreateRouteNeedsToken | internal/fiber/v1/user/router.go:19 | user creation sits behind the gate: without a passing token it is a 401 with the gate's message, and with one the handler answers |
| PasswordErrors.ReasonTexts | pkg/password-validator/erros/password_errors.go:28-34 | there are never more texts than reasons; as many when no reason is nil; none when all are nil |
| PasswordErrors.Join | pkg/password-validator/erros/password_errors.go:35 | joining no parts gives the empty string, and joining one part gives that part |
| PasswordErrors.Error | pkg/password-validator/erros/password_errors.go:24-36 | the loop yields the message of its specification: the base alone without reasons; otherwise the base, ": ", and the non-nil reasons joined by ", " |
| PasswordErrors.Unwrap | pkg/password-validator/erros/password_errors.go:38-40 | unwrapping gives the base error, and that error's text (or "<nil>") is the head of the composite message |
| PasswordErrors.ReasonsList | pkg/password-validator/erros/password_errors.go:42-50 | the loop yields the texts of the non-nil reasons, in order |
| PasswordErrors.ReasonTextsAppend | pkg/password-validator/erros/password_errors.go:29-34 | collecting texts over a concatenation is concatenating the collected texts, so order is preserved |
| PasswordErrors.NilReasonSkipped | pkg/password-validator/erros/password_errors.go:30-32 | a nil reason anywhere leaves no trace in the texts |
| PasswordErrors.ReasonTextsOfPresent | pkg/password-validator/erros/password_errors.go:42-50 | without nil reasons, the i-th text is the i-th reason's text |
| PasswordErrors.MessageShape | pkg/password-validator/erros/password_errors.go:25-35 | no reasons gives the base text alone; only nil reasons gives the base text followed by ": " |
| PasswordErrors.SingleReasonMessage | pkg/password-validator/erros/password_errors.go:35 | one reason gives "<base>: <reason>" |
| PasswordValidator.ClassOf | pkg/password-validator/validator/password-validator.go:21-44 | a character's class is the first of the six sets, in their fixed order, that contains it; it has no class exactly when no set contains it |
| PasswordValidator.ScanFindsClasses | pkg/password-validator/validator/password-validator.go:20-45 | after the scan, a class's flag is set exactly when some character of the password is of that class |
| PasswordValidator.Validate | pkg/password-validator/validator/password-validator.go:8-73 | there is no error exactly when the entropy reaches the minimum; otherwise the error has base "password validation failed" and the reasons, in order: special characters unless all three special classes occur, lower case, upper case, digits, entropy |
| PasswordValidator.RejectionShape | pkg/password-validator/validator/password-validator.go:49-67 | below the minimum there are 1 to 5 reasons; "password entropy too low" is always last, so the "no reasons" exit cannot be taken; reasons follow the fixed order without repeats; "password too short" never occurs |
| PasswordValidator.AllClassesOnlyEntropy | pkg/password-validator/validator/password-validator.go:49-63 | a password with every class, still below the minimum, is rejected for its entropy alone |
| PasswordValidator.FirstSetWins | pkg/password-validator/validator/password-validator.go:25-43 | a character listed in two sets counts only for the first: a password made only of characters that are both separators and digits is still missing digits |
| PasswordValidator.RejectionUnwrapsAndReads | pkg/password-validator/validator/password-validator.go:69-72 | a rejection unwraps to the validation sentinel; its message is that sentinel's text followed by the joined reasons, one text per reason |
| PasswordValidator.EmptyPasswordReasons | pkg/password-validator/validator/password-validator.go:49-63 | the empty password below the minimum gets all five reasons, in order |
| PasswordValidator.EmptyPasswordMessage | pkg/password-validator/erros/password_errors.go:24-36 | the empty password's rejection reads "password validation failed: " followed by the five reason texts joined by ", " |
| PasswordValidator.JoinFive | pkg/password-validator/erros/password_errors.go:35 | joining five parts puts the separator between each consecutive pair |
| Config.ValidateEnvsDb | config/config.go:19-39 | no error exactly when all five settings are non-empty; when all are empty, the "Nenhuma env…" message |
| Config.ReportsFirstMissing | config/config.go:23-37 | unless all settings are empty, the message names the first empty one, in the order user, host, port, password, dbName |
| Config.NoneDefinedIsDistinct | config/config.go:20-24 | the all-empty message differs from every per-setting message |
| Config.OnlyUserMissing | config/config.go:20-24 | with only the user missing, "user DB não definido" is reported; the all-empty check does not take precedence |
| ProductRepository.Wrap64 | product/repository.go:102 | the result is a 64-bit value that differs from the exact one by a multiple of 2^64, and equals it when the exact value fits |
| ProductRepository.NormalizeSort | product/repository.go:97-99 | the direction is "desc" exactly when "desc" was asked for, and "asc" otherwise |
| ProductRepository.QueryPlan | product/repository.go:97-115 | the sort is normalised; a page is asked for exactly when both page and limit are non-zero, and then with that limit and a 64-bit offset congruent to `(page-1)*limit` |
| ProductRepository.OffsetWithoutOverflow | product/repository.go:101-102 | when nothing overflows, the offset is exactly `(page-1)*limit` |
| ProductRepository.FirstPageStartsAtZero | product/repository.go:101-102 | page 1 has offset 0 for any non-zero limit |
| ProductRepository.PageBeforeFirstHasNegativeOffset | product/repository.go:101-103 | pages are not bounds-checked: a page below 0 with a positive limit asks for a negative offset when nothing overflows |
| ProductRepository.LargePageWrapsToStart | product/repository.go:102 | page 2^32+1 with limit 2^32 wraps to offset 0, the first page's rows |
| ProductRepository.Collect | product/repository.go:127-144 | the scan succeeds exactly when every row scans, and then yields every row's product in row order; otherwise it reports the first failing row's error |
| ProductRepository.ScanProducts | product/repository.go:124-152 | the loop returns its specification: a failed scan's error first, then the result set's error, otherwise the products in row order |
| ProductRepository.FirstScanErrorWins | product/repository.go:140-149 | after good rows, the first failing row's error is reported, whatever follows and whatever the result set reports |
| ProductRepository.FindByID | product/repository.go:71-93 | the lookup succeeds exactly when the row query does, with its product; "no rows" becomes "product not found"; other errors are returned unchanged |
| ProductRepository.FindAll | product/repository.go:95-122 | exactly one listing query is sent, with the plan above; its error is returned unchanged, and otherwise its rows are scanned |
| ProductRepository.DeleteProduct | product/repository.go:154-168 | the lookup comes first; a delete is sent exactly when the lookup succeeds, and it targets the found product's id; the lookup's or the delete's error is returned |
| ProductRepository.DeleteMissingProduct | product/repository.go:156-160 | deleting a product with no row reports "product not found" and sends no delete |
| ProductRepository.UpdateProduct | product/repository.go:170-194 | a lookup error is returned with nil, and the product is left unchanged; otherwise the product's update time is set in place to the clock reading, the update statement carries the stamped product, and success returns the same product object; on a failed update the error comes with nil, but the stamp stays |

## Left out

- Cryptography and token parsing are oracles, not modelled. This covers HS256 signing, parsing and verifying tokens, reading their type and subject claims, and bcrypt hash comparison. The JWT secret is a parameter. Reading it from the configuration is not part of this model.
- The clock is not read: `time.Now()` readings are parameters in nanoseconds since the epoch.
- Decoding is an oracle. This covers JSON decoding and the UUID validator (`pkg/uuid-validator`, which is not part of this model). The email-format rule of the validator library is an oracle too.
- `validate.Struct` on the login request is an oracle. The request's rules are in `internal/auth/types`, which is not part of this model.
- UserHandler.CreateUserHandler: a validation failure's body is the list of field failures. The source shapes it with `user_errors.CreateUserValidateError`, which is not part of this model.
- UserHandler.UpdateUserHandler: the same, with `user_errors.UpdateUserValidateError`, which is not part of this model.
- UserHandler.AuthenticatedId: a non-string "user_id" value would make the `userID.(string)` assertion panic. The model's request-scoped values are all strings, so this case is not modelled.
- The user store and the SQL database are oracles. The SQL text is not modelled, including its placeholders, its `ORDER BY $1` and its column order.
- `rows.Close`, `context.Context` and the logger are not modelled: none of them affects a returned value.
- Fiber's `JSON` is assumed to succeed. Each handler returns the result of `c.Status(...).JSON(...)`, so a serialisation error would otherwise be the handler's return value; the model does not have that case.
- `CreateProduct` is not part of this model. It is one insert whose error is returned.
- The product `Price` field is not modelled, since it is floating point. `config.LoadDbConfig` reads the environment and the `.env` file, so it is left out. So are the process lifecycle, servers and routers, apart from the user routes' gate composition.
- The password entropy is a floating-point computation (`entropy.go`), so it is left out: it and the minimum are `real` parameters. The six character-set constants are not part of this model, so they are parameters as well.
- PasswordValidator.RejectionShape: the proof that a rejection always carries the entropy reason relies on the entropy and its minimum being `real`. With a float64 NaN minimum, the comparison at password-validator.go:61 is false, and the empty-list branch (lines 65-67) returns nil. The model does not have that case.
- PasswordErrors.Error: reasons and the base are the package's sentinel errors or nil. Other error values are not modelled.
- The user service's commented-out password validation is not modelled, because it does not run.
- ProductRepository.FindAll: Go's `int` is taken as 64 bits wide, as on the usual platforms.

## Findings

| source | as written | input that shows it | evidently intended | confidence | as-written member | corrected member |
|---|---|---|---|---|---|---|
| internal/fiber/middleware/auth.go:50 | the gate stores the user id with `c.Set`, which sets a response header. The get, update and delete handlers read the request-scoped value `c.Locals("user_id")` (internal/fiber/v1/user/user_handler.go:48,130,183), which is never set, so every request that passes the gate is answered 401 "user not authenticated". The handler tests set `c.Locals` themselves. The effect shows once `user.RegisterRouter` (internal/fiber/v1/user/router.go:13-19) is mounted; the server (internal/fiber/server.go:15, internal/fiber/v1/router.go:13-16) mounts only the product routes, so today the user routes are not served at all. | `GET /v1/user` with `Authorization: Bearer 0a1b`, where the token parses with type "access" and subject "0a1b", and the service finds that user | store the id with `c.Locals(UserIDKey, userID)`, so the handler serves 200 with the user | high; not executed | ProtectedRoutes.AsWrittenAlwaysUnauthorized | ProtectedRoutes.FixedServesAuthenticatedUser |
