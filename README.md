# A model of the go-simple users service

go-simple is a small HTTP service with one resource, `/users`. Its `UserHandler`
dispatches on the HTTP method:

- `GET /users?userID={id}` parses the id and reads the user from the repository.
  It answers 200 with the user as JSON, 400 for a missing or malformed id, 404
  for an unknown id and 500 when the store or the encoder fails.
- `POST /users` decodes a `{firstName, lastName}` body and checks that both names
  are present. It then inserts the user and answers 201 with the stored user
  (including the id the database assigned), 400 for a bad body or 500 when the
  store fails.
- Any other method gets a plain-text 405 "Invalid method".

Every JSON failure reply goes through one helper, `HandleJSONError`. It answers
`{"error": "[<status>] <message>"}` with the given status and logs the same text
together with the caller's supplementary messages. If the envelope cannot be
encoded, it instead logs only the encoder's error and answers with `http.Error`'s
plain-text 500 "Internal Server Error". The 405 for an unknown method
and the middleware's 415 are plain text, written by `http.Error`. A separate middleware,
`JSONMiddleware`, answers a plain-text 415 to every request whose Content-Type
header is non-empty and not exactly `application/json`; an absent or empty header passes. Otherwise it presets the reply's
Content-Type to JSON and calls the wrapped handler.

The Dafny project has one module per concern:

| file | module | models |
|---|---|---|
| `wrappers.dfy` | `Wrappers` | `Option` and `Result` |
| `strconv.dfy` | `Strconv` | `strconv.Atoi` (base 10, 64-bit `int`) and the `%d` verb |
| `json.dfy` | `Json` | JSON values as trees; member lookup |
| `model.dfy` | `Model` | `User`, `CreateUserRequest`, `CreateUserResponse`, the `required` rule, the `json` tags |
| `http.dfy` | `Http` | `http.ResponseWriter` as a class (header map, status, body, superfluous `WriteHeader` calls) and `http.Error` |
| `log.dfy` | `Zap` | the zap logger as the list of entries it has logged |
| `config.dfy` | `Config` | the error-message constants |
| `helpers.dfy` | `Helpers` | `HandleJSONError`, `convertToFields`, the error envelope |
| `repository.dfy` | `Repository` | the `users` table, `UserRepositoryImpl.CreateUser` and `GetUserByID` |
| `handler.dfy` | `Handler` | `UserHandler` and its GET and POST handlers, validation, the two mappings |
| `middleware.dfy` | `Middleware` | `JSONMiddleware` |

Each handler method is proved against a specification function. `GetByIdSpec`,
`CreateSpec`, `ServeSpec` and `JSONMiddlewareSpec` each give one `Outcome` for one
request. An `Outcome` holds:

- the reply (status, headers, body);
- the repository calls made;
- the table afterwards;
- the log entries added.

The predicate `UserHandler.Answered` ties the response writer, the repository
and the logger to an `Outcome`. It also requires that the status was sent once,
with no superfluous `WriteHeader`. The lemmas state the service's promises about
the specification functions.

What the world outside the service does is made explicit as parameters:

- `Env.storeFault` is the error the database reports, if any. It wins over any
  row the query would have found.
- `Env.userMarshalFails` says whether encoding the fetched user fails.
- `Env.envelopeFault` is the encoder's error for an error envelope, if any.
- `Decoded` is the JSON decoder's verdict on a POST body: a request record, or
  malformed.

The repository works on an in-memory `users` table: a map from id to the two
name columns, plus the next value of the `id SERIAL` sequence. SERIAL is a 32-bit
column (`database/db.go:34`), so an insert fails once the sequence passes
2147483647, and a query with an id outside the column's range is refused by the
store with an error of its own, which the handler answers with 500. The repository records every call in a ghost `calls` list, in the
way the tests' mock repository counts them.

## Model

| member | source | states |
|---|---|---|
| Strconv.Atoi | user/handler/user.go:62-66 | accepted input is an optional sign followed by one or more digits and nothing else; the value fits in a 64-bit int; its magnitude is the value of the digits, and it is negative only after a '-' and never positive after one; a sign followed by digits is accepted exactly when that signed value fits in the int range |
| Strconv.LeadingZeros | user/handler/user.go:62-66 | leading zeros do not change the value of a run of digits |
| Strconv.AtoiSpellings | user/handler/user.go:62-66 | every in-range n parses from no sign or '+' (n >= 0) or '-' (n <= 0), any run of '0's, then the digits of its magnitude |
| Strconv.AtoiPaddedExamples | user/handler/user.go:62-66 | "0123", "+5" and "-0" parse to 123, 5 and 0 |
| Strconv.NatDigits | shared/helpers.go:14 | the decimal spelling of a natural number is non-empty, all digits, and starts with '0' only for zero |
| Strconv.FormatInt | shared/helpers.go:14 | `%d` prints a '-' exactly for negative values, followed by digits only |
| Strconv.NatDigitsValue | shared/helpers.go:14 | the digits printed for n read back as n |
| Strconv.AtoiFormatInt | user/handler/user.go:62-66 | round trip: Atoi parses back every int that `%d` prints |
| Strconv.ThreeDigits | shared/helpers.go:14 | every status code from 100 to 999 prints as exactly three characters |
| Strconv.AtoiExamples | user/handler/user.go:62-66 | "123", "+7" and "-007" parse; "", "+", "-", "12a", " 1" and "1_000" are refused |
| Model.MissingNames | user/model/user.go:13-16 | the fields reported missing are exactly the empty names, in declaration order; none are missing iff both names are non-empty |
| Model.RequestViolations | user/model/user.go:13-16 | a CreateUserRequest is valid iff FirstName and LastName are both non-empty |
| Model.UserViolations | user/model/user.go:4-8 | a User is valid iff both names are non-empty |
| Model.IdNotValidated | user/model/user.go:4-8 | the id carries no validation rule: changing it never changes the violations |
| Json.MemberIsLast | user/model/user.go:4-8 | a member is found exactly when some member has the name, and the one found is the last with that name, as encoding/json's field-by-field overwrite leaves it |
| Model.IntField | user/model/user.go:5 | the `id` field decodes exactly when every `id` member is a number a 64-bit `int` holds |
| Model.StringField | user/model/user.go:6-7 | a name field decodes exactly when every member with that name is a string |
| Model.DecodeUser | user/model/user.go:4-8 | a User decodes only from a JSON object whose every `id`, `firstName` and `lastName` member has the field's type, and its id fits 64 bits |
| Model.DecodeUserDuplicates | user/model/user.go:4-8 | decoding keeps the last of repeated well-typed members and ignores members that name no field; a lone string id, a mistyped member followed by a well-typed one, and an id beyond 64 bits are all refused |
| Model.DecodeUserJson | user/model/user.go:4-8 | a User encoded under its `json` tags decodes back to the same id and names exactly when its id fits a 64-bit `int`, and is refused otherwise |
| Model.DecodeResponseJson | user/model/user.go:21-23 | a CreateUserResponse promotes the embedded User's id and names, and its JSON decodes back to exactly that User when the id fits 64 bits |
| Http.Error | shared/helpers.go:23 | http.Error adds the plain-text and nosniff headers, sends the code unless a status was already sent (then counts a superfluous call), and writes the message with a newline |
| Helpers.ErrorText | shared/helpers.go:14 | the `"[%d] %s"` text: '[', the status printed in decimal, "] ", then the message, and nothing else |
| Helpers.ErrorReply | shared/helpers.go:16-28 | the reply HandleJSONError sends: the requested status with a JSON Content-Type, or, when the envelope cannot be encoded, the plain-text 500 "Internal Server Error"; one body part either way |
| Helpers.MessageFields | shared/helpers.go:39-45 | one field per supplementary message, in the same order, each keyed "message" with that message as its value |
| Helpers.ErrorLog | shared/helpers.go:20-36 | exactly one entry: the formatted text with one field per message, or, when the envelope cannot be encoded, only the encoder's error |
| Helpers.ErrorTextParts | shared/helpers.go:14 | the error text is '[', the three status digits (which parse back to the status), "] ", then the message |
| Helpers.StatusTexts | shared/helpers.go:14 | the error texts for 400, 404 and 500 begin "[400] ", "[404] " and "[500] " |
| Helpers.ErrorReplyStatus | shared/helpers.go:16-28 | without an encoder failure the reply carries the requested status, a JSON Content-Type, and a one-field `error` envelope whose text holds the status and the message; with one, the status is 500 |
| Helpers.MessagesOnlyLogged | shared/helpers.go:13-36 | supplementary messages affect only the log, and they change it exactly when they differ and the envelope could be encoded |
| Helpers.ConvertToFields | shared/helpers.go:39-45 | one field per message, in the same order, each keyed "message" |
| Helpers.HandleJSONError | shared/helpers.go:13-37 | the writer gains the headers, status and body of ErrorReply (the plain-text 500 fallback when encoding fails); the log gains the formatted text with one field per message, or only the encoder's failure |
| Repository.Insert | user/repository/user.go:35-44 | an injected fault is returned unchanged; otherwise the insert succeeds iff the sequence is not exhausted; the new id is fresh, within 1..2147483647, and the table gains exactly that row and stays valid |
| Repository.Select | user/repository/user.go:48-53 | an injected fault is returned as it is; an id the 32-bit column cannot hold is refused by the store with an out-of-range error; otherwise the row with that id, or "no rows" |
| Repository.Lookup | user/repository/user.go:47-62 | for an id the column can hold and no fault: success iff a row has the id, with that row's names and the requested id, and no row gives exactly ErrUserNotFound; an id the column cannot hold gives the store's out-of-range error, not ErrUserNotFound; an injected "no rows" becomes ErrUserNotFound and any other fault is passed on unchanged |
| Repository.UserRepositoryImpl.constructor | user/repository/user.go:27-32 | a repository over a valid table, with no calls recorded |
| Repository.UserRepositoryImpl.CreateUser | user/repository/user.go:34-44 | on success the caller's User gets the assigned id with its names unchanged, and the table gains the row; on failure the store's error is returned unchanged and neither the table nor the User changes |
| Repository.UserRepositoryImpl.GetUserByID | user/repository/user.go:46-62 | the result is Lookup on the table; the table is unchanged and exactly one call is recorded |
| Repository.InsertThenLookup | user/repository/user.go:35-62 | round trip: the inserted row reads back under its new id, and every other id reads as before |
| Repository.InsertsGetDistinctIds | database/db.go:33-37 | two successive inserts get distinct ids and neither overwrites a row |
| Repository.GetUserByIDTestCases | user/repository/user_test.go:35-64 | the repository test's cases: 123 is found as John Doe; 456 is ErrUserNotFound; an injected error is returned as it is |
| Handler.GetByIdSpec | user/handler/user.go:52-89 | the table is unchanged; an empty or unparsable id answers 400 with no repository call; a parsed id calls GetUserByID with exactly that integer; the status is one of 200, 400, 404 and 500 |
| Handler.RequiredMessage | user/handler/user.go:135-138 | the message joined over the failing fields is empty exactly when no field fails, grows by at least 22 characters per field, and ends in "; " |
| Handler.ValidationError | user/handler/user.go:130-142 | no error iff both names are present |
| Handler.ValidateCreateUserRequest | user/handler/user.go:130-142 | no error iff both names are present; otherwise the message is "<Field> is a required field; " joined over the failing fields in order |
| Handler.ValidationMessages | user/handler/user.go:130-142 | the exact message for a missing first name, a missing last name, and both |
| Handler.MapCreateUserRequestToUser | user/handler/user.go:145-150 | both names are copied, the id is 0, and validation gives the same result |
| Handler.MapUserToCreateUserResponse | user/handler/user.go:153-157 | the response shows the user's id and names, and its JSON decodes back to the user whenever the id fits 64 bits |
| Handler.CreateSpec | user/handler/user.go:93-127 | a malformed or invalid body answers 400 with no repository call and an unchanged table; otherwise CreateUser is called once with the names and id 0; the status is 201, 400 or 500; a 201 means the store worked and the sequence advanced over a free id |
| Handler.ServeSpec | user/handler/user.go:38-47 | GET is the lookup, POST is the create, and any other method answers the plain-text 405 "Invalid method" with no repository call |
| Handler.LookupOutcome | user/handler/user.go:68-89 | the repository's answer becomes 200 for a user (500 if encoding it fails), 404 "User Not Found" for the not-found sentinel, and 500 "Internal Server Error" for any other error; only the 200 logs nothing |
| Handler.GetFound | user/handler/user.go:78-89 | a stored id answers 200 with a JSON Content-Type and the row's id and names, field for field, and logs nothing |
| Handler.GetNotFound | user/handler/user.go:68-73 | an id that the 32-bit column can hold but no row has answers 404 with `{"error": "[404] User Not Found"}` |
| Handler.GetSpellings | user/handler/user.go:62-68 | every spelling of an id that Atoi accepts, signed or zero-padded, reaches GetUserByID as exactly that integer |
| Handler.GetOutOfRange | user/handler/user.go:62-76 | an id that parses as an int but does not fit the 32-bit column answers the 500 for a failed fetch after one lookup, not 404 |
| Handler.GetTooLargeId | user/handler/user.go:62-76 | "3000000000" parses to 3000000000 and the GET answers 500 |
| Handler.GetStoreFails | user/handler/user.go:68-76 | any other store error answers 500 after one lookup with the parsed id |
| Handler.CreateInvalid | user/handler/user.go:104-108 | a request missing a name answers 400 "[400] Bad Request"; the validation message appears only in the log; the store is not called |
| Handler.CreateSucceeds | user/handler/user.go:110-126 | a valid request answers 201 with the request's names and the id the store assigned; that id was free; the table gains exactly that row |
| Handler.CreateStoreFails | user/handler/user.go:113-118 | a store failure answers 500 and leaves the table as it was |
| Handler.CreateThenGet | user/handler/user.go:52-127 | after a successful create, a GET with the returned id spelled in decimal answers 200 with the same user |
| Handler.GetByIdTestCases | user/handler/user_test.go:54-77 | the handler test's cases: "123" answers 200 with John Doe after one call; "456" answers 404 after one call; "" answers 400 with no call |
| Handler.CreateOnEmptyTable | user/handler/user.go:110-126 | the first user created in a fresh table gets id 1 |
| Handler.UserHandler.NewUserHandler | user/handler/user.go:26-33 | the handler holds the given logger and repository |
| Handler.UserHandler.UserHandler | user/handler/user.go:38-48 | the writer, repository and log show ServeSpec's outcome, with one status sent |
| Handler.UserHandler.GetByIdHandler | user/handler/user.go:52-89 | the writer, repository and log show GetByIdSpec's outcome, with one status sent |
| Handler.UserHandler.CreateHandler | user/handler/user.go:93-127 | the writer, repository and log show CreateSpec's outcome, with one status sent |
| Handler.CreatedOutcome | user/handler/user.go:120-126 | after a successful insert, the outcome is 201 with JSON headers, the reply for the stored id and names, one CreateCall with id 0, the grown table and no log entry |
| Handler.UserHandler.StoreAndAnswer | user/handler/user.go:110-126 | the part of CreateHandler after validation shows CreateSpec's outcome for a valid request |
| Middleware.AcceptsContentType | middleware/json.go:8 | the empty header passes, and an accepted header holds no ';' or space, so no media-type parameter ever passes |
| Middleware.Preset | middleware/json.go:14 | presetting the JSON Content-Type changes only the reply's headers, and a header the handler sets itself overrides it |
| Middleware.JSONMiddlewareSpec | middleware/json.go:5-18 | a Content-Type other than absent, empty or "application/json" answers the plain-text 415 without calling the handler; otherwise the reply is the handler's, under a Content-Type preset to JSON |
| Middleware.JSONMiddleware | middleware/json.go:5-18 | the writer, repository and log show JSONMiddlewareSpec's outcome, with one status sent |
| Middleware.Forward | middleware/json.go:14-16 | the accepted path: the writer, repository and log show the wrapped handler's outcome under the preset Content-Type, with one status sent |
| Middleware.ContentTypeExamples | middleware/json.go:8 | "" and "application/json" pass; "application/json; charset=utf-8" and "text/plain" do not |
| Middleware.RepliesCarryContentType | middleware/json.go:14 | every reply through the middleware names a Content-Type |
| Middleware.AcceptedIsTransparent | middleware/json.go:14-16 | an accepted request gets the handler's status, body, calls, table and log unchanged |

## Left out

- The request context: the 2-second timeout and cancellation of `CreateHandler`
  (`user/handler/user.go:94-95`). The model is sequential and has no clock.
- JSON as bytes. Encoding and decoding are modelled on JSON value trees.
  - The decoder's verdict on a POST body is an input, `Decoded`.
  - The failure of `json.Marshal` is an `Env` flag.
  - The trailing newline that `json.Encoder` adds to the 201 body is not modelled.
- The validator library itself. Only its `required` rule on the two tagged
  string fields is modelled, in declaration order.
- URL and query parsing. `userID` is the request's query value, or "" when it
  has none.
- Errors returned by `w.Write`. These are only logged, at
  `user/handler/user.go:85-88` and `shared/helpers.go:29-32`.
- zap's caller skip, and all log levels other than error.
- The SQL driver, the DDL and database start-up (`database/db.go`). Also left out:
  - the `VARCHAR(50)` length limits;
  - the sequence value that PostgreSQL consumes when an insert fails.
- Model.DecodeUser: keys are matched exactly. encoding/json also accepts a key
  that differs from a tag only in letter case; the model ignores such a member.
  The service only ever decodes its own encodings, which use the exact tags.
  JSON `null`, booleans, fractions and arrays are not values of the model, so
  what encoding/json does with them (`null` leaves a field unchanged, the rest
  are type errors) is not modelled either.
- Repository.Lookup: a database that answers with rows and an error together is
  modelled by letting the injected error win. This is the precedence the
  repository test relies on (`user/repository/user_test.go:48-64`).
- Server start-up (`cmd/main.go`, `server/server.go`). The service registers
  `UserHandler` without `JSONMiddleware` (`cmd/main.go:32`), so the middleware is
  modelled as a wrapper that can be applied.
- Handler.CreateSpec: the validation message goes only to the log, never to the
  client. The 400 body for an invalid request is `{"error": "[400] Bad Request"}`,
  because the code passes the fixed text "Bad Request" to `HandleJSONError` and
  the message only as a supplementary log field.
- Handler.UserHandler.StoreAndAnswer is not a function of the service. It is the
  tail of `CreateHandler` (repository call and 201 reply), kept as a method of
  its own so that each proof stays small.
- Middleware.Forward is not a function of the service either. It is the accepted
  path of `JSONMiddleware` (header preset and the call of the wrapped handler),
  kept apart for the same reason.
