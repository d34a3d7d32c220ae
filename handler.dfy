/**
 * The users handler (user/handler/user.go): one endpoint that dispatches on
 * the HTTP method, reads a user by id for GET and creates one for POST.
 *
 * Each handler method is proved against a specification function that gives,
 * for one request, the reply it sends, the repository calls it makes, the
 * table afterwards and what it logs (an Outcome). The lemmas at the end state
 * the service's promises about those functions.
 */
module Handler {
  import opened Wrappers
  import opened Strconv
  import opened Model
  import opened Http
  import opened Zap
  import opened Helpers
  import Config
  import opened Repository

  /** What the world outside the handler does during one request. */
  datatype Env = Env(
    storeFault: Option<Repository.Error>, // the store fails the repository call with this error
    userMarshalFails: bool,               // encoding the fetched User fails
    envelopeFault: Option<string>)        // encoding an error envelope fails with this message

  /** The JSON decoder's verdict on a request body. */
  datatype Decoded = Decoded(req: CreateUserRequest) | Malformed

  /** The parts of an HTTP request the service reads. `userID` is "" when the query has none. */
  datatype Request = Request(verb: string, contentType: string, userID: string, body: Decoded)

  /** What serving one request amounts to. */
  datatype Outcome = Outcome(reply: Reply, calls: seq<Call>, db: Table, log: seq<Entry>)

  const SomeErrorOccurred := "Some error occurred"

  /** A failure answered through HandleJSONError. */
  function JsonError(errMsg: string, status: int, messages: seq<string>, env: Env, calls: seq<Call>, db: Table): Outcome
  {
    Outcome(ErrorReply(errMsg, status, env.envelopeFault), calls, db, ErrorLog(errMsg, status, messages, env.envelopeFault))
  }

  // ---------------------------------------------------------------------------
  // GET /users?userID={id}

  /** The reply once the repository has answered a lookup. */
  function LookupOutcome(res: Result<User, Repository.Error>, env: Env, calls: seq<Call>, db: Table): (o: Outcome)
    ensures o.calls == calls && o.db == db
    ensures res.Success? ==> o.reply.status == if env.userMarshalFails then StatusInternalServerError else StatusOK
    ensures res == Failure(ErrUserNotFound) ==> o.reply == ErrorReply("User Not Found", StatusNotFound, env.envelopeFault)
    ensures res.Failure? && res.error != ErrUserNotFound ==>
      o.reply == ErrorReply("Internal Server Error", StatusInternalServerError, env.envelopeFault)
    ensures o.log == [] <==> res.Success? && !env.userMarshalFails
  {
    match res
    case Failure(e) =>
      if e == ErrUserNotFound then JsonError(Config.ErrUserNotFound, StatusNotFound, [SomeErrorOccurred], env, calls, db)
      else JsonError(Config.ErrFetchingUser, StatusInternalServerError, [SomeErrorOccurred], env, calls, db)
    case Success(u) =>
      if env.userMarshalFails then JsonError(Config.ErrMarshallingUser, StatusInternalServerError, [SomeErrorOccurred], env, calls, db)
      else Outcome(Reply(StatusOK, JsonHeaders, [JsonBody(UserJson(u))]), calls, db, [])
  }

  /** GetByIdHandler on query value `idStr` against table `db`. */
  function GetByIdSpec(idStr: string, db: Table, env: Env): (o: Outcome)
    ensures o.db == db
    ensures idStr == "" ==> o.calls == [] && o.reply == ErrorReply("Bad Request", 400, env.envelopeFault)
    ensures Atoi(idStr).None? ==> o.calls == [] && o.reply == ErrorReply("Bad Request", 400, env.envelopeFault)
    ensures Atoi(idStr).Some? ==> o.calls == [GetCall(Atoi(idStr).value)]
    ensures o.reply.status in {200, 400, 404, 500}
  {
    if idStr == "" then JsonError(Config.ErrEmptyUserID, StatusBadRequest, [SomeErrorOccurred], env, [], db)
    else
      match Atoi(idStr)
      case None => JsonError(Config.ErrInvalidUserID, StatusBadRequest, [SomeErrorOccurred], env, [], db)
      case Some(id) => LookupOutcome(Lookup(db, id, env.storeFault), env, [GetCall(id)], db)
  }

  // ---------------------------------------------------------------------------
  // POST /users

  /** The text validation adds for one failing field. */
  function RequiredText(field: string): string
  {
    field + " is a required field; "
  }

  /** The concatenation of RequiredText over the failing fields, in order. */
  function RequiredMessage(fields: seq<string>): (m: string)
    ensures m == "" <==> fields == []
    ensures |m| >= 22 * |fields|
    ensures fields != [] ==> m[|m| - 2..] == "; "
  {
    if fields == [] then ""
    else RequiredMessage(fields[..|fields| - 1]) + RequiredText(fields[|fields| - 1])
  }

  /** The error validateCreateUserRequest returns: none, or the message for the failing fields. */
  function ValidationError(req: CreateUserRequest): (e: Option<string>)
    ensures e.None? <==> Present(req.firstName) && Present(req.lastName)
  {
    var missing := RequestViolations(req);
    if missing == [] then None else Some(RequiredMessage(missing))
  }

  /** validateCreateUserRequest: run the required rule and join the failures into one message. */
  method ValidateCreateUserRequest(req: CreateUserRequest) returns (err: Option<string>)
    ensures err.None? <==> Present(req.firstName) && Present(req.lastName)
    ensures err.Some? ==> err.value == RequiredMessage(RequestViolations(req))
  {
    var violations := RequestViolations(req);
    if violations == [] {
      return None;
    }
    var errMsg := "";
    var i := 0;
    while i < |violations|
      invariant 0 <= i <= |violations|
      invariant errMsg == RequiredMessage(violations[..i])
    {
      assert violations[..i + 1][..i] == violations[..i];
      errMsg := errMsg + violations[i] + " is a required field; ";
      assert errMsg == RequiredMessage(violations[..i]) + RequiredText(violations[i]);
      i := i + 1;
    }
    assert violations[..i] == violations;
    return Some(errMsg);
  }

  /** mapCreateUserRequestToUser: both names copied, the id left unset. */
  function MapCreateUserRequestToUser(req: CreateUserRequest): (u: User)
    ensures u.id == 0
    ensures CreateUserRequest(u.firstName, u.lastName) == req
    ensures UserViolations(u) == RequestViolations(req)
  {
    User(firstName := req.firstName, lastName := req.lastName, id := 0)
  }

  /** mapUserToCreateUserResponse: the reply wraps the user, and reads back as it. */
  function MapUserToCreateUserResponse(u: User): (r: CreateUserResponse)
    ensures r.ID() == u.id && r.FirstName() == u.firstName && r.LastName() == u.lastName
    ensures FitsInt(u.id) ==> DecodeUser(ResponseJson(r)) == Some(u)
  {
    var r := CreateUserResponse(u);
    DecodeResponseJson(r);
    r
  }

  /** CreateHandler on a decoded (or undecodable) body against table `db`. */
  function CreateSpec(body: Decoded, db: Table, env: Env): (o: Outcome)
    requires TableValid(db)
    ensures TableValid(o.db)
    ensures o.calls == [] <==> !(body.Decoded? && RequestViolations(body.req) == [])
    ensures o.calls == [] ==> o.db == db && o.reply == ErrorReply("Bad Request", 400, env.envelopeFault)
    ensures o.calls != [] ==> o.calls == [CreateCall(User(0, body.req.firstName, body.req.lastName))]
    ensures o.reply.status in {201, 400, 500}
    ensures o.reply.status == 201 ==> env.storeFault.None? && db.nextId !in db.rows && o.db.nextId == db.nextId + 1
  {
    match body
    case Malformed => JsonError("Bad Request", StatusBadRequest, ["Failed to decode request body"], env, [], db)
    case Decoded(req) =>
      match ValidationError(req)
      case Some(msg) => JsonError("Bad Request", StatusBadRequest, ["Validation error:", msg], env, [], db)
      case None =>
        var user := MapCreateUserRequestToUser(req);
        var calls := [CreateCall(user)];
        match Insert(db, Row(user.firstName, user.lastName), env.storeFault)
        case Failure(_) => JsonError("Internal Server Error", StatusInternalServerError, ["Failed to create user"], env, calls, db)
        case Success(ins) =>
          var res := MapUserToCreateUserResponse(user.(id := ins.id));
          Outcome(Reply(StatusCreated, JsonHeaders, [JsonBody(ResponseJson(res))]), calls, ins.table, [])
  }

  // ---------------------------------------------------------------------------
  // Dispatch

  const InvalidMethod := "Invalid method"

  /** UserHandler: GET reads, POST creates, any other method is refused with a plain-text 405. */
  function ServeSpec(r: Request, db: Table, env: Env): (o: Outcome)
    requires TableValid(db)
    ensures TableValid(o.db)
    ensures r.verb == "GET" ==> o == GetByIdSpec(r.userID, db, env)
    ensures r.verb == "POST" ==> o == CreateSpec(r.body, db, env)
    ensures r.verb != "GET" && r.verb != "POST" ==>
      o.reply == TextReply(InvalidMethod, 405) && o.calls == [] && o.db == db
    ensures o.reply.status in {200, 201, 400, 404, 405, 500}
  {
    if r.verb == "GET" then GetByIdSpec(r.userID, db, env)
    else if r.verb == "POST" then CreateSpec(r.body, db, env)
    else Outcome(TextReply(InvalidMethod, StatusMethodNotAllowed), [], db, [Entry(InvalidMethod, [Field("method", r.verb)])])
  }

  // ---------------------------------------------------------------------------
  // Properties of the handler

  /** A stored id answers 200 with that row, field for field, as JSON. */
  lemma GetFound(idStr: string, db: Table, env: Env)
    requires TableValid(db) && Atoi(idStr).Some? && Atoi(idStr).value in db.rows
    requires env.storeFault.None? && !env.userMarshalFails
    ensures var id := Atoi(idStr).value;
      var u := User(id, db.rows[id].firstName, db.rows[id].lastName);
      var o := GetByIdSpec(idStr, db, env);
      o.reply == Reply(StatusOK, JsonHeaders, [JsonBody(UserJson(u))]) && o.log == [] &&
      DecodeUser(o.reply.body[0].value) == Some(u)
  {
    var id := Atoi(idStr).value;
    assert InColumnRange(id);
    DecodeUserJson(User(id, db.rows[id].firstName, db.rows[id].lastName));
  }

  /** An id the column can hold but no row has answers 404 with `{"error": "[404] User Not Found"}`. */
  lemma GetNotFound(idStr: string, db: Table, env: Env)
    requires Atoi(idStr).Some? && InColumnRange(Atoi(idStr).value) && Atoi(idStr).value !in db.rows
    requires env.storeFault.None? && env.envelopeFault.None?
    ensures GetByIdSpec(idStr, db, env).reply ==
      Reply(StatusNotFound, JsonHeaders, [JsonBody(ErrorResponse("[404] " + "User Not Found").ToJson())])
  {
    StatusTexts("User Not Found");
  }

  /**
   * Every spelling of an id that Atoi accepts (a sign, zero padding) reaches
   * the repository as that integer.
   */
  lemma GetSpellings(n: int, sign: string, zeros: string, db: Table, env: Env)
    requires MinInt <= n <= MaxInt && AllZeros(zeros)
    requires ((sign == "" || sign == "+") && n >= 0) || (sign == "-" && n <= 0)
    ensures GetByIdSpec(sign + zeros + NatDigits(if n < 0 then -n else n), db, env).calls == [GetCall(n)]
  {
    AtoiSpellings(n, sign, zeros);
  }

  /**
   * An id that parses but that the 32-bit column cannot hold is refused by the
   * store, not reported missing: the reply is the 500 for a failed fetch.
   */
  lemma GetOutOfRange(idStr: string, db: Table, env: Env)
    requires Atoi(idStr).Some? && !InColumnRange(Atoi(idStr).value) && env.storeFault.None?
    ensures var o := GetByIdSpec(idStr, db, env);
      o.reply == ErrorReply(Config.ErrFetchingUser, StatusInternalServerError, env.envelopeFault) &&
      o.reply.status == StatusInternalServerError && o.calls == [GetCall(Atoi(idStr).value)]
  {
  }

  /** "3000000000" is a valid Go int but not a valid id: the GET answers 500. */
  lemma GetTooLargeId(db: Table, env: Env)
    requires env.storeFault.None?
    ensures Atoi("3000000000") == Some(3000000000)
    ensures GetByIdSpec("3000000000", db, env).reply.status == StatusInternalServerError
  {
    var s := "3000000000";
    assert AllDigits(s);
    assert DigitsValue(s[..1]) == 3;
    assert DigitsValue(s[..2]) == 30 by { assert s[..2][..1] == s[..1]; }
    assert DigitsValue(s[..3]) == 300 by { assert s[..3][..2] == s[..2]; }
    assert DigitsValue(s[..4]) == 3000 by { assert s[..4][..3] == s[..3]; }
    assert DigitsValue(s[..5]) == 30000 by { assert s[..5][..4] == s[..4]; }
    assert DigitsValue(s[..6]) == 300000 by { assert s[..6][..5] == s[..5]; }
    assert DigitsValue(s[..7]) == 3000000 by { assert s[..7][..6] == s[..6]; }
    assert DigitsValue(s[..8]) == 30000000 by { assert s[..8][..7] == s[..7]; }
    assert DigitsValue(s[..9]) == 300000000 by { assert s[..9][..8] == s[..8]; }
    assert DigitsValue(s) == 3000000000 by { assert s[..9] == s[..|s| - 1]; }
    GetOutOfRange(s, db, env);
  }

  /** Any other store failure answers 500, after exactly one lookup with the parsed id. */
  lemma GetStoreFails(idStr: string, db: Table, env: Env)
    requires Atoi(idStr).Some? && env.storeFault.Some?
    requires env.storeFault.value != ErrNoRows && env.storeFault.value != ErrUserNotFound
    ensures GetByIdSpec(idStr, db, env).reply.status == StatusInternalServerError
    ensures GetByIdSpec(idStr, db, env).calls == [GetCall(Atoi(idStr).value)]
  {
  }

  /** The messages validateCreateUserRequest builds, for each way of failing. */
  lemma ValidationMessages(f: string, l: string)
    requires f != "" && l != ""
    ensures ValidationError(CreateUserRequest(f, l)) == None
    ensures ValidationError(CreateUserRequest("", l)) == Some(RequiredText("FirstName"))
    ensures ValidationError(CreateUserRequest(f, "")) == Some(RequiredText("LastName"))
    ensures ValidationError(CreateUserRequest("", "")) == Some(RequiredText("FirstName") + RequiredText("LastName"))
  {
    assert RequestViolations(CreateUserRequest("", l)) == ["FirstName"];
    assert RequestViolations(CreateUserRequest(f, "")) == ["LastName"];
    assert RequestViolations(CreateUserRequest("", "")) == ["FirstName", "LastName"];
    assert RequiredMessage(["FirstName"]) == RequiredText("FirstName") by {
      assert ["FirstName"][..0] == [];
      assert "" + RequiredText("FirstName") == RequiredText("FirstName");
    }
    assert RequiredMessage(["LastName"]) == RequiredText("LastName") by {
      assert ["LastName"][..0] == [];
      assert "" + RequiredText("LastName") == RequiredText("LastName");
    }
    assert ["FirstName", "LastName"][..1] == ["FirstName"];
  }

  /** A request that fails validation is answered 400, its message reaches the log only, and the store is not called. */
  lemma CreateInvalid(req: CreateUserRequest, db: Table, env: Env)
    requires TableValid(db) && (req.firstName == "" || req.lastName == "") && env.envelopeFault.None?
    ensures var o := CreateSpec(Decoded(req), db, env);
      o.reply == Reply(StatusBadRequest, JsonHeaders, [JsonBody(ErrorResponse("[400] " + "Bad Request").ToJson())]) &&
      o.calls == [] && o.db == db &&
      o.log == [Entry("[400] " + "Bad Request", [Field("message", "Validation error:"),
                                            Field("message", RequiredMessage(RequestViolations(req)))])]
  {
    StatusTexts("Bad Request");
    var msg := RequiredMessage(RequestViolations(req));
    assert MessageFields(["Validation error:", msg]) == [Field("message", "Validation error:"), Field("message", msg)];
  }

  /**
   * A valid request with a working store answers 201 with the new user: the
   * request's names and the id the store assigned, which was free, and the
   * table gains exactly that row.
   */
  lemma CreateSucceeds(req: CreateUserRequest, db: Table, env: Env)
    requires TableValid(db) && db.nextId <= MaxSerial
    requires req.firstName != "" && req.lastName != "" && env.storeFault.None?
    ensures var o := CreateSpec(Decoded(req), db, env);
      var u := User(db.nextId, req.firstName, req.lastName);
      o.reply == Reply(StatusCreated, JsonHeaders, [JsonBody(ResponseJson(CreateUserResponse(u)))]) &&
      DecodeUser(o.reply.body[0].value) == Some(u) &&
      db.nextId !in db.rows && o.db.rows == db.rows[db.nextId := Row(req.firstName, req.lastName)] &&
      o.calls == [CreateCall(User(0, req.firstName, req.lastName))] && o.log == []
  {
    DecodeResponseJson(CreateUserResponse(User(db.nextId, req.firstName, req.lastName)));
  }

  /** The outcome of a valid create whose insert succeeds, in the terms StoreAndAnswer reaches it. */
  lemma CreatedOutcome(req: CreateUserRequest, db: Table, env: Env)
    requires TableValid(db) && ValidationError(req).None?
    requires Insert(db, Row(req.firstName, req.lastName), env.storeFault).Success?
    ensures var ins := Insert(db, Row(req.firstName, req.lastName), env.storeFault).value;
      CreateSpec(Decoded(req), db, env) ==
      Outcome(Reply(StatusCreated, JsonHeaders, [JsonBody(ResponseJson(CreateUserResponse(User(ins.id, req.firstName, req.lastName))))]),
              [CreateCall(User(0, req.firstName, req.lastName))], ins.table, [])
  {
  }

  /** A valid request the store refuses answers 500 and leaves the table as it was. */
  lemma CreateStoreFails(req: CreateUserRequest, db: Table, env: Env)
    requires TableValid(db) && req.firstName != "" && req.lastName != "" && env.storeFault.Some?
    ensures var o := CreateSpec(Decoded(req), db, env);
      o.reply.status == StatusInternalServerError && o.db == db &&
      o.calls == [CreateCall(User(0, req.firstName, req.lastName))]
  {
  }

  /**
   * Round trip through the service: after a successful create, a GET with the
   * id the reply carries, spelled in decimal, answers 200 with the same names.
   */
  lemma CreateThenGet(req: CreateUserRequest, db: Table, env: Env)
    requires TableValid(db) && db.nextId <= MaxSerial
    requires req.firstName != "" && req.lastName != ""
    requires env.storeFault.None? && !env.userMarshalFails
    ensures var created := CreateSpec(Decoded(req), db, env);
      created.reply.status == StatusCreated &&
      var u := User(db.nextId, req.firstName, req.lastName);
      created.reply.body == [JsonBody(ResponseJson(CreateUserResponse(u)))] &&
      GetByIdSpec(FormatInt(u.id), created.db, env).reply == Reply(StatusOK, JsonHeaders, [JsonBody(UserJson(u))])
  {
    CreateSucceeds(req, db, env);
    var created := CreateSpec(Decoded(req), db, env);
    AtoiFormatInt(db.nextId);
    assert FormatInt(db.nextId) != "";
    GetFound(FormatInt(db.nextId), created.db, env);
  }

  /** The handler test's three GET cases, against a table holding (123, John, Doe). */
  lemma GetByIdTestCases(env: Env)
    requires env == Env(None, false, None)
    ensures var db := Table(map[123 := Row("John", "Doe")], 124);
      var found := GetByIdSpec("123", db, env);
      var missing := GetByIdSpec("456", db, env);
      var empty := GetByIdSpec("", db, env);
      found.reply.status == 200 && found.calls == [GetCall(123)] &&
      DecodeUser(found.reply.body[0].value) == Some(User(123, "John", "Doe")) &&
      missing.reply == Reply(404, JsonHeaders, [JsonBody(ErrorResponse("[404] " + "User Not Found").ToJson())]) &&
      missing.calls == [GetCall(456)] &&
      empty.reply == Reply(400, JsonHeaders, [JsonBody(ErrorResponse("[400] " + "Bad Request").ToJson())]) &&
      empty.calls == []
  {
    var db := Table(map[123 := Row("John", "Doe")], 124);
    assert Atoi("123") == Some(123) by {
      AtoiExamples();
    }
    assert Atoi("456") == Some(456) by {
      assert "456"[..2] == "45" && "45"[..1] == "4" && "4"[..0] == "";
    }
    assert GetByIdSpec("123", db, env).calls == [GetCall(123)];
    assert DecodeUser(GetByIdSpec("123", db, env).reply.body[0].value) == Some(User(123, "John", "Doe")) by {
      GetFound("123", db, env);
    }
    assert GetByIdSpec("456", db, env).reply ==
      Reply(404, JsonHeaders, [JsonBody(ErrorResponse("[404] " + "User Not Found").ToJson())]) by {
      GetNotFound("456", db, env);
    }
    assert GetByIdSpec("", db, env).reply ==
      Reply(400, JsonHeaders, [JsonBody(ErrorResponse("[400] " + "Bad Request").ToJson())]) by {
      StatusTexts("Bad Request");
    }
  }

  /** Creating Jane Roe in an empty table answers 201 with id 1. */
  lemma CreateOnEmptyTable(env: Env)
    requires env.storeFault.None?
    ensures var o := CreateSpec(Decoded(CreateUserRequest("Jane", "Roe")), EmptyTable, env);
      o.reply.status == 201 && DecodeUser(o.reply.body[0].value) == Some(User(1, "Jane", "Roe"))
  {
    CreateSucceeds(CreateUserRequest("Jane", "Roe"), EmptyTable, env);
  }

  class UserHandler {
    const Log: Logger
    const UserRepo: UserRepositoryImpl

    constructor NewUserHandler(logger: Logger, userRepo: UserRepositoryImpl)
      ensures Log == logger && UserRepo == userRepo
    {
      Log := logger;
      UserRepo := userRepo;
    }

    /**
     * The writer, repository and log show outcome `o`, given what they held
     * before: the reply was sent with one status and no superfluous one, the
     * table and call record are `o`'s, and `o`'s log entries were added.
     */
    ghost predicate Answered(w: ResponseWriter, header0: map<string, string>, superfluous0: nat,
                             calls0: seq<Call>, log0: seq<Entry>, o: Outcome)
      reads w, Log, UserRepo
    {
      w.Shows(header0, o.reply) && w.superfluous == superfluous0 &&
      UserRepo.Valid() && UserRepo.db == o.db && UserRepo.calls == calls0 + o.calls &&
      Log.entries == log0 + o.log
    }

    method UserHandler(w: ResponseWriter, r: Request, env: Env)
      requires w.Unsent() && UserRepo.Valid()
      modifies w, Log, UserRepo
      ensures Answered(w, old(w.header), old(w.superfluous), old(UserRepo.calls), old(Log.entries),
                       ServeSpec(r, old(UserRepo.db), env))
    {
      if r.verb == "GET" {
        GetByIdHandler(w, r, env);
      } else if r.verb == "POST" {
        CreateHandler(w, r, env);
      } else {
        Http.Error(w, InvalidMethod, StatusMethodNotAllowed);
        Log.Error(InvalidMethod, [Field("method", r.verb)]);
      }
    }

    method GetByIdHandler(w: ResponseWriter, r: Request, env: Env)
      requires w.Unsent() && UserRepo.Valid()
      modifies w, Log, UserRepo
      ensures Answered(w, old(w.header), old(w.superfluous), old(UserRepo.calls), old(Log.entries),
                       GetByIdSpec(r.userID, old(UserRepo.db), env))
    {
      ghost var db0 := UserRepo.db;
      var idStr := r.userID;
      if idStr == "" {
        assert GetByIdSpec(r.userID, db0, env) ==
          JsonError(Config.ErrEmptyUserID, StatusBadRequest, [SomeErrorOccurred], env, [], db0);
        HandleJSONError(w, Config.ErrEmptyUserID, StatusBadRequest, Log, [SomeErrorOccurred], env.envelopeFault);
        return;
      }
      var parsed := Atoi(idStr);
      if parsed.None? {
        assert GetByIdSpec(r.userID, db0, env) ==
          JsonError(Config.ErrInvalidUserID, StatusBadRequest, [SomeErrorOccurred], env, [], db0);
        HandleJSONError(w, Config.ErrInvalidUserID, StatusBadRequest, Log, [SomeErrorOccurred], env.envelopeFault);
        return;
      }
      var user := UserRepo.GetUserByID(parsed.value, env.storeFault);
      assert GetByIdSpec(r.userID, db0, env) == LookupOutcome(user, env, [GetCall(parsed.value)], db0);
      if user.Failure? {
        if user.error == ErrUserNotFound {
          HandleJSONError(w, Config.ErrUserNotFound, StatusNotFound, Log, [SomeErrorOccurred], env.envelopeFault);
          return;
        }
        HandleJSONError(w, Config.ErrFetchingUser, StatusInternalServerError, Log, [SomeErrorOccurred], env.envelopeFault);
        return;
      }
      if env.userMarshalFails {
        HandleJSONError(w, Config.ErrMarshallingUser, StatusInternalServerError, Log, [SomeErrorOccurred], env.envelopeFault);
        return;
      }
      ghost var h0 := w.header;
      w.SetHeader(ContentType, ApplicationJson);
      w.Write(JsonBody(UserJson(user.value)));
      assert w.header == h0 + JsonHeaders;
      assert GetByIdSpec(r.userID, db0, env) ==
        Outcome(Reply(StatusOK, JsonHeaders, [JsonBody(UserJson(user.value))]), [GetCall(parsed.value)], db0, []);
    }

    method CreateHandler(w: ResponseWriter, r: Request, env: Env)
      requires w.Unsent() && UserRepo.Valid()
      modifies w, Log, UserRepo
      ensures Answered(w, old(w.header), old(w.superfluous), old(UserRepo.calls), old(Log.entries),
                       CreateSpec(r.body, old(UserRepo.db), env))
    {
      ghost var db0 := UserRepo.db;
      if r.body.Malformed? {
        assert CreateSpec(r.body, db0, env) ==
          JsonError("Bad Request", StatusBadRequest, ["Failed to decode request body"], env, [], db0);
        HandleJSONError(w, "Bad Request", StatusBadRequest, Log, ["Failed to decode request body"], env.envelopeFault);
        return;
      }
      var req := r.body.req;
      var err := ValidateCreateUserRequest(req);
      if err.Some? {
        assert CreateSpec(r.body, db0, env) ==
          JsonError("Bad Request", StatusBadRequest, ["Validation error:", err.value], env, [], db0);
        HandleJSONError(w, "Bad Request", StatusBadRequest, Log, ["Validation error:", err.value], env.envelopeFault);
        return;
      }
      StoreAndAnswer(w, req, env);
    }

    /** The rest of CreateHandler once the request is valid: map it, store it, answer 201 or 500. */
    method StoreAndAnswer(w: ResponseWriter, req: CreateUserRequest, env: Env)
      requires w.Unsent() && UserRepo.Valid() && ValidationError(req).None?
      modifies w, Log, UserRepo
      ensures Answered(w, old(w.header), old(w.superfluous), old(UserRepo.calls), old(Log.entries),
                       CreateSpec(Decoded(req), old(UserRepo.db), env))
    {
      ghost var db0 := UserRepo.db;
      var user := new UserVar(MapCreateUserRequestToUser(req));
      ghost var ins := Insert(db0, Row(req.firstName, req.lastName), env.storeFault);
      var createErr := UserRepo.CreateUser(user, env.storeFault);
      if createErr.Some? {
        assert CreateSpec(Decoded(req), db0, env) == JsonError("Internal Server Error", StatusInternalServerError,
          ["Failed to create user"], env, [CreateCall(User(0, req.firstName, req.lastName))], db0);
        HandleJSONError(w, "Internal Server Error", StatusInternalServerError, Log, ["Failed to create user"], env.envelopeFault);
        return;
      }
      assert ins.Success? && user.val == User(ins.value.id, req.firstName, req.lastName);
      ghost var h0 := w.header;
      var res := MapUserToCreateUserResponse(user.val);
      w.SetHeader(ContentType, ApplicationJson);
      w.WriteHeader(StatusCreated);
      w.Write(JsonBody(ResponseJson(res)));
      CreatedOutcome(req, db0, env);
      assert w.header == h0 + JsonHeaders;
    }
  }
}
