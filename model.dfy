/**
 * The three records of the users service (user/model/user.go), their
 * `validate:"required"` rule and their JSON shape under the `json` tags.
 */
module Model {
  import opened Wrappers
  import Json
  import Strconv

  /** A row of the `users` table. `id` is assigned by the store and is 0 until then. */
  datatype User = User(id: int, firstName: string, lastName: string)

  /** The body of a create request: the two names, both required. */
  datatype CreateUserRequest = CreateUserRequest(firstName: string, lastName: string)

  /** The body of a create reply. It embeds a User, whose fields are promoted. */
  datatype CreateUserResponse = CreateUserResponse(user: User)
  {
    function ID(): int { user.id }
    function FirstName(): string { user.firstName }
    function LastName(): string { user.lastName }
  }

  /** `validate:"required"` on a string field: the zero value "" is missing. */
  predicate Present(s: string) { s != "" }

  /**
   * The names of the required fields that are missing, in the order the fields
   * are declared: what the validator reports for a struct whose only tagged
   * fields are FirstName and LastName.
   */
  function MissingNames(firstName: string, lastName: string): (fields: seq<string>)
    ensures fields == [] <==> Present(firstName) && Present(lastName)
    ensures "FirstName" in fields <==> !Present(firstName)
    ensures "LastName" in fields <==> !Present(lastName)
    ensures |fields| <= 2
    ensures |fields| == 2 ==> fields == ["FirstName", "LastName"]
  {
    (if Present(firstName) then [] else ["FirstName"]) + (if Present(lastName) then [] else ["LastName"])
  }

  /** The fields of a create request that fail validation. */
  function RequestViolations(req: CreateUserRequest): (fields: seq<string>)
    ensures fields == [] <==> Present(req.firstName) && Present(req.lastName)
  {
    MissingNames(req.firstName, req.lastName)
  }

  /** The fields of a User that would fail validation. The id takes no part. */
  function UserViolations(u: User): (fields: seq<string>)
    ensures fields == [] <==> Present(u.firstName) && Present(u.lastName)
  {
    MissingNames(u.firstName, u.lastName)
  }

  /** Only the names are tagged: changing the id never changes what validation reports. */
  lemma IdNotValidated(u: User, id: int)
    ensures UserViolations(u.(id := id)) == UserViolations(u)
  {
  }

  /** The members of a User under its `json` tags, in field order. */
  function UserMembers(u: User): seq<(string, Json.Value)>
  {
    [("id", Json.Int(u.id)), ("firstName", Json.String(u.firstName)), ("lastName", Json.String(u.lastName))]
  }

  function UserJson(u: User): Json.Value
  {
    Json.Object(UserMembers(u))
  }

  /** The embedded User's members are promoted: the reply is a flat object. */
  function ResponseJson(r: CreateUserResponse): Json.Value
  {
    Json.Object(UserMembers(r.user))
  }

  /** A number a Go `int` (64 bits) can hold. */
  predicate FitsInt(n: int)
  {
    Strconv.MinInt <= n <= Strconv.MaxInt
  }

  /** Every member named `key` is a number an `int` field can hold. */
  predicate IntsOnly(members: seq<(string, Json.Value)>, key: string)
  {
    forall i :: 0 <= i < |members| && members[i].0 == key ==> members[i].1.Int? && FitsInt(members[i].1.n)
  }

  /** Every member named `key` is a string. */
  predicate StringsOnly(members: seq<(string, Json.Value)>, key: string)
  {
    forall i :: 0 <= i < |members| && members[i].0 == key ==> members[i].1.String?
  }

  /**
   * A member decoded into an `int` field: absent leaves 0. A member of another
   * type, or a number outside the 64-bit range, is a type error; encoding/json
   * records the first one, decodes the remaining members and still fails, so
   * one such member anywhere fails the whole decode.
   */
  function IntField(members: seq<(string, Json.Value)>, key: string): (r: Option<int>)
    ensures r.Some? ==> FitsInt(r.value)
    ensures r.Some? <==> IntsOnly(members, key)
  {
    Json.MemberIsLast(members, key);
    if !IntsOnly(members, key) then None
    else match Json.Member(members, key)
      case None => Some(0)
      case Some(Int(n)) => Some(n)
      case Some(_) => None
  }

  /** A member decoded into a `string` field: absent leaves "", a non-string anywhere fails. */
  function StringField(members: seq<(string, Json.Value)>, key: string): (r: Option<string>)
    ensures r.Some? <==> StringsOnly(members, key)
  {
    Json.MemberIsLast(members, key);
    if !StringsOnly(members, key) then None
    else match Json.Member(members, key)
      case None => Some("")
      case Some(String(s)) => Some(s)
      case Some(_) => None
  }

  /**
   * Decoding a JSON value into a User, as encoding/json does for the tagged
   * fields: an absent member leaves the zero value, a repeated one keeps its
   * last value, and a member of the wrong type or an id beyond 64 bits fails
   * the decode wherever it occurs. Keys are matched exactly (see the README
   * for case variants).
   */
  function DecodeUser(v: Json.Value): (r: Option<User>)
    ensures r.Some? ==> v.Object?
    ensures r.Some? ==> FitsInt(r.value.id)
    ensures r.Some? ==> IntsOnly(v.members, "id") && StringsOnly(v.members, "firstName") && StringsOnly(v.members, "lastName")
  {
    match v
    case Object(m) =>
      (match (IntField(m, "id"), StringField(m, "firstName"), StringField(m, "lastName"))
       case (Some(id), Some(f), Some(l)) => Some(User(id, f, l))
       case _ => None)
    case _ => None
  }

  /** A User reads back field for field from its JSON exactly when a Go `int` can hold its id. */
  lemma DecodeUserJson(u: User)
    ensures DecodeUser(UserJson(u)) == if FitsInt(u.id) then Some(u) else None
  {
    var m := UserMembers(u);
    assert Json.Member(m, "lastName") == Some(Json.String(u.lastName));
    assert Json.Member(m, "firstName") == Json.Member(m[..2], "firstName") == Some(Json.String(u.firstName));
    assert Json.Member(m, "id") == Json.Member(m[..2], "id") == Json.Member(m[..2][..1], "id")
      == Some(Json.Int(u.id));
    assert !FitsInt(u.id) ==> !IntsOnly(m, "id") by {
      assert m[0].0 == "id";
    }
  }

  /**
   * A repeated member keeps its last value; members that name no field are
   * ignored; a mistyped member fails the decode even when a well-typed one
   * follows it; an id beyond 64 bits fails it too.
   */
  lemma DecodeUserDuplicates()
    ensures DecodeUser(Json.Object([("id", Json.Int(1)), ("id", Json.Int(2))])) == Some(User(2, "", ""))
    ensures DecodeUser(Json.Object([("firstName", Json.String("A")), ("email", Json.String("x")),
                                    ("firstName", Json.String("B"))])) == Some(User(0, "B", ""))
    ensures DecodeUser(Json.Object([("id", Json.String("1"))])) == None
    ensures DecodeUser(Json.Object([("id", Json.String("x")), ("id", Json.Int(1))])) == None
    ensures DecodeUser(Json.Object([("lastName", Json.Int(1)), ("lastName", Json.String("Roe"))])) == None
    ensures DecodeUser(Json.Object([("id", Json.Int(Strconv.MaxInt + 1))])) == None
  {
    var bad := [("id", Json.String("x")), ("id", Json.Int(1))];
    assert bad[0].0 == "id" && !bad[0].1.Int?;
    var badName := [("lastName", Json.Int(1)), ("lastName", Json.String("Roe"))];
    assert badName[0].0 == "lastName" && !badName[0].1.String?;
    var big := [("id", Json.Int(Strconv.MaxInt + 1))];
    assert big[0].0 == "id" && !FitsInt(big[0].1.n);
    var d := [("id", Json.Int(1)), ("id", Json.Int(2))];
    assert Json.Member(d, "firstName") == Json.Member(d[..1], "firstName") == Json.Member(d[..1][..0], "firstName") == None;
    assert Json.Member(d, "lastName") == Json.Member(d[..1], "lastName") == Json.Member(d[..1][..0], "lastName") == None;
    var m := [("firstName", Json.String("A")), ("email", Json.String("x")), ("firstName", Json.String("B"))];
    assert Json.Member(m, "id") == Json.Member(m[..2], "id") == Json.Member(m[..2][..1], "id") == None;
    assert Json.Member(m, "lastName") == Json.Member(m[..2], "lastName") == Json.Member(m[..2][..1], "lastName") == None;
  }

  /** A create reply reads back as exactly the User it wraps. */
  lemma DecodeResponseJson(r: CreateUserResponse)
    ensures DecodeUser(ResponseJson(r)) == if FitsInt(r.user.id) then Some(r.user) else None
    ensures r.ID() == r.user.id && r.FirstName() == r.user.firstName && r.LastName() == r.user.lastName
  {
    DecodeUserJson(r.user);
  }
}
