/**
 * The users repository (user/repository/user.go). The SQL store is replaced by
 * an in-memory `users` table: a map from id to the two name columns and the
 * next value of the `id SERIAL` sequence. What the store does besides answering
 * (a lost connection, a timeout, a driver error) is the `fault` parameter of
 * each call: when present, the store reports that error and the table is left
 * as it was. An injected error wins over any row the query would have found.
 */
module Repository {
  import opened Wrappers
  import opened Model
  import Strconv

  /** The errors the repository can return. */
  datatype Error =
    | ErrNoRows              // database/sql's sentinel for a row query that matched nothing
    | ErrUserNotFound        // the repository's own not-found sentinel
    | StoreError(msg: string) // any other failure of the store, passed on as it is

  /** A SERIAL column is a 32-bit integer: the sequence stops at 2^31 - 1. */
  const MaxSerial: int := 0x7fff_ffff

  /** The least value of the 32-bit `id` column. */
  const MinColumn: int := -0x8000_0000

  /** A value the `id` column can hold; PostgreSQL refuses a query parameter outside this range. */
  predicate InColumnRange(id: int)
  {
    MinColumn <= id <= MaxSerial
  }

  /** The store's error for a query parameter the `id` column cannot hold. */
  function OutOfRange(id: int): Error
  {
    StoreError("pq: value \"" + Strconv.FormatInt(id) + "\" is out of range for type integer")
  }

  const SequenceExhausted: Error :=
    StoreError("pq: nextval: reached maximum value of sequence \"users_id_seq\" (2147483647)")

  datatype Row = Row(firstName: string, lastName: string)

  /** The `users` table and the next value of its id sequence. */
  datatype Table = Table(rows: map<int, Row>, nextId: int)

  /** Every id was drawn from the sequence: positive and below its next value. */
  predicate TableValid(t: Table)
  {
    1 <= t.nextId <= MaxSerial + 1 && forall id :: id in t.rows ==> 1 <= id < t.nextId
  }

  /** The table as the startup DDL leaves it on a fresh database. */
  const EmptyTable: Table := Table(map[], 1)

  datatype Inserted = Inserted(table: Table, id: int)

  /** `INSERT INTO users (first_name, last_name) VALUES ($1, $2) RETURNING id`. */
  function Insert(t: Table, row: Row, fault: Option<Error>): (r: Result<Inserted, Error>)
    requires TableValid(t)
    ensures fault.Some? ==> r == Failure(fault.value)
    ensures fault.None? ==> (r.Success? <==> t.nextId <= MaxSerial)
    ensures r.Success? ==>
      TableValid(r.value.table) && 1 <= r.value.id <= MaxSerial && r.value.id !in t.rows &&
      r.value.table.rows == t.rows[r.value.id := row]
  {
    if fault.Some? then Failure(fault.value)
    else if t.nextId > MaxSerial then Failure(SequenceExhausted)
    else Success(Inserted(Table(t.rows[t.nextId := row], t.nextId + 1), t.nextId))
  }

  /**
   * `SELECT first_name, last_name, id FROM users WHERE id = $1` followed by
   * Scan: an injected fault, the store's refusal of an id outside the column's
   * range, the row, or "no rows".
   */
  function Select(t: Table, id: int, fault: Option<Error>): (r: Result<User, Error>)
    ensures fault.Some? ==> r == Failure(fault.value)
    ensures fault.None? && !InColumnRange(id) ==> r == Failure(OutOfRange(id))
    ensures fault.None? && InColumnRange(id) ==> (r.Success? <==> id in t.rows) && (r.Failure? ==> r.error == ErrNoRows)
    ensures r.Success? ==> id in t.rows && r.value == User(id, t.rows[id].firstName, t.rows[id].lastName)
  {
    if fault.Some? then Failure(fault.value)
    else if !InColumnRange(id) then Failure(OutOfRange(id))
    else if id in t.rows then Success(User(id, t.rows[id].firstName, t.rows[id].lastName))
    else Failure(ErrNoRows)
  }

  /** The outcome of GetUserByID: the query's, with "no rows" turned into the not-found sentinel. */
  function Lookup(t: Table, id: int, fault: Option<Error>): (r: Result<User, Error>)
    ensures r.Success? ==> id in t.rows && r.value == User(id, t.rows[id].firstName, t.rows[id].lastName)
    ensures fault.None? && InColumnRange(id) ==> (r.Success? <==> id in t.rows)
    ensures fault.None? && InColumnRange(id) && r.Failure? ==> r.error == ErrUserNotFound
    ensures fault.None? && !InColumnRange(id) ==> r == Failure(OutOfRange(id)) && r != Failure(ErrUserNotFound)
    ensures fault.Some? ==> r == Failure(if fault.value == ErrNoRows then ErrUserNotFound else fault.value)
  {
    match Select(t, id, fault)
    case Success(u) => Success(u)
    case Failure(e) => if e == ErrNoRows then Failure(ErrUserNotFound) else Failure(e)
  }

  /** A call made through the UserRepository interface. */
  datatype Call = CreateCall(user: User) | GetCall(id: int)

  /** A caller's `*model.User`: CreateUser writes the assigned id through it. */
  class UserVar {
    var val: User

    constructor (u: User)
      ensures val == u
    {
      val := u;
    }
  }

  /** UserRepositoryImpl over the in-memory table. */
  class UserRepositoryImpl {
    var db: Table
    /** The calls made so far, as a test's mock repository records them. */
    ghost var calls: seq<Call>

    ghost predicate Valid()
      reads this
    {
      TableValid(db)
    }

    constructor (db: Table)
      requires TableValid(db)
      ensures Valid() && this.db == db && calls == []
    {
      this.db := db;
      calls := [];
    }

    /**
     * CreateUser: insert the names; on success write the assigned id into the
     * caller's User and return no error; on failure return the store's error
     * unchanged and leave both the table and the caller's User as they were.
     */
    method CreateUser(user: UserVar, fault: Option<Error>) returns (err: Option<Error>)
      requires Valid()
      modifies this, user
      ensures Valid()
      ensures calls == old(calls) + [CreateCall(old(user.val))]
      ensures match Insert(old(db), Row(old(user.val).firstName, old(user.val).lastName), fault)
        case Success(ins) => err == None && db == ins.table && user.val == old(user.val).(id := ins.id)
        case Failure(e) => err == Some(e) && db == old(db) && user.val == old(user.val)
    {
      calls := calls + [CreateCall(user.val)];
      match Insert(db, Row(user.val.firstName, user.val.lastName), fault)
      case Failure(e) =>
        return Some(e);
      case Success(ins) =>
        db := ins.table;
        user.val := user.val.(id := ins.id);
        return None;
    }

    /**
     * GetUserByID: the row with the requested id, the not-found sentinel when
     * there is none, or the store's error unchanged. The table is not changed.
     */
    method GetUserByID(id: int, fault: Option<Error>) returns (res: Result<User, Error>)
      requires Valid()
      modifies this`calls
      ensures db == old(db) && calls == old(calls) + [GetCall(id)]
      ensures res == Lookup(db, id, fault)
    {
      calls := calls + [GetCall(id)];
      var row := Select(db, id, fault);
      if row.Failure? {
        if row.error == ErrNoRows {
          return Failure(ErrUserNotFound);
        }
        return Failure(row.error);
      }
      var user := User(0, "", "");
      user := user.(firstName := row.value.firstName, lastName := row.value.lastName, id := row.value.id);
      return Success(user);
    }
  }

  /**
   * Round trip: the row an insert creates reads back under the id it was
   * given, and every other id reads as it did before.
   */
  lemma InsertThenLookup(t: Table, row: Row)
    requires TableValid(t) && t.nextId <= MaxSerial
    ensures Insert(t, row, None).Success?
    ensures var ins := Insert(t, row, None).value;
      Lookup(ins.table, ins.id, None) == Success(User(ins.id, row.firstName, row.lastName)) &&
      forall j :: j != ins.id ==> Lookup(ins.table, j, None) == Lookup(t, j, None)
  {
  }

  /** Ids are fresh: successive inserts get distinct ids and neither overwrites a row. */
  lemma InsertsGetDistinctIds(t: Table, r1: Row, r2: Row)
    requires TableValid(t) && t.nextId < MaxSerial
    ensures var i1 := Insert(t, r1, None);
      i1.Success? && var i2 := Insert(i1.value.table, r2, None);
      i2.Success? && i1.value.id != i2.value.id &&
      i2.value.table.rows == t.rows[i1.value.id := r1][i2.value.id := r2]
  {
  }

  /** The repository test's cases: a stored row, a missing id, and injected errors passed on as they are. */
  lemma GetUserByIDTestCases()
    ensures var t := Table(map[123 := Row("John", "Doe")], 124);
      Lookup(t, 123, None) == Success(User(123, "John", "Doe")) &&
      Lookup(t, 456, None) == Failure(ErrUserNotFound) &&
      Lookup(t, 456, Some(ErrUserNotFound)) == Failure(ErrUserNotFound) &&
      Lookup(t, 789, Some(StoreError("some error"))) == Failure(StoreError("some error"))
  {
  }
}
