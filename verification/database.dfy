/** The database service of pkg/database/database.go: the `users` table with its
    constraints, `CreateUser` with the `user_created` job it enqueues, `GetUserByID`, and
    the conversion from a stored row to the API's user. JSON encoding, the database's
    own faults and the clock are inputs. */
module Database {
  import opened Wrappers
  import opened Json
  import opened Users
  import opened JobStore
  import opened JobQueue

  /** One `users` row (timestamps are not modelled). */
  datatype UserRow = UserRow(
    id: int,
    email: string,
    age: int,
    name: Option<string>,
    bio: Option<string>,
    isActive: bool,
    additionalData: Option<string>)

  /** The rows by id and the next AUTOINCREMENT value. */
  datatype UserTable = UserTable(rows: map<int, UserRow>, nextId: int)

  /** Both tables of the service's database. */
  datatype Db = Db(users: UserTable, jobs: Table)

  /** Ids positive, below the counter and matching their key; emails unique; ages not negative. */
  predicate ValidUsers(u: UserTable) {
    u.nextId >= 1 &&
    (forall id :: id in u.rows ==> 1 <= id < u.nextId && u.rows[id].id == id && u.rows[id].age >= 0) &&
    (forall a, b :: a in u.rows && b in u.rows && u.rows[a].email == u.rows[b].email ==> a == b)
  }

  predicate ValidDb(d: Db) {
    ValidUsers(d.users) && Valid(d.jobs)
  }

  /** Whether some row already has this email. */
  predicate EmailTaken(u: UserTable, email: string) {
    exists id :: id in u.rows && u.rows[id].email == email
  }

  /** The constraint messages SQLite reports (the driver's decoration is not modelled). */
  const AgeCheckFailed := "CHECK constraint failed: age >= 0"
  const EmailNotUnique := "UNIQUE constraint failed: users.email"

  /** The parameters `CreateUser` passes to the insert. */
  datatype CreateUserParams = CreateUserParams(
    email: string,
    age: int,
    name: Option<string>,
    bio: Option<string>,
    isActive: bool,
    additionalData: Option<string>)

  /** The `users` insert: a database fault, then the CHECK constraint on age, then the
      UNIQUE constraint on email (SQLite checks CHECK constraints before uniqueness). */
  function InsertUser(u: UserTable, p: CreateUserParams, fault: Option<string>): (r: Result<(UserTable, UserRow), string>)
    ensures fault.Some? ==> r == Failure(fault.value)
    ensures fault.None? ==> (r.Success? <==> p.age >= 0 && !EmailTaken(u, p.email))
    ensures fault.None? && p.age < 0 ==> r == Failure(AgeCheckFailed)
    ensures fault.None? && p.age >= 0 && EmailTaken(u, p.email) ==> r == Failure(EmailNotUnique)
    ensures r.Success? ==>
      var (u', row) := r.value;
      row == UserRow(u.nextId, p.email, p.age, p.name, p.bio, p.isActive, p.additionalData) &&
      u'.rows == u.rows[row.id := row] && u'.nextId == u.nextId + 1
    ensures r.Success? && ValidUsers(u) ==> ValidUsers(r.value.0) && r.value.1.id !in u.rows
  {
    if fault.Some? then Failure(fault.value)
    else if p.age < 0 then Failure(AgeCheckFailed)
    else if EmailTaken(u, p.email) then Failure(EmailNotUnique)
    else
      var row := UserRow(u.nextId, p.email, p.age, p.name, p.bio, p.isActive, p.additionalData);
      var u' := UserTable(u.rows[row.id := row], u.nextId + 1);
      assert forall a :: a in u.rows ==> u.rows[a].email != p.email;
      Success((u', row))
  }

  /** Two users with the same email: the second insert is always rejected. */
  lemma SecondSameEmailRejected(u: UserTable, p: CreateUserParams, q: CreateUserParams)
    requires InsertUser(u, p, None).Success? && q.email == p.email && q.age >= 0
    ensures InsertUser(InsertUser(u, p, None).value.0, q, None) == Failure(EmailNotUnique)
  {
    var (u', row) := InsertUser(u, p, None).value;
    assert u'.rows[row.id].email == q.email;
  }

  /** `convertDBUserToGenerated`: copy id, email and age, set name and bio only when the
      column is not NULL, and always set `is_active`. */
  function ToUser(row: UserRow): (user: User)
    ensures user.id == row.id && user.email == row.email && user.age == row.age
    ensures user.name == row.name && user.bio == row.bio
    ensures user.isActive == Some(row.isActive)
  {
    User(row.id, row.email, row.age, row.name, row.bio, Some(row.isActive))
  }

  /** The insert parameters for a request: name and bio only when given, `is_active`
      true unless given, and the encoded additional properties. */
  function ParamsFor(req: UserRequest, additionalData: Option<string>): (p: CreateUserParams)
    ensures p.email == req.email && p.age == req.age
    ensures p.name == req.name && p.bio == req.bio
    ensures req.isActive.None? ==> p.isActive
    ensures req.isActive.Some? ==> p.isActive == req.isActive.value
    ensures p.additionalData == additionalData
  {
    CreateUserParams(req.email, req.age, req.name, req.bio, req.isActive.GetOr(true), additionalData)
  }

  /** A Go `*string` as a JSON value: `null` when nil. */
  function OptString(s: Option<string>): Json {
    match s
    case None => JNull
    case Some(v) => JString(v)
  }

  /** A Go `*bool` as a JSON value: `null` when nil. */
  function OptBool(b: Option<bool>): Json {
    match b
    case None => JNull
    case Some(v) => JBool(v)
  }

  /** The payload of the `user_created` job: the user's id, a user-data object with its
      six fields, and the additional properties as given. */
  function UserCreatedPayload(user: User, props: map<string, Json>): (p: JobPayload)
    ensures p.userId == Some(user.id) && p.additionalProps == props
    ensures p.userData.Keys == {"id", "email", "age", "name", "bio", "is_active"}
    ensures p.userData["id"] == JNumber(user.id) && p.userData["email"] == JString(user.email)
    ensures p.userData["age"] == JNumber(user.age) && p.userData["name"] == OptString(user.name)
    ensures p.userData["bio"] == OptString(user.bio) && p.userData["is_active"] == OptBool(user.isActive)
    ensures p.message == "" && p.recipients == [] && p.validationMode == ""
  {
    JobPayload(Some(user.id),
      map["id" := JNumber(user.id), "email" := JString(user.email), "age" := JNumber(user.age),
          "name" := OptString(user.name), "bio" := OptString(user.bio), "is_active" := OptBool(user.isActive)],
      props, "", [], "")
  }

  /** The outcome of a user operation: the database afterwards, the job-queue queries
      issued, and the result. */
  datatype UserStep = UserStep(db: Db, issued: seq<Query>, result: Result<User, string>)

  /** The priority of the `user_created` job. */
  const UserCreatedPriority := 1

  /** `CreateUser`: encode the additional properties when there are any, insert the user,
      convert the row, and enqueue a `user_created` job, whose failure is ignored. */
  function CreateUser(d: Db, req: UserRequest, props: map<string, Json>,
                      marshalProps: map<string, Json> -> Result<string, string>, insertFault: Option<string>,
                      marshalJob: JobPayload -> Result<string, string>, jobFault: Option<string>,
                      now: Time): (r: UserStep)
    ensures |props| > 0 && marshalProps(props).Failure? ==>
      r == UserStep(d, [], Failure("failed to marshal additional properties: " + marshalProps(props).error))
    ensures r.result.Failure? ==> r.db == d && r.issued == []
    ensures (|props| == 0 || marshalProps(props).Success?) ==>
      var p := ParamsFor(req, if |props| > 0 then Some(marshalProps(props).value) else None);
      InsertUser(d.users, p, insertFault).Failure? ==>
      r.result == Failure("failed to create user: " + InsertUser(d.users, p, insertFault).error)
    ensures r.result.Success? <==>
      (|props| == 0 || marshalProps(props).Success?) &&
      InsertUser(d.users, ParamsFor(req, if |props| > 0 then Some(marshalProps(props).value) else None), insertFault).Success?
    ensures r.result.Success? ==>
      var additional := if |props| > 0 then Some(marshalProps(props).value) else None;
      var (u', row) := InsertUser(d.users, ParamsFor(req, additional), insertFault).value;
      var e := EnqueueJob(d.jobs, UserCreated, UserCreatedPayload(r.result.value, props), UserCreatedPriority,
                          marshalJob, jobFault, now);
      r.result.value == ToUser(row) && row.additionalData == additional &&
      r.db == Db(u', e.table) && r.issued == e.issued
  {
    var additional: Result<Option<string>, string> :=
      if |props| > 0 then
        match marshalProps(props)
        case Failure(e) => Failure("failed to marshal additional properties: " + e)
        case Success(s) => Success(Some(s))
      else Success(None);
    match additional
    case Failure(e) => UserStep(d, [], Failure(e))
    case Success(data) =>
      match InsertUser(d.users, ParamsFor(req, data), insertFault)
      case Failure(e) => UserStep(d, [], Failure("failed to create user: " + e))
      case Success((u', row)) =>
        var user := ToUser(row);
        var e := EnqueueJob(d.jobs, UserCreated, UserCreatedPayload(user, props), UserCreatedPriority,
                            marshalJob, jobFault, now);
        UserStep(Db(u', e.table), e.issued, Success(user))
  }

  /** `GetUserByID`: a fault is wrapped, a missing id is exactly "user not found", and a
      stored row is converted. */
  function GetUserByID(d: Db, id: int, fault: Option<string>): (r: Result<User, string>)
    ensures fault.Some? ==> r == Failure("failed to get user: " + fault.value)
    ensures fault.None? && id !in d.users.rows ==> r == Failure(UserNotFound)
    ensures fault.None? && id in d.users.rows ==> r == Success(ToUser(d.users.rows[id]))
  {
    if fault.Some? then Failure("failed to get user: " + fault.value)
    else if id !in d.users.rows then Failure(UserNotFound)
    else Success(ToUser(d.users.rows[id]))
  }

  const UserNotFound := "user not found"

  /** A created user reads back unchanged, with `is_active` defaulted to true. */
  lemma CreateThenGet(d: Db, req: UserRequest, props: map<string, Json>,
                      marshalProps: map<string, Json> -> Result<string, string>,
                      marshalJob: JobPayload -> Result<string, string>, jobFault: Option<string>, now: Time)
    requires CreateUser(d, req, props, marshalProps, None, marshalJob, jobFault, now).result.Success?
    ensures var r := CreateUser(d, req, props, marshalProps, None, marshalJob, jobFault, now);
      GetUserByID(r.db, r.result.value.id, None) == r.result &&
      r.result.value.email == req.email && r.result.value.age == req.age &&
      r.result.value.name == req.name && r.result.value.bio == req.bio &&
      r.result.value.isActive == Some(req.isActive.GetOr(true))
  {
  }

  /** After a successful insert exactly one `user_created` job with priority 1 is
      requested, carrying the new user's id and the given properties, and whether it is
      stored depends only on the job side, never on the user's result. */
  lemma CreateEnqueuesUserCreated(d: Db, req: UserRequest, props: map<string, Json>,
                                  marshalProps: map<string, Json> -> Result<string, string>,
                                  marshalJob: JobPayload -> Result<string, string>, jobFault: Option<string>, now: Time)
    requires ValidDb(d)
    requires CreateUser(d, req, props, marshalProps, None, marshalJob, jobFault, now).result.Success?
    ensures var r := CreateUser(d, req, props, marshalProps, None, marshalJob, jobFault, now);
      var payload := UserCreatedPayload(r.result.value, props);
      payload.userId == Some(r.result.value.id) && payload.additionalProps == props &&
      (marshalJob(payload).Success? ==>
        r.issued == [CreateJob(TypeName(UserCreated), marshalJob(payload).value, Some(1), Some(3), Some(now))]) &&
      (marshalJob(payload).Success? && jobFault.None? ==>
        |r.db.jobs.rows| == |d.jobs.rows| + 1) &&
      (marshalJob(payload).Failure? || jobFault.Some? ==> r.db.jobs == d.jobs) &&
      ValidDb(r.db)
  {
    var r := CreateUser(d, req, props, marshalProps, None, marshalJob, jobFault, now);
    var payload := UserCreatedPayload(r.result.value, props);
    var e := EnqueueJob(d.jobs, UserCreated, payload, UserCreatedPriority, marshalJob, jobFault, now);
    if e.result.Success? {
      assert e.result.value.id !in d.jobs.rows;
    }
  }
}
