/** The in-memory user handler, written three times in the repository with the same
    logic: `InMemoryUserHandler` in internal/handlers/handlers.go and cmd/server/main.go,
    and `UserHandler` in main.go. A map from id to user and a 64-bit id counter that
    starts at 1; Echo's request binding enters as its outcome. */
module MemoryStore {
  import opened Wrappers
  import opened Numbers
  import opened Users
  import opened Http

  datatype Store = Store(users: map<int, User>, nextId: int)

  /** The constructor: no users, next id 1. */
  function NewStore(): (s: Store)
    ensures |s.users| == 0 && s.nextId == 1
  {
    Store(map[], 1)
  }

  /** Go's `int64` increment, wrapping from the largest value to the smallest. */
  function Inc64(n: int): (m: int)
    requires InInt64(n)
    ensures InInt64(m)
    ensures n < MaxInt64 ==> m == n + 1
    ensures n == MaxInt64 ==> m == MinInt64
  {
    if n == MaxInt64 then MinInt64 else n + 1
  }

  /** Every stored user sits under its own id, below the counter, and ids are positive. */
  predicate Valid(s: Store) {
    1 <= s.nextId <= MaxInt64 &&
    forall id :: id in s.users ==> 1 <= id < s.nextId && s.users[id].id == id
  }

  /** The user a request becomes under a given id; optional fields are copied as given. */
  function UserFrom(id: int, req: UserRequest): (u: User)
    ensures u.id == id && u.email == req.email && u.age == req.age
    ensures u.name == req.name && u.bio == req.bio && u.isActive == req.isActive
  {
    User(id, req.email, req.age, req.name, req.bio, req.isActive)
  }

  /** `CreateUser`: a bind failure is 400 "Invalid JSON format" with the store untouched;
      otherwise the user is stored under the current counter, the counter advances, and
      the answer is 201 with the user. */
  function Create(s: Store, bound: Result<UserRequest, string>): (r: (Store, Response))
    requires InInt64(s.nextId)
    ensures bound.Failure? ==> r == (s, Response(StatusBadRequest, ErrorJson("Invalid JSON format")))
    ensures bound.Success? ==>
      var user := UserFrom(s.nextId, bound.value);
      r.1 == Response(StatusCreated, UserJson(user)) &&
      r.0.users == s.users[s.nextId := user] && r.0.nextId == Inc64(s.nextId)
    ensures bound.Success? ==> forall id :: id in s.users && id != s.nextId ==>
      id in r.0.users && r.0.users[id] == s.users[id]
    ensures InInt64(r.0.nextId)
  {
    match bound
    case Failure(_) => (s, Response(StatusBadRequest, ErrorJson("Invalid JSON format")))
    case Success(req) =>
      var user := UserFrom(s.nextId, req);
      (Store(s.users[s.nextId := user], Inc64(s.nextId)), Response(StatusCreated, UserJson(user)))
  }

  /** `GetUserById`: 200 with the stored user, or 404 "User not found". */
  function Get(s: Store, id: int): (r: Response)
    ensures id in s.users ==> r == Response(StatusOK, UserJson(s.users[id]))
    ensures id !in s.users ==> r == Response(StatusNotFound, ErrorJson("User not found"))
  {
    if id in s.users then Response(StatusOK, UserJson(s.users[id]))
    else Response(StatusNotFound, ErrorJson("User not found"))
  }

  /** Below the top of the 64-bit range a create keeps the store valid and uses a fresh id. */
  lemma CreateKeepsValid(s: Store, req: UserRequest)
    requires Valid(s) && s.nextId < MaxInt64
    ensures Valid(Create(s, Success(req)).0)
    ensures s.nextId !in s.users
  {
  }

  /** A created user reads back as created. */
  lemma CreateThenGet(s: Store, req: UserRequest)
    requires InInt64(s.nextId)
    ensures var (s', resp) := Create(s, Success(req));
      resp.status == StatusCreated && Get(s', s.nextId) == Response(StatusOK, resp.body)
  {
  }

  /** Creating from a sequence of requests, one after another. */
  function CreateAll(s: Store, reqs: seq<UserRequest>): Store
    requires InInt64(s.nextId)
    decreases |reqs|
  {
    if |reqs| == 0 then s
    else CreateAll(Create(s, Success(reqs[0])).0, reqs[1..])
  }

  /** From a fresh store, successive creates get ids 1, 2, 3, …: after `n` creates the
      user from the `k`-th request sits under id `k + 1`, and the counter is `n + 1`. */
  lemma {:induction false} CreateAllSequentialIds(s: Store, reqs: seq<UserRequest>)
    requires Valid(s) && s.nextId + |reqs| <= MaxInt64
    ensures Valid(CreateAll(s, reqs))
    ensures CreateAll(s, reqs).nextId == s.nextId + |reqs|
    ensures forall id :: s.nextId <= id < s.nextId + |reqs| ==>
      id in CreateAll(s, reqs).users && CreateAll(s, reqs).users[id] == UserFrom(id, reqs[id - s.nextId])
    ensures forall id :: id in s.users ==> id in CreateAll(s, reqs).users && CreateAll(s, reqs).users[id] == s.users[id]
    decreases |reqs|
  {
    if |reqs| > 0 {
      var s1 := Create(s, Success(reqs[0])).0;
      CreateKeepsValid(s, reqs[0]);
      CreateAllSequentialIds(s1, reqs[1..]);
      var f := CreateAll(s1, reqs[1..]);
      assert CreateAll(s, reqs) == f;
      forall id | s.nextId <= id < s.nextId + |reqs|
        ensures id in f.users && f.users[id] == UserFrom(id, reqs[id - s.nextId])
      {
        if id > s.nextId {
          assert reqs[1..][id - s1.nextId] == reqs[id - s.nextId];
        }
      }
    }
  }

  /** The numbering statement for a fresh store. */
  lemma FreshStoreIds(s: Store, reqs: seq<UserRequest>)
    requires s == NewStore() && |reqs| < MaxInt64
    ensures forall id :: 1 <= id <= |reqs| ==>
      id in CreateAll(s, reqs).users && CreateAll(s, reqs).users[id] == UserFrom(id, reqs[id - 1])
    ensures CreateAll(s, reqs).nextId == |reqs| + 1
  {
    CreateAllSequentialIds(s, reqs);
  }
}
