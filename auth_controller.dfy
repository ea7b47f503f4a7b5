/**
 * The account handlers: `registerUser`, `loginUser` and `getMe`. Password hashing,
 * password comparison and token signing are parameters (`hash`, `compare`, `sign`).
 */
module AuthController {
  import opened Wrappers
  import opened ApiErrors
  import opened JsString
  import opened Models
  import opened Persistence

  /** The rating a new user is given, which is also what their college's `totalElo` gains. */
  const DEFAULT_RATING: int := 1200

  /** A successful registration or login: the user without the password, and a signed token. */
  datatype Session = Session(user: PublicUser, token: string)

  /** The body of a registration request; an absent field is `None`. */
  datatype RegisterRequest = RegisterRequest(
    username: Option<string>,
    email: Option<string>,
    password: Option<string>,
    college: Option<string>)

  /**
   * `registerUser` as one transition of the store. `newId` is the id the store gives
   * the new user; `createOk` and `refetchOk` say whether `User.create` and the
   * following `User.findById` succeed.
   */
  function RegisterSpec(s: Store, req: RegisterRequest, newId: UserId, hash: string -> string,
                        sign: UserId -> string, createOk: bool, refetchOk: bool): (Store, Result<Session, HandlerError>)
  {
    if !Truthy(req.username) || !Truthy(req.email) || !Truthy(req.password) then
      (s, Err(ApiError(400, "All fields are required")))
    else if HasEmail(s.users, req.email.value) then
      (s, Err(ApiError(409, "User with email already exists")))
    else
      var colleges1 :=
        if Truthy(req.college) then IncrementCollege(s.colleges, req.college.value, 1, DEFAULT_RATING, true)
        else s.colleges;
      var s1 := s.(colleges := colleges1);
      if !createOk then (s1, Err(StoreFailure))
      else
        var u := User(req.username.value, req.email.value, hash(req.password.value),
                      if Truthy(req.college) then req.college else None, DEFAULT_RATING, 0, 0, 0);
        var s2 := s1.(users := s1.users[newId := u]);
        if !refetchOk then (s2, Err(ApiError(500, "Something went wrong while registering the user")))
        else (s2, Ok(Session(WithoutPassword(newId, u), sign(newId))))
  }

  method RegisterUser(db: Database, req: RegisterRequest, newId: UserId, hash: string -> string,
                      sign: UserId -> string, createOk: bool, refetchOk: bool)
    returns (r: Result<Session, HandlerError>)
    requires db.Valid() && newId !in db.users
    modifies db
    ensures db.Valid()
    ensures (db.State(), r) == RegisterSpec(old(db.State()), req, newId, hash, sign, createOk, refetchOk)
  {
    if !Truthy(req.username) || !Truthy(req.email) || !Truthy(req.password) {
      return Err(ApiError(400, "All fields are required"));
    }
    if HasEmail(db.users, req.email.value) {
      return Err(ApiError(409, "User with email already exists"));
    }
    var hashed := hash(req.password.value);
    if Truthy(req.college) {
      IncrementCollegeWellFormed(db.colleges, req.college.value, 1, DEFAULT_RATING, true);
      db.colleges := IncrementCollege(db.colleges, req.college.value, 1, DEFAULT_RATING, true);
    }
    if !createOk {
      return Err(StoreFailure);
    }
    var u := User(req.username.value, req.email.value, hashed,
                  if Truthy(req.college) then req.college else None, DEFAULT_RATING, 0, 0, 0);
    db.users := db.users[newId := u];
    if !refetchOk {
      return Err(ApiError(500, "Something went wrong while registering the user"));
    }
    r := Ok(Session(WithoutPassword(newId, u), sign(newId)));
  }

  /** A missing username, email or password is refused with 400 before anything is written. */
  lemma RegisterRequiresAllFields(s: Store, req: RegisterRequest, newId: UserId, hash: string -> string,
                                  sign: UserId -> string, createOk: bool, refetchOk: bool)
    requires !Truthy(req.username) || !Truthy(req.email) || !Truthy(req.password)
    ensures RegisterSpec(s, req, newId, hash, sign, createOk, refetchOk) == (s, Err(ApiError(400, "All fields are required")))
  {
  }

  /** An email already registered is refused with 409 before anything is written. */
  lemma RegisterRefusesTakenEmail(s: Store, req: RegisterRequest, newId: UserId, hash: string -> string,
                                  sign: UserId -> string, createOk: bool, refetchOk: bool, other: UserId)
    requires Truthy(req.username) && Truthy(req.email) && Truthy(req.password)
    requires other in s.users && s.users[other].email == req.email.value
    ensures RegisterSpec(s, req, newId, hash, sign, createOk, refetchOk) == (s, Err(ApiError(409, "User with email already exists")))
  {
  }

  /** Whether a registration gets past validation and the email check. */
  predicate Admitted(s: Store, req: RegisterRequest) {
    Truthy(req.username) && Truthy(req.email) && Truthy(req.password) && !HasEmail(s.users, req.email.value)
  }

  /**
   * An admitted registration naming a college adds one student and DEFAULT_RATING
   * of `totalElo` to the college under that (trimmed) name, creating it if needed,
   * and leaves every other college alone. This happens before the user is created,
   * so it holds even when creating or re-reading the user fails.
   */
  lemma RegisterCreditsCollege(s: Store, req: RegisterRequest, newId: UserId, hash: string -> string,
                               sign: UserId -> string, createOk: bool, refetchOk: bool)
    requires Consistent(s) && Admitted(s, req) && Truthy(req.college)
    ensures var s' := RegisterSpec(s, req, newId, hash, sign, createOk, refetchOk).0;
      var k := CollegeKey(req.college.value);
      && s'.colleges.Keys == s.colleges.Keys + {k}
      && s'.colleges[k].name == k
      && s'.colleges[k].studentCount == (if k in s.colleges then s.colleges[k].studentCount else 0) + 1
      && s'.colleges[k].totalElo == (if k in s.colleges then s.colleges[k].totalElo else 0) + DEFAULT_RATING
      && (forall j :: j in s.colleges && j != k ==> s'.colleges[j] == s.colleges[j])
  {
  }

  /** An admitted registration keeps the store's unique keys, whatever fails after the checks. */
  lemma RegisterKeepsStoreConsistent(s: Store, req: RegisterRequest, newId: UserId, hash: string -> string,
                                     sign: UserId -> string, createOk: bool, refetchOk: bool)
    requires Consistent(s) && newId !in s.users
    ensures Consistent(RegisterSpec(s, req, newId, hash, sign, createOk, refetchOk).0)
  {
    if Admitted(s, req) && Truthy(req.college) {
      IncrementCollegeWellFormed(s.colleges, req.college.value, 1, DEFAULT_RATING, true);
    }
  }

  /** A failed `User.create` leaves the college already credited and no user added. */
  lemma RegisterFailureKeepsCollegeCredit(s: Store, req: RegisterRequest, newId: UserId, hash: string -> string,
                                          sign: UserId -> string, refetchOk: bool)
    requires Admitted(s, req) && Truthy(req.college)
    ensures var (s', r) := RegisterSpec(s, req, newId, hash, sign, false, refetchOk);
      var k := CollegeKey(req.college.value);
      && r == Err(StoreFailure)
      && s'.users == s.users
      && s'.colleges[k].studentCount == (if k in s.colleges then s.colleges[k].studentCount else 0) + 1
  {
  }

  /** Without a college nothing is written to the colleges and the user's college is null. */
  lemma RegisterWithoutCollege(s: Store, req: RegisterRequest, newId: UserId, hash: string -> string,
                               sign: UserId -> string, createOk: bool, refetchOk: bool)
    requires Admitted(s, req) && !Truthy(req.college)
    ensures var s' := RegisterSpec(s, req, newId, hash, sign, createOk, refetchOk).0;
      && s'.colleges == s.colleges
      && (createOk ==> newId in s'.users && s'.users[newId].college == None)
  {
  }

  /**
   * An admitted registration whose `User.create` succeeds stores exactly one new user,
   * rated DEFAULT_RATING, with the hash of the password, not the password; the
   * response carries that user without the password, and the token signed for the id.
   */
  lemma RegisterCreatesUser(s: Store, req: RegisterRequest, newId: UserId, hash: string -> string,
                            sign: UserId -> string, refetchOk: bool)
    requires Admitted(s, req) && newId !in s.users
    ensures var (s', r) := RegisterSpec(s, req, newId, hash, sign, true, refetchOk);
      && s'.users.Keys == s.users.Keys + {newId}
      && (forall u :: u in s.users ==> s'.users[u] == s.users[u])
      && s'.users[newId].password == hash(req.password.value)
      && s'.users[newId].rating == DEFAULT_RATING
      && s'.users[newId].email == req.email.value && s'.users[newId].username == req.username.value
      && s'.matches == s.matches
      && (refetchOk ==> r == Ok(Session(WithoutPassword(newId, s'.users[newId]), sign(newId))))
      && (!refetchOk ==> r == Err(ApiError(500, "Something went wrong while registering the user")))
  {
  }

  /** `loginUser`: checks in order 400 (missing field), 404 (unknown email), 401 (wrong password). */
  method LoginUser(db: Database, email: Option<string>, password: Option<string>,
                   compare: (string, string) -> bool, sign: UserId -> string)
    returns (r: Result<Session, HandlerError>)
    requires db.Valid()
    ensures !Truthy(email) || !Truthy(password) ==> r == Err(ApiError(400, "Username and password is required"))
    ensures Truthy(email) && Truthy(password) && !HasEmail(db.users, email.value) ==>
      r == Err(ApiError(404, "User does not exist"))
    ensures forall id :: Truthy(email) && Truthy(password) && id in db.users && db.users[id].email == email.value ==>
      r == if compare(password.value, db.users[id].password)
           then Ok(Session(WithoutPassword(id, db.users[id]), sign(id)))
           else Err(ApiError(401, "Invalid user credentials"))
  {
    if !Truthy(email) || !Truthy(password) {
      return Err(ApiError(400, "Username and password is required"));
    }
    if !HasEmail(db.users, email.value) {
      return Err(ApiError(404, "User does not exist"));
    }
    var id :| id in db.users && db.users[id].email == email.value;
    if !compare(password.value, db.users[id].password) {
      return Err(ApiError(401, "Invalid user credentials"));
    }
    r := Ok(Session(WithoutPassword(id, db.users[id]), sign(id)));
  }

  /** `getMe`: 401 without an authenticated id, 404 for an unknown id, else the user without the password. */
  method GetMe(db: Database, userId: Option<UserId>) returns (r: Result<PublicUser, HandlerError>)
    ensures !Truthy(userId) ==> r == Err(ApiError(401, "Not authorized"))
    ensures Truthy(userId) && userId.value !in db.users ==> r == Err(ApiError(404, "User not found"))
    ensures Truthy(userId) && userId.value in db.users ==> r == Ok(WithoutPassword(userId.value, db.users[userId.value]))
  {
    if !Truthy(userId) {
      return Err(ApiError(401, "Not authorized"));
    }
    if userId.value !in db.users {
      return Err(ApiError(404, "User not found"));
    }
    r := Ok(WithoutPassword(userId.value, db.users[userId.value]));
  }
}
