/**
 * The persisted documents: the `Match` and `College` schemas with their enum,
 * defaults and unique keys, and the fields of a user document that the
 * controllers read and write.
 */
module Models {
  import opened Wrappers
  import opened JsString

  type UserId = string

  /** The `status` enum of a match. */
  datatype MatchStatus = Ongoing | Completed | Draw

  /** A stored match; `createdAt` is the timestamp the schema adds. */
  datatype MatchRecord = MatchRecord(
    roomId: string,
    problemId: string,
    players: seq<UserId>,
    winner: Option<UserId>,
    status: MatchStatus,
    winningCode: string,
    createdAt: int)

  /** The fields handed to `Match.create`; an absent one takes the schema's default. */
  datatype MatchFields = MatchFields(
    roomId: Option<string>,
    problemId: Option<string>,
    players: seq<UserId>,
    winner: Option<UserId>,
    status: Option<MatchStatus>,
    winningCode: Option<string>)

  /** Why the document store refuses a write. */
  datatype StoreError = ValidationFailed(path: string) | DuplicateKey(path: string)

  /**
   * The document `Match.create` builds: required fields checked (a required string
   * is refused when missing or empty), then the defaults applied.
   */
  function MatchDocument(f: MatchFields, createdAt: int): (r: Result<MatchRecord, StoreError>)
    ensures r.Ok? <==> Truthy(f.roomId) && f.problemId.Some?
    ensures !Truthy(f.roomId) ==> r == Err(ValidationFailed("roomId"))
    ensures r.Ok? ==> r.value.roomId == f.roomId.value && r.value.problemId == f.problemId.value
    ensures r.Ok? ==> r.value.players == f.players && r.value.createdAt == createdAt
    ensures r.Ok? ==> r.value.winner == f.winner
    ensures r.Ok? ==> r.value.status == (if f.status.Some? then f.status.value else Ongoing)
    ensures r.Ok? ==> r.value.winningCode == (if f.winningCode.Some? then f.winningCode.value else "")
  {
    if !Truthy(f.roomId) then Err(ValidationFailed("roomId"))
    else if f.problemId.None? then Err(ValidationFailed("problemId"))
    else Ok(MatchRecord(f.roomId.value, f.problemId.value, f.players, f.winner,
                        f.status.GetOr(Ongoing), f.winningCode.GetOr(""), createdAt))
  }

  /** A new match that names only its room and problem takes every default. */
  lemma NewMatchDefaults(roomId: string, problemId: string, createdAt: int)
    requires roomId != ""
    ensures var r := MatchDocument(MatchFields(Some(roomId), Some(problemId), [], None, None, None), createdAt);
            r.Ok? && r.value.status == Ongoing && r.value.winner == None && r.value.winningCode == ""
  {
  }

  /** The unique index on `roomId`. */
  ghost predicate UniqueRoomIds(matches: seq<MatchRecord>) {
    forall i, j :: 0 <= i < j < |matches| ==> matches[i].roomId != matches[j].roomId
  }

  predicate HasRoom(matches: seq<MatchRecord>, roomId: string) {
    exists i :: 0 <= i < |matches| && matches[i].roomId == roomId
  }

  /** Inserting a document into the collection, refused when its `roomId` is taken. */
  function InsertMatch(matches: seq<MatchRecord>, m: MatchRecord): (r: Result<seq<MatchRecord>, StoreError>)
    ensures r.Err? <==> HasRoom(matches, m.roomId)
    ensures r.Err? ==> r.error == DuplicateKey("roomId")
    ensures r.Ok? ==> r.value == matches + [m]
    ensures r.Ok? && UniqueRoomIds(matches) ==> UniqueRoomIds(r.value)
  {
    if HasRoom(matches, m.roomId) then Err(DuplicateKey("roomId")) else Ok(matches + [m])
  }

  // ---------------------------------------------------------------------------
  // College

  datatype College = College(name: string, totalElo: int, studentCount: int, location: string)

  /** Colleges are looked up and stored under their trimmed name. */
  function CollegeKey(name: string): string {
    Trim(name)
  }

  /** A college created with only a name: the name trimmed, counters at 0, location "". */
  function NewCollege(name: string): (c: College)
    ensures c.name == CollegeKey(name) && CollegeKey(c.name) == c.name
    ensures c.totalElo == 0 && c.studentCount == 0 && c.location == ""
  {
    TrimIdempotent(name);
    College(CollegeKey(name), 0, 0, "")
  }

  /** Every college sits under its own name, that name is trimmed, so names are unique. */
  ghost predicate CollegesWellFormed(colleges: map<string, College>) {
    forall k :: k in colleges ==> colleges[k].name == k && CollegeKey(k) == k
  }

  /**
   * `College.findOneAndUpdate({ name }, { $inc: { studentCount: ds, totalElo: de } }, { upsert })`:
   * the college under the trimmed name gets both increments; when there is none it is
   * created from the defaults first if `upsert` holds, and nothing happens otherwise.
   */
  function IncrementCollege(colleges: map<string, College>, name: string, ds: int, de: int, upsert: bool)
    : (r: map<string, College>)
    ensures r.Keys == if upsert then colleges.Keys + {CollegeKey(name)} else colleges.Keys
    ensures forall j :: j in colleges && j != CollegeKey(name) ==> r[j] == colleges[j]
    ensures CollegeKey(name) in colleges ==>
      var c := colleges[CollegeKey(name)];
      r[CollegeKey(name)] == c.(studentCount := c.studentCount + ds, totalElo := c.totalElo + de)
    ensures CollegeKey(name) !in colleges && upsert ==>
      r[CollegeKey(name)] == College(CollegeKey(name), de, ds, "")
  {
    var k := CollegeKey(name);
    if k in colleges then
      var c := colleges[k];
      colleges[k := c.(studentCount := c.studentCount + ds, totalElo := c.totalElo + de)]
    else if upsert then
      var c := NewCollege(name);
      colleges[k := c.(studentCount := c.studentCount + ds, totalElo := c.totalElo + de)]
    else colleges
  }

  /** The increment keeps every college under its own trimmed name. */
  lemma IncrementCollegeWellFormed(colleges: map<string, College>, name: string, ds: int, de: int, upsert: bool)
    requires CollegesWellFormed(colleges)
    ensures CollegesWellFormed(IncrementCollege(colleges, name, ds, de, upsert))
  {
    TrimIdempotent(name);
  }

  /** A college first created by an upsert holds exactly the increments. */
  lemma UpsertCreatesWithIncrements(colleges: map<string, College>, name: string, ds: int, de: int)
    requires CollegeKey(name) !in colleges
    ensures var r := IncrementCollege(colleges, name, ds, de, true);
      var k := CollegeKey(name);
      k in r && r[k] == College(k, de, ds, "")
  {
  }

  // ---------------------------------------------------------------------------
  // User

  /** The fields of a user document that the controllers read and write. */
  datatype User = User(
    username: string,
    email: string,
    password: string,
    college: Option<string>,
    rating: int,
    elo: int,
    matchesWon: int,
    matchesPlayed: int)

  /** A user as returned with `.select("-password")`. */
  datatype PublicUser = PublicUser(
    id: UserId,
    username: string,
    email: string,
    college: Option<string>,
    rating: int,
    elo: int,
    matchesWon: int,
    matchesPlayed: int)

  function WithoutPassword(id: UserId, u: User): (p: PublicUser)
    ensures p.id == id && p.username == u.username && p.email == u.email && p.college == u.college
    ensures p.rating == u.rating && p.elo == u.elo && p.matchesWon == u.matchesWon && p.matchesPlayed == u.matchesPlayed
  {
    PublicUser(id, u.username, u.email, u.college, u.rating, u.elo, u.matchesWon, u.matchesPlayed)
  }

  /** No two users share an email address. */
  ghost predicate UniqueEmails(users: map<UserId, User>) {
    forall a, b :: a in users && b in users && a != b ==> users[a].email != users[b].email
  }

  predicate HasEmail(users: map<UserId, User>, email: string) {
    exists u :: u in users && users[u].email == email
  }
}
