/**
 * The match handlers: `completeMatch` records a finished match and updates the
 * players' and the winner's college's counters; `getMyHistory` lists a user's
 * matches, newest first.
 */
module MatchController {
  import opened Wrappers
  import opened JsString
  import opened Seqs
  import opened Models
  import opened Persistence

  /** Elo a win is worth, to the winner and to the winner's college. */
  const WIN_POINTS: int := 10

  /** The body of `POST /api/matches/complete`; an absent field is `None`. */
  datatype CompleteRequest = CompleteRequest(
    roomId: Option<string>,
    problemId: Option<string>,
    winnerId: Option<UserId>,
    players: seq<UserId>,
    code: Option<string>)

  /** The winner after `$inc: { matchesWon: 1, matchesPlayed: 1, elo: WIN_POINTS }`. */
  function CreditWinner(u: User): (r: User)
    ensures r.elo - u.elo == WIN_POINTS
    ensures r.matchesWon == u.matchesWon + 1 && r.matchesPlayed == u.matchesPlayed + 1
    ensures r.(elo := u.elo, matchesWon := u.matchesWon, matchesPlayed := u.matchesPlayed) == u
  {
    u.(matchesWon := u.matchesWon + 1, matchesPlayed := u.matchesPlayed + 1, elo := u.elo + WIN_POINTS)
  }

  /** `players.filter(id => id !== winnerId)`. */
  function Losers(players: seq<UserId>, winnerId: Option<UserId>): seq<UserId> {
    Filter(players, id => winnerId.None? || id != winnerId.value)
  }

  /** `User.updateMany({ _id: { $in: ids } }, { $inc: { matchesPlayed: 1 } })`. */
  function CreditPlayed(users: map<UserId, User>, ids: seq<UserId>): (r: map<UserId, User>)
    ensures r.Keys == users.Keys
    ensures forall u :: u in users ==>
      r[u] == if u in ids then users[u].(matchesPlayed := users[u].matchesPlayed + 1) else users[u]
  {
    map u | u in users :: if u in ids then users[u].(matchesPlayed := users[u].matchesPlayed + 1) else users[u]
  }

  /** The match document `completeMatch` creates. */
  function CompletedFields(req: CompleteRequest): MatchFields {
    MatchFields(req.roomId, req.problemId, req.players, req.winnerId, Some(Completed), req.code)
  }

  /** Whether the winner names a stored user whose college field is set. */
  predicate CreditsCollege(s: Store, req: CompleteRequest) {
    Truthy(req.winnerId) && req.winnerId.value in s.users && Truthy(s.users[req.winnerId.value].college)
  }

  /**
   * `completeMatch` as one transition of the store: create the match (which may be
   * refused), then credit the winner and the winner's college, then the losers.
   */
  function CompleteMatchSpec(s: Store, req: CompleteRequest, now: int): (Store, Result<MatchRecord, StoreError>) {
    var doc := MatchDocument(CompletedFields(req), now);
    if doc.Err? then (s, Err(doc.error))
    else
      var inserted := InsertMatch(s.matches, doc.value);
      if inserted.Err? then (s, Err(inserted.error))
      else
        var w := req.winnerId;
        var users1 := if Truthy(w) && w.value in s.users then s.users[w.value := CreditWinner(s.users[w.value])] else s.users;
        var colleges1 :=
          if CreditsCollege(s, req) then IncrementCollege(s.colleges, s.users[w.value].college.value, 0, WIN_POINTS, false)
          else s.colleges;
        var losers := Losers(req.players, w);
        var users2 := if |losers| > 0 then CreditPlayed(users1, losers) else users1;
        (Store(users2, colleges1, inserted.value), Ok(doc.value))
  }

  method CompleteMatch(db: Database, req: CompleteRequest, now: int) returns (r: Result<MatchRecord, StoreError>)
    requires db.Valid()
    modifies db
    ensures db.Valid()
    ensures (db.State(), r) == CompleteMatchSpec(old(db.State()), req, now)
  {
    var doc := MatchDocument(CompletedFields(req), now);
    if doc.Err? {
      return Err(doc.error);
    }
    var inserted := InsertMatch(db.matches, doc.value);
    if inserted.Err? {
      return Err(inserted.error);
    }
    db.matches := inserted.value;
    if Truthy(req.winnerId) {
      var w := req.winnerId.value;
      if w in db.users {
        db.users := db.users[w := CreditWinner(db.users[w])];
        var winner := db.users[w];
        if Truthy(winner.college) {
          IncrementCollegeWellFormed(db.colleges, winner.college.value, 0, WIN_POINTS, false);
          db.colleges := IncrementCollege(db.colleges, winner.college.value, 0, WIN_POINTS, false);
        }
      }
    }
    var losers := Losers(req.players, req.winnerId);
    if |losers| > 0 {
      db.users := CreditPlayed(db.users, losers);
    }
    r := Ok(doc.value);
  }

  // ---------------------------------------------------------------------------
  // What completing a match does

  /** The match is recorded as completed, with the given winner and code, after every earlier match. */
  lemma CompleteMatchRecords(s: Store, req: CompleteRequest, now: int)
    ensures var (s', r) := CompleteMatchSpec(s, req, now);
      && (r.Ok? <==> Truthy(req.roomId) && req.problemId.Some? && !HasRoom(s.matches, req.roomId.value))
      && (r.Ok? ==> s'.matches == s.matches + [r.value]
                    && r.value.status == Completed && r.value.winner == req.winnerId
                    && r.value.winningCode == req.code.GetOr("")
                    && r.value.roomId == req.roomId.value && r.value.players == req.players)
      && (r.Err? ==> s' == s)
  {
  }

  /** Completing a match keeps the store's unique keys: room ids, trimmed college names, emails. */
  lemma CompleteMatchKeepsStoreConsistent(s: Store, req: CompleteRequest, now: int)
    requires Consistent(s)
    ensures Consistent(CompleteMatchSpec(s, req, now).0)
  {
    if CreditsCollege(s, req) {
      IncrementCollegeWellFormed(s.colleges, s.users[req.winnerId.value].college.value, 0, WIN_POINTS, false);
    }
  }

  /** A second completion for the same room is refused and leaves the counters alone. */
  lemma CompleteMatchOncePerRoom(s: Store, req: CompleteRequest, req2: CompleteRequest, now: int, now2: int)
    requires CompleteMatchSpec(s, req, now).1.Ok?
    requires req2.roomId == req.roomId
    ensures var s1 := CompleteMatchSpec(s, req, now).0;
      var (s2, r2) := CompleteMatchSpec(s1, req2, now2);
      s2 == s1 && r2.Err? && (req2.problemId.Some? ==> r2 == Err(DuplicateKey("roomId")))
  {
    var (s1, r) := CompleteMatchSpec(s, req, now);
    assert s1.matches[|s1.matches| - 1].roomId == req.roomId.value;
    assert HasRoom(s1.matches, req.roomId.value);
  }

  /** The winner gains one win, one match played and exactly WIN_POINTS elo; nothing else of theirs changes. */
  lemma CompleteMatchCreditsWinner(s: Store, req: CompleteRequest, now: int)
    requires CompleteMatchSpec(s, req, now).1.Ok?
    requires Truthy(req.winnerId) && req.winnerId.value in s.users
    ensures var s' := CompleteMatchSpec(s, req, now).0;
      var w := req.winnerId.value;
      && w in s'.users
      && s'.users[w].elo == s.users[w].elo + WIN_POINTS
      && s'.users[w].matchesWon == s.users[w].matchesWon + 1
      && s'.users[w].matchesPlayed == s.users[w].matchesPlayed + 1
      && s'.users[w].rating == s.users[w].rating && s'.users[w].college == s.users[w].college
      && s'.users[w] == CreditWinner(s.users[w])
  {
    var w := req.winnerId.value;
    FilterMembership(req.players, id => req.winnerId.None? || id != req.winnerId.value, w);
  }

  /** Every other listed player gains one match played and nothing else. */
  lemma CompleteMatchCreditsLosers(s: Store, req: CompleteRequest, now: int, u: UserId)
    requires CompleteMatchSpec(s, req, now).1.Ok?
    requires u in s.users && u in req.players && (req.winnerId.None? || u != req.winnerId.value)
    ensures var s' := CompleteMatchSpec(s, req, now).0;
      && u in s'.users
      && s'.users[u] == s.users[u].(matchesPlayed := s.users[u].matchesPlayed + 1)
  {
    FilterMembership(req.players, id => req.winnerId.None? || id != req.winnerId.value, u);
  }

  /** No user is created or removed, and users neither listed nor winning are untouched. */
  lemma CompleteMatchLeavesOthers(s: Store, req: CompleteRequest, now: int, u: UserId)
    requires u in s.users && u !in req.players && !(Truthy(req.winnerId) && u == req.winnerId.value)
    ensures var s' := CompleteMatchSpec(s, req, now).0;
      s'.users.Keys == s.users.Keys && s'.users[u] == s.users[u]
  {
    FilterMembership(req.players, id => req.winnerId.None? || id != req.winnerId.value, u);
  }

  /** Only the winner's college changes, by WIN_POINTS of `totalElo`, and only when it already exists. */
  lemma CompleteMatchCreditsCollege(s: Store, req: CompleteRequest, now: int, k: string)
    requires CompleteMatchSpec(s, req, now).1.Ok?
    ensures var s' := CompleteMatchSpec(s, req, now).0;
      && s'.colleges.Keys == s.colleges.Keys
      && (k in s.colleges ==>
            s'.colleges[k] ==
              if CreditsCollege(s, req) && k == CollegeKey(s.users[req.winnerId.value].college.value)
              then s.colleges[k].(totalElo := s.colleges[k].totalElo + WIN_POINTS)
              else s.colleges[k])
  {
  }

  /** Without a winner no elo and no win changes hands, and no college changes. */
  lemma CompleteMatchWithoutWinner(s: Store, req: CompleteRequest, now: int, u: UserId)
    requires !Truthy(req.winnerId) && u in s.users
    ensures var s' := CompleteMatchSpec(s, req, now).0;
      && s'.colleges == s.colleges
      && u in s'.users
      && s'.users[u].elo == s.users[u].elo && s'.users[u].matchesWon == s.users[u].matchesWon
      && s'.users[u].matchesPlayed - s.users[u].matchesPlayed in {0, 1}
  {
  }

  /** All users together gain exactly WIN_POINTS of elo when the winner is a stored user, and none otherwise. */
  lemma CompleteMatchUserEloTotal(s: Store, req: CompleteRequest, now: int)
    requires CompleteMatchSpec(s, req, now).1.Ok?
    ensures var s' := CompleteMatchSpec(s, req, now).0;
      UserElo(s'.users) == UserElo(s.users) + (if Truthy(req.winnerId) && req.winnerId.value in s.users then WIN_POINTS else 0)
  {
    var s' := CompleteMatchSpec(s, req, now).0;
    var w := req.winnerId;
    var users1 := if Truthy(w) && w.value in s.users then s.users[w.value := CreditWinner(s.users[w.value])] else s.users;
    assert users1.Keys == s.users.Keys;
    if Truthy(w) && w.value in s.users {
      assert EloOf(users1) == EloOf(s.users)[w.value := s.users[w.value].elo + WIN_POINTS];
      SumOverUpdate(EloOf(s.users), w.value, s.users[w.value].elo + WIN_POINTS);
    }
    var losers := Losers(req.players, w);
    if |losers| > 0 {
      assert EloOf(CreditPlayed(users1, losers)) == EloOf(users1);
    }
    assert s'.users == (if |losers| > 0 then CreditPlayed(users1, losers) else users1);
  }

  /**
   * All colleges together gain exactly WIN_POINTS of `totalElo` when the winner's
   * college exists, the same amount the winner gains, and none otherwise.
   */
  lemma CompleteMatchCollegeEloTotal(s: Store, req: CompleteRequest, now: int)
    requires CompleteMatchSpec(s, req, now).1.Ok?
    ensures var s' := CompleteMatchSpec(s, req, now).0;
      CollegeElo(s'.colleges) == CollegeElo(s.colleges) +
        (if CreditsCollege(s, req) && CollegeKey(s.users[req.winnerId.value].college.value) in s.colleges
         then WIN_POINTS else 0)
  {
    var s' := CompleteMatchSpec(s, req, now).0;
    if CreditsCollege(s, req) {
      var k := CollegeKey(s.users[req.winnerId.value].college.value);
      if k !in s.colleges {
        assert s'.colleges == s.colleges;
      } else {
        assert TotalEloOf(s'.colleges) == TotalEloOf(s.colleges)[k := s.colleges[k].totalElo + WIN_POINTS];
        SumOverUpdate(TotalEloOf(s.colleges), k, s.colleges[k].totalElo + WIN_POINTS);
      }
    }
  }

  // ---------------------------------------------------------------------------
  // History

  /** Whether a match lists the user among its players (the `{ players: id }` query). */
  function PlaysIn(id: UserId): MatchRecord -> bool {
    (m: MatchRecord) => id in m.players
  }

  /** Newest `createdAt` first. */
  predicate NewestFirst(ms: seq<MatchRecord>) {
    forall i, j :: 0 <= i < j < |ms| ==> ms[i].createdAt >= ms[j].createdAt
  }

  function InsertNewestFirst(m: MatchRecord, ms: seq<MatchRecord>): (r: seq<MatchRecord>)
    ensures multiset(r) == multiset(ms) + multiset{m}
    ensures |r| > 0 && (r[0] == m || (|ms| > 0 && r[0] == ms[0]))
    decreases |ms|
  {
    if |ms| == 0 || m.createdAt >= ms[0].createdAt then [m] + ms
    else
      assert ms == [ms[0]] + ms[1..];
      [ms[0]] + InsertNewestFirst(m, ms[1..])
  }

  /** Inserting into a newest-first list keeps it newest first. */
  lemma {:induction false} InsertKeepsNewestFirst(m: MatchRecord, ms: seq<MatchRecord>)
    requires NewestFirst(ms)
    ensures NewestFirst(InsertNewestFirst(m, ms))
    decreases |ms|
  {
    if |ms| > 0 && m.createdAt < ms[0].createdAt {
      var t := InsertNewestFirst(m, ms[1..]);
      InsertKeepsNewestFirst(m, ms[1..]);
      var r := [ms[0]] + t;
      assert r == InsertNewestFirst(m, ms);
      assert t[0] == m || t[0] == ms[1];
      forall i, j | 0 <= i < j < |r| ensures r[i].createdAt >= r[j].createdAt {
        if i == 0 {
          assert r[j] == t[j - 1];
          assert t[0].createdAt >= t[j - 1].createdAt;
        } else {
          assert r[i] == t[i - 1] && r[j] == t[j - 1];
        }
      }
    }
  }

  /** `.sort({ createdAt: -1 })`; the order among equal timestamps is the store's choice. */
  function SortNewestFirst(ms: seq<MatchRecord>): (r: seq<MatchRecord>)
    ensures multiset(r) == multiset(ms)
    ensures NewestFirst(r)
    decreases |ms|
  {
    if |ms| == 0 then []
    else
      assert ms == [ms[0]] + ms[1..];
      var rest := SortNewestFirst(ms[1..]);
      InsertKeepsNewestFirst(ms[0], rest);
      InsertNewestFirst(ms[0], rest)
  }

  /** `getMyHistory`: exactly the requester's matches, each as often as stored, newest first. */
  method GetMyHistory(db: Database, requesterId: UserId) returns (r: seq<MatchRecord>)
    ensures NewestFirst(r)
    ensures forall m :: m in r <==> m in db.matches && requesterId in m.players
    ensures forall m :: multiset(r)[m] == if requesterId in m.players then multiset(db.matches)[m] else 0
  {
    var mine := Filter(db.matches, PlaysIn(requesterId));
    r := SortNewestFirst(mine);
    forall m ensures multiset(r)[m] == if requesterId in m.players then multiset(db.matches)[m] else 0 {
      FilterCount(db.matches, PlaysIn(requesterId), m);
    }
    forall m ensures m in r <==> m in db.matches && requesterId in m.players {
      FilterMembership(db.matches, PlaysIn(requesterId), m);
      assert m in r <==> m in multiset(r);
    }
  }
}
