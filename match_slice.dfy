/**
 * The client's `match` slice: the room and match the user is in, a loading flag and
 * the last error, with its plain reducers and the pending / fulfilled / rejected
 * cases of the `createRoom`, `joinRoom` and `getMatch` requests.
 */
module MatchSlice {
  import opened Wrappers

  datatype MatchType = OneVsOne | Squad
  datatype ClientMatchStatus = Waiting | InProgress | Completed | Cancelled

  /** A player's standing in a match as the client holds it. */
  datatype MatchPlayer = MatchPlayer(userId: string, score: int, isReady: bool, hasSubmitted: bool)

  /** The client's match; the problem is represented by its id. */
  datatype Match = Match(
    id: string,
    matchType: MatchType,
    status: ClientMatchStatus,
    players: seq<MatchPlayer>,
    problemId: string,
    startTime: Option<string>,
    endTime: Option<string>,
    duration: int,
    roomId: string)

  /** A `Partial<Match>`: each field is either given or absent. */
  datatype MatchPatch = MatchPatch(
    id: Option<string>,
    matchType: Option<MatchType>,
    status: Option<ClientMatchStatus>,
    players: Option<seq<MatchPlayer>>,
    problemId: Option<string>,
    startTime: Option<string>,
    endTime: Option<string>,
    duration: Option<int>,
    roomId: Option<string>)

  datatype RoomStatus = RoomWaiting | Starting | RoomInProgress

  /** The client's room; the host and players are represented by their user ids. */
  datatype Room = Room(
    id: string,
    name: string,
    roomType: MatchType,
    hostId: string,
    playerIds: seq<string>,
    maxPlayers: int,
    isPrivate: bool,
    status: RoomStatus)

  datatype MatchState = MatchState(
    currentMatch: Option<Match>,
    currentRoom: Option<Room>,
    isLoading: bool,
    error: Option<string>)

  /** The three requests whose lifecycle the slice follows. */
  datatype Request = CreateRoom | JoinRoom | GetMatch

  datatype Action =
    | SetCurrentRoom(room: Option<Room>)
    | SetCurrentMatch(m: Option<Match>)
    | UpdateMatch(patch: MatchPatch)
    | LeaveRoom
    | ClearMatchError
    | Pending(request: Request)
    | RoomFulfilled(roomRequest: Request, payload: Room)
    | MatchFulfilled(matchPayload: Match)
    | Rejected(rejected: Request, message: string)

  const Initial: MatchState := MatchState(None, None, false, None)

  /** The object spread `{ ...m, ...p }`: a field given in `p` wins. */
  function Merge(m: Match, p: MatchPatch): Match {
    Match(p.id.GetOr(m.id), p.matchType.GetOr(m.matchType), p.status.GetOr(m.status),
          p.players.GetOr(m.players), p.problemId.GetOr(m.problemId),
          if p.startTime.Some? then p.startTime else m.startTime,
          if p.endTime.Some? then p.endTime else m.endTime,
          p.duration.GetOr(m.duration), p.roomId.GetOr(m.roomId))
  }

  /** The patch with no field given. */
  const EmptyPatch: MatchPatch := MatchPatch(None, None, None, None, None, None, None, None, None)

  function OrElse<T>(later: Option<T>, earlier: Option<T>): Option<T> {
    if later.Some? then later else earlier
  }

  /** The single patch equal to applying `p` and then `q`. */
  function Then(p: MatchPatch, q: MatchPatch): MatchPatch {
    MatchPatch(OrElse(q.id, p.id), OrElse(q.matchType, p.matchType), OrElse(q.status, p.status),
               OrElse(q.players, p.players), OrElse(q.problemId, p.problemId),
               OrElse(q.startTime, p.startTime), OrElse(q.endTime, p.endTime),
               OrElse(q.duration, p.duration), OrElse(q.roomId, p.roomId))
  }

  /** Spreading a patch: nothing given changes nothing, a repeat changes nothing more, two spreads are one. */
  lemma MergeLaws(m: Match, p: MatchPatch, q: MatchPatch)
    ensures Merge(m, EmptyPatch) == m
    ensures Merge(Merge(m, p), p) == Merge(m, p)
    ensures Merge(Merge(m, p), q) == Merge(m, Then(p, q))
  {
  }

  /** The slice's reducer. */
  function Reduce(s: MatchState, a: Action): MatchState {
    match a
    case SetCurrentRoom(room) => s.(currentRoom := room)
    case SetCurrentMatch(m) => s.(currentMatch := m)
    case UpdateMatch(p) =>
      if s.currentMatch.Some? then s.(currentMatch := Some(Merge(s.currentMatch.value, p))) else s
    case LeaveRoom => s.(currentRoom := None, currentMatch := None)
    case ClearMatchError => s.(error := None)
    case Pending(_) => s.(isLoading := true, error := None)
    case RoomFulfilled(_, room) => s.(isLoading := false, currentRoom := Some(room))
    case MatchFulfilled(m) => s.(isLoading := false, currentMatch := Some(m))
    case Rejected(_, msg) => s.(isLoading := false, error := Some(msg))
  }

  /** Whether an action is one the store can receive: room payloads come only from the room requests. */
  predicate WellFormed(a: Action) {
    a.RoomFulfilled? ==> a.roomRequest != GetMatch
  }

  /** `updateMatch` without a current match is a no-op; with one, only that match changes. */
  lemma UpdateMatchEffect(s: MatchState, p: MatchPatch)
    ensures s.currentMatch.None? ==> Reduce(s, UpdateMatch(p)) == s
    ensures s.currentMatch.Some? ==> Reduce(s, UpdateMatch(p)).currentMatch == Some(Merge(s.currentMatch.value, p))
    ensures Reduce(s, UpdateMatch(p)).(currentMatch := s.currentMatch) == s
  {
  }

  /** A request's lifecycle: pending then fulfilled or rejected. */
  lemma RequestLifecycle(s: MatchState, r: Request, room: Room, m: Match, msg: string)
    ensures var p := Reduce(s, Pending(r)); p.isLoading && p.error.None?
    ensures var f := Reduce(Reduce(s, Pending(r)), RoomFulfilled(r, room));
      !f.isLoading && f.error.None? && f.currentRoom == Some(room) && f.currentMatch == s.currentMatch
    ensures var f := Reduce(Reduce(s, Pending(r)), MatchFulfilled(m));
      !f.isLoading && f.error.None? && f.currentMatch == Some(m) && f.currentRoom == s.currentRoom
    ensures var f := Reduce(Reduce(s, Pending(r)), Rejected(r, msg));
      !f.isLoading && f.error == Some(msg) && f.currentRoom == s.currentRoom && f.currentMatch == s.currentMatch
  {
  }

  /** Only the request cases touch the loading flag, and `leaveRoom` touches neither it nor the error. */
  lemma LoadingOnlyFromRequests(s: MatchState, a: Action)
    requires !a.Pending? && !a.RoomFulfilled? && !a.MatchFulfilled? && !a.Rejected?
    ensures Reduce(s, a).isLoading == s.isLoading
    ensures a.LeaveRoom? ==> Reduce(s, a) == MatchState(None, None, s.isLoading, s.error)
  {
  }

  /** The slice as a store whose reducers assign its fields in place. */
  class MatchStore {
    var currentMatch: Option<Match>
    var currentRoom: Option<Room>
    var isLoading: bool
    var error: Option<string>

    function State(): MatchState
      reads this
    {
      MatchState(currentMatch, currentRoom, isLoading, error)
    }

    constructor ()
      ensures State() == Initial
    {
      currentMatch := None;
      currentRoom := None;
      isLoading := false;
      error := None;
    }

    method SetCurrentRoomReducer(room: Option<Room>)
      modifies this
      ensures State() == Reduce(old(State()), SetCurrentRoom(room))
      ensures currentRoom == room && currentMatch == old(currentMatch)
      ensures isLoading == old(isLoading) && error == old(error)
    {
      currentRoom := room;
    }

    method SetCurrentMatchReducer(m: Option<Match>)
      modifies this
      ensures State() == Reduce(old(State()), SetCurrentMatch(m))
      ensures currentMatch == m && currentRoom == old(currentRoom)
      ensures isLoading == old(isLoading) && error == old(error)
    {
      currentMatch := m;
    }

    method UpdateMatchReducer(p: MatchPatch)
      modifies this
      ensures State() == Reduce(old(State()), UpdateMatch(p))
      ensures old(currentMatch).None? ==> currentMatch == None
      ensures old(currentMatch).Some? ==> currentMatch == Some(Merge(old(currentMatch).value, p))
      ensures currentRoom == old(currentRoom) && isLoading == old(isLoading) && error == old(error)
    {
      if currentMatch.Some? {
        currentMatch := Some(Merge(currentMatch.value, p));
      }
    }

    method LeaveRoomReducer()
      modifies this
      ensures State() == Reduce(old(State()), LeaveRoom)
      ensures currentRoom == None && currentMatch == None
      ensures isLoading == old(isLoading) && error == old(error)
    {
      currentRoom := None;
      currentMatch := None;
    }

    method ClearMatchErrorReducer()
      modifies this
      ensures State() == Reduce(old(State()), ClearMatchError)
      ensures error == None
      ensures currentRoom == old(currentRoom) && currentMatch == old(currentMatch) && isLoading == old(isLoading)
    {
      error := None;
    }

    method PendingCase(r: Request)
      modifies this
      ensures State() == Reduce(old(State()), Pending(r))
      ensures isLoading && error == None
      ensures currentRoom == old(currentRoom) && currentMatch == old(currentMatch)
    {
      isLoading := true;
      error := None;
    }

    /** `createRoom.fulfilled` and `joinRoom.fulfilled`. */
    method RoomFulfilledCase(r: Request, room: Room)
      requires r != GetMatch
      modifies this
      ensures State() == Reduce(old(State()), RoomFulfilled(r, room))
      ensures !isLoading && currentRoom == Some(room)
      ensures currentMatch == old(currentMatch) && error == old(error)
    {
      isLoading := false;
      currentRoom := Some(room);
    }

    /** `getMatch.fulfilled`. */
    method MatchFulfilledCase(m: Match)
      modifies this
      ensures State() == Reduce(old(State()), MatchFulfilled(m))
      ensures !isLoading && currentMatch == Some(m)
      ensures currentRoom == old(currentRoom) && error == old(error)
    {
      isLoading := false;
      currentMatch := Some(m);
    }

    method RejectedCase(r: Request, message: string)
      modifies this
      ensures State() == Reduce(old(State()), Rejected(r, message))
      ensures !isLoading && error == Some(message)
      ensures currentRoom == old(currentRoom) && currentMatch == old(currentMatch)
    {
      isLoading := false;
      error := Some(message);
    }

    /** Dispatching any action the store can receive applies `Reduce`. */
    method Dispatch(a: Action)
      requires WellFormed(a)
      modifies this
      ensures State() == Reduce(old(State()), a)
    {
      match a
      case SetCurrentRoom(room) => SetCurrentRoomReducer(room);
      case SetCurrentMatch(m) => SetCurrentMatchReducer(m);
      case UpdateMatch(p) => UpdateMatchReducer(p);
      case LeaveRoom => LeaveRoomReducer();
      case ClearMatchError => ClearMatchErrorReducer();
      case Pending(r) => PendingCase(r);
      case RoomFulfilled(r, room) => RoomFulfilledCase(r, room);
      case MatchFulfilled(m) => MatchFulfilledCase(m);
      case Rejected(r, msg) => RejectedCase(r, msg);
    }
  }
}
