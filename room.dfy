/** The room page: readiness, who may start the game, the ready toggle, empty seats and the host's crown. */
module Room {
  import opened Wrappers
  import opened JsString
  import opened Seqs

  datatype RoomPlayer = RoomPlayer(id: string, username: string, elo: int, isReady: bool)

  datatype RoomInfo = RoomInfo(id: string, name: string, hostId: string, players: seq<RoomPlayer>, maxPlayers: int, code: string)

  /** `players.every(p => p.isReady)`, which holds of an empty room. */
  function AllReady(players: seq<RoomPlayer>): (r: bool)
    ensures r <==> forall i :: 0 <= i < |players| ==> players[i].isReady
    decreases |players|
  {
    |players| == 0 || (players[0].isReady && AllReady(players[1..]))
  }

  /** `user?.id === host.id`: false without a signed-in user. */
  predicate IsHost(userId: Option<string>, room: RoomInfo) {
    userId.Some? && userId.value == room.hostId
  }

  predicate StartDisabled(room: RoomInfo) {
    !AllReady(room.players) || |room.players| < 2
  }

  /** The button beside "Leave Room": Start for the host, the ready toggle for everyone else. */
  datatype ActionButton = StartGame(disabled: bool) | ReadyToggle(caption: string)

  function ActionButtonOf(userId: Option<string>, room: RoomInfo, isReady: bool): ActionButton {
    if IsHost(userId, room) then StartGame(StartDisabled(room))
    else ReadyToggle(if isReady then "Cancel Ready" else "Ready")
  }

  /** Only the host gets Start, enabled exactly when everyone is ready and at least two have joined. */
  lemma ActionButtonSpec(userId: Option<string>, room: RoomInfo, isReady: bool)
    ensures ActionButtonOf(userId, room, isReady).StartGame? <==> userId == Some(room.hostId)
    ensures ActionButtonOf(userId, room, isReady).StartGame? ==>
      (!ActionButtonOf(userId, room, isReady).disabled <==>
        |room.players| >= 2 && forall i :: 0 <= i < |room.players| ==> room.players[i].isReady)
    ensures userId.None? ==> ActionButtonOf(userId, room, isReady).ReadyToggle?
  {
  }

  /** The number of "Waiting for player..." slots: `Array.from({ length })` reads a negative length as 0. */
  function EmptySlots(room: RoomInfo): (n: nat)
    ensures |room.players| <= room.maxPlayers ==> n + |room.players| == room.maxPlayers
    ensures |room.players| >= room.maxPlayers ==> n == 0
  {
    if room.maxPlayers - |room.players| < 0 then 0 else room.maxPlayers - |room.players|
  }

  function WearsCrown(hostId: string): RoomPlayer -> bool {
    (p: RoomPlayer) => p.id == hostId
  }

  /** The crown marks exactly the listed players whose id is the host's. */
  lemma CrownedPlayers(room: RoomInfo, p: RoomPlayer)
    ensures p in Filter(room.players, WearsCrown(room.hostId)) <==> p in room.players && p.id == room.hostId
  {
    FilterMembership(room.players, WearsCrown(room.hostId), p);
  }

  /** Where Start navigates: the route's room id is interpolated as is, `undefined` included. */
  function BattlePath(roomId: Option<string>): (p: string)
    ensures |p| >= |"/battle/"| && p[..|"/battle/"|] == "/battle/"
    ensures roomId.Some? ==> p[|"/battle/"|..] == roomId.value
    ensures roomId.None? ==> p[|"/battle/"|..] == "undefined"
  {
    "/battle/" + (if roomId.Some? then roomId.value else "undefined")
  }

  /** Where the development shortcut navigates: a missing or empty room id becomes "1". */
  function ForceStartPath(roomId: Option<string>): (p: string)
    ensures Truthy(roomId) ==> p == BattlePath(roomId)
    ensures !Truthy(roomId) ==> p == "/battle/1"
  {
    "/battle/" + (if Truthy(roomId) then roomId.value else "1")
  }

  /** The page's local state. */
  class RoomPage {
    var isReady: bool

    constructor ()
      ensures !isReady
    {
      isReady := false;
    }

    /** `handleReady`: flips the local ready flag. */
    method HandleReady()
      modifies this
      ensures isReady == !old(isReady)
    {
      isReady := !isReady;
    }

    /**
     * Not a handler of the page: a property of `HandleReady`, stated as a method because
     * the handler changes the page's state. Two presses leave the flag as it was.
     */
    method HandleReadyTwice()
      modifies this
      ensures isReady == old(isReady)
    {
      HandleReady();
      HandleReady();
    }
  }
}
