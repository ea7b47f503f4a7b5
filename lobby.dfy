/** The lobby page: the search and type filter over the public rooms, and the join rule of a room card. */
module Lobby {
  import opened JsString
  import opened Seqs

  /** A room as the lobby lists it; `players` is the number of players already in it. */
  datatype LobbyRoom = LobbyRoom(
    id: string,
    name: string,
    host: string,
    players: int,
    maxPlayers: int,
    roomType: string,
    status: string)

  /** The test `filteredRooms` applies: the name contains the query, ignoring case, and the room is of the selected tab's type. */
  function MatchesFilter(searchQuery: string, activeTab: string): LobbyRoom -> bool {
    (room: LobbyRoom) =>
      IncludesIgnoringCase(room.name, searchQuery) && (activeTab == "all" || room.roomType == activeTab)
  }

  function FilteredRooms(rooms: seq<LobbyRoom>, searchQuery: string, activeTab: string): seq<LobbyRoom> {
    Filter(rooms, MatchesFilter(searchQuery, activeTab))
  }

  /** The rooms shown are, in order, exactly those whose name matches the search and whose type matches the tab. */
  lemma FilteredRoomsSpec(rooms: seq<LobbyRoom>, searchQuery: string, activeTab: string, room: LobbyRoom)
    ensures Sublist(FilteredRooms(rooms, searchQuery, activeTab), rooms)
    ensures room in FilteredRooms(rooms, searchQuery, activeTab) <==>
      room in rooms && IncludesIgnoringCase(room.name, searchQuery) && (activeTab == "all" || room.roomType == activeTab)
  {
    FilterIsSublist(rooms, MatchesFilter(searchQuery, activeTab));
    FilterMembership(rooms, MatchesFilter(searchQuery, activeTab), room);
  }

  /** With no search text on the "all" tab every room is shown. */
  lemma NoFilterKeepsAll(rooms: seq<LobbyRoom>)
    ensures FilteredRooms(rooms, "", "all") == rooms
  {
    forall i | 0 <= i < |rooms| ensures MatchesFilter("", "all")(rooms[i]) {
      EmptyQueryMatches(rooms[i].name);
    }
    FilterKeepsAll(rooms, MatchesFilter("", "all"));
  }

  /** What the room list shows. */
  datatype RoomListView = NoRoomsPlaceholder | RoomGrid(rooms: seq<LobbyRoom>)

  function RoomList(rooms: seq<LobbyRoom>): (v: RoomListView)
    ensures v == NoRoomsPlaceholder <==> rooms == []
    ensures v.RoomGrid? ==> v.rooms == rooms
  {
    if |rooms| == 0 then NoRoomsPlaceholder else RoomGrid(rooms)
  }

  /** The placeholder replaces the grid exactly when no room passes the filter. */
  lemma PlaceholderIffNothingMatches(rooms: seq<LobbyRoom>, searchQuery: string, activeTab: string)
    ensures RoomList(FilteredRooms(rooms, searchQuery, activeTab)) == NoRoomsPlaceholder <==>
      forall i :: 0 <= i < |rooms| ==> !MatchesFilter(searchQuery, activeTab)(rooms[i])
  {
    FilterEmptyIff(rooms, MatchesFilter(searchQuery, activeTab));
  }

  /** A room card's join button: its caption and whether it is disabled. */
  datatype JoinButton = JoinButton(caption: string, disabled: bool)

  function JoinButtonOf(room: LobbyRoom): (b: JoinButton)
    ensures b.disabled <==> room.players >= room.maxPlayers
    ensures b.caption == (if b.disabled then "Full" else "Join")
  {
    var full := room.players >= room.maxPlayers;
    JoinButton(if full then "Full" else "Join", full)
  }

  /** Joining a room navigates to its page, from which the room id reads back. */
  function JoinPath(roomId: string): (p: string)
    ensures StartsWith(p, "/room/") && p[|"/room/"|..] == roomId
  {
    "/room/" + roomId
  }
}
