/** The leaderboard page: the player or college ranking, its search, the podium and the row highlights. */
module Leaderboard {
  import opened Wrappers
  import opened JsString
  import opened Seqs

  datatype Entry = Entry(rank: int, name: string, elo: int, detail: string)

  datatype View = Players | Colleges

  /** The list on show: players in the players view, colleges otherwise. */
  function CurrentData(view: View, players: seq<Entry>, colleges: seq<Entry>): seq<Entry> {
    match view
    case Players => players
    case Colleges => colleges
  }

  function NameMatches(searchQuery: string): Entry -> bool {
    (e: Entry) => IncludesIgnoringCase(e.name, searchQuery)
  }

  function FilteredData(data: seq<Entry>, searchQuery: string): seq<Entry> {
    Filter(data, NameMatches(searchQuery))
  }

  /** The search keeps, in order, exactly the entries whose name contains the query ignoring case; an empty query keeps all. */
  lemma FilteredDataSpec(data: seq<Entry>, searchQuery: string, e: Entry)
    ensures Sublist(FilteredData(data, searchQuery), data)
    ensures e in FilteredData(data, searchQuery) <==> e in data && IncludesIgnoringCase(e.name, searchQuery)
    ensures FilteredData(data, "") == data
  {
    FilterIsSublist(data, NameMatches(searchQuery));
    FilterMembership(data, NameMatches(searchQuery), e);
    forall i | 0 <= i < |data| ensures NameMatches("")(data[i]) {
      EmptyQueryMatches(data[i].name);
    }
    FilterKeepsAll(data, NameMatches(""));
  }

  /** The podium: the first three entries of the unfiltered list, whatever the search. */
  function TopThree(data: seq<Entry>): (r: seq<Entry>)
    ensures |r| == if |data| < 3 then |data| else 3
    ensures forall i :: 0 <= i < |r| ==> r[i] == data[i]
  {
    if |data| <= 3 then data else data[..3]
  }

  /** A row gets the podium styling when its rank is at most 3. */
  predicate IsTop3(e: Entry): (r: bool)
    ensures r <==> e.rank <= 3
  {
    e.rank <= 3
  }

  /** A row stands out when it is the current user (players view) or the current user's college (colleges view). */
  predicate IsHighlighted(view: View, e: Entry, currentUserName: string, currentUserCollege: string): (r: bool)
    ensures r <==> (view.Players? && e.name == currentUserName) || (view.Colleges? && e.name == currentUserCollege)
  {
    if view == Players then e.name == currentUserName else e.name == currentUserCollege
  }

  /** The ranks of a list are its positions, counted from 1. */
  ghost predicate RankedByPosition(data: seq<Entry>) {
    forall i :: 0 <= i < |data| ==> data[i].rank == i + 1
  }

  /**
   * When the ranks are the positions, a row of the filtered table gets the podium
   * styling exactly when it is one of the podium's entries: the search does not
   * renumber the rows.
   */
  lemma Top3RowsArePodium(data: seq<Entry>, searchQuery: string, e: Entry)
    requires RankedByPosition(data)
    requires e in FilteredData(data, searchQuery)
    ensures IsTop3(e) <==> e in TopThree(data)
  {
    FilterMembership(data, NameMatches(searchQuery), e);
    var i :| 0 <= i < |data| && data[i] == e;
    if IsTop3(e) {
      assert i < 3 && TopThree(data)[i] == e;
    }
    if e in TopThree(data) {
      var j :| 0 <= j < |TopThree(data)| && TopThree(data)[j] == e;
      assert data[j] == e;
    }
  }

  /**
   * The highlighted rows of the filtered table are exactly the entries named after the
   * view's current user or college whose name matches the search.
   */
  lemma HighlightedRows(view: View, data: seq<Entry>, searchQuery: string, currentUserName: string,
                        currentUserCollege: string, e: Entry)
    ensures e in FilteredData(data, searchQuery) && IsHighlighted(view, e, currentUserName, currentUserCollege) <==>
      && e in data
      && e.name == (if view == Players then currentUserName else currentUserCollege)
      && IncludesIgnoringCase(e.name, searchQuery)
  {
    FilterMembership(data, NameMatches(searchQuery), e);
  }

  function ViewName(view: View): string {
    if view == Players then "players" else "colleges"
  }

  /** The message under the table, shown only when the search leaves nothing. */
  function EmptyState(view: View, data: seq<Entry>, searchQuery: string): (m: Option<string>)
    ensures m.Some? <==> FilteredData(data, searchQuery) == []
    ensures m.Some? ==> m.value == "No " + ViewName(view) + " found matching \"" + searchQuery + "\""
  {
    if |FilteredData(data, searchQuery)| == 0 then Some("No " + ViewName(view) + " found matching \"" + searchQuery + "\"")
    else None
  }

  /** The empty state appears exactly when no entry's name contains the query. */
  lemma EmptyStateIffNoMatch(view: View, data: seq<Entry>, searchQuery: string)
    ensures EmptyState(view, data, searchQuery).Some? <==>
      forall i :: 0 <= i < |data| ==> !IncludesIgnoringCase(data[i].name, searchQuery)
  {
    FilterEmptyIff(data, NameMatches(searchQuery));
  }
}
