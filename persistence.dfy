/**
 * The document store the controllers write through: users, colleges and matches.
 * Each Mongoose call is one update of these collections.
 */
module Persistence {
  import opened Models

  datatype Store = Store(users: map<UserId, User>, colleges: map<string, College>, matches: seq<MatchRecord>)

  /** The unique indexes and the college naming rule. */
  ghost predicate Consistent(s: Store) {
    UniqueRoomIds(s.matches) && CollegesWellFormed(s.colleges) && UniqueEmails(s.users)
  }

  /** The three collections, updated in place by the request handlers. */
  class Database {
    var users: map<UserId, User>
    var colleges: map<string, College>
    var matches: seq<MatchRecord>

    function State(): Store
      reads this
    {
      Store(users, colleges, matches)
    }

    ghost predicate Valid()
      reads this
    {
      Consistent(State())
    }

    constructor ()
      ensures Valid()
      ensures State() == Store(map[], map[], [])
    {
      users, colleges, matches := map[], map[], [];
    }
  }

  // ---------------------------------------------------------------------------
  // Totals over a collection

  /** The sum of `m`'s values over the keys `ks`. */
  ghost function SumOver<K>(m: map<K, int>, ks: set<K>): int
    requires ks <= m.Keys
    decreases ks
  {
    if ks == {} then 0
    else
      var k :| k in ks;
      m[k] + SumOver(m, ks - {k})
  }

  /** Any key can be taken out of the sum first. */
  lemma {:induction false} SumOverRemove<K>(m: map<K, int>, ks: set<K>, k: K)
    requires ks <= m.Keys && k in ks
    ensures SumOver(m, ks) == m[k] + SumOver(m, ks - {k})
    decreases ks
  {
    var j :| j in ks && SumOver(m, ks) == m[j] + SumOver(m, ks - {j});
    if j != k {
      SumOverRemove(m, ks - {j}, k);
      SumOverRemove(m, ks - {k}, j);
      assert ks - {j} - {k} == ks - {k} - {j};
    }
  }

  /** Two maps that agree on `ks` have the same sum over `ks`. */
  lemma {:induction false} SumOverAgree<K>(m1: map<K, int>, m2: map<K, int>, ks: set<K>)
    requires ks <= m1.Keys && ks <= m2.Keys
    requires forall k :: k in ks ==> m1[k] == m2[k]
    ensures SumOver(m1, ks) == SumOver(m2, ks)
    decreases ks
  {
    if ks != {} {
      var k :| k in ks && SumOver(m1, ks) == m1[k] + SumOver(m1, ks - {k});
      SumOverAgree(m1, m2, ks - {k});
      SumOverRemove(m2, ks, k);
    }
  }

  /** Changing one value changes the sum by the difference. */
  lemma SumOverUpdate<K>(m: map<K, int>, k: K, v: int)
    requires k in m
    ensures SumOver(m[k := v], m.Keys) == SumOver(m, m.Keys) - m[k] + v
  {
    var m' := m[k := v];
    assert m'.Keys == m.Keys;
    SumOverRemove(m', m.Keys, k);
    SumOverRemove(m, m.Keys, k);
    SumOverAgree(m, m', m.Keys - {k});
  }

  /** Adding a new key adds its value to the sum. */
  lemma SumOverInsert<K>(m: map<K, int>, k: K, v: int)
    requires k !in m
    ensures SumOver(m[k := v], m[k := v].Keys) == SumOver(m, m.Keys) + v
  {
    var m' := m[k := v];
    assert m'.Keys - {k} == m.Keys;
    SumOverRemove(m', m'.Keys, k);
    SumOverAgree(m, m', m.Keys);
  }

  function EloOf(users: map<UserId, User>): (r: map<UserId, int>)
    ensures r.Keys == users.Keys
  {
    map u | u in users :: users[u].elo
  }

  function TotalEloOf(colleges: map<string, College>): (r: map<string, int>)
    ensures r.Keys == colleges.Keys
  {
    map c | c in colleges :: colleges[c].totalElo
  }

  /** The elo of all users together. */
  ghost function UserElo(users: map<UserId, User>): int {
    SumOver(EloOf(users), users.Keys)
  }

  /** The `totalElo` of all colleges together. */
  ghost function CollegeElo(colleges: map<string, College>): int {
    SumOver(TotalEloOf(colleges), colleges.Keys)
  }
}
