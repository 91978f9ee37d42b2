/**
 * The prediction page: the fixed conference rosters, the rank-distance scoring
 * helper, the drag-and-drop reorder of a pick list and the page's state
 * (the two pick lists and what the browser's local storage holds).
 */
module Pool {
  import opened Wrappers

  datatype Team = Team(id: string, name: string)

  datatype Conference = East | West

  // ---------- Rosters ----------

  /** Last season's eastern finishing order ("2024-25 Results"). */
  const LAST_SEASON_EAST: seq<Team> := [
    Team("CLE", "Cleveland Cavaliers"), Team("BOS", "Boston Celtics"),
    Team("NYK", "New York Knicks"), Team("IND", "Indiana Pacers"),
    Team("MIL", "Milwaukee Bucks"), Team("DET", "Detroit Pistons"),
    Team("ORL", "Orlando Magic"), Team("ATL", "Atlanta Hawks"),
    Team("CHI", "Chicago Bulls"), Team("MIA", "Miami Heat"),
    Team("TOR", "Toronto Raptors"), Team("BKN", "Brooklyn Nets"),
    Team("PHI", "Philadelphia 76ers"), Team("CHA", "Charlotte Hornets"),
    Team("WAS", "Washington Wizards")
  ]

  /** Last season's western finishing order. */
  const LAST_SEASON_WEST: seq<Team> := [
    Team("OKC", "Oklahoma City Thunder"), Team("HOU", "Houston Rockets"),
    Team("LAL", "Los Angeles Lakers"), Team("DEN", "Denver Nuggets"),
    Team("LAC", "Los Angeles Clippers"), Team("MIN", "Minnesota Timberwolves"),
    Team("GSW", "Golden State Warriors"), Team("MEM", "Memphis Grizzlies"),
    Team("SAC", "Sacramento Kings"), Team("DAL", "Dallas Mavericks"),
    Team("PHX", "Phoenix Suns"), Team("POR", "Portland Trail Blazers"),
    Team("SAS", "San Antonio Spurs"), Team("NOP", "New Orleans Pelicans"),
    Team("UTA", "Utah Jazz")
  ]

  /** The eastern conference in alphabetical order of team name ("A-Z"). */
  const EAST_TEAMS: seq<Team> := [
    Team("ATL", "Atlanta Hawks"), Team("BOS", "Boston Celtics"),
    Team("BKN", "Brooklyn Nets"), Team("CHA", "Charlotte Hornets"),
    Team("CHI", "Chicago Bulls"), Team("CLE", "Cleveland Cavaliers"),
    Team("DET", "Detroit Pistons"), Team("IND", "Indiana Pacers"),
    Team("MIA", "Miami Heat"), Team("MIL", "Milwaukee Bucks"),
    Team("NYK", "New York Knicks"), Team("ORL", "Orlando Magic"),
    Team("PHI", "Philadelphia 76ers"), Team("TOR", "Toronto Raptors"),
    Team("WAS", "Washington Wizards")
  ]

  /** The western conference in alphabetical order of team name. */
  const WEST_TEAMS: seq<Team> := [
    Team("DAL", "Dallas Mavericks"), Team("DEN", "Denver Nuggets"),
    Team("GSW", "Golden State Warriors"), Team("HOU", "Houston Rockets"),
    Team("LAC", "Los Angeles Clippers"), Team("LAL", "Los Angeles Lakers"),
    Team("MEM", "Memphis Grizzlies"), Team("MIN", "Minnesota Timberwolves"),
    Team("NOP", "New Orleans Pelicans"), Team("OKC", "Oklahoma City Thunder"),
    Team("PHX", "Phoenix Suns"), Team("POR", "Portland Trail Blazers"),
    Team("SAC", "Sacramento Kings"), Team("SAS", "San Antonio Spurs"),
    Team("UTA", "Utah Jazz")
  ]

  function Ids(teams: seq<Team>): (r: seq<string>)
    ensures |r| == |teams|
    ensures forall i :: 0 <= i < |teams| ==> r[i] == teams[i].id
  {
    seq(|teams|, i requires 0 <= i < |teams| => teams[i].id)
  }

  predicate Distinct(ids: seq<string>) {
    forall i, j :: 0 <= i < j < |ids| ==> ids[i] != ids[j]
  }

  /** The teams of a list, as a set. */
  function TeamSet(teams: seq<Team>): set<Team> {
    set t | t in teams
  }

  /**
   * Each conference list holds 15 teams with distinct ids, and the
   * alphabetical and last-season lists of a conference hold the same teams.
   */
  lemma RostersAgree()
    ensures |EAST_TEAMS| == |LAST_SEASON_EAST| == |WEST_TEAMS| == |LAST_SEASON_WEST| == 15
    ensures Distinct(Ids(EAST_TEAMS)) && Distinct(Ids(LAST_SEASON_EAST))
    ensures Distinct(Ids(WEST_TEAMS)) && Distinct(Ids(LAST_SEASON_WEST))
    ensures TeamSet(LAST_SEASON_EAST) == TeamSet(EAST_TEAMS)
    ensures TeamSet(LAST_SEASON_WEST) == TeamSet(WEST_TEAMS)
  {
    EastRosters();
    WestRosters();
  }

  lemma EastRosters()
    ensures Distinct(Ids(EAST_TEAMS)) && Distinct(Ids(LAST_SEASON_EAST))
    ensures TeamSet(LAST_SEASON_EAST) == TeamSet(EAST_TEAMS)
  {
    EastAlphabeticalDistinct();
    EastLastSeasonDistinct();
  }

  lemma EastAlphabeticalDistinct()
    ensures Distinct(Ids(EAST_TEAMS))
  {
  }

  lemma EastLastSeasonDistinct()
    ensures Distinct(Ids(LAST_SEASON_EAST))
  {
  }

  lemma WestRosters()
    ensures Distinct(Ids(WEST_TEAMS)) && Distinct(Ids(LAST_SEASON_WEST))
    ensures TeamSet(LAST_SEASON_WEST) == TeamSet(WEST_TEAMS)
  {
    WestAlphabeticalDistinct();
    WestLastSeasonDistinct();
  }

  lemma WestAlphabeticalDistinct()
    ensures Distinct(Ids(WEST_TEAMS))
  {
  }

  lemma WestLastSeasonDistinct()
    ensures Distinct(Ids(LAST_SEASON_WEST))
  {
  }

  /** No team is listed in both conferences. */
  lemma ConferencesDisjoint()
    ensures forall i, j :: 0 <= i < |EAST_TEAMS| && 0 <= j < |WEST_TEAMS| ==> EAST_TEAMS[i].id != WEST_TEAMS[j].id
  {
  }

  // ---------- Rank-distance scoring ----------

  /**
   * `new Map(list.map((t, i) => [t.id, i + 1]))`: each id to its 1-based
   * position; a later occurrence of an id overwrites an earlier one.
   */
  function RankMap(list: seq<Team>): (m: map<string, int>)
    ensures forall id :: id in m ==> 1 <= m[id] <= |list|
    decreases |list|
  {
    if list == [] then map[]
    else RankMap(list[..|list| - 1])[list[|list| - 1].id := |list|]
  }

  /** An id is a key of the rank map exactly when some team of the list has it. */
  lemma {:induction false} RankMapKeys(list: seq<Team>, id: string)
    ensures id in RankMap(list) <==> exists i :: 0 <= i < |list| && list[i].id == id
    decreases |list|
  {
    if list != [] {
      var init := list[..|list| - 1];
      RankMapKeys(init, id);
      if id in RankMap(init) {
        var i :| 0 <= i < |init| && init[i].id == id;
        assert list[i] == init[i];
      }
      forall i | 0 <= i < |list| - 1 && list[i].id == id ensures id in RankMap(init) {
        assert init[i] == list[i];
      }
    }
  }

  /** A repeated id is ranked by its LAST position in the list. */
  lemma {:induction false} RankMapLast(list: seq<Team>, i: nat)
    requires i < |list|
    requires forall j :: i < j < |list| ==> list[j].id != list[i].id
    ensures list[i].id in RankMap(list) && RankMap(list)[list[i].id] == i + 1
    decreases |list|
  {
    if i < |list| - 1 {
      var init := list[..|list| - 1];
      assert init[i] == list[i];
      forall j | i < j < |init| ensures init[j].id != init[i].id {
        assert init[j] == list[j];
      }
      RankMapLast(init, i);
    }
  }

  function Abs(x: int): nat {
    if x < 0 then -x else x
  }

  /** Points for one team: 5, 3 or 1 for a rank difference of 0, 1 or 2, else 0. */
  function DistancePoints(diff: nat): (p: nat)
    ensures p <= 5
    ensures p == 5 <==> diff == 0
    ensures p == 0 <==> diff >= 3
  {
    if diff == 0 then 5 else if diff == 1 then 3 else if diff == 2 then 1 else 0
  }

  /** A team missing from either map (`!pr || !ar`) scores nothing. */
  function TeamPoints(pick: map<string, int>, actual: map<string, int>, id: string): (p: nat)
    ensures p <= 5
    ensures id !in pick || id !in actual ==> p == 0
  {
    if id !in pick || pick[id] == 0 || id !in actual || actual[id] == 0 then 0
    else DistancePoints(Abs(pick[id] - actual[id]))
  }

  /** The sum of the team points over `teams`, in order. */
  function PointsOver(pick: map<string, int>, actual: map<string, int>, teams: seq<Team>): nat
    decreases |teams|
  {
    if teams == [] then 0
    else PointsOver(pick, actual, teams[..|teams| - 1]) + TeamPoints(pick, actual, teams[|teams| - 1].id)
  }

  /** What `scoreConference` accumulates: the team points over the actual list. */
  function ConferencePoints(userList: seq<Team>, actualList: seq<Team>): (p: nat)
    ensures p <= 5 * |actualList|
  {
    PointsBound(RankMap(userList), RankMap(actualList), actualList);
    PointsOver(RankMap(userList), RankMap(actualList), actualList)
  }

  datatype ConferenceScore = ConferenceScore(points: nat, max: nat)

  /** `scoreConference(userList, actualList)`. */
  method ScoreConference(userList: seq<Team>, actualList: seq<Team>) returns (score: ConferenceScore)
    ensures score.points == ConferencePoints(userList, actualList)
    ensures score.points <= 5 * |actualList|
    ensures score.max == 75
  {
    var pickRank := RankMap(userList);
    var actualRank := RankMap(actualList);
    var points: nat := 0;
    for k := 0 to |actualList|
      invariant points == PointsOver(pickRank, actualRank, actualList[..k])
    {
      assert actualList[..k + 1][..k] == actualList[..k];
      var t := actualList[k];
      if t.id !in pickRank || pickRank[t.id] == 0 || t.id !in actualRank || actualRank[t.id] == 0 {
        continue;
      }
      var diff := Abs(pickRank[t.id] - actualRank[t.id]);
      if diff == 0 {
        points := points + 5;
      } else if diff == 1 {
        points := points + 3;
      } else if diff == 2 {
        points := points + 1;
      }
    }
    assert actualList[..|actualList|] == actualList;
    PointsBound(pickRank, actualRank, actualList);
    score := ConferenceScore(points, 75);
  }

  /** The rank-distance table, stated on the two 1-based ranks of one team. */
  lemma RankDistanceTable(pick: map<string, int>, actual: map<string, int>, id: string)
    requires id in pick && id in actual && pick[id] >= 1 && actual[id] >= 1
    ensures pick[id] == actual[id] ==> TeamPoints(pick, actual, id) == 5
    ensures Abs(pick[id] - actual[id]) == 1 ==> TeamPoints(pick, actual, id) == 3
    ensures Abs(pick[id] - actual[id]) == 2 ==> TeamPoints(pick, actual, id) == 1
    ensures Abs(pick[id] - actual[id]) >= 3 ==> TeamPoints(pick, actual, id) == 0
  {
  }

  /** No team scores more than 5. */
  lemma {:induction false} PointsBound(pick: map<string, int>, actual: map<string, int>, teams: seq<Team>)
    ensures PointsOver(pick, actual, teams) <= 5 * |teams|
    decreases |teams|
  {
    if teams != [] { PointsBound(pick, actual, teams[..|teams| - 1]); }
  }

  /** The sum splits over concatenation. */
  lemma {:induction false} PointsOverAppend(pick: map<string, int>, actual: map<string, int>, a: seq<Team>, b: seq<Team>)
    ensures PointsOver(pick, actual, a + b) == PointsOver(pick, actual, a) + PointsOver(pick, actual, b)
    decreases |b|
  {
    if b == [] {
      assert a + b == a;
    } else {
      assert (a + b)[..|a + b| - 1] == a + b[..|b| - 1];
      PointsOverAppend(pick, actual, a, b[..|b| - 1]);
    }
  }

  /**
   * A team the user did not list contributes nothing, and the teams after it
   * are still counted: the loop skips it instead of stopping.
   */
  lemma UnlistedTeamSkipped(userList: seq<Team>, before: seq<Team>, t: Team, after: seq<Team>)
    requires forall i :: 0 <= i < |userList| ==> userList[i].id != t.id
    ensures PointsOver(RankMap(userList), RankMap(before + [t] + after), before + [t] + after)
         == PointsOver(RankMap(userList), RankMap(before + [t] + after), before + after)
  {
    var pick, actual := RankMap(userList), RankMap(before + [t] + after);
    RankMapKeys(userList, t.id);
    PointsOverAppend(pick, actual, before + [t], after);
    PointsOverAppend(pick, actual, before, [t]);
    PointsOverAppend(pick, actual, before, after);
    assert [t][..0] == [];
  }

  /** A prediction equal to the actual order scores 5 for every team (75 for 15 teams). */
  lemma PerfectPrediction(list: seq<Team>)
    ensures ConferencePoints(list, list) == 5 * |list|
  {
    var m := RankMap(list);
    forall k | 0 <= k < |list| ensures list[k].id in m {
      RankMapKeys(list, list[k].id);
    }
    AllRankedScoreFive(m, list);
  }

  lemma {:induction false} AllRankedScoreFive(m: map<string, int>, teams: seq<Team>)
    requires forall k :: 0 <= k < |teams| ==> teams[k].id in m && m[teams[k].id] >= 1
    ensures PointsOver(m, m, teams) == 5 * |teams|
    decreases |teams|
  {
    if teams != [] {
      var init := teams[..|teams| - 1];
      forall k | 0 <= k < |init| ensures init[k].id in m && m[init[k].id] >= 1 {
        assert init[k] == teams[k];
      }
      AllRankedScoreFive(m, init);
    }
  }

  // ---------- Drag-and-drop reorder ----------

  predicate Listed(items: seq<Team>, id: string) {
    exists i :: 0 <= i < |items| && items[i].id == id
  }

  /** `items.findIndex((i) => i.id === id)`: the first index holding `id`, or -1. */
  function FindIndex(items: seq<Team>, id: string): (r: int)
    ensures -1 <= r < |items|
    ensures r == -1 <==> !Listed(items, id)
    ensures r >= 0 ==> items[r].id == id && forall i :: 0 <= i < r ==> items[i].id != id
  {
    if items == [] then -1
    else if items[0].id == id then 0
    else
      var k := FindIndex(items[1..], id);
      assert forall i :: 1 <= i < |items| ==> items[i] == items[1..][i - 1];
      if k == -1 then -1 else k + 1
  }

  function RemoveAt<T>(s: seq<T>, i: nat): seq<T>
    requires i < |s|
  {
    s[..i] + s[i + 1..]
  }

  /**
   * `arrayMove(s, from, to)`: the item at `from` is taken out and put back in
   * at `to`; the others keep their relative order.
   */
  function ArrayMove<T>(s: seq<T>, from: nat, to: nat): (r: seq<T>)
    requires from < |s| && to < |s|
    ensures |r| == |s| && r[to] == s[from]
    ensures RemoveAt(r, to) == RemoveAt(s, from)
    ensures multiset(r) == multiset(s)
  {
    var rest := RemoveAt(s, from);
    var r := rest[..to] + [s[from]] + rest[to..];
    assert s == s[..from] + [s[from]] + s[from + 1..];
    assert rest == rest[..to] + rest[to..];
    assert r[..to] == rest[..to] && r[to + 1..] == rest[to..];
    calc {
      multiset(r);
      multiset(rest[..to]) + multiset([s[from]]) + multiset(rest[to..]);
      multiset(rest) + multiset([s[from]]);
      multiset(s[..from]) + multiset(s[from + 1..]) + multiset([s[from]]);
      multiset(s);
    }
    r
  }

  /**
   * Position by position: outside the span between the two indices nothing
   * moves, and inside it every other item shifts by one toward `from`.
   */
  lemma ArrayMoveShifts<T>(s: seq<T>, from: nat, to: nat, i: nat)
    requires from < |s| && to < |s| && i < |s|
    ensures i < from && i < to ==> ArrayMove(s, from, to)[i] == s[i]
    ensures i > from && i > to ==> ArrayMove(s, from, to)[i] == s[i]
    ensures from < to && from <= i < to ==> ArrayMove(s, from, to)[i] == s[i + 1]
    ensures to < from && to < i <= from ==> ArrayMove(s, from, to)[i] == s[i - 1]
  {
    var r := ArrayMove(s, from, to);
    var rest := RemoveAt(s, from);
    assert RemoveAt(r, to) == rest;
    if i < to {
      assert r[i] == RemoveAt(r, to)[i];
    } else if i > to {
      assert r[i] == RemoveAt(r, to)[i - 1];
    }
  }

  /**
   * `handleDragEnd`: with no drop target, or a drop on the dragged team
   * itself, the list stays as it is; otherwise the dragged team moves to the
   * index the target held.
   */
  function Reorder(items: seq<Team>, activeId: string, over: Option<string>): (r: seq<Team>)
    requires Listed(items, activeId)
    requires over.Some? ==> Listed(items, over.value)
    ensures over.None? || over.value == activeId ==> r == items
    ensures multiset(r) == multiset(items)
    ensures over.Some? && over.value != activeId ==>
      |r| == |items| && r[FindIndex(items, over.value)].id == activeId
  {
    if over.None? || activeId == over.value then items
    else ArrayMove(items, FindIndex(items, activeId), FindIndex(items, over.value))
  }

  // ---------- Page state ----------

  datatype SavedEntry = SavedEntry(id: string, name: string, east: seq<Team>, west: seq<Team>, submittedAt: string)

  /**
   * The page's two pick lists and the local-storage keys it writes
   * ("pool_east", "pool_west", "pool_entries"; an absent key is `None` or
   * the empty list).
   */
  class PoolState {
    var east: seq<Team>
    var west: seq<Team>
    var storedEast: Option<seq<Team>>
    var storedWest: Option<seq<Team>>
    var storedEntries: seq<SavedEntry>

    /** A stored list is used when present, otherwise the alphabetical roster. */
    constructor (storedEast: Option<seq<Team>>, storedWest: Option<seq<Team>>, storedEntries: seq<SavedEntry>)
      ensures east == storedEast.GetOr(EAST_TEAMS) && west == storedWest.GetOr(WEST_TEAMS)
      ensures this.storedEast == storedEast && this.storedWest == storedWest
      ensures this.storedEntries == storedEntries
    {
      east := storedEast.GetOr(EAST_TEAMS);
      west := storedWest.GetOr(WEST_TEAMS);
      this.storedEast := storedEast;
      this.storedWest := storedWest;
      this.storedEntries := storedEntries;
    }

    function Items(conf: Conference): seq<Team>
      reads this
    {
      if conf == East then east else west
    }

    /** The drop handler of one conference column. */
    method DragEnd(conf: Conference, activeId: string, over: Option<string>)
      requires Listed(Items(conf), activeId)
      requires over.Some? ==> Listed(Items(conf), over.value)
      modifies this
      ensures Items(conf) == Reorder(old(Items(conf)), activeId, over)
      ensures multiset(Items(conf)) == multiset(old(Items(conf)))
      ensures conf == East ==> west == old(west) && storedWest == old(storedWest)
      ensures conf == West ==> east == old(east) && storedEast == old(storedEast)
      ensures over.None? || over.value == activeId ==>
        east == old(east) && west == old(west) && storedEast == old(storedEast) && storedWest == old(storedWest)
      ensures over.Some? && over.value != activeId ==>
        (if conf == East then storedEast else storedWest) == Some(Items(conf))
      ensures storedEntries == old(storedEntries)
    {
      if over.None? || activeId == over.value {
        return;
      }
      var next := Reorder(Items(conf), activeId, over);
      if conf == East {
        east := next;
        storedEast := Some(next);
      } else {
        west := next;
        storedWest := Some(next);
      }
    }

    /** "2024-25 Results": both lists become last season's finishing order. */
    method AutofillLastSeason()
      modifies this
      ensures east == LAST_SEASON_EAST && west == LAST_SEASON_WEST
      ensures storedEast == Some(LAST_SEASON_EAST) && storedWest == Some(LAST_SEASON_WEST)
      ensures TeamSet(east) == TeamSet(EAST_TEAMS) && TeamSet(west) == TeamSet(WEST_TEAMS)
      ensures storedEntries == old(storedEntries)
    {
      RostersAgree();
      east, west := LAST_SEASON_EAST, LAST_SEASON_WEST;
      storedEast, storedWest := Some(LAST_SEASON_EAST), Some(LAST_SEASON_WEST);
    }

    /** "A-Z": both lists go back to alphabetical order. */
    method ResetAlphabetical()
      modifies this
      ensures east == EAST_TEAMS && west == WEST_TEAMS
      ensures storedEast == Some(EAST_TEAMS) && storedWest == Some(WEST_TEAMS)
      ensures storedEntries == old(storedEntries)
    {
      east, west := EAST_TEAMS, WEST_TEAMS;
      storedEast, storedWest := Some(EAST_TEAMS), Some(WEST_TEAMS);
    }

    /**
     * "Save My Entry": appends one entry holding the current lists; the id
     * and the timestamp come from the browser.
     */
    method SaveMyEntry(name: string, id: string, submittedAt: string)
      modifies this
      ensures storedEntries == old(storedEntries) + [SavedEntry(id, name, east, west, submittedAt)]
      ensures east == old(east) && west == old(west)
      ensures storedEast == old(storedEast) && storedWest == old(storedWest)
    {
      storedEntries := storedEntries + [SavedEntry(id, name, east, west, submittedAt)];
    }
  }
}
