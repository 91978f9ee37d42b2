/**
 * The standings endpoint: it reads the `team_wins` rows and the entry rows,
 * builds the team-id to wins table, takes the latest update time, and hands
 * both to the scoring step.
 */
module Standings {
  import opened Wrappers
  import Strings

  /** A `team_wins` row. */
  datatype WinsRow = WinsRow(team_id: string, wins: int, updated_at: string)

  /** The starting value of the latest-update computation. */
  const EPOCH: string := "1970-01-01T00:00:00Z"

  /** Whether some row carries this team id. */
  predicate HasTeam(rows: seq<WinsRow>, id: string) {
    exists i :: 0 <= i < |rows| && rows[i].team_id == id
  }

  /**
   * `Object.fromEntries(rows.map(r => [r.team_id, r.wins]))`: each team id of
   * the rows is a key, and a later row for an id overrides an earlier one.
   */
  function WinsTable(rows: seq<WinsRow>): (m: map<string, int>)
    ensures forall id :: id in m <==> HasTeam(rows, id)
    decreases |rows|
  {
    if rows == [] then map[]
    else
      var init := rows[..|rows| - 1];
      assert forall i :: 0 <= i < |init| ==> init[i] == rows[i];
      WinsTable(init)[rows[|rows| - 1].team_id := rows[|rows| - 1].wins]
  }

  /** An id's value in the table is the wins of the LAST row carrying that id. */
  lemma {:induction false} WinsTableLastRowWins(rows: seq<WinsRow>, i: nat)
    requires i < |rows|
    requires forall j :: i < j < |rows| ==> rows[j].team_id != rows[i].team_id
    ensures rows[i].team_id in WinsTable(rows) && WinsTable(rows)[rows[i].team_id] == rows[i].wins
    decreases |rows|
  {
    if i < |rows| - 1 {
      var init := rows[..|rows| - 1];
      assert init[i] == rows[i];
      forall j | i < j < |init| ensures init[j].team_id != init[i].team_id {
        assert init[j] == rows[j];
      }
      WinsTableLastRowWins(init, i);
    }
  }

  /** One step of the reduce: the later of the accumulator and the row's time. */
  function Later(acc: string, r: WinsRow): (latest: string)
    ensures latest == acc || latest == r.updated_at
    ensures !Strings.Less(latest, acc) && !Strings.Less(latest, r.updated_at)
  {
    Strings.LessIrreflexive(acc);
    Strings.LessIrreflexive(r.updated_at);
    Strings.LessAsymmetric(acc, r.updated_at);
    Strings.LessTotal(acc, r.updated_at);
    if Strings.Less(acc, r.updated_at) then r.updated_at else acc
  }

  /** `rows.reduce((acc, r) => (r.updated_at > acc ? r.updated_at : acc), start)` */
  function LatestFrom(start: string, rows: seq<WinsRow>): string
    decreases |rows|
  {
    if rows == [] then start
    else Later(LatestFrom(start, rows[..|rows| - 1]), rows[|rows| - 1])
  }

  /** Extending the rows by one: the table and the latest time each take one more step. */
  lemma PrefixStep(rows: seq<WinsRow>, k: nat)
    requires k < |rows|
    ensures WinsTable(rows[..k + 1]) == WinsTable(rows[..k])[rows[k].team_id := rows[k].wins]
    ensures LatestFrom(EPOCH, rows[..k + 1]) == Later(LatestFrom(EPOCH, rows[..k]), rows[k])
  {
    assert rows[..k + 1][..k] == rows[..k];
  }

  /** Every team of the rows is in the table, and the latest time is no earlier than any row's. */
  lemma TableAndTimeCover(rows: seq<WinsRow>)
    ensures forall i :: 0 <= i < |rows| ==> rows[i].team_id in WinsTable(rows)
    ensures forall i :: 0 <= i < |rows| ==> !Strings.Less(LatestFrom(EPOCH, rows), rows[i].updated_at)
  {
    forall i | 0 <= i < |rows| ensures rows[i].team_id in WinsTable(rows) {
      assert HasTeam(rows, rows[i].team_id);
    }
    LatestFromIsUpperBound(EPOCH, rows);
  }

  /** The latest update: the reduce started from the epoch. */
  function LastUpdated(rows: seq<WinsRow>): (last: string)
    ensures !Strings.Less(last, EPOCH)
  {
    LatestFromIsUpperBound(EPOCH, rows);
    LatestFrom(EPOCH, rows)
  }

  /** Neither the start nor any row's time is greater than the result of the reduce. */
  lemma {:induction false} LatestFromIsUpperBound(start: string, rows: seq<WinsRow>)
    ensures !Strings.Less(LatestFrom(start, rows), start)
    ensures forall i :: 0 <= i < |rows| ==> !Strings.Less(LatestFrom(start, rows), rows[i].updated_at)
    decreases |rows|
  {
    if rows == [] {
      Strings.LessIrreflexive(start);
    } else {
      var init := rows[..|rows| - 1];
      var r := rows[|rows| - 1];
      var acc := LatestFrom(start, init);
      LatestFromIsUpperBound(start, init);
      if Strings.Less(acc, r.updated_at) {
        Strings.LessIrreflexive(r.updated_at);
        if Strings.Less(r.updated_at, start) {
          Strings.LessTransitive(acc, r.updated_at, start);
        }
        forall i | 0 <= i < |init| ensures !Strings.Less(r.updated_at, rows[i].updated_at) {
          assert init[i] == rows[i];
          if Strings.Less(r.updated_at, rows[i].updated_at) {
            Strings.LessTransitive(acc, r.updated_at, rows[i].updated_at);
          }
        }
      } else {
        forall i | 0 <= i < |init| ensures !Strings.Less(acc, rows[i].updated_at) {
          assert init[i] == rows[i];
        }
      }
    }
  }

  /** The result of the reduce is the start or the time of one of the rows. */
  lemma {:induction false} LatestFromIsAttained(start: string, rows: seq<WinsRow>)
    ensures LatestFrom(start, rows) == start ||
      exists i :: 0 <= i < |rows| && rows[i].updated_at == LatestFrom(start, rows)
    decreases |rows|
  {
    if rows != [] {
      var init := rows[..|rows| - 1];
      LatestFromIsAttained(start, init);
      if LatestFrom(start, init) != start && LatestFrom(start, rows) == LatestFrom(start, init) {
        var i :| 0 <= i < |init| && init[i].updated_at == LatestFrom(start, init);
        assert rows[i] == init[i];
      }
    }
  }

  /**
   * Neither the epoch nor any row's time is greater than the latest update,
   * and the latest update is the epoch or the time of one of the rows.
   */
  lemma LastUpdatedIsMax(rows: seq<WinsRow>)
    ensures !Strings.Less(LastUpdated(rows), EPOCH)
    ensures forall i :: 0 <= i < |rows| ==> !Strings.Less(LastUpdated(rows), rows[i].updated_at)
    ensures LastUpdated(rows) == EPOCH || exists i :: 0 <= i < |rows| && rows[i].updated_at == LastUpdated(rows)
  {
    LatestFromIsUpperBound(EPOCH, rows);
    LatestFromIsAttained(EPOCH, rows);
  }

  /** With no rows the table is empty and the latest update is the epoch. */
  lemma NoRows()
    ensures WinsTable([]) == map[] && LastUpdated([]) == EPOCH
  {
  }

  /** The answer of one database query: the rows (`null` allowed) or an error. */
  datatype Query<T> = Rows(data: Option<seq<T>>) | QueryError(message: string)

  datatype Body<E> =
    | Scored(lastUpdated: string, wins: map<string, int>, entries: seq<E>)
    | Failed(error: string)

  /** A response; `maxAge` is the cache-control max-age in seconds, when sent. */
  datatype Response<E> = Response(statusCode: int, maxAge: Option<nat>, body: Body<E>)

  /**
   * The handler. An error from either query gives 500 (the wins query's
   * error is reported first); otherwise 200, cacheable for 60 seconds,
   * carrying the latest update, and the wins table and entry rows that the
   * scoring step receives.
   */
  function Handle<E>(winsQuery: Query<WinsRow>, entriesQuery: Query<E>): (resp: Response<E>)
    ensures winsQuery.QueryError? ==> resp == Response(500, None, Failed(winsQuery.message))
    ensures winsQuery.Rows? && entriesQuery.QueryError? ==> resp == Response(500, None, Failed(entriesQuery.message))
    ensures winsQuery.Rows? && entriesQuery.Rows? ==>
      var rows := winsQuery.data.GetOr([]);
      && resp.statusCode == 200 && resp.maxAge == Some(60)
      && resp.body.Scored?
      && resp.body.entries == entriesQuery.data.GetOr([])
      && resp.body.wins == WinsTable(rows) && resp.body.lastUpdated == LastUpdated(rows)
      && (forall id :: id in resp.body.wins <==> HasTeam(rows, id))
      && (forall i :: 0 <= i < |rows| ==> !Strings.Less(resp.body.lastUpdated, rows[i].updated_at))
      && (rows == [] ==> resp.body.lastUpdated == EPOCH)
  {
    if winsQuery.QueryError? then Response(500, None, Failed(winsQuery.message))
    else if entriesQuery.QueryError? then Response(500, None, Failed(entriesQuery.message))
    else
      var rows := winsQuery.data.GetOr([]);
      LastUpdatedIsMax(rows);
      Response(200, Some(60), Scored(LastUpdated(rows), WinsTable(rows), entriesQuery.data.GetOr([])))
  }
}
