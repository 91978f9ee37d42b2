/**
 * The wins endpoint: it reads the `team_wins` rows and answers with the
 * team-id to wins table and the latest update time, built by one loop.
 */
module GetWins {
  import opened Wrappers
  import Standings
  import Strings

  /**
   * The loop over the rows: `wins[row.team_id] = row.wins` and
   * `if (row.updated_at > last) last = row.updated_at`. It builds the same
   * table and time as the standings endpoint builds from the same rows.
   */
  method FoldRows(rows: seq<Standings.WinsRow>) returns (wins: map<string, int>, last: string)
    ensures wins == Standings.WinsTable(rows)
    ensures last == Standings.LastUpdated(rows)
    ensures forall i :: 0 <= i < |rows| ==> rows[i].team_id in wins
    ensures forall i :: 0 <= i < |rows| ==> !Strings.Less(last, rows[i].updated_at)
  {
    wins := map[];
    last := Standings.EPOCH;
    for k := 0 to |rows|
      invariant wins == Standings.WinsTable(rows[..k])
      invariant last == Standings.LastUpdated(rows[..k])
    {
      var row := rows[k];
      Standings.PrefixStep(rows, k);
      wins := wins[row.team_id := row.wins];
      if Strings.Less(last, row.updated_at) {
        last := row.updated_at;
      }
    }
    assert rows[..|rows|] == rows;
    Standings.TableAndTimeCover(rows);
  }

  datatype Body =
    | WinsBody(wins: map<string, int>, updatedAt: string)
    | Failed(error: string)

  datatype Response = Response(statusCode: int, maxAge: Option<nat>, body: Body)

  /**
   * The handler: a query error gives 500; otherwise 200, cacheable for 60
   * seconds, with the table and the latest time (`data || []` for no rows).
   */
  method Handle(query: Standings.Query<Standings.WinsRow>) returns (resp: Response)
    ensures query.QueryError? ==> resp == Response(500, None, Failed(query.message))
    ensures query.Rows? ==>
      var rows := query.data.GetOr([]);
      resp == Response(200, Some(60), WinsBody(Standings.WinsTable(rows), Standings.LastUpdated(rows)))
    ensures query.Rows? && query.data.GetOr([]) == [] ==>
      resp == Response(200, Some(60), WinsBody(map[], "1970-01-01T00:00:00Z"))
  {
    if query.QueryError? {
      return Response(500, None, Failed(query.message));
    }
    var wins, last := FoldRows(query.data.GetOr([]));
    resp := Response(200, Some(60), WinsBody(wins, last));
  }
}
