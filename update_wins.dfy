/**
 * The scheduled job that reads the ESPN standings feed, extracts one
 * (team id, wins) row per recognised team entry, and writes the rows to the
 * `team_wins` table and the `team_wins_history` log.
 */
module UpdateWins {
  import opened Wrappers
  import Pool

  /** ESPN abbreviation to team id: every one of the 30 abbreviations maps to itself. */
  const MAP: map<string, string> := map[
    "ATL" := "ATL", "BOS" := "BOS", "BKN" := "BKN", "CHA" := "CHA", "CHI" := "CHI",
    "CLE" := "CLE", "DET" := "DET", "IND" := "IND", "MIA" := "MIA", "MIL" := "MIL",
    "NYK" := "NYK", "ORL" := "ORL", "PHI" := "PHI", "TOR" := "TOR", "WAS" := "WAS",
    "DAL" := "DAL", "DEN" := "DEN", "GSW" := "GSW", "HOU" := "HOU", "LAC" := "LAC",
    "LAL" := "LAL", "MEM" := "MEM", "MIN" := "MIN", "NOP" := "NOP", "OKC" := "OKC",
    "PHX" := "PHX", "POR" := "POR", "SAC" := "SAC", "SAS" := "SAS", "UTA" := "UTA"
  ]

  /** The fewest rows the job accepts before it writes anything. */
  const MIN_ROWS := 26

  /**
   * MAP is the identity, and its keys are exactly the ids of the two
   * conference rosters of the prediction page.
   */
  lemma MapMatchesRosters()
    ensures forall k :: k in MAP ==> MAP[k] == k
    ensures forall k :: k in MAP <==> k in Pool.Ids(Pool.EAST_TEAMS) || k in Pool.Ids(Pool.WEST_TEAMS)
  {
    MapIsIdentity();
    RosterIdsMapped();
    MapKeysListed();
  }

  lemma MapIsIdentity()
    ensures forall k :: k in MAP ==> MAP[k] == k
  {
  }

  lemma RosterIdsMapped()
    ensures forall k :: k in Pool.Ids(Pool.EAST_TEAMS) ==> k in MAP
    ensures forall k :: k in Pool.Ids(Pool.WEST_TEAMS) ==> k in MAP
  {
  }

  lemma MapKeysListed()
    ensures forall k :: k in MAP ==> k in Pool.Ids(Pool.EAST_TEAMS) || k in Pool.Ids(Pool.WEST_TEAMS)
  {
    assert Pool.Ids(Pool.EAST_TEAMS) == ["ATL", "BOS", "BKN", "CHA", "CHI", "CLE", "DET", "IND", "MIA", "MIL", "NYK", "ORL", "PHI", "TOR", "WAS"];
    assert Pool.Ids(Pool.WEST_TEAMS) == ["DAL", "DEN", "GSW", "HOU", "LAC", "LAL", "MEM", "MIN", "NOP", "OKC", "PHX", "POR", "SAC", "SAS", "UTA"];
  }

  // ---------- The feed ----------

  /** A stat value after `Number(...)`: a finite whole number, or NaN / an infinity. */
  datatype Num = Finite(n: int) | NonFinite

  datatype Stat = Stat(
    name: Option<string>,
    shortDisplayName: Option<string>,
    description: Option<string>,
    value: Option<Num>,
    displayValue: Option<Num>)

  /** One team line of the feed; an absent `stats` array is the empty one. */
  datatype FeedEntry = FeedEntry(abbreviation: Option<string>, stats: seq<Stat>)

  /** A feed object, as far as the extraction looks into it. */
  datatype Node = Node(standings: Option<Node>, entries: Option<seq<FeedEntry>>, children: Option<seq<Node>>)

  datatype WinsRow = WinsRow(team_id: string, wins: int)

  predicate IsWinsStat(s: Stat) {
    s.name == Some("wins") || s.shortDisplayName == Some("W") || s.description == Some("Wins")
  }

  /** `stats.find(...)`: the index of the first wins stat, if there is one. */
  function FirstWinsStat(stats: seq<Stat>): (k: Option<nat>)
    ensures k.None? <==> forall i :: 0 <= i < |stats| ==> !IsWinsStat(stats[i])
    ensures k.Some? ==>
      && k.value < |stats| && IsWinsStat(stats[k.value])
      && forall j :: 0 <= j < k.value ==> !IsWinsStat(stats[j])
  {
    if stats == [] then None
    else if IsWinsStat(stats[0]) then Some(0)
    else
      var k := FirstWinsStat(stats[1..]);
      assert forall i :: 1 <= i < |stats| ==> stats[i] == stats[1..][i - 1];
      if k.None? then None else Some(k.value + 1)
  }

  /** `Number.isFinite(wins) ? wins : 0` */
  function Coerce(v: Num): (w: int)
    ensures v.NonFinite? ==> w == 0
  {
    if v.Finite? then v.n else 0
  }

  /** The wins a stat carries: `value ?? displayValue ?? 0`, a non-finite number read as 0. */
  function StatWins(s: Stat): (w: int)
    ensures s.value == Some(NonFinite) ==> w == 0
    ensures s.value.None? && s.displayValue.None? ==> w == 0
    ensures s.value.None? && s.displayValue == Some(NonFinite) ==> w == 0
  {
    Coerce(s.value.GetOr(s.displayValue.GetOr(Finite(0))))
  }

  /** The wins stored for a team line: those of its first wins stat, 0 when it has none. */
  function WinsOf(stats: seq<Stat>): (w: int)
    ensures (forall i :: 0 <= i < |stats| ==> !IsWinsStat(stats[i])) ==> w == 0
  {
    match FirstWinsStat(stats)
    case None => 0
    case Some(k) => StatWins(stats[k])
  }

  /**
   * The first stat that qualifies decides the wins; a later one is never
   * read, and a non-finite value is stored as 0.
   */
  lemma FirstWinsStatDecides(stats: seq<Stat>, k: nat)
    requires k < |stats| && IsWinsStat(stats[k])
    requires forall j :: 0 <= j < k ==> !IsWinsStat(stats[j])
    ensures WinsOf(stats) == StatWins(stats[k])
    ensures stats[k].value == Some(NonFinite) ==> WinsOf(stats) == 0
  {
  }

  /**
   * The row a team line yields: none without an abbreviation or for one
   * MAP does not know, otherwise the mapped id with its wins.
   */
  function RowOf(e: FeedEntry): (r: Option<WinsRow>)
    ensures r.Some? <==> e.abbreviation.Some? && e.abbreviation.value in MAP
    ensures r.Some? ==> r.value == WinsRow(e.abbreviation.value, WinsOf(e.stats))
  {
    if e.abbreviation.None? || e.abbreviation.value == "" then None
    else if e.abbreviation.value !in MAP || MAP[e.abbreviation.value] == "" then None
    else Some(WinsRow(MAP[e.abbreviation.value], WinsOf(e.stats)))
  }

  /** The rows of a list of team lines, in feed order. */
  function RowsOf(es: seq<FeedEntry>): (rows: seq<WinsRow>)
    ensures |rows| <= |es|
    ensures forall r :: r in rows ==> r.team_id in MAP
    decreases |es|
  {
    if es == [] then []
    else
      var init := RowsOf(es[..|es| - 1]);
      var last := RowOf(es[|es| - 1]);
      if last.Some? then init + [last.value] else init
  }

  /** Feed order is kept: the rows of two runs of lines are the rows of each, one after the other. */
  lemma {:induction false} RowsOfAppend(a: seq<FeedEntry>, b: seq<FeedEntry>)
    ensures RowsOf(a + b) == RowsOf(a) + RowsOf(b)
    decreases |b|
  {
    if b == [] {
      assert a + b == a;
    } else {
      assert (a + b)[..|a + b| - 1] == a + b[..|b| - 1];
      RowsOfAppend(a, b[..|b| - 1]);
    }
  }

  /** Every recognised line yields exactly one row; every other line none. */
  lemma RowsOfSingle(e: FeedEntry)
    ensures RowsOf([e]) == if RowOf(e).Some? then [RowOf(e).value] else []
  {
    assert [e][..0] == [];
  }

  /** `Array.isArray(data.children) ? data.children : [data]` */
  function Containers(data: Node): seq<Node> {
    if data.children.Some? then data.children.value else [data]
  }

  /**
   * `standings?.entries || standings?.children?.[0]?.standings?.entries || []`
   * with `standings = block?.standings || block`.
   */
  function EntriesOf(block: Node): (es: seq<FeedEntry>)
    ensures block.standings.None? && block.entries.Some? ==> es == block.entries.value
    ensures block.standings.Some? && block.standings.value.entries.Some? ==> es == block.standings.value.entries.value
  {
    var st := if block.standings.Some? then block.standings.value else block;
    if st.entries.Some? then st.entries.value
    else if st.children.Some? && |st.children.value| > 0 && st.children.value[0].standings.Some?
         && st.children.value[0].standings.value.entries.Some?
    then st.children.value[0].standings.value.entries.value
    else []
  }

  function RowsOfBlocks(blocks: seq<Node>): (rows: seq<WinsRow>)
    ensures forall r :: r in rows ==> r.team_id in MAP
    decreases |blocks|
  {
    if blocks == [] then []
    else RowsOfBlocks(blocks[..|blocks| - 1]) + RowsOf(EntriesOf(blocks[|blocks| - 1]))
  }

  /** The rows the job extracts from a feed document. */
  function Extract(data: Node): (rows: seq<WinsRow>)
    ensures forall r :: r in rows ==> r.team_id in MAP
  {
    RowsOfBlocks(Containers(data))
  }

  /**
   * When the document has a `children` array each child is a container;
   * otherwise the document itself is the one container.
   */
  lemma ExtractContainers(data: Node)
    ensures data.children.Some? ==> Extract(data) == RowsOfBlocks(data.children.value)
    ensures data.children.None? ==> Extract(data) == RowsOf(EntriesOf(data))
  {
    if data.children.None? {
      assert Containers(data) == [data];
      assert [data][..0] == [];
      assert RowsOfBlocks([data]) == RowsOfBlocks([]) + RowsOf(EntriesOf(data));
    }
  }

  /** The extraction loops: each container, then each of its team lines. */
  method ExtractRows(data: Node) returns (rows: seq<WinsRow>)
    ensures rows == Extract(data)
    ensures forall r :: r in rows ==> r.team_id in MAP
  {
    var containers := Containers(data);
    rows := [];
    for b := 0 to |containers|
      invariant rows == RowsOfBlocks(containers[..b])
    {
      assert containers[..b + 1][..b] == containers[..b];
      var entries := EntriesOf(containers[b]);
      ghost var before := rows;
      for k := 0 to |entries|
        invariant rows == before + RowsOf(entries[..k])
      {
        assert entries[..k + 1][..k] == entries[..k];
        var e := entries[k];
        if e.abbreviation.None? || e.abbreviation.value == "" {
          continue;
        }
        var abbr := e.abbreviation.value;
        if abbr !in MAP || MAP[abbr] == "" {
          continue;
        }
        rows := rows + [WinsRow(MAP[abbr], WinsOf(e.stats))];
      }
      assert entries[..|entries|] == entries;
    }
    assert containers[..|containers|] == containers;
  }

  // ---------- The handler ----------

  /** The outcome of fetching and parsing the feed. */
  datatype Fetched = Fetched(data: Node) | NotOk(status: int) | Threw(message: string)

  datatype Failure = FetchFailed(status: int) | Error(message: string)

  datatype Body = TooFewRows(count: nat) | Updated(updated: nat, at: string) | Failed(reason: Failure)

  datatype Response = Response(statusCode: int, body: Body)

  datatype StoredRow = StoredRow(team_id: string, wins: int, updated_at: string)

  datatype HistoryRow = HistoryRow(team_id: string, wins: int, as_of: string)

  /** The response together with the writes the job issued. */
  datatype Run = Run(response: Response, upserted: seq<StoredRow>, inserted: seq<HistoryRow>)

  /**
   * One run of the job. `now` is the timestamp taken after extraction and
   * `upsertError` the database's answer to the upsert.
   */
  method Handle(fetched: Fetched, now: string, upsertError: Option<string>) returns (run: Run)
    ensures !fetched.Fetched? ==> run.response.statusCode == 500 && run.upserted == [] && run.inserted == []
    ensures fetched.Fetched? && |Extract(fetched.data)| < MIN_ROWS ==>
      run == Run(Response(502, TooFewRows(|Extract(fetched.data)|)), [], [])
    ensures fetched.Fetched? && |Extract(fetched.data)| >= MIN_ROWS ==>
      var rows := Extract(fetched.data);
      |run.upserted| == |rows| &&
      (forall i :: 0 <= i < |rows| ==> run.upserted[i] == StoredRow(rows[i].team_id, rows[i].wins, now)) &&
      (upsertError.Some? ==>
        run.response == Response(500, Failed(Error(upsertError.value))) && run.inserted == []) &&
      (upsertError.None? ==>
        run.response == Response(200, Updated(|rows|, now)) &&
        |run.inserted| == |rows| &&
        forall i :: 0 <= i < |rows| ==> run.inserted[i] == HistoryRow(rows[i].team_id, rows[i].wins, now))
  {
    match fetched {
      case NotOk(status) =>
        return Run(Response(500, Failed(FetchFailed(status))), [], []);
      case Threw(message) =>
        return Run(Response(500, Failed(Error(message))), [], []);
      case Fetched(data) =>
        var rows := ExtractRows(data);
        if |rows| < MIN_ROWS {
          return Run(Response(502, TooFewRows(|rows|)), [], []);
        }
        var upserted := seq(|rows|, i requires 0 <= i < |rows| => StoredRow(rows[i].team_id, rows[i].wins, now));
        if upsertError.Some? {
          return Run(Response(500, Failed(Error(upsertError.value))), upserted, []);
        }
        var inserted := seq(|rows|, i requires 0 <= i < |rows| => HistoryRow(rows[i].team_id, rows[i].wins, now));
        return Run(Response(200, Updated(|rows|, now)), upserted, inserted);
    }
  }
}
