/** The leaderboard page: the two summaries `fetchStats` stores, the "most ..." cards drawn
    from them, and the combined per-player table. The two store queries are parameters:
    `sevenData` and `judData` are the rows the store returns for each game. */
module Leaderboard {
  import opened JsBuiltins
  import opened ScoreStore
  import opened Ranking
  import S = SevenCardsStats
  import J = JudgementStats
  import JF = JudgementStatsFacts

  /** A "most ..." card: the tied names, and the count shown beside them. */
  datatype Leading = Leading(names: seq<string>, count: int)

  /** A summary can be drawn: its key list is non-empty and every key has a tally. */
  predicate SevenDrawable(s: S.Summary) {
    s.names != [] && forall k :: 0 <= k < |s.names| ==> s.names[k] in s.playerStats
  }

  predicate JudgementDrawable(s: J.Summary) {
    s.names != [] && forall k :: 0 <= k < |s.names| ==> s.names[k] in s.playerStats
  }

  /** `Object.entries(stats).sort(...).filter(...)` for one counter, with the count of the
      first entry: the names whose counter is the highest, that highest value, and no one
      left out. */
  function SevenMost(s: S.Summary, c: S.Counter): (r: Leading)
    requires SevenDrawable(s)
    ensures r.names != []
    ensures forall x :: x in r.names <==> x in s.names && S.Get(s.playerStats[x], c) == r.count
    ensures forall k :: 0 <= k < |s.names| ==> S.Get(s.playerStats[s.names[k]], c) <= r.count
  {
    var values := SevenValues(s, c);
    var who := MostBy(s.names, values);
    assert who[0] in who;
    Leading(who, S.Get(s.playerStats[who[0]], c))
  }

  /** One counter of every key, in key order. */
  function SevenValues(s: S.Summary, c: S.Counter): (values: seq<int>)
    requires SevenDrawable(s)
    ensures |values| == |s.names|
    ensures forall k :: 0 <= k < |s.names| ==> values[k] == S.Get(s.playerStats[s.names[k]], c)
  {
    seq(|s.names|, k requires 0 <= k < |s.names| => S.Get(s.playerStats[s.names[k]], c) as int)
  }

  /** The same for the Judgement counters. */
  function JudgementMost(s: J.Summary, c: J.Place): (r: Leading)
    requires JudgementDrawable(s)
    ensures r.names != []
    ensures forall x :: x in r.names <==> x in s.names && J.Get(s.playerStats[x], c) == r.count
    ensures forall k :: 0 <= k < |s.names| ==> J.Get(s.playerStats[s.names[k]], c) <= r.count
  {
    var values := JudgementValues(s, c);
    var who := MostBy(s.names, values);
    assert who[0] in who;
    Leading(who, J.Get(s.playerStats[who[0]], c))
  }

  function JudgementValues(s: J.Summary, c: J.Place): (values: seq<int>)
    requires JudgementDrawable(s)
    ensures |values| == |s.names|
    ensures forall k :: 0 <= k < |s.names| ==> values[k] == J.Get(s.playerStats[s.names[k]], c)
  {
    seq(|s.names|, k requires 0 <= k < |s.names| => J.Get(s.playerStats[s.names[k]], c) as int)
  }

  /** `judLast`: the Judgement tables less the player's first and second places. The tally
      of a player absent from the Judgement tallies is all zero. */
  function JudLast(judTables: nat, jud: J.Tally): int {
    judTables - jud.firstWins - jud.secondWins
  }

  /** One row of the combined table. */
  datatype CombinedRow = CombinedRow(player: string, seven: S.Tally, jud: J.Tally, judLast: int)

  /** `renderCombinedTable`: one row per Seven Cards key, in key order, with the player's
      Judgement tally (all zero when absent) and last places. */
  function CombinedRows(seven: S.Summary, jud: J.Summary, judTables: nat): (r: seq<CombinedRow>)
    requires SevenDrawable(seven)
    ensures |r| == |seven.names|
    ensures forall k :: 0 <= k < |r| ==>
              && r[k].player == seven.names[k]
              && r[k].seven == seven.playerStats[seven.names[k]]
              && r[k].jud == (if seven.names[k] in jud.playerStats then jud.playerStats[seven.names[k]] else J.NoWins)
              && r[k].jud.firstWins + r[k].jud.secondWins + r[k].judLast == judTables
  {
    seq(|seven.names|, k requires 0 <= k < |seven.names| =>
      var p := seven.names[k];
      var j := if p in jud.playerStats then jud.playerStats[p] else J.NoWins;
      CombinedRow(p, seven.playerStats[p], j, JudLast(judTables, j)))
  }

  /** With distinct Judgement player names and the count of the Judgement tables, no row of
      the combined table shows negative last places. */
  lemma JudLastNonNegative(seven: S.Summary, players: seq<string>, judTables: seq<TableRow>)
    requires SevenDrawable(seven) && JF.Distinct(players) && J.AllRankable(players, judTables)
    ensures var r := CombinedRows(seven, J.Summary(Dedup(players), J.Spec(players, judTables), []), |judTables|);
            forall k :: 0 <= k < |r| ==> 0 <= r[k].judLast <= |judTables|
  {
    var jud := J.Summary(Dedup(players), J.Spec(players, judTables), []);
    var r := CombinedRows(seven, jud, |judTables|);
    forall k | 0 <= k < |r| ensures 0 <= r[k].judLast <= |judTables| {
      var p := seven.names[k];
      if p in jud.playerStats {
        JF.PlacesAtMostTables(players, judTables, p);
      }
    }
  }

  /** The leaderboard component's state. */
  class LeaderboardPage {
    var sevenStats: Option<S.Summary>
    var judgementStats: Option<J.Summary>

    /** Every stored summary can be drawn. */
    ghost predicate Valid()
      reads this
    {
      && (sevenStats.Some? ==> SevenDrawable(sevenStats.value))
      && (judgementStats.Some? ==> JudgementDrawable(judgementStats.value))
    }

    /** Both summaries start as null: the page shows "Loading...". */
    constructor ()
      ensures Valid() && sevenStats == None && judgementStats == None
    {
      sevenStats := None;
      judgementStats := None;
    }

    /** `fetchStats` on the rows the two queries return: a game whose query returns no rows
        leaves its summary as it was; otherwise the summary is replaced by the aggregate. */
    method FetchStats(sevenData: seq<TableRow>, judData: seq<TableRow>)
      requires Valid() && S.Aggregable(sevenData) && J.Aggregable(judData)
      modifies this
      ensures Valid()
      ensures sevenData == [] ==> sevenStats == old(sevenStats)
      ensures sevenData != [] ==>
                var players := sevenData[0].players;
                var stats := S.Spec(players, sevenData);
                sevenStats == Some(S.Summary(Dedup(players), stats,
                                             S.MostConsistent(players, S.Consistency(stats, players, sevenData))))
      ensures judData == [] ==> judgementStats == old(judgementStats)
      ensures judData != [] ==>
                var players := judData[0].players;
                judgementStats == Some(J.Summary(Dedup(players), J.Spec(players, judData), J.MostConsistent(players, judData)))
    {
      var seven := S.Aggregate(sevenData);
      if seven.Some? {
        SevenKeysDrawable(sevenData);
        sevenStats := seven;
      }
      var jud := J.Aggregate(judData);
      if jud.Some? {
        JudgementKeysDrawable(judData);
        judgementStats := jud;
      }
    }

    /** The combined table, or nothing while either summary is missing. */
    function CombinedTable(judTables: nat): (r: Option<seq<CombinedRow>>)
      requires Valid()
      reads this
      ensures r.Some? <==> sevenStats.Some? && judgementStats.Some?
      ensures r.Some? ==> |r.value| == |sevenStats.value.names|
    {
      if sevenStats.None? || judgementStats.None? then None
      else Some(CombinedRows(sevenStats.value, judgementStats.value, judTables))
    }
  }

  /** The Seven Cards aggregate of a non-empty result can be drawn: the first table's player
      list is non-empty and each of its names has a tally. */
  lemma SevenKeysDrawable(tables: seq<TableRow>)
    requires tables != [] && S.Aggregable(tables)
    ensures var players := tables[0].players;
            var stats := S.Spec(players, tables);
            SevenDrawable(S.Summary(Dedup(players), stats, S.MostConsistent(players, S.Consistency(stats, players, tables))))
  {
    assert S.TableFits(tables[0].players, tables[0]);
  }

  lemma JudgementKeysDrawable(tables: seq<TableRow>)
    requires tables != [] && J.Aggregable(tables)
    ensures var players := tables[0].players;
            JudgementDrawable(J.Summary(Dedup(players), J.Spec(players, tables), J.MostConsistent(players, tables)))
  {
    assert J.Rankable(tables[0].players, tables[0].totals);
  }
}
