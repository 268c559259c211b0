/** The Judgement half of the leaderboard's `fetchStats`: per-player counts of first and
    second places over every stored Judgement table, and the most consistent players.
    Higher totals win. Every table is read through the player list of the first table. */
module JudgementStats {
  import opened JsBuiltins
  import opened ScoreStore
  import opened Ranking

  /** A player's counters. */
  datatype Tally = Tally(firstWins: nat, secondWins: nat)

  datatype Place = First | Second

  const NoWins: Tally := Tally(0, 0)

  function Get(t: Tally, c: Place): nat {
    match c
    case First => t.firstWins
    case Second => t.secondWins
  }

  /** `playerStats`, keyed by player name. */
  type Stats = map<string, Tally>

  predicate Covers(s: Stats, players: seq<string>) {
    forall k :: 0 <= k < |players| ==> players[k] in s
  }

  /** `players.reduce(...)`: one all-zero tally per player name. */
  function Initial(players: seq<string>): (s: Stats)
    ensures forall p :: p in s <==> p in players
    ensures forall p :: p in s ==> s[p] == NoWins
    ensures Covers(s, players)
  {
    map p | p in players :: NoWins
  }

  /** `playerStats[p].firstWins++` or `.secondWins++`: that counter goes up by one, nothing
      else changes. */
  function Credit(s: Stats, p: string, c: Place): (r: Stats)
    requires p in s
    ensures r.Keys == s.Keys
    ensures forall q, d :: q in s ==> Get(r[q], d) == Get(s[q], d) + (if q == p && d == c then 1 else 0)
  {
    match c
    case First => s[p := s[p].(firstWins := s[p].firstWins + 1)]
    case Second => s[p := s[p].(secondWins := s[p].secondWins + 1)]
  }

  /** The ranking of a table: `(a, b) => b.score - a.score` on the entries, a stable
      ascending sort of the negated totals, so that a higher total places higher and equal
      totals keep the player order. The first entry, and the second when there is one, must
      name players of the list (`playerStats[undefined]` would throw). */
  predicate Rankable(players: seq<string>, totals: seq<int>) {
    var order := SortedIndices(Negated(totals));
    |totals| >= 1 && order[0] < |players| && (|order| > 1 ==> order[1] < |players|)
  }

  /** The player a table credits with a place; the second place exists only when the table
      has at least two totals. */
  function Placed(players: seq<string>, totals: seq<int>, c: Place): (r: Option<string>)
    requires Rankable(players, totals)
    ensures r.Some? ==> r.value in players
    ensures r.Some? <==> c == First || |totals| > 1
  {
    var order := SortedIndices(Negated(totals));
    match c
    case First => Some(players[order[0]])
    case Second => if |order| > 1 then Some(players[order[1]]) else None
  }

  /** The body of `judData.forEach((table) => ...)`. */
  function CreditTable(s: Stats, players: seq<string>, totals: seq<int>): (r: Stats)
    requires Covers(s, players) && Rankable(players, totals)
    ensures r.Keys == s.Keys
    ensures forall q, d :: q in s ==> Get(r[q], d) == Get(s[q], d) + (if Placed(players, totals, d) == Some(q) then 1 else 0)
  {
    var order := SortedIndices(Negated(totals));
    var s1 := Credit(s, players[order[0]], First);
    if |order| > 1 then Credit(s1, players[order[1]], Second) else s1
  }

  predicate AllRankable(players: seq<string>, tables: seq<TableRow>) {
    forall i :: 0 <= i < |tables| ==> Rankable(players, tables[i].totals)
  }

  /** The number of tables that place player q at place c. */
  function Count(players: seq<string>, tables: seq<TableRow>, q: string, c: Place): nat
    requires AllRankable(players, tables)
  {
    if tables == [] then 0
    else
      var n := |tables| - 1;
      assert forall i :: 0 <= i < n ==> tables[..n][i] == tables[i];
      Count(players, tables[..n], q, c) + (if Placed(players, tables[n].totals, c) == Some(q) then 1 else 0)
  }

  /** `judData.forEach(...)` over a list of tables. */
  function CreditTables(s: Stats, players: seq<string>, tables: seq<TableRow>): (r: Stats)
    requires Covers(s, players) && AllRankable(players, tables)
    ensures r.Keys == s.Keys
    ensures forall q, d :: q in s ==> Get(r[q], d) == Get(s[q], d) + Count(players, tables, q, d)
  {
    if tables == [] then s
    else
      var n := |tables| - 1;
      assert forall i :: 0 <= i < n ==> tables[..n][i] == tables[i];
      CreditTable(CreditTables(s, players, tables[..n]), players, tables[n].totals)
  }

  /** The finished `playerStats`, each counter given by its count. */
  function Spec(players: seq<string>, tables: seq<TableRow>): Stats
    requires AllRankable(players, tables)
  {
    map q | q in players :: Tally(Count(players, tables, q, First), Count(players, tables, q, Second))
  }

  lemma {:induction false} CreditedIsCount(players: seq<string>, tables: seq<TableRow>)
    requires AllRankable(players, tables)
    ensures CreditTables(Initial(players), players, tables) == Spec(players, tables)
  {
    var r, s := CreditTables(Initial(players), players, tables), Spec(players, tables);
    SameKeys(players, tables);
    forall q | q in r ensures r[q] == s[q] {
      CreditedIsCountAt(players, tables, q);
    }
    SameMap(r, s);
  }

  lemma SameMap(r: Stats, s: Stats)
    requires r.Keys == s.Keys && forall q :: q in r ==> r[q] == s[q]
    ensures r == s
  {
  }

  lemma SameKeys(players: seq<string>, tables: seq<TableRow>)
    requires AllRankable(players, tables)
    ensures CreditTables(Initial(players), players, tables).Keys == Spec(players, tables).Keys
  {
    assert Initial(players).Keys == Spec(players, tables).Keys;
  }

  lemma CreditedIsCountAt(players: seq<string>, tables: seq<TableRow>, q: string)
    requires AllRankable(players, tables) && q in players
    ensures CreditTables(Initial(players), players, tables)[q] == Spec(players, tables)[q]
  {
    var a, b := CreditTables(Initial(players), players, tables)[q], Spec(players, tables)[q];
    assert a.firstWins == Get(a, First) == Get(b, First) == b.firstWins;
    assert a.secondWins == Get(a, Second) == Get(b, Second) == b.secondWins;
  }

  lemma {:induction false} CreditTablesStep(s: Stats, players: seq<string>, tables: seq<TableRow>, i: nat)
    requires Covers(s, players) && i < |tables| && AllRankable(players, tables)
    ensures AllRankable(players, tables[..i])
    ensures CreditTables(s, players, tables[..i + 1])
         == CreditTable(CreditTables(s, players, tables[..i]), players, tables[i].totals)
  {
    assert tables[..i + 1][..i] == tables[..i];
    assert forall k :: 0 <= k < i ==> tables[..i][k] == tables[k];
  }

  /** The sum of player idx's positive totals; a table without a total at idx (undefined)
      does not pass `s > 0`. */
  function PositiveSum(tables: seq<TableRow>, idx: nat): (r: nat) {
    if tables == [] then 0
    else
      var n := |tables| - 1;
      var t := tables[n].totals;
      PositiveSum(tables[..n], idx) + (if idx < |t| && t[idx] > 0 then t[idx] else 0)
  }

  /** The number of player idx's positive totals that are not a multiple of 10. */
  function NotRoundCount(tables: seq<TableRow>, idx: nat): (r: nat)
    ensures r <= |tables|
  {
    if tables == [] then 0
    else
      var n := |tables| - 1;
      var t := tables[n].totals;
      NotRoundCount(tables[..n], idx) + (if idx < |t| && t[idx] > 0 && t[idx] % 10 != 0 then 1 else 0)
  }

  /** `positiveSum + weighted`. */
  function Score(tables: seq<TableRow>, idx: nat): (r: int)
    ensures PositiveSum(tables, idx) <= r <= PositiveSum(tables, idx) + |tables|
  {
    PositiveSum(tables, idx) + NotRoundCount(tables, idx)
  }

  /** `judData.map((t) => t.totals[idx])`: None stands for undefined. */
  function PlayerTotals(tables: seq<TableRow>, idx: nat): seq<Option<int>> {
    seq(|tables|, i requires 0 <= i < |tables| =>
      if idx < |tables[i].totals| then Some(tables[i].totals[idx]) else None)
  }

  /** `playerTotals.filter((s) => s > 0)`; undefined is not above 0. */
  function Positives(xs: seq<Option<int>>): seq<int> {
    if xs == [] then []
    else
      var x := xs[|xs| - 1];
      Positives(xs[..|xs| - 1]) + (if x.Some? && x.value > 0 then [x.value] else [])
  }

  /** `playerTotals.filter((s) => s > 0 && s % 10 !== 0)`. The operands are positive, so
      JavaScript's remainder agrees with Dafny's. */
  function NotRoundPositives(xs: seq<Option<int>>): seq<int> {
    if xs == [] then []
    else
      var x := xs[|xs| - 1];
      NotRoundPositives(xs[..|xs| - 1]) + (if x.Some? && x.value > 0 && x.value % 10 != 0 then [x.value] else [])
  }

  /** `.reduce((a, b) => a + b, 0)`, left to right. */
  function Sum(xs: seq<int>): int {
    if xs == [] then 0 else Sum(xs[..|xs| - 1]) + xs[|xs| - 1]
  }

  /** `positiveSum + weighted` as the source computes it: the player's column of totals, its
      positive entries summed, and one more for each of those not divisible by 10 (the
      `weighted` reduce adds 1 per entry). */
  function PipelineScore(tables: seq<TableRow>, idx: nat): (r: int)
    ensures r == Score(tables, idx)
  {
    var column := PlayerTotals(tables, idx);
    ScoreIsPipeline(tables, idx);
    Sum(Positives(column)) + |NotRoundPositives(column)|
  }

  /** The fold over the tables and the source's filter-and-reduce pipeline agree. */
  lemma {:induction false} ScoreIsPipeline(tables: seq<TableRow>, idx: nat)
    ensures var column := PlayerTotals(tables, idx);
            PositiveSum(tables, idx) == Sum(Positives(column))
            && NotRoundCount(tables, idx) == |NotRoundPositives(column)|
  {
    if tables != [] {
      var n := |tables| - 1;
      ScoreIsPipeline(tables[..n], idx);
      var column := PlayerTotals(tables, idx);
      PlayerTotalsPrefix(tables, idx);
      var t := tables[n].totals;
      var x := column[n];
      assert x == if idx < |t| then Some(t[idx]) else None;
      var extra := if x.Some? && x.value > 0 then [x.value] else [];
      assert Positives(column) == Positives(column[..n]) + extra;
      SumAppend(Positives(column[..n]), extra);
    }
  }

  lemma PlayerTotalsPrefix(tables: seq<TableRow>, idx: nat)
    requires tables != []
    ensures PlayerTotals(tables, idx)[..|tables| - 1] == PlayerTotals(tables[..|tables| - 1], idx)
  {
  }

  lemma SumAppend(p: seq<int>, extra: seq<int>)
    requires |extra| <= 1
    ensures Sum(p + extra) == Sum(p) + (if extra == [] then 0 else extra[0])
  {
    if extra == [] {
      assert p + extra == p;
    } else {
      assert (p + extra)[..|p|] == p;
    }
  }

  /** `consistency`: one score per player of the list, each the player's Score. */
  function Consistency(players: seq<string>, tables: seq<TableRow>): (r: seq<int>)
    ensures |r| == |players| && forall idx :: 0 <= idx < |players| ==> r[idx] == Score(tables, idx)
  {
    seq(|players|, idx requires 0 <= idx < |players| => PipelineScore(tables, idx))
  }

  /** `mostConsistent`, as the list of names before `join(", ")`: every player whose score is
      the maximum, and (for a non-empty list) at least one. */
  function MostConsistent(players: seq<string>, tables: seq<TableRow>): (r: seq<string>)
    ensures players != [] ==> r != []
    ensures players != [] ==>
              var scores := Consistency(players, tables);
              forall x :: x in r <==> exists i :: 0 <= i < |players| && players[i] == x && scores[i] == MaxOf(scores)
  {
    TiesAtMax(players, Consistency(players, tables))
  }

  /** The state `setJudgementStats` stores: `playerStats`, with its keys in the order the
      object enumerates them, and the most consistent players. */
  datatype Summary = Summary(names: seq<string>, playerStats: Stats, mostConsistent: seq<string>)

  predicate Aggregable(tables: seq<TableRow>) {
    tables != [] ==> AllRankable(tables[0].players, tables)
  }

  /** `judData.forEach(...)` from the all-zero tallies: every player's counters end at
      their counts. */
  method TallyTables(players: seq<string>, tables: seq<TableRow>) returns (stats: Stats)
    requires AllRankable(players, tables)
    ensures stats == Spec(players, tables)
  {
    stats := Initial(players);
    var i := 0;
    while i < |tables|
      invariant 0 <= i <= |tables|
      invariant Covers(stats, players)
      invariant stats == CreditTables(Initial(players), players, tables[..i])
    {
      CreditTablesStep(Initial(players), players, tables, i);
      var order := SortedIndices(Negated(tables[i].totals));
      stats := Credit(stats, players[order[0]], First);
      if |order| > 1 {
        stats := Credit(stats, players[order[1]], Second);
      }
      i := i + 1;
    }
    assert tables[..i] == tables;
    CreditedIsCount(players, tables);
  }

  /** The Judgement block of `fetchStats`: no summary for an empty result; otherwise the
      counts of every player of the first table, and the most consistent players. */
  method Aggregate(tables: seq<TableRow>) returns (r: Option<Summary>)
    requires Aggregable(tables)
    ensures tables == [] <==> r == None
    ensures tables != [] ==>
              var players := tables[0].players;
              r == Some(Summary(Dedup(players), Spec(players, tables), MostConsistent(players, tables)))
  {
    if |tables| == 0 {
      return None;
    }
    var players := tables[0].players;
    var stats := TallyTables(players, tables);
    r := Some(Summary(Dedup(players), stats, MostConsistent(players, tables)));
  }
}

/** What the Judgement counts add up to, and what the rankings and scores pick. */
module JudgementStatsFacts {
  import opened JsBuiltins
  import opened ScoreStore
  import opened Ranking
  import opened JudgementStats

  /** The first place goes to the player with the highest total, the earliest such player
      when several share it. */
  lemma FirstPlaceIsHighest(players: seq<string>, totals: seq<int>)
    requires Rankable(players, totals)
    ensures exists i :: 0 <= i < |totals| && i < |players| && Placed(players, totals, First) == Some(players[i])
              && forall j :: 0 <= j < |totals| ==> totals[j] < totals[i] || (totals[i] == totals[j] && i <= j)
  {
    var keys := Negated(totals);
    var i := SortedIndices(keys)[0];
    forall j | 0 <= j < |totals| ensures totals[j] < totals[i] || (totals[i] == totals[j] && i <= j) {
      FirstIsLeast(keys, j);
    }
    assert Placed(players, totals, First) == Some(players[i]);
  }

  /** With two or more totals the second place goes to an entry other than the winner's,
      placed before every remaining entry; with one total there is no second place. */
  lemma SecondPlaceIsRunnerUp(players: seq<string>, totals: seq<int>)
    requires Rankable(players, totals)
    ensures |totals| == 1 ==> Placed(players, totals, Second) == None
    ensures |totals| > 1 ==>
              exists w, i :: 0 <= w < |totals| && 0 <= i < |totals| && w != i && w < |players| && i < |players|
                && Placed(players, totals, First) == Some(players[w])
                && Placed(players, totals, Second) == Some(players[i])
                && forall j :: 0 <= j < |totals| && j != w ==> totals[j] < totals[i] || (totals[i] == totals[j] && i <= j)
  {
    if |totals| > 1 {
      var keys := Negated(totals);
      var s := SortedIndices(keys);
      var w, i := s[0], s[1];
      forall j | 0 <= j < |totals| && j != w ensures totals[j] < totals[i] || (totals[i] == totals[j] && i <= j) {
        SecondIsNextLeast(keys, j);
      }
      SecondIsNextLeast(keys, 0);
      assert Placed(players, totals, First) == Some(players[w]);
      assert Placed(players, totals, Second) == Some(players[i]);
    }
  }

  /** The ranking of the totals {A: 10, B: 5, C: 20}: C first, A second. */
  lemma ExampleRanking()
    ensures var players, totals := ["A", "B", "C"], [10, 5, 20];
            Rankable(players, totals)
            && Placed(players, totals, First) == Some("C")
            && Placed(players, totals, Second) == Some("A")
  {
    var keys := Negated([10, 5, 20]);
    assert keys == [-10, -5, -20];
    var expected := [2, 0, 1];
    assert StrictlySorted(keys, expected);
    assert forall x :: x in expected <==> 0 <= x < 3;
    SortedUnique(keys, expected, SortedIndices(keys));
  }

  predicate Distinct(players: seq<string>) {
    forall a, b :: 0 <= a < b < |players| ==> players[a] != players[b]
  }

  /** With distinct player names no table places the same player first and second, so a
      player's first and second places together never exceed the number of tables. */
  lemma {:induction false} PlacesAtMostTables(players: seq<string>, tables: seq<TableRow>, q: string)
    requires Distinct(players) && AllRankable(players, tables)
    ensures Count(players, tables, q, First) + Count(players, tables, q, Second) <= |tables|
  {
    if tables != [] {
      var n := |tables| - 1;
      assert forall i :: 0 <= i < n ==> tables[..n][i] == tables[i];
      PlacesAtMostTables(players, tables[..n], q);
      var totals := tables[n].totals;
      if |totals| > 1 {
        SecondPlaceIsRunnerUp(players, totals);
      }
    }
  }

  /** Two players of the same name can both place for that name: then one table gives it a
      first and a second place. */
  lemma DuplicateNamesPlaceTwice()
    ensures var players, totals := ["A", "A"], [30, 20];
            Rankable(players, totals)
            && Placed(players, totals, First) == Some("A") && Placed(players, totals, Second) == Some("A")
  {
    var keys := Negated([30, 20]);
    assert keys == [-30, -20];
    var expected := [0, 1];
    assert StrictlySorted(keys, expected);
    assert forall x :: x in expected <==> 0 <= x < 2;
    SortedUnique(keys, expected, SortedIndices(keys));
  }

  /** A player's score is 0 exactly when no table gives them a positive total. */
  lemma {:induction false} ScoreZeroIffNoPositive(tables: seq<TableRow>, idx: nat)
    ensures Score(tables, idx) == 0 <==>
              forall i :: 0 <= i < |tables| ==> !(idx < |tables[i].totals| && tables[i].totals[idx] > 0)
  {
    if tables != [] {
      var n := |tables| - 1;
      ScoreZeroIffNoPositive(tables[..n], idx);
      assert forall i :: 0 <= i < n ==> tables[..n][i] == tables[i];
    }
  }

  /** The per-player score of three tables whose totals for that player are 25, 40 and -10:
      65 of positive points, plus 1 for the 25. */
  lemma ExampleScore()
    ensures var t := TableRow("", Judgement, ["A"], [], [25], []);
            var u := TableRow("", Judgement, ["A"], [], [40], []);
            var v := TableRow("", Judgement, ["A"], [], [-10], []);
            Score([t, u, v], 0) == 66
  {
    var t := TableRow("", Judgement, ["A"], [], [25], []);
    var u := TableRow("", Judgement, ["A"], [], [40], []);
    var v := TableRow("", Judgement, ["A"], [], [-10], []);
    assert [t, u, v][..2] == [t, u] && [t, u][..1] == [t] && [t][..0] == [];
    assert PositiveSum([t], 0) == 25 && NotRoundCount([t], 0) == 1;
    assert PositiveSum([t, u], 0) == 65 && NotRoundCount([t, u], 0) == 1;
    assert PositiveSum([t, u, v], 0) == 65 && NotRoundCount([t, u, v], 0) == 1;
  }
}
