/** The Seven Cards half of the leaderboard's `fetchStats`: per-player counts of first and
    second places, last places, zero-point cells and 65/130-point cells over every stored
    Seven Cards table, and the most consistent players by the weighted formula. Lower totals
    win. Every table is read through the player list of the first table. */
module SevenCardsStats {
  import opened JsBuiltins
  import opened ScoreGrid
  import opened ScoreStore
  import opened Ranking

  /** A player's counters. */
  datatype Tally = Tally(firstWins: nat, secondWins: nat, defeats: nat, zeros: nat, maxScore65Or130: nat)

  /** One counter of a tally. The first three are credited by a table's ranking, the last
      two by the cells of its grid. */
  datatype Counter = FirstWins | SecondWins | Defeats | Zeros | MaxScore65Or130 {
    predicate IsRank() {
      this == FirstWins || this == SecondWins || this == Defeats
    }
  }

  const NoWins: Tally := Tally(0, 0, 0, 0, 0)

  function Get(t: Tally, c: Counter): nat {
    match c
    case FirstWins => t.firstWins
    case SecondWins => t.secondWins
    case Defeats => t.defeats
    case Zeros => t.zeros
    case MaxScore65Or130 => t.maxScore65Or130
  }

  /** `tally.counter++`: that counter goes up by one and no other changes. */
  function Bump(t: Tally, c: Counter): (r: Tally)
    ensures Get(r, c) == Get(t, c) + 1
    ensures forall d :: d != c ==> Get(r, d) == Get(t, d)
  {
    match c
    case FirstWins => t.(firstWins := t.firstWins + 1)
    case SecondWins => t.(secondWins := t.secondWins + 1)
    case Defeats => t.(defeats := t.defeats + 1)
    case Zeros => t.(zeros := t.zeros + 1)
    case MaxScore65Or130 => t.(maxScore65Or130 := t.maxScore65Or130 + 1)
  }

  /** `playerStats`, keyed by player name. */
  type Stats = map<string, Tally>

  /** Every player of the list has a tally. */
  predicate Covers(s: Stats, players: seq<string>) {
    forall k :: 0 <= k < |players| ==> players[k] in s
  }

  /** `players.reduce(...)`: one all-zero tally per player name. */
  function Initial(players: seq<string>): (s: Stats)
    ensures forall p :: p in s <==> p in players
    ensures forall p :: p in s ==> s[p] == NoWins
    ensures Covers(s, players)
  {
    map p | p in players :: NoWins
  }

  /** `playerStats[p].counter++`. */
  function Credit(s: Stats, p: string, c: Counter): (r: Stats)
    requires p in s
    ensures r.Keys == s.Keys
    ensures forall q, d :: q in s ==> Get(r[q], d) == Get(s[q], d) + (if q == p && d == c then 1 else 0)
  {
    s[p := Bump(s[p], c)]
  }

  /** The ranking a table's totals get: ascending and stable, so that a lower total places
      higher and equal totals keep the player order. The entries the leaderboard reads (the
      first, the second when there is one, and the last) must name players of the list;
      an entry past the end of the list would make `playerStats[undefined]` throw. */
  predicate Rankable(players: seq<string>, totals: seq<int>) {
    var order := SortedIndices(totals);
    |totals| >= 1 && order[0] < |players| && order[|order| - 1] < |players|
    && (|order| > 1 ==> order[1] < |players|)
  }

  /** The player a table credits with a ranking counter: the first, the second (present only
      when the table has at least two totals), and the last entry of the ranking. */
  function Placed(players: seq<string>, totals: seq<int>, c: Counter): (r: Option<string>)
    requires Rankable(players, totals)
    ensures r.Some? ==> r.value in players
    ensures r.Some? <==> c == FirstWins || c == Defeats || (c == SecondWins && |totals| > 1)
  {
    var order := SortedIndices(totals);
    match c
    case FirstWins => Some(players[order[0]])
    case SecondWins => if |order| > 1 then Some(players[order[1]]) else None
    case Defeats => Some(players[order[|order| - 1]])
    case _ => None
  }

  /** The three ranking increments of one table. */
  function CreditRanks(s: Stats, players: seq<string>, totals: seq<int>): (r: Stats)
    requires Covers(s, players) && Rankable(players, totals)
    ensures r.Keys == s.Keys
    ensures forall q, d :: q in s ==> Get(r[q], d) == Get(s[q], d) + (if Placed(players, totals, d) == Some(q) then 1 else 0)
  {
    var order := SortedIndices(totals);
    var s1 := Credit(s, players[order[0]], FirstWins);
    var s2 := if |order| > 1 then Credit(s1, players[order[1]], SecondWins) else s1;
    Credit(s2, players[order[|order| - 1]], Defeats)
  }

  /** Whether a cell counts for a counter: a cell reading 0 counts as a zero and one reading
      65 or 130 as a maximum score. `parseInt` reads the cell, so "0x41" counts as 65 and
      "7abc" as 7; a cell that does not parse counts for nothing. */
  predicate Hit(val: string, d: Counter) {
    match d
    case Zeros => ParseInt(val) == Some(0)
    case MaxScore65Or130 => ParseInt(val) == Some(65) || ParseInt(val) == Some(130)
    case _ => false
  }

  predicate Counted(val: string) {
    Hit(val, Zeros) || Hit(val, MaxScore65Or130)
  }

  /** Cells past the end of the player list do no harm unless they count, in which case
      `playerStats[undefined]` would throw. */
  predicate RowFits(players: seq<string>, row: seq<string>) {
    forall c :: |players| <= c < |row| ==> !Counted(row[c])
  }

  predicate GridFits(players: seq<string>, rows: Grid) {
    forall r :: 0 <= r < |rows| ==> RowFits(players, rows[r])
  }

  predicate TableFits(players: seq<string>, t: TableRow) {
    Rankable(players, t.totals) && GridFits(players, t.scores)
  }

  /** What the handling of the cell in column `col` does: a zero adds to the player's
      zeros, a 65 or 130 to their maximum scores, and any other cell to nothing. */
  function CreditCell(s: Stats, players: seq<string>, col: nat, val: string): (r: Stats)
    requires Covers(s, players) && (col < |players| || !Counted(val))
    ensures r.Keys == s.Keys
    ensures forall q, d :: q in s ==>
              Get(r[q], d) == Get(s[q], d) + (if col < |players| && players[col] == q && Hit(val, d) then 1 else 0)
  {
    var zero, max := Hit(val, Zeros), Hit(val, MaxScore65Or130);
    var s1 := if zero then Credit(s, players[col], Zeros) else s;
    var s2 := if max then Credit(s1, players[col], MaxScore65Or130) else s1;
    assert !(zero && max);
    s2
  }

  /** The number of cells of a row that count for counter d in player q's columns. */
  function RowHits(players: seq<string>, row: seq<string>, q: string, d: Counter): nat {
    if row == [] then 0
    else
      var n := |row| - 1;
      RowHits(players, row[..n], q, d) + (if n < |players| && players[n] == q && Hit(row[n], d) then 1 else 0)
  }

  /** The number of cells of a grid that count for counter d in player q's columns. */
  function GridHits(players: seq<string>, rows: Grid, q: string, d: Counter): nat {
    if rows == [] then 0
    else GridHits(players, rows[..|rows| - 1], q, d) + RowHits(players, rows[|rows| - 1], q, d)
  }

  /** `row.forEach(...)`: the tallies grow by the row's hits. */
  function CreditRow(s: Stats, players: seq<string>, row: seq<string>): (r: Stats)
    requires Covers(s, players) && RowFits(players, row)
    ensures r.Keys == s.Keys
    ensures forall q, d :: q in s ==> Get(r[q], d) == Get(s[q], d) + RowHits(players, row, q, d)
  {
    if row == [] then s
    else
      var n := |row| - 1;
      var prefix := row[..n];
      assert forall c :: 0 <= c < |prefix| ==> prefix[c] == row[c];
      CreditCell(CreditRow(s, players, prefix), players, n, row[n])
  }

  /** `table.scores.forEach(...)`: the tallies grow by the grid's hits. */
  function CreditRows(s: Stats, players: seq<string>, rows: Grid): (r: Stats)
    requires Covers(s, players) && GridFits(players, rows)
    ensures r.Keys == s.Keys
    ensures forall q, d :: q in s ==> Get(r[q], d) == Get(s[q], d) + GridHits(players, rows, q, d)
  {
    if rows == [] then s
    else
      var n := |rows| - 1;
      assert forall k :: 0 <= k < n ==> rows[..n][k] == rows[k];
      CreditRow(CreditRows(s, players, rows[..n]), players, rows[n])
  }

  /** What one table adds to player q's counter d. */
  function TableCount(players: seq<string>, t: TableRow, q: string, d: Counter): nat
    requires Rankable(players, t.totals)
  {
    (if Placed(players, t.totals, d) == Some(q) then 1 else 0) + GridHits(players, t.scores, q, d)
  }

  /** Player q's counter d over a list of tables: the tables ranking q in that place, or
      the cells of q's columns that count for d. */
  function Count(players: seq<string>, tables: seq<TableRow>, q: string, d: Counter): nat
    requires forall i :: 0 <= i < |tables| ==> TableFits(players, tables[i])
  {
    if tables == [] then 0
    else
      var n := |tables| - 1;
      assert TableFits(players, tables[n]);
      assert forall i :: 0 <= i < n ==> tables[..n][i] == tables[i];
      Count(players, tables[..n], q, d) + TableCount(players, tables[n], q, d)
  }

  /** The body of `sevenData.forEach` for one table. */
  function CreditTable(s: Stats, players: seq<string>, t: TableRow): (r: Stats)
    requires Covers(s, players) && TableFits(players, t)
    ensures r.Keys == s.Keys
    ensures forall q, d :: q in s ==> Get(r[q], d) == Get(s[q], d) + TableCount(players, t, q, d)
  {
    CreditRows(CreditRanks(s, players, t.totals), players, t.scores)
  }

  /** `sevenData.forEach(...)` over a list of tables. */
  function CreditTables(s: Stats, players: seq<string>, tables: seq<TableRow>): (r: Stats)
    requires Covers(s, players) && forall i :: 0 <= i < |tables| ==> TableFits(players, tables[i])
    ensures r.Keys == s.Keys
    ensures forall q, d :: q in s ==> Get(r[q], d) == Get(s[q], d) + Count(players, tables, q, d)
  {
    if tables == [] then s
    else
      var n := |tables| - 1;
      CreditTable(CreditTables(s, players, tables[..n]), players, tables[n])
  }

  lemma {:induction false} CreditRowsStep(s: Stats, players: seq<string>, rows: Grid, r: nat)
    requires Covers(s, players) && r < |rows|
    requires GridFits(players, rows)
    ensures GridFits(players, rows[..r]) && GridFits(players, rows[..r + 1])
    ensures CreditRows(s, players, rows[..r + 1])
         == CreditRow(CreditRows(s, players, rows[..r]), players, rows[r])
  {
    var prefix, next := rows[..r], rows[..r + 1];
    assert next[..r] == prefix;
    assert forall k :: 0 <= k < |prefix| ==> prefix[k] == rows[k];
    assert forall k :: 0 <= k < |next| ==> next[k] == rows[k];
  }

  lemma {:induction false} CreditTablesStep(s: Stats, players: seq<string>, tables: seq<TableRow>, i: nat)
    requires Covers(s, players) && i < |tables|
    requires forall k :: 0 <= k < |tables| ==> TableFits(players, tables[k])
    ensures forall k :: 0 <= k < i ==> TableFits(players, tables[..i][k])
    ensures CreditTables(s, players, tables[..i + 1])
         == CreditTable(CreditTables(s, players, tables[..i]), players, tables[i])
  {
    var prefix, next := tables[..i], tables[..i + 1];
    assert next[..i] == prefix;
    assert forall k :: 0 <= k < |prefix| ==> prefix[k] == tables[k];
    assert forall k :: 0 <= k < |next| ==> next[k] == tables[k];
  }

  /** The finished `playerStats`, each counter given by its count. */
  function Spec(players: seq<string>, tables: seq<TableRow>): (s: Stats)
    requires forall i :: 0 <= i < |tables| ==> TableFits(players, tables[i])
  {
    map q | q in players ::
      Tally(Count(players, tables, q, FirstWins), Count(players, tables, q, SecondWins),
            Count(players, tables, q, Defeats), Count(players, tables, q, Zeros),
            Count(players, tables, q, MaxScore65Or130))
  }

  /** Crediting the tables one by one from the all-zero tallies yields the counts. */
  lemma {:induction false} CreditedIsCount(players: seq<string>, tables: seq<TableRow>)
    requires forall i :: 0 <= i < |tables| ==> TableFits(players, tables[i])
    ensures CreditTables(Initial(players), players, tables) == Spec(players, tables)
  {
    var r, s := CreditTables(Initial(players), players, tables), Spec(players, tables);
    forall q | q in r ensures r[q] == s[q] {
      CreditedIsCountAt(players, tables, q);
    }
  }

  lemma CreditedIsCountAt(players: seq<string>, tables: seq<TableRow>, q: string)
    requires forall i :: 0 <= i < |tables| ==> TableFits(players, tables[i])
    requires q in players
    ensures CreditTables(Initial(players), players, tables)[q] == Spec(players, tables)[q]
  {
    var t := CreditTables(Initial(players), players, tables)[q];
    var u := SpecAt(players, tables, q);
    CreditedGet(players, tables, q, FirstWins);
    CreditedGet(players, tables, q, SecondWins);
    CreditedGet(players, tables, q, Defeats);
    CreditedGet(players, tables, q, Zeros);
    CreditedGet(players, tables, q, MaxScore65Or130);
    SameTally(t, u);
  }

  /** The closed-form tally of one player. */
  lemma SpecAt(players: seq<string>, tables: seq<TableRow>, q: string) returns (u: Tally)
    requires forall i :: 0 <= i < |tables| ==> TableFits(players, tables[i])
    requires q in players
    ensures u == Spec(players, tables)[q]
    ensures forall d :: Get(u, d) == Count(players, tables, q, d)
  {
    u := Spec(players, tables)[q];
  }

  /** Two tallies that agree on every counter are equal. */
  lemma SameTally(a: Tally, b: Tally)
    requires Get(a, FirstWins) == Get(b, FirstWins) && Get(a, SecondWins) == Get(b, SecondWins)
    requires Get(a, Defeats) == Get(b, Defeats) && Get(a, Zeros) == Get(b, Zeros)
    requires Get(a, MaxScore65Or130) == Get(b, MaxScore65Or130)
    ensures a == b
  {
  }

  lemma CreditedGet(players: seq<string>, tables: seq<TableRow>, q: string, d: Counter)
    requires forall i :: 0 <= i < |tables| ==> TableFits(players, tables[i])
    requires q in players
    ensures Get(CreditTables(Initial(players), players, tables)[q], d) == Count(players, tables, q, d)
  {
    assert Initial(players)[q] == NoWins;
    assert Get(NoWins, d) == 0;
  }

  /** `table.totals[idx]` summed over the tables; None stands for NaN, which a table with
      no entry at idx produces and which every later addition keeps. */
  function TotalScore(tables: seq<TableRow>, idx: nat): (r: Option<int>)
    ensures r.Some? <==> forall i :: 0 <= i < |tables| ==> idx < |tables[i].totals|
  {
    if tables == [] then Some(0)
    else
      var n := |tables| - 1;
      var sum := TotalScore(tables[..n], idx);
      assert forall i :: 0 <= i < n ==> tables[..n][i] == tables[i];
      if sum.Some? && idx < |tables[n].totals| then Some(sum.value + tables[n].totals[idx]) else None
  }

  /** `consistency`: four points per zero cell and two per 65/130 cell, less the player's
      summed totals; NaN (None) when some table has no total for the player's column. */
  function Consistency(s: Stats, players: seq<string>, tables: seq<TableRow>): (r: seq<Option<int>>)
    requires Covers(s, players)
    ensures |r| == |players|
    ensures forall idx :: 0 <= idx < |players| ==>
              (r[idx].Some? <==> forall i :: 0 <= i < |tables| ==> idx < |tables[i].totals|)
  {
    seq(|players|, idx requires 0 <= idx < |players| =>
      var t := s[players[idx]];
      match TotalScore(tables, idx)
      case None => None
      case Some(total) => Some(t.zeros * 4 + t.maxScore65Or130 * 2 - total))
  }

  function Values(scores: seq<Option<int>>): (r: seq<int>)
    requires forall k :: 0 <= k < |scores| ==> scores[k].Some?
    ensures |r| == |scores| && forall k :: 0 <= k < |scores| ==> scores[k] == Some(r[k])
  {
    seq(|scores|, k requires 0 <= k < |scores| && scores[k].Some? => scores[k].value)
  }

  /** `mostConsistent`, as the list of names before `join(", ")`: the players whose score is
      `Math.max` of the scores. A NaN score makes the maximum NaN, which no score equals. */
  function MostConsistent(players: seq<string>, scores: seq<Option<int>>): (r: seq<string>)
    requires |players| == |scores|
    ensures (exists k :: 0 <= k < |scores| && scores[k].None?) ==> r == []
    ensures (forall k :: 0 <= k < |scores| ==> scores[k].Some?) && scores != [] ==>
              var m := MaxOf(Values(scores));
              r != [] && forall x :: x in r <==> exists i :: 0 <= i < |scores| && players[i] == x && scores[i] == Some(m)
  {
    if exists k :: 0 <= k < |scores| && scores[k].None? then []
    else TiesAtMax(players, Values(scores))
  }

  /** The state `setSevenStats` stores: `playerStats`, with its keys in the order the
      object enumerates them, and the most consistent players. */
  datatype Summary = Summary(names: seq<string>, playerStats: Stats, mostConsistent: seq<string>)

  /** The tables can be aggregated through the first table's player list. */
  predicate Aggregable(tables: seq<TableRow>) {
    tables != [] ==> forall i :: 0 <= i < |tables| ==> TableFits(tables[0].players, tables[i])
  }

  /** The body of `row.forEach((val, idx) => ...)` for one cell: `score >= 0`, then the two
      separate tests. */
  method TallyCell(stats0: Stats, players: seq<string>, col: nat, val: string) returns (stats: Stats)
    requires Covers(stats0, players) && (col < |players| || !Counted(val))
    ensures stats == CreditCell(stats0, players, col, val)
  {
    CreditCellCases(stats0, players, col, val);
    stats := stats0;
    var score := ParseInt(val);
    if score.Some? && score.value >= 0 {
      if score.value == 0 {
        stats := Credit(stats, players[col], Zeros);
      }
      if score.value == 65 || score.value == 130 {
        stats := Credit(stats, players[col], MaxScore65Or130);
      }
    }
  }

  /** CreditCell by the value the cell parses to. */
  lemma CreditCellCases(s: Stats, players: seq<string>, col: nat, val: string)
    requires Covers(s, players) && (col < |players| || !Counted(val))
    ensures var score := ParseInt(val);
            CreditCell(s, players, col, val)
            == if score == Some(0) then Credit(s, players[col], Zeros)
               else if score == Some(65) || score == Some(130) then Credit(s, players[col], MaxScore65Or130)
               else s
  {
  }

  /** `row.forEach((val, idx) => ...)` over one row of a table's grid. */
  method TallyRow(stats0: Stats, players: seq<string>, row: seq<string>) returns (stats: Stats)
    requires Covers(stats0, players) && RowFits(players, row)
    ensures stats == CreditRow(stats0, players, row)
  {
    stats := stats0;
    var c := 0;
    while c < |row|
      invariant 0 <= c <= |row|
      invariant RowFits(players, row[..c]) && stats == CreditRow(stats0, players, row[..c])
    {
      CreditRowStep(stats0, players, row, c);
      stats := TallyCell(stats, players, c, row[c]);
      c := c + 1;
    }
    assert row[..c] == row;
  }

  /** Crediting the first c + 1 cells is crediting the first c, then cell c. */
  lemma CreditRowStep(s: Stats, players: seq<string>, row: seq<string>, c: nat)
    requires Covers(s, players) && RowFits(players, row) && c < |row|
    ensures RowFits(players, row[..c]) && RowFits(players, row[..c + 1])
    ensures c < |players| || !Counted(row[c])
    ensures CreditRow(s, players, row[..c + 1]) == CreditCell(CreditRow(s, players, row[..c]), players, c, row[c])
  {
    assert row[..c + 1][..c] == row[..c];
    assert forall k :: 0 <= k < c ==> row[..c][k] == row[k];
    assert forall k :: 0 <= k <= c ==> row[..c + 1][k] == row[k];
  }

  /** The ranking increments of one table: the sorted entries' first, second (when there
      is one) and last players. */
  method TallyRanks(stats0: Stats, players: seq<string>, totals: seq<int>) returns (stats: Stats)
    requires Covers(stats0, players) && Rankable(players, totals)
    ensures stats == CreditRanks(stats0, players, totals)
  {
    var order := SortedIndices(totals);
    stats := Credit(stats0, players[order[0]], FirstWins);
    if |order| > 1 {
      stats := Credit(stats, players[order[1]], SecondWins);
    }
    stats := Credit(stats, players[order[|order| - 1]], Defeats);
  }

  /** The body of `sevenData.forEach((table) => ...)`: the table's ranking is credited, then
      its grid row by row. */
  method TallyTable(stats0: Stats, players: seq<string>, t: TableRow) returns (stats: Stats)
    requires Covers(stats0, players) && TableFits(players, t)
    ensures stats == CreditTable(stats0, players, t)
  {
    stats := TallyRanks(stats0, players, t.totals);
    ghost var ranked := stats;
    var r := 0;
    while r < |t.scores|
      invariant 0 <= r <= |t.scores|
      invariant Covers(stats, players)
      invariant GridFits(players, t.scores[..r])
      invariant stats == CreditRows(ranked, players, t.scores[..r])
    {
      CreditRowsStep(ranked, players, t.scores, r);
      stats := TallyRow(stats, players, t.scores[r]);
      r := r + 1;
    }
    assert t.scores[..r] == t.scores;
  }

  /** `sevenData.forEach(...)` from the all-zero tallies: every player's counters end at
      their counts. */
  method TallyTables(players: seq<string>, tables: seq<TableRow>) returns (stats: Stats)
    requires forall i :: 0 <= i < |tables| ==> TableFits(players, tables[i])
    ensures stats == Spec(players, tables)
  {
    stats := Initial(players);
    var i := 0;
    while i < |tables|
      invariant 0 <= i <= |tables|
      invariant Covers(stats, players)
      invariant stats == CreditTables(Initial(players), players, tables[..i])
    {
      CreditTablesStep(Initial(players), players, tables, i);
      stats := TallyTable(stats, players, tables[i]);
      i := i + 1;
    }
    assert tables[..i] == tables;
    CreditedIsCount(players, tables);
  }

  /** The Seven Cards block of `fetchStats`: no summary for an empty result; otherwise the
      counts of every player of the first table, and the most consistent players. */
  method Aggregate(tables: seq<TableRow>) returns (r: Option<Summary>)
    requires Aggregable(tables)
    ensures tables == [] <==> r == None
    ensures tables != [] ==>
              var players := tables[0].players;
              var stats := Spec(players, tables);
              r == Some(Summary(Dedup(players), stats, MostConsistent(players, Consistency(stats, players, tables))))
  {
    if |tables| == 0 {
      return None;
    }
    var players := tables[0].players;
    var stats := TallyTables(players, tables);
    var consistency := Consistency(stats, players, tables);
    r := Some(Summary(Dedup(players), stats, MostConsistent(players, consistency)));
  }
}

/** What the Seven Cards counts add up to, and what the rankings and the consistency filter
    pick. */
module SevenCardsStatsFacts {
  import opened JsBuiltins
  import opened ScoreGrid
  import opened ScoreStore
  import opened Ranking
  import opened SevenCardsStats

  /** The first place goes to the player with the lowest total, the earliest such player
      when several share it. */
  lemma FirstPlaceIsLowest(players: seq<string>, totals: seq<int>)
    requires Rankable(players, totals)
    ensures exists i :: 0 <= i < |totals| && i < |players| && Placed(players, totals, FirstWins) == Some(players[i])
              && forall j :: 0 <= j < |totals| ==> totals[i] < totals[j] || (totals[i] == totals[j] && i <= j)
  {
    var i := SortedIndices(totals)[0];
    forall j | 0 <= j < |totals| ensures totals[i] < totals[j] || (totals[i] == totals[j] && i <= j) {
      FirstIsLeast(totals, j);
    }
  }

  /** The last place goes to the player with the highest total, the latest such player when
      several share it. */
  lemma LastPlaceIsHighest(players: seq<string>, totals: seq<int>)
    requires Rankable(players, totals)
    ensures exists i :: 0 <= i < |totals| && i < |players| && Placed(players, totals, Defeats) == Some(players[i])
              && forall j :: 0 <= j < |totals| ==> totals[j] < totals[i] || (totals[i] == totals[j] && j <= i)
  {
    var s := SortedIndices(totals);
    var i := s[|s| - 1];
    forall j | 0 <= j < |totals| ensures totals[j] < totals[i] || (totals[i] == totals[j] && j <= i) {
      LastIsGreatest(totals, j);
    }
    assert Placed(players, totals, Defeats) == Some(players[i]);
  }

  /** With two or more totals, the second place goes to a player other than the first
      finisher's entry, placed before every remaining entry. With one total there is no
      second place. */
  lemma SecondPlaceIsRunnerUp(players: seq<string>, totals: seq<int>)
    requires Rankable(players, totals)
    ensures |totals| == 1 ==> Placed(players, totals, SecondWins) == None
    ensures |totals| > 1 ==>
              exists w, i :: 0 <= w < |totals| && 0 <= i < |totals| && w != i && w < |players| && i < |players|
                && Placed(players, totals, FirstWins) == Some(players[w])
                && Placed(players, totals, SecondWins) == Some(players[i])
                && forall j :: 0 <= j < |totals| && j != w ==> totals[i] < totals[j] || (totals[i] == totals[j] && i <= j)
  {
    if |totals| > 1 {
      var s := SortedIndices(totals);
      var w, i := s[0], s[1];
      forall j | 0 <= j < |totals| && j != w ensures totals[i] < totals[j] || (totals[i] == totals[j] && i <= j) {
        SecondIsNextLeast(totals, j);
      }
      SecondIsNextLeast(totals, 0);
      assert Placed(players, totals, FirstWins) == Some(players[w]);
      assert Placed(players, totals, SecondWins) == Some(players[i]);
    }
  }

  /** A table with a single total credits the same player with the first place and the
      last. */
  lemma SingleTotalWinsAndLoses(players: seq<string>, totals: seq<int>)
    requires Rankable(players, totals) && |totals| == 1
    ensures Placed(players, totals, FirstWins) == Placed(players, totals, Defeats) == Some(players[0])
  {
    assert SortedIndices(totals)[0] == 0;
  }

  /** The ranking of the totals {A: 10, B: 5, C: 20}: B first, A second, C last. */
  lemma ExampleRanking()
    ensures var players, totals := ["A", "B", "C"], [10, 5, 20];
            Rankable(players, totals)
            && Placed(players, totals, FirstWins) == Some("B")
            && Placed(players, totals, SecondWins) == Some("A")
            && Placed(players, totals, Defeats) == Some("C")
  {
    var totals := [10, 5, 20];
    var expected := [1, 0, 2];
    assert StrictlySorted(totals, expected);
    assert forall x :: x in expected <==> 0 <= x < 3;
    SortedUnique(totals, expected, SortedIndices(totals));
  }

  /** The sum of one counter over a list of keys of the tallies. */
  function SumOver(keys: seq<string>, s: Stats, d: Counter): nat
    requires forall k :: 0 <= k < |keys| ==> keys[k] in s
  {
    if keys == [] then 0
    else
      var n := |keys| - 1;
      SumOver(keys[..n], s, d) + Get(s[keys[n]], d)
  }

  /** The sum of the per-table contributions of one table over a list of keys. */
  function SumTable(keys: seq<string>, players: seq<string>, t: TableRow, d: Counter): nat
    requires Rankable(players, t.totals)
  {
    if keys == [] then 0
    else
      var n := |keys| - 1;
      SumTable(keys[..n], players, t, d) + TableCount(players, t, keys[n], d)
  }

  /** The number of tables whose ranking credits someone with counter d. */
  function PlacedTables(players: seq<string>, tables: seq<TableRow>, d: Counter): nat
    requires forall i :: 0 <= i < |tables| ==> TableFits(players, tables[i])
  {
    if tables == [] then 0
    else
      var n := |tables| - 1;
      assert forall i :: 0 <= i < n ==> tables[..n][i] == tables[i];
      assert TableFits(players, tables[n]);
      PlacedTables(players, tables[..n], d) + (if Placed(players, tables[n].totals, d).Some? then 1 else 0)
  }

  lemma {:induction false} RowHitsOfRank(players: seq<string>, row: seq<string>, q: string, d: Counter)
    requires d.IsRank()
    ensures RowHits(players, row, q, d) == 0
  {
    if row != [] {
      RowHitsOfRank(players, row[..|row| - 1], q, d);
    }
  }

  /** No cell counts for a ranking counter. */
  lemma {:induction false} GridHitsOfRank(players: seq<string>, rows: Grid, q: string, d: Counter)
    requires d.IsRank()
    ensures GridHits(players, rows, q, d) == 0
  {
    if rows != [] {
      GridHitsOfRank(players, rows[..|rows| - 1], q, d);
      RowHitsOfRank(players, rows[|rows| - 1], q, d);
    }
  }

  /** Over distinct keys, one table adds one to a ranking counter in total when the credited
      player is among the keys, and nothing otherwise. */
  lemma {:induction false} SumTableOfRank(keys: seq<string>, players: seq<string>, t: TableRow, d: Counter)
    requires d.IsRank() && Rankable(players, t.totals)
    requires forall a, b :: 0 <= a < b < |keys| ==> keys[a] != keys[b]
    ensures var p := Placed(players, t.totals, d);
            SumTable(keys, players, t, d) == if p.Some? && p.value in keys then 1 else 0
  {
    if keys != [] {
      var n := |keys| - 1;
      SumTableOfRank(keys[..n], players, t, d);
      GridHitsOfRank(players, t.scores, keys[n], d);
      var p := Placed(players, t.totals, d);
      assert forall x :: x in keys <==> x in keys[..n] || x == keys[n] by {
        assert keys == keys[..n] + [keys[n]];
      }
      if p.Some? && p.value == keys[n] {
        assert p.value !in keys[..n];
      }
    }
  }

  /** Summing over the keys the counts of a list of tables, one more table adds its sum. */
  lemma {:induction false} SumOverSpecStep(keys: seq<string>, players: seq<string>, tables: seq<TableRow>)
    requires tables != [] && forall i :: 0 <= i < |tables| ==> TableFits(players, tables[i])
    requires forall k :: 0 <= k < |keys| ==> keys[k] in players
    ensures var n := |tables| - 1;
            (forall i :: 0 <= i < n ==> TableFits(players, tables[..n][i]))
            && forall d :: SumOver(keys, Spec(players, tables), d)
                           == SumOver(keys, Spec(players, tables[..n]), d) + SumTable(keys, players, tables[n], d)
  {
    var n := |tables| - 1;
    assert forall i :: 0 <= i < n ==> tables[..n][i] == tables[i];
    if keys != [] {
      var m := |keys| - 1;
      SumOverSpecStep(keys[..m], players, tables);
      forall d ensures Get(Spec(players, tables)[keys[m]], d)
                       == Get(Spec(players, tables[..n])[keys[m]], d) + TableCount(players, tables[n], keys[m], d)
      {
        match d
        case FirstWins =>
        case SecondWins =>
        case Defeats =>
        case Zeros =>
        case MaxScore65Or130 =>
      }
    }
  }

  /** Summed over the distinct player names, a ranking counter adds up to the number of
      tables that credit it. */
  lemma {:induction false} RankSums(players: seq<string>, tables: seq<TableRow>, d: Counter)
    requires d.IsRank() && forall i :: 0 <= i < |tables| ==> TableFits(players, tables[i])
    ensures SumOver(Dedup(players), Spec(players, tables), d) == PlacedTables(players, tables, d)
  {
    var keys := Dedup(players);
    if tables == [] {
      EmptySum(keys, Spec(players, tables), d);
    } else {
      var n := |tables| - 1;
      SumOverSpecStep(keys, players, tables);
      RankSums(players, tables[..n], d);
      SumTableOfRank(keys, players, tables[n], d);
    }
  }

  lemma {:induction false} EmptySum(keys: seq<string>, s: Stats, d: Counter)
    requires forall k :: 0 <= k < |keys| ==> keys[k] in s
    requires forall p :: p in s ==> Get(s[p], d) == 0
    ensures SumOver(keys, s, d) == 0
  {
    if keys != [] {
      EmptySum(keys[..|keys| - 1], s, d);
    }
  }

  lemma {:induction false} PlacedTablesOfFirstAndLast(players: seq<string>, tables: seq<TableRow>)
    requires forall i :: 0 <= i < |tables| ==> TableFits(players, tables[i])
    ensures PlacedTables(players, tables, FirstWins) == |tables|
    ensures PlacedTables(players, tables, Defeats) == |tables|
  {
    if tables != [] {
      var n := |tables| - 1;
      assert forall i :: 0 <= i < n ==> tables[..n][i] == tables[i];
      PlacedTablesOfFirstAndLast(players, tables[..n]);
    }
  }

  /** Summed over the distinct players, every table contributes exactly one first place and
      one last place, and one second place when it has two totals or more. */
  lemma EveryTableCredited(players: seq<string>, tables: seq<TableRow>)
    requires forall i :: 0 <= i < |tables| ==> TableFits(players, tables[i])
    ensures SumOver(Dedup(players), Spec(players, tables), FirstWins) == |tables|
    ensures SumOver(Dedup(players), Spec(players, tables), Defeats) == |tables|
    ensures SumOver(Dedup(players), Spec(players, tables), SecondWins)
            == PlacedTables(players, tables, SecondWins) <= |tables|
  {
    RankSums(players, tables, FirstWins);
    RankSums(players, tables, Defeats);
    RankSums(players, tables, SecondWins);
    PlacedTablesOfFirstAndLast(players, tables);
    PlacedTablesBound(players, tables, SecondWins);
  }

  lemma {:induction false} PlacedTablesBound(players: seq<string>, tables: seq<TableRow>, d: Counter)
    requires forall i :: 0 <= i < |tables| ==> TableFits(players, tables[i])
    ensures PlacedTables(players, tables, d) <= |tables|
  {
    if tables != [] {
      var n := |tables| - 1;
      assert forall i :: 0 <= i < n ==> tables[..n][i] == tables[i];
      PlacedTablesBound(players, tables[..n], d);
    }
  }

  /** The most consistent list is empty exactly when some table has fewer totals than there
      are players (its missing total makes a score NaN); otherwise it names every player at
      the maximum score and no one else. */
  lemma MostConsistentEmptyIffNaN(s: Stats, players: seq<string>, tables: seq<TableRow>)
    requires Covers(s, players) && players != []
    ensures var r := MostConsistent(players, Consistency(s, players, tables));
            r == [] <==> exists i :: 0 <= i < |tables| && |tables[i].totals| < |players|
  {
    var c := Consistency(s, players, tables);
    if exists i :: 0 <= i < |tables| && |tables[i].totals| < |players| {
      var i :| 0 <= i < |tables| && |tables[i].totals| < |players|;
      assert c[|players| - 1].None?;
    } else {
      assert forall k :: 0 <= k < |c| ==> c[k].Some?;
    }
  }
}

/** Which cells the Seven Cards counters see. */
module SevenCardsCells {
  import opened JsBuiltins
  import opened SevenCardsStats

  /** No cell counts both as a zero and as a 65/130; an empty cell, one that does not
      parse, and one that reads as a negative number count for nothing. */
  lemma CellKinds(val: string)
    ensures !(Hit(val, Zeros) && Hit(val, MaxScore65Or130))
    ensures ParseInt(val).None? ==> !Counted(val)
    ensures ParseInt(val).Some? && ParseInt(val).value < 0 ==> !Counted(val)
    ensures !Counted("")
  {
    assert TrimStart("") == "";
  }

  /** A cell with leading blanks counts as its number: " 0" is a zero. */
  lemma BlankPrefixedZero()
    ensures Hit(" 0", Zeros)
  {
    LeadingBlankDropped();
    ZeroDigit();
  }

  lemma LeadingBlankDropped()
    ensures TrimStart(" 0") == "0"
  {
    assert IsTrimmable(" 0"[0]) && " 0"[1..] == "0";
    assert TrimStart("0") == "0";
  }

  /** A cell with trailing junk counts by its leading digits: "0abc" is a zero. */
  lemma TrailingJunkZero()
    ensures Hit("0abc", Zeros)
  {
    assert TrimStart("0abc") == "0abc";
    assert DigitPrefix("0abc", 10) == "0" by {
      assert DigitValue('a') >= 10;
      assert "0abc"[1..] == "abc";
    }
    assert DigitsValue("0", 10) == 0 by { assert "0"[..0] == ""; }
  }

  /** A hexadecimal cell counts as its value: "0x41" is a 65. */
  lemma HexSixtyFive()
    ensures Hit("0x41", MaxScore65Or130)
  {
    NoLeadingSpace("0x41");
    HexDigits();
  }

  lemma HexDigits()
    ensures ParseUnsigned("0x41") == Some(65)
  {
    assert "0x41"[2..] == "41";
    assert DigitPrefix("41", 16) == "41" by {
      assert "41"[1..] == "1";
      assert DigitPrefix("1", 16) == "1" by { assert "1"[1..] == ""; }
    }
    assert DigitsValue("41", 16) == 65 by {
      assert "41"[..1] == "4";
      assert DigitsValue("4", 16) == 4 by { assert "4"[..0] == ""; }
    }
  }

  lemma ZeroDigit()
    ensures ParseUnsigned("0") == Some(0)
  {
    assert DigitPrefix("0", 10) == "0" by { assert "0"[1..] == ""; }
    assert DigitsValue("0", 10) == 0 by { assert "0"[..0] == ""; }
  }
}
