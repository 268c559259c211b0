# Card-game score tracker: a Dafny model

This project models the logic of a small React application for keeping score in two card
games, Seven Cards and Judgement. Each game has an entry page. It keeps a grid of string
cells, one row per round and one column per player, and saves it to a remote
`score_tables` store. A view page shows one stored Seven Cards table. A leaderboard page
reads every stored table and derives per-player statistics. The leaderboard statistics are:

- first, second and last places;
- cells worth 0 points, and cells worth 65 or 130 points;
- a "most consistent" score;
- the "most ..." cards, which keep every tied player.

The model is written in the source's own form:

- **Pure code** is written as Dafny functions and lemmas. This covers the grid transforms,
  the column totals, the pagination slice, the view's fallbacks, the consistency formulas
  and the tie filters.
- **Component state** is written as classes with `modifies` frames:
  - `SevenCardsBoard` and `JudgementBoard` for the entry pages;
  - `LeaderboardPage` for the two stored summaries.
- **The leaderboard's `forEach` loops** are written as `while` loops. Those loops increment
  counters in a dictionary. Each loop is proved equal to a fold function, and each fold is
  proved equal to a closed-form count.

JavaScript built-ins are modelled only as far as the code relies on them:

- `parseInt` with no radix (section 19.2.5 of ECMA-262): leading white space, a sign, a
  `0x` prefix, and the longest digit prefix. NaN is `None`.
- `String.prototype.trim`.
- `Array.prototype.slice` with relative indices.
- The stable `Array.prototype.sort` (section 23.1.3.30 of ECMA-262). It is modelled as a
  sort of indices by key, then index. `Ranking.SortedUnique` shows that every stable sort
  gives that same order.
- `Math.max`.

Cells stay strings, as in the source. An empty cell is `""`. A numeric cell is one whose
parse is `Some(n)`. A junk cell is one whose parse is `None`. The two colour rules compare
the cell text itself ("0", "65", "130"), so the text cannot be replaced by its number.

Modules, one concern each:

| module | file | concern |
|---|---|---|
| `JsBuiltins` | js_builtins.dfy | `parseInt`, `parseInt(x) \|\| 0`, `trim`, `slice`, decimal text |
| `ScoreGrid` | score_grid.dfy | the shared grid, its totals, and pagination |
| `ScoreStore` | score_store.dfy | the rows and calls sent to the store |
| `SevenCardsPage` | seven_cards.dfy | the Seven Cards entry page |
| `JudgementPage` | judgement.dfy | the Judgement entry page |
| `SevenCardsView` | seven_cards_view.dfy | the view page |
| `Ranking` | ranking.dfy | the stable sort and the tie filters |
| `SevenCardsStats`, `SevenCardsStatsFacts`, `SevenCardsCells` | seven_cards_stats.dfy | the Seven Cards aggregation and what is proved about it |
| `JudgementStats`, `JudgementStatsFacts` | judgement_stats.dfy | the Judgement aggregation and what is proved about it |
| `Leaderboard` | leaderboard.dfy | the leaderboard page state, its cards and the combined table |

## Model

| member | source | states |
|---|---|---|
| JsBuiltins.Trim | game-board/src/pages/SevenCards.jsx:43 | `s.trim()`; what it keeps is stated by TrimShape and TrimContent |
| JsBuiltins.TrimContent | game-board/src/pages/SevenCards.jsx:43 | `trim` is the leading white space dropped and then the trailing white space dropped, which with TrimStart and TrimEnd fixes its content |
| JsBuiltins.TrimShape | game-board/src/pages/SevenCards.jsx:43 | the trimmed text is never longer, is empty iff every character is white space, and otherwise starts and ends with a non-space |
| JsBuiltins.ParseInt | game-board/src/pages/SevenCards.jsx:49 | `parseInt` with no radix; ParseIntText, CellKinds, BlankPrefixedZero, TrailingJunkZero and HexSixtyFive state what it reads |
| JsBuiltins.Utf16Length | game-board/src/pages/Judgement.jsx:103 | `length` counts UTF-16 code units: between |s| and 2·|s|, equal to |s| iff no character is above U+FFFF, and to 2·|s| iff every one is |
| JsBuiltins.OrZero | game-board/src/pages/SevenCards.jsx:49 | `parseInt(x) \|\| 0` is the parsed value, or 0 when the parse is NaN |
| JsBuiltins.ParseIntText | game-board/src/pages/SevenCards.jsx:7 | the decimal text of any integer parses back to that integer |
| JsBuiltins.Slice | game-board/src/pages/SevenCards.jsx:91-94 | a slice is never longer than the list, nor longer than end − start |
| ScoreGrid.RowFilled | game-board/src/pages/SevenCards.jsx:23 | a row is filled iff some cell is not "" |
| ScoreGrid.Locked | game-board/src/pages/SevenCards.jsx:23 | `isTableLocked` holds iff some cell of the grid is not "" |
| ScoreGrid.Blank | game-board/src/pages/SevenCards.jsx:12-16 | the initial grid has the given number of rows, one cell per player in each row, and is unlocked |
| ScoreGrid.SetCell | game-board/src/pages/SevenCards.jsx:38-40 | the grid keeps its dimensions, cell (row, col) becomes v, and every other cell is unchanged |
| ScoreGrid.ColumnTotal | game-board/src/pages/SevenCards.jsx:48-49 | `getPlayerTotal`: the left-to-right sum of the column's `parseInt(x) \|\| 0`; UnlockedTotalsZero, SetCellTotal, RemoveColumnTotal and AddColumnTotal state how edits move it |
| ScoreGrid.ColumnTotals | game-board/src/pages/SevenCards.jsx:60 | one total per player, each the column's `getPlayerTotal` |
| ScoreGrid.RemoveAt | game-board/src/pages/SevenCards.jsx:133 | an in-range index is deleted and the rest shift down; an out-of-range index changes nothing |
| ScoreGrid.RemoveColumn | game-board/src/pages/SevenCards.jsx:134 | the index leaves every row, and an aligned grid of width w becomes aligned at width w − 1 |
| ScoreGrid.AddColumn | game-board/src/pages/SevenCards.jsx:158 | every row gains a trailing "", and an aligned grid of width w becomes aligned at width w + 1 |
| ScoreGrid.SetCellLocks | game-board/src/pages/SevenCards.jsx:38-40 | writing a non-empty value inside the grid locks it |
| ScoreGrid.SetCellEmptyKeepsUnlocked | game-board/src/pages/SevenCards.jsx:38-40 | writing "" into an unlocked grid keeps it unlocked |
| ScoreGrid.UnlockedTotalsZero | game-board/src/pages/SevenCards.jsx:48-49 | every column of an unlocked grid totals 0 |
| ScoreGrid.SetCellTotal | game-board/src/pages/SevenCards.jsx:48-49 | an edit changes its column's total by parse(new) − parse(old) and leaves the other columns' totals alone |
| ScoreGrid.RemoveColumnTotal | game-board/src/pages/SevenCards.jsx:132-134 | after a removal, the remaining columns keep their totals, shifted past the removed index |
| ScoreGrid.AddColumnTotal | game-board/src/pages/SevenCards.jsx:156-158 | after an addition, the old columns keep their totals and the new column totals 0 |
| ScoreGrid.RemoveColumnKeepsUnlocked | game-board/src/pages/SevenCards.jsx:132-134 | removing a column of an unlocked grid keeps it unlocked |
| ScoreGrid.AddColumnKeepsUnlocked | game-board/src/pages/SevenCards.jsx:156-158 | adding a column to an unlocked grid keeps it unlocked |
| ScoreGrid.TotalPages | game-board/src/pages/SevenCards.jsx:90 | `ceil(n / 5)`: the fewest five-item pages that hold n items |
| ScoreGrid.Page | game-board/src/pages/SevenCards.jsx:91-94 | a page holds at most 5 items, it is the slice [(p − 1)·5, p·5) clipped to the list, and every page from 1 to totalPages is non-empty |
| ScoreGrid.PagesUpToPrefix | game-board/src/pages/SevenCards.jsx:91-94 | pages 1 to k, read in turn, are the first 5k items |
| ScoreGrid.PagesCoverAll | game-board/src/pages/SevenCards.jsx:90-94 | pages 1 to totalPages, read in turn, are exactly the list |
| SevenCardsPage.GameLabelNumber | game-board/src/pages/SevenCards.jsx:7 | the label `Game ${n}` starts with "Game " and its rest parses back to n |
| SevenCardsPage.DefaultRounds | game-board/src/pages/SevenCards.jsx:7 | 15 labels; the i-th is "Game " followed by i + 1 |
| SevenCardsPage.SevenCardsBoard.constructor | game-board/src/pages/SevenCards.jsx:6-21 | five default players, a blank 15 × 5 grid, no table id, page 1, and the page invariant holds |
| SevenCardsPage.SevenCardsBoard.SetTableName | game-board/src/pages/SevenCards.jsx:116-118 | the name changes only while the grid is unlocked |
| SevenCardsPage.SevenCardsBoard.SetNewPlayerName | game-board/src/pages/SevenCards.jsx:149-152 | the new-player name changes only while the grid is unlocked |
| SevenCardsPage.SevenCardsBoard.SetPreviousTables | game-board/src/pages/SevenCards.jsx:82-87 | the listed tables become the store's reply |
| SevenCardsPage.SevenCardsBoard.SaveTable | game-board/src/pages/SevenCards.jsx:51-80 | a blank name makes no call; with a truthy table id, an update of that row; otherwise an insert, whose returned id is then recorded. The totals sent are those of the pre-edit grid, one per player |
| SevenCardsPage.SevenCardsBoard.HandleChange | game-board/src/pages/SevenCards.jsx:37-46 | with a name, exactly the edited cell changes; a call happens iff the value is not blank; an update carries the recorded id and an insert records the new one |
| SevenCardsPage.SevenCardsBoard.RemovePlayer | game-board/src/pages/SevenCards.jsx:131-136 | only while unlocked and with more than one player: the player and their column are removed; the grid stays aligned and at least one player remains |
| SevenCardsPage.SevenCardsBoard.AddPlayer | game-board/src/pages/SevenCards.jsx:155-163 | only while unlocked and for a non-blank trimmed name: the name is appended, every row gains "", and the input is cleared |
| SevenCardsPage.SevenCardsBoard.PaginatedTables | game-board/src/pages/SevenCards.jsx:91-94 | at most five tables are shown |
| SevenCardsPage.SevenCardsBoard.PreviousPage | game-board/src/pages/SevenCards.jsx:246-247 | the page goes down by one, never below 1, and only when enabled |
| SevenCardsPage.SevenCardsBoard.NextPage | game-board/src/pages/SevenCards.jsx:256-257 | the page goes up by one, never above totalPages, and only when enabled |
| SevenCardsPage.FirstEditTotal | game-board/src/pages/SevenCards.jsx:48-49 | writing "65" into a blank grid gives its column a total of 65 |
| SevenCardsPage.ParseSixtyFive | game-board/src/pages/SevenCards.jsx:49 | "65" reads as 65 |
| JudgementPage.Rounds | game-board/src/pages/Judgement.jsx:18-39 | 20 deals; the card counts run 10 down to 1 twice; the first ten deals cycle through the five shapes, and the last ten repeat them backwards |
| JudgementPage.MaxNameLength | game-board/src/pages/Judgement.jsx:103 | the longest name's length in UTF-16 code units bounds every name's and is attained |
| JudgementPage.InputWidth | game-board/src/pages/Judgement.jsx:103-104 | at least 60, at least 12 per UTF-16 code unit of every name, and equal to 60 or to 12 × some name's length |
| JudgementPage.AstralNameWidth | game-board/src/pages/Judgement.jsx:103-104 | a lone name of characters above U+FFFF is 24 pixels per character wide, so six emoji give 144 |
| JudgementPage.JudgementBoard.constructor | game-board/src/pages/Judgement.jsx:41-48 | five default players, a blank 20 × 5 grid, page 1 |
| JudgementPage.JudgementBoard.SetTableName | game-board/src/pages/Judgement.jsx:123-125 | the name changes only while the grid is unlocked |
| JudgementPage.JudgementBoard.SetNewPlayerName | game-board/src/pages/Judgement.jsx:150-158 | the new-player input exists, and so changes, only while unlocked |
| JudgementPage.JudgementBoard.SetPreviousTables | game-board/src/pages/Judgement.jsx:93-98 | the listed tables become the store's reply |
| JudgementPage.JudgementBoard.SaveTable | game-board/src/pages/Judgement.jsx:79-100 | a blank name makes no call; otherwise an insert of the Judgement row with the 20 rounds and the pre-edit totals |
| JudgementPage.JudgementBoard.HandleChange | game-board/src/pages/Judgement.jsx:65-74 | exactly the edited cell changes; a call happens iff the grid was unlocked, the value is non-blank and the name is non-blank; that call is an insert with all-zero totals, after which the grid is locked; it is never an update |
| JudgementPage.JudgementBoard.RemovePlayer | game-board/src/pages/Judgement.jsx:135-139 | refused when locked or with one player; otherwise the player and column go and the grid stays aligned |
| JudgementPage.JudgementBoard.AddPlayer | game-board/src/pages/Judgement.jsx:159-166 | only while unlocked and for a non-blank trimmed name: the name is appended, every row gains "", and the input is cleared |
| JudgementPage.JudgementBoard.PaginatedTables | game-board/src/pages/Judgement.jsx:106-110 | at most five tables are shown |
| JudgementPage.JudgementBoard.PreviousPage | game-board/src/pages/Judgement.jsx:255-256 | the page goes down by one, never below 1 |
| JudgementPage.JudgementBoard.NextPage | game-board/src/pages/Judgement.jsx:265-266 | the page goes up by one, never above totalPages |
| SevenCardsView.OrEmpty | game-board/src/pages/SevenCardsView.jsx:75-77 | a field that is not an array reads as the empty list |
| SevenCardsView.ViewTotals | game-board/src/pages/SevenCardsView.jsx:78-83 | one total per player: the stored totals iff they are an array of that length, otherwise each column's recomputed total |
| SevenCardsView.MissingCellsCountZero | game-board/src/pages/SevenCardsView.jsx:82 | a column no row reaches recomputes to 0 |
| SevenCardsView.UnparsableCellsCountZero | game-board/src/pages/SevenCardsView.jsx:82 | an unparsable cell weighs the same as an empty one in the recompute |
| SevenCardsView.DisplayCell | game-board/src/pages/SevenCardsView.jsx:110 | a present cell shows its text, and a missing row or cell shows "" |
| SevenCardsView.DisplayedGrid | game-board/src/pages/SevenCardsView.jsx:106-119 | one displayed row per round, one cell per player, each cell as DisplayCell shows it |
| SevenCardsView.ViewColour | game-board/src/pages/SevenCardsView.jsx:112-113 | the view's colour rule; ColoursDifferOnlyAt130 and ColourAgreesWithParse compare it |
| SevenCardsView.EditColour | game-board/src/pages/SevenCards.jsx:190-196 | the entry page's colour rule; ColoursDifferOnlyAt130 compares it with the view's |
| SevenCardsView.ColoursDifferOnlyAt130 | game-board/src/pages/SevenCardsView.jsx:112-113 | the view's and the entry page's colour rules disagree exactly on "130" |
| SevenCardsView.ColourAgreesWithParse | game-board/src/pages/SevenCardsView.jsx:112-113 | green cells read 0 and red cells read 65, but "00", which reads 0, is not green |
| Ranking.Insert | game-board/src/pages/Leaderboard.jsx:33-35 | inserting an index into a sorted list keeps it sorted and adds exactly that index |
| Ranking.SortedIndices | game-board/src/pages/Leaderboard.jsx:33-35 | every index exactly once, in strictly increasing (key, index) order: the stable sort |
| Ranking.SortedUnique | game-board/src/pages/Leaderboard.jsx:33-35 | two strictly sorted lists with the same elements are equal, so any stable sort agrees with SortedIndices |
| Ranking.FirstIsLeast | game-board/src/pages/Leaderboard.jsx:37 | the first sorted entry comes before every other entry: least key, earliest index |
| Ranking.SecondIsNextLeast | game-board/src/pages/Leaderboard.jsx:38 | the second sorted entry differs from the first and comes before every remaining entry |
| Ranking.LastIsGreatest | game-board/src/pages/Leaderboard.jsx:39 | every entry comes before the last sorted entry: greatest key, latest index |
| Ranking.Negated | game-board/src/pages/Leaderboard.jsx:80 | the descending comparator sorts by the negated scores |
| Ranking.MaxOf | game-board/src/pages/Leaderboard.jsx:59 | `Math.max` bounds every value and is one of them |
| Ranking.FilterAt | game-board/src/pages/Leaderboard.jsx:60-62 | a name is kept iff it belongs to an entry whose value equals the target |
| Ranking.MostBy | game-board/src/pages/Leaderboard.jsx:112-114 | sort descending, then keep the entries tied with the first: exactly the names at the maximum, and non-empty when there are entries |
| Ranking.TiesAtMax | game-board/src/pages/Leaderboard.jsx:59-62 | keep the entries equal to `Math.max`: exactly the names at the maximum, and non-empty when there are entries |
| Ranking.Dedup | game-board/src/pages/Leaderboard.jsx:26-29 | the keys of the reduced object: each name once, with the same set of names |
| SevenCardsStats.Bump | game-board/src/pages/Leaderboard.jsx:37 | `++` raises that one counter by one and leaves the other four |
| SevenCardsStats.Initial | game-board/src/pages/Leaderboard.jsx:26-29 | the keys are exactly the first table's players, and every tally is all zero |
| SevenCardsStats.Credit | game-board/src/pages/Leaderboard.jsx:37-39 | one counter of one player goes up by one; no key is added and nothing else changes |
| SevenCardsStats.Placed | game-board/src/pages/Leaderboard.jsx:33-39 | a table credits a first and a last place always, and a second place iff it has two totals or more, each to a player of the list |
| SevenCardsStats.CreditRanks | game-board/src/pages/Leaderboard.jsx:37-39 | each counter grows by one for the player the table places there, and by nothing otherwise |
| SevenCardsStats.Hit | game-board/src/pages/Leaderboard.jsx:43-47 | which counter a cell feeds (`score >= 0`, then `=== 0` or `=== 65 \|\| === 130`); CellKinds states that the kinds are disjoint and that empty, junk and negative cells feed none |
| SevenCardsStats.CreditCell | game-board/src/pages/Leaderboard.jsx:43-47 | a cell adds one to its column's player's zeros iff it parses to 0, and to their 65/130 count iff it parses to 65 or 130 |
| SevenCardsStats.CreditRow | game-board/src/pages/Leaderboard.jsx:42-48 | each counter grows by the number of the row's cells that count for it in that player's columns |
| SevenCardsStats.CreditRows | game-board/src/pages/Leaderboard.jsx:41-49 | each counter grows by the number of the grid's cells that count for it |
| SevenCardsStats.CreditTable | game-board/src/pages/Leaderboard.jsx:31-50 | one table adds its rank credit and its cell hits to each counter |
| SevenCardsStats.CreditTables | game-board/src/pages/Leaderboard.jsx:31-50 | each counter grows by its count over all the tables |
| SevenCardsStats.CreditedIsCount | game-board/src/pages/Leaderboard.jsx:26-50 | crediting from all-zero tallies gives exactly the closed-form counts |
| SevenCardsStats.TotalScore | game-board/src/pages/Leaderboard.jsx:55 | the summed totals are a number iff every table has a total at that index; otherwise NaN |
| SevenCardsStats.Consistency | game-board/src/pages/Leaderboard.jsx:53-58 | one score per player, NaN exactly when some table has no total for that player |
| SevenCardsStats.MostConsistent | game-board/src/pages/Leaderboard.jsx:59-63 | any NaN score leaves the list empty; otherwise it holds exactly the players at the maximum, and at least one |
| SevenCardsStats.TallyCell | game-board/src/pages/Leaderboard.jsx:43-47 | the body for one cell equals CreditCell |
| SevenCardsStats.TallyRow | game-board/src/pages/Leaderboard.jsx:42-48 | the cell loop's result equals CreditRow |
| SevenCardsStats.TallyRanks | game-board/src/pages/Leaderboard.jsx:33-39 | the three increments equal CreditRanks |
| SevenCardsStats.TallyTable | game-board/src/pages/Leaderboard.jsx:32-49 | the per-table body equals CreditTable |
| SevenCardsStats.TallyTables | game-board/src/pages/Leaderboard.jsx:31-50 | the table loop, started from all-zero tallies, ends at the closed-form counts |
| SevenCardsStats.Aggregate | game-board/src/pages/Leaderboard.jsx:24-66 | no summary iff there are no tables; otherwise the distinct keys, the counts, and the most consistent players |
| SevenCardsStatsFacts.FirstPlaceIsLowest | game-board/src/pages/Leaderboard.jsx:33-37 | first place goes to a player whose total is the lowest, and the earliest such player on ties |
| SevenCardsStatsFacts.LastPlaceIsHighest | game-board/src/pages/Leaderboard.jsx:33-39 | last place goes to a player whose total is the highest, and the latest such player on ties |
| SevenCardsStatsFacts.SecondPlaceIsRunnerUp | game-board/src/pages/Leaderboard.jsx:33-38 | with one total there is no second place; otherwise second place goes to another entry that comes before all the remaining ones |
| SevenCardsStatsFacts.SingleTotalWinsAndLoses | game-board/src/pages/Leaderboard.jsx:37-39 | a one-total table credits the same player with first place and with the defeat |
| SevenCardsStatsFacts.ExampleRanking | game-board/src/pages/Leaderboard.jsx:33-39 | the totals {A: 10, B: 5, C: 20} place B first, A second and C last |
| SevenCardsStatsFacts.SumTableOfRank | game-board/src/pages/Leaderboard.jsx:37-39 | over distinct keys, one table adds exactly one to a rank counter when its credited player is a key |
| SevenCardsStatsFacts.RankSums | game-board/src/pages/Leaderboard.jsx:31-39 | over the distinct players, a rank counter sums to the number of tables that credit it |
| SevenCardsStatsFacts.EveryTableCredited | game-board/src/pages/Leaderboard.jsx:31-39 | over the distinct players, firstWins and defeats each sum to the number of tables, and secondWins to the number of tables with two totals or more |
| SevenCardsStatsFacts.MostConsistentEmptyIffNaN | game-board/src/pages/Leaderboard.jsx:55-63 | the most-consistent list is empty iff some table has fewer totals than there are players |
| SevenCardsCells.CellKinds | game-board/src/pages/Leaderboard.jsx:43-47 | no cell is both a zero and a 65/130; empty, junk and negative cells count for nothing |
| SevenCardsCells.BlankPrefixedZero | game-board/src/pages/Leaderboard.jsx:43-45 | " 0" counts as a zero |
| SevenCardsCells.TrailingJunkZero | game-board/src/pages/Leaderboard.jsx:43-45 | "0abc" counts as a zero |
| SevenCardsCells.HexSixtyFive | game-board/src/pages/Leaderboard.jsx:43-46 | "0x41" counts as a 65 |
| JudgementStats.Initial | game-board/src/pages/Leaderboard.jsx:71-74 | the keys are exactly the first table's players, and every tally is zero |
| JudgementStats.Credit | game-board/src/pages/Leaderboard.jsx:82-83 | one counter of one player goes up by one and nothing else changes |
| JudgementStats.Placed | game-board/src/pages/Leaderboard.jsx:78-83 | a table credits a first place always, and a second place iff it has two totals or more, each to a player of the list |
| JudgementStats.CreditTable | game-board/src/pages/Leaderboard.jsx:77-83 | each counter grows by one for the player the table places there |
| JudgementStats.CreditTables | game-board/src/pages/Leaderboard.jsx:76-84 | each counter grows by its count over all the tables |
| JudgementStats.CreditedIsCount | game-board/src/pages/Leaderboard.jsx:71-84 | crediting from zero tallies gives exactly the counts |
| JudgementStats.NotRoundCount | game-board/src/pages/Leaderboard.jsx:90-92 | the weighted bonus is at most one per table |
| JudgementStats.Score | game-board/src/pages/Leaderboard.jsx:89-93 | the score lies between the positive sum and the positive sum plus the number of tables; PipelineScore shows it is the source's formula |
| JudgementStats.PipelineScore | game-board/src/pages/Leaderboard.jsx:88-93 | the source's pipeline (the player's column of totals, the sum of its positive entries, plus one for each positive entry not divisible by 10) equals Score |
| JudgementStats.ScoreIsPipeline | game-board/src/pages/Leaderboard.jsx:88-93 | the fold over the tables gives the same positive sum and the same not-round count as the filter-and-reduce pipeline |
| JudgementStats.Consistency | game-board/src/pages/Leaderboard.jsx:87-94 | one score per player, computed by the source's pipeline and equal to that player's Score |
| JudgementStats.MostConsistent | game-board/src/pages/Leaderboard.jsx:95-99 | exactly the players at the maximum score, and non-empty for a non-empty list |
| JudgementStats.TallyTables | game-board/src/pages/Leaderboard.jsx:76-84 | the table loop, started from zero tallies, ends at the counts |
| JudgementStats.Aggregate | game-board/src/pages/Leaderboard.jsx:69-102 | no summary iff there are no tables; otherwise the distinct keys, the counts, and the most consistent players |
| JudgementStatsFacts.FirstPlaceIsHighest | game-board/src/pages/Leaderboard.jsx:78-82 | first place goes to a player whose total is the highest, and the earliest such player on ties |
| JudgementStatsFacts.SecondPlaceIsRunnerUp | game-board/src/pages/Leaderboard.jsx:78-83 | with one total there is no second place; otherwise second place goes to another entry ranked above all the remaining ones |
| JudgementStatsFacts.ExampleRanking | game-board/src/pages/Leaderboard.jsx:78-83 | the totals {A: 10, B: 5, C: 20} place C first and A second |
| JudgementStatsFacts.PlacesAtMostTables | game-board/src/pages/Leaderboard.jsx:76-84 | with distinct names, a player's first and second places add up to at most the number of tables |
| JudgementStatsFacts.DuplicateNamesPlaceTwice | game-board/src/pages/Leaderboard.jsx:82-83 | with a repeated name, one table can credit that name both first and second |
| JudgementStatsFacts.ScoreZeroIffNoPositive | game-board/src/pages/Leaderboard.jsx:87-93 | a score is 0 iff no table gives that player a positive total |
| JudgementStatsFacts.ExampleScore | game-board/src/pages/Leaderboard.jsx:87-93 | totals 25, 40 and −10 score 65 + 1 = 66 |
| Leaderboard.SevenMost | game-board/src/pages/Leaderboard.jsx:112-130 | a "most" card names exactly the keys whose counter equals its count; that count is the highest, and the card is never empty |
| Leaderboard.JudgementMost | game-board/src/pages/Leaderboard.jsx:179-185 | the same for the two Judgement counters |
| Leaderboard.JudLast | game-board/src/pages/Leaderboard.jsx:238-239 | `judLast`, the Judgement tables less first and second places; JudLastNonNegative bounds it |
| Leaderboard.CombinedRows | game-board/src/pages/Leaderboard.jsx:234-251 | one row per Seven Cards key, in key order; an absent Judgement tally shows as zero; first + second + last equals the Judgement table count |
| Leaderboard.JudLastNonNegative | game-board/src/pages/Leaderboard.jsx:236-239 | with distinct Judgement names, judLast lies between 0 and the number of Judgement tables |
| Leaderboard.LeaderboardPage.constructor | game-board/src/pages/Leaderboard.jsx:8-9 | both summaries start as null |
| Leaderboard.LeaderboardPage.FetchStats | game-board/src/pages/Leaderboard.jsx:12-103 | an empty result leaves its summary unchanged; otherwise the summary becomes that game's aggregate |
| Leaderboard.LeaderboardPage.CombinedTable | game-board/src/pages/Leaderboard.jsx:212-215 | no table while either summary is missing; otherwise one row per Seven Cards key |

## Left out

- All store traffic is outside the model: select, insert, update, delete, their ordering (`order("created_at")`), latency and errors. A page method returns the call it would make. The store's reply is a parameter: the inserted id, or the rows a query returns.
- `async`/`await`, `alert`, `confirm` and navigation are left out. They are I/O and control flow outside the logic.
- A failed query is not modelled. It returns no data, which leaves the leaderboard state as an empty result does.
- JSX layout, Tailwind classes and animations are left out, and so are the home page, the navigation components, the route table and the build configuration. They are presentation only.
- JudgementView.jsx is not part of this model. Its totals and width rules repeat those of Judgement.jsx, which are modelled.
- `Number(id)` key coercion (SevenCardsView.jsx:20) and `toLocaleDateString` are left out. They depend on floating-point and locale behaviour.
- Numbers are unbounded integers. JavaScript's doubles, the precision loss of `parseInt` beyond 2^53, and `-0` are not modelled. `-0` behaves like 0 under `|| 0`, `>= 0` and `===`.
- `.join(", ")` is not modelled. Each tie list is kept as the list of names it would join.
- Object key order is taken as first-insertion order, which is `Ranking.Dedup`. JavaScript enumerates integer-like keys such as "7" first, in numeric order. That reordering is not modelled; it changes no tie set.
- A thrown exception is not modelled; preconditions exclude it instead. `Rankable`, `RowFits` and `TableFits` require exactly what keeps `playerStats[players[idx]]` defined:
  - a table needs at least one total;
  - the first, second and (for Seven Cards) last sorted entries must fall inside the first table's player list;
  - a cell past the end of that list must not count.
- `Math.max()` over an empty player list is not reachable. `Rankable` implies a non-empty player list.
- A stored row's fields are assumed to be arrays of the right element type on the leaderboard. The view page alone models non-array fields, with `Field`.
- After a save, both entry pages re-query their list of previous tables. The Seven Cards page does so after every save that passes the name check, even one whose update or insert failed: the `alert` at SevenCards.jsx:63 and 78 does not return. The Judgement page does so only when its insert succeeded (Judgement.jsx:89-98). That refresh is not modelled as part of `SaveTable`; `SetPreviousTables` models receiving any such list.
- `SevenCardsPage.EditSequence` and `JudgementPage.EditSequence` are client scenarios. Their claims are checked assertions inside the body, not contracts.
- Stored totals are those of the grid before the edit, as in the source. The model never claims they match the stored scores.
- Leaderboard.CombinedRows / Leaderboard.LeaderboardPage.CombinedTable: describe the table the page evidently intends, not what it does. `renderCombinedTable` refers to `judData` (Leaderboard.jsx:239), which is local to `fetchStats`. So once both summaries are set and there is at least one Seven Cards key, evaluating `judData` throws a ReferenceError and the source never renders the combined table. The model takes the number of Judgement tables as an explicit parameter instead, in `Leaderboard.JudLast` and `Leaderboard.CombinedRows`.
- Leaderboard.JudLastNonNegative: requires distinct Judgement player names. `JudgementStatsFacts.DuplicateNamesPlaceTwice` shows that a repeated name can be credited twice by one table, which would make `judLast` negative.
- SevenCardsStats.Consistency: states when the score is NaN. The value itself (4·zeros + 2·65/130 − summed totals) is given by its definition.
- The Seven Cards score inputs are disabled while the table name is blank (SevenCards.jsx:206). `SevenCardsBoard.HandleChange` therefore makes no change when the name is blank.
