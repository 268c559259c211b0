/** The score grid both entry pages edit: one row per round, one string cell per player, as
    the `scores` state of SevenCards.jsx and Judgement.jsx holds it, and the list
    pagination both pages use for previous tables. */
module ScoreGrid {
  import opened JsBuiltins

  type Grid = seq<seq<string>>

  const ItemsPerPage: nat := 5

  /** Every row has exactly one cell per player. */
  predicate Aligned(g: Grid, width: nat) {
    forall i :: 0 <= i < |g| ==> |g[i]| == width
  }

  /** `row.some(cell => cell !== "")`. */
  function RowFilled(row: seq<string>): (b: bool)
    ensures b <==> exists j :: 0 <= j < |row| && row[j] != ""
  {
    if row == [] then false
    else
      assert forall j :: 1 <= j < |row| ==> row[j] == row[1..][j - 1];
      row[0] != "" || RowFilled(row[1..])
  }

  /** `isTableLocked`: some cell of the grid is not the empty string. */
  function Locked(g: Grid): (b: bool)
    ensures b <==> exists i, j :: 0 <= i < |g| && 0 <= j < |g[i]| && g[i][j] != ""
  {
    if g == [] then false
    else
      assert forall i :: 1 <= i < |g| ==> g[i] == g[1..][i - 1];
      RowFilled(g[0]) || Locked(g[1..])
  }

  /** A grid of the given size whose cells are all empty. */
  function Blank(rows: nat, width: nat): (g: Grid)
    ensures |g| == rows && Aligned(g, width) && !Locked(g)
  {
    seq(rows, _ => seq(width, _ => ""))
  }

  /** The `handleChange` update: the cell at (row, col) becomes `v`; indices outside the grid
      change nothing, as with the `map` of the source. */
  function SetCell(g: Grid, row: int, col: int, v: string): (r: Grid)
    ensures |r| == |g| && forall i :: 0 <= i < |g| ==> |r[i]| == |g[i]|
    ensures forall i, j :: 0 <= i < |g| && 0 <= j < |g[i]| ==>
              r[i][j] == if i == row && j == col then v else g[i][j]
  {
    seq(|g|, i requires 0 <= i < |g| =>
      seq(|g[i]|, j requires 0 <= j < |g[i]| => if i == row && j == col then v else g[i][j]))
  }

  /** `parseInt(row[col]) || 0`, where a cell beyond the row is `undefined` and counts 0. */
  function CellValue(row: seq<string>, col: int): int {
    if 0 <= col < |row| then OrZero(row[col]) else 0
  }

  /** `getPlayerTotal(col)`: the `reduce` over the rows, left to right. */
  function ColumnTotal(g: Grid, col: int): int {
    if g == [] then 0 else ColumnTotal(g[..|g| - 1], col) + CellValue(g[|g| - 1], col)
  }

  /** `players.map((_, i) => getPlayerTotal(i))`. */
  function ColumnTotals(g: Grid, width: nat): (t: seq<int>)
    ensures |t| == width && forall i :: 0 <= i < width ==> t[i] == ColumnTotal(g, i)
  {
    seq(width, i => ColumnTotal(g, i))
  }

  /** `s.filter((_, i) => i !== idx)`. */
  function RemoveAt<T>(s: seq<T>, idx: int): (r: seq<T>)
    ensures 0 <= idx < |s| ==> |r| == |s| - 1 && forall k :: 0 <= k < |r| ==> r[k] == s[if k < idx then k else k + 1]
    ensures !(0 <= idx < |s|) ==> r == s
  {
    if 0 <= idx < |s| then s[..idx] + s[idx + 1..] else s
  }

  /** The remove-player update of the grid: column `idx` leaves every row. */
  function RemoveColumn(g: Grid, idx: int): (r: Grid)
    ensures |r| == |g| && forall i :: 0 <= i < |g| ==> r[i] == RemoveAt(g[i], idx)
    ensures forall width: nat :: Aligned(g, width) && 0 <= idx < width ==> Aligned(r, width - 1)
  {
    seq(|g|, i requires 0 <= i < |g| => RemoveAt(g[i], idx))
  }

  /** The add-player update of the grid: every row gains an empty cell at the end. */
  function AddColumn(g: Grid): (r: Grid)
    ensures |r| == |g| && forall i :: 0 <= i < |g| ==> r[i] == g[i] + [""]
    ensures forall width: nat :: Aligned(g, width) ==> Aligned(r, width + 1)
  {
    seq(|g|, i requires 0 <= i < |g| => g[i] + [""])
  }

  // ----- what the grid operations do to the lock and to the totals -----

  /** A non-empty value written inside the grid locks it. */
  lemma SetCellLocks(g: Grid, row: int, col: int, v: string)
    requires 0 <= row < |g| && 0 <= col < |g[row]| && v != ""
    ensures Locked(SetCell(g, row, col, v))
  {
    var r := SetCell(g, row, col, v);
    assert r[row][col] != "";
  }

  /** Writing the empty string into an unlocked grid leaves it unlocked. */
  lemma SetCellEmptyKeepsUnlocked(g: Grid, row: int, col: int)
    requires !Locked(g)
    ensures !Locked(SetCell(g, row, col, ""))
  {
  }

  /** An unlocked grid totals 0 in every column. */
  lemma {:induction false} UnlockedTotalsZero(g: Grid, col: int)
    requires !Locked(g)
    ensures ColumnTotal(g, col) == 0
  {
    if g != [] {
      var last := g[|g| - 1];
      var rest := g[..|g| - 1];
      assert !Locked(rest) by {
        forall i, j | 0 <= i < |rest| && 0 <= j < |rest[i]| ensures rest[i][j] == "" {
          assert rest[i] == g[i];
        }
      }
      UnlockedTotalsZero(rest, col);
      assert 0 <= col < |last| ==> last[col] == "";
      assert ParseInt("") == None;
    }
  }

  /** Editing one cell changes that cell's column total by the difference of the parsed
      values and leaves every other column total as it was. */
  lemma {:induction false} SetCellTotal(g: Grid, row: int, col: int, v: string, c: int)
    requires 0 <= row < |g| && 0 <= col < |g[row]|
    ensures ColumnTotal(SetCell(g, row, col, v), c)
         == if c == col then ColumnTotal(g, c) - OrZero(g[row][col]) + OrZero(v) else ColumnTotal(g, c)
  {
    var r := SetCell(g, row, col, v);
    var n := |g|;
    if row == n - 1 {
      forall i | 0 <= i < n - 1 ensures r[i] == g[i] {
        assert |r[i]| == |g[i]|;
      }
      assert r[..n - 1] == g[..n - 1];
    } else {
      assert r[..n - 1] == SetCell(g[..n - 1], row, col, v);
      SetCellTotal(g[..n - 1], row, col, v, c);
      assert r[n - 1] == g[n - 1];
    }
  }

  /** After removing column `idx`, column `c` holds what column `c` (left of idx) or `c + 1`
      (right of it) held, so each remaining player keeps their total. */
  lemma {:induction false} RemoveColumnTotal(g: Grid, width: nat, idx: int, c: int)
    requires Aligned(g, width) && 0 <= idx < width && 0 <= c < width - 1
    ensures ColumnTotal(RemoveColumn(g, idx), c) == ColumnTotal(g, if c < idx then c else c + 1)
  {
    if g != [] {
      var n := |g|;
      assert RemoveColumn(g, idx)[..n - 1] == RemoveColumn(g[..n - 1], idx);
      RemoveColumnTotal(g[..n - 1], width, idx, c);
    }
  }

  /** After adding a column, the old columns keep their totals and the new one totals 0. */
  lemma {:induction false} AddColumnTotal(g: Grid, width: nat, c: int)
    requires Aligned(g, width) && 0 <= c <= width
    ensures ColumnTotal(AddColumn(g), c) == if c < width then ColumnTotal(g, c) else 0
  {
    if g != [] {
      var n := |g|;
      assert AddColumn(g)[..n - 1] == AddColumn(g[..n - 1]);
      AddColumnTotal(g[..n - 1], width, c);
      assert AddColumn(g)[n - 1] == g[n - 1] + [""];
      assert ParseInt("") == None;
    }
  }

  /** Removing a column of an unlocked grid leaves it unlocked. */
  lemma RemoveColumnKeepsUnlocked(g: Grid, idx: int)
    requires !Locked(g)
    ensures !Locked(RemoveColumn(g, idx))
  {
    var r := RemoveColumn(g, idx);
    forall i, j | 0 <= i < |r| && 0 <= j < |r[i]| ensures r[i][j] == "" {
      assert r[i] == RemoveAt(g[i], idx);
    }
  }

  /** Adding a column to an unlocked grid leaves it unlocked. */
  lemma AddColumnKeepsUnlocked(g: Grid)
    requires !Locked(g)
    ensures !Locked(AddColumn(g))
  {
    var r := AddColumn(g);
    forall i, j | 0 <= i < |r| && 0 <= j < |r[i]| ensures r[i][j] == "" {
      assert r[i] == g[i] + [""];
    }
  }

  // ----- pagination of the previous tables -----

  /** `Math.ceil(n / itemsPerPage)`: the fewest pages of five that hold n items. */
  function TotalPages(n: nat): (p: nat)
    ensures p * ItemsPerPage >= n
    ensures p > 0 ==> (p - 1) * ItemsPerPage < n
  {
    (n + ItemsPerPage - 1) / ItemsPerPage
  }

  /** `items.slice((page - 1) * itemsPerPage, page * itemsPerPage)`. */
  function Page<T>(items: seq<T>, page: int): (r: seq<T>)
    ensures |r| <= ItemsPerPage
    ensures 1 <= page ==> r == items[Min((page - 1) * ItemsPerPage, |items|)..Min(page * ItemsPerPage, |items|)]
    ensures 1 <= page <= TotalPages(|items|) ==> r != []
  {
    Slice(items, (page - 1) * ItemsPerPage, page * ItemsPerPage)
  }

  function Min(a: int, b: int): int {
    if a < b then a else b
  }

  /** Pages 1 to k, one after the other. */
  function PagesUpTo<T>(items: seq<T>, k: nat): seq<T> {
    if k == 0 then [] else PagesUpTo(items, k - 1) + Page(items, k)
  }

  lemma {:induction false} PagesUpToPrefix<T>(items: seq<T>, k: nat)
    ensures PagesUpTo(items, k) == items[..Min(k * ItemsPerPage, |items|)]
  {
    if k > 0 {
      PagesUpToPrefix(items, k - 1);
      var a, b := Min((k - 1) * ItemsPerPage, |items|), Min(k * ItemsPerPage, |items|);
      assert items[..a] + items[a..b] == items[..b];
    }
  }

  /** The pages 1 to totalPages, read in order, are exactly the list of previous tables. */
  lemma PagesCoverAll<T>(items: seq<T>)
    ensures PagesUpTo(items, TotalPages(|items|)) == items
  {
    PagesUpToPrefix(items, TotalPages(|items|));
  }
}
