/** The read-only view of one stored Seven Cards table: fallbacks for fields that did not
    come back as arrays, the totals row (stored or recomputed), and the text and colour of
    each displayed cell. */
module SevenCardsView {
  import opened JsBuiltins
  import opened ScoreGrid

  /** A field of a stored row as it comes back from the store: an array, or anything else
      (null, missing, an object). */
  datatype Field<T> = Arr(items: seq<T>) | NotArray

  /** A stored table as the view reads it. */
  datatype StoredTable = StoredTable(
    name: string, rounds: Field<string>, players: Field<string>,
    scores: Field<seq<string>>, totals: Field<int>)

  /** `Array.isArray(x) ? x : []`. */
  function OrEmpty<T>(f: Field<T>): (r: seq<T>)
    ensures f.Arr? ==> r == f.items
    ensures f.NotArray? ==> r == []
  {
    match f
    case Arr(items) => items
    case NotArray => []
  }

  /** The stored totals are shown when they are an array with one entry per player. */
  predicate StoredTotalsUsable(t: StoredTable) {
    t.totals.Arr? && |t.totals.items| == |OrEmpty(t.players)|
  }

  /** `totals`: the stored totals when usable, otherwise one column total per player,
      recomputed from the stored rows. Either way there is one total per player. */
  function ViewTotals(t: StoredTable): (r: seq<int>)
    ensures |r| == |OrEmpty(t.players)|
    ensures StoredTotalsUsable(t) ==> r == t.totals.items
    ensures !StoredTotalsUsable(t) ==> forall col :: 0 <= col < |r| ==> r[col] == ColumnTotal(OrEmpty(t.scores), col)
  {
    if StoredTotalsUsable(t) then t.totals.items
    else ColumnTotals(OrEmpty(t.scores), |OrEmpty(t.players)|)
  }

  /** In the recompute, a column that no row reaches totals 0. */
  lemma {:induction false} MissingCellsCountZero(g: Grid, col: int)
    requires forall i :: 0 <= i < |g| ==> !(0 <= col < |g[i]|)
    ensures ColumnTotal(g, col) == 0
  {
    if g != [] {
      MissingCellsCountZero(g[..|g| - 1], col);
    }
  }

  /** In the recompute, a cell that does not parse counts like an empty one. */
  lemma {:induction false} UnparsableCellsCountZero(g: Grid, row: int, col: int, junk: string)
    requires 0 <= row < |g| && 0 <= col < |g[row]| && ParseInt(junk) == None
    ensures ColumnTotal(SetCell(g, row, col, junk), col) == ColumnTotal(SetCell(g, row, col, ""), col)
  {
    SetCellTotal(g, row, col, junk, col);
    SetCellTotal(g, row, col, "", col);
  }

  /** `scores[rowIdx]?.[colIdx] ?? ""`: a missing row or cell shows as the empty string. */
  function DisplayCell(scores: Grid, row: int, col: int): (s: string)
    ensures 0 <= row < |scores| && 0 <= col < |scores[row]| ==> s == scores[row][col]
    ensures !(0 <= row < |scores| && 0 <= col < |scores[row]|) ==> s == ""
  {
    if 0 <= row < |scores| && 0 <= col < |scores[row]| then scores[row][col] else ""
  }

  /** The displayed grid: one row per stored round, one cell per stored player. */
  function DisplayedGrid(t: StoredTable): (d: Grid)
    ensures |d| == |OrEmpty(t.rounds)| && Aligned(d, |OrEmpty(t.players)|)
    ensures forall r, c :: 0 <= r < |d| && 0 <= c < |d[r]| ==> d[r][c] == DisplayCell(OrEmpty(t.scores), r, c)
  {
    var scores, width := OrEmpty(t.scores), |OrEmpty(t.players)|;
    seq(|OrEmpty(t.rounds)|, r => seq(width, c => DisplayCell(scores, r, c)))
  }

  datatype Colour = Green | Red | NoColour

  /** The view's cell colour: "0" is green, "65" is red, anything else has no colour. */
  function ViewColour(valStr: string): Colour {
    if valStr == "0" then Green else if valStr == "65" then Red else NoColour
  }

  /** The entry page's cell colour (SevenCards.jsx), which also marks "130" red. */
  function EditColour(val: string): Colour {
    if val == "0" then Green else if val == "65" then Red else if val == "130" then Red else NoColour
  }

  /** The two colour rules agree on every cell text except "130". */
  lemma ColoursDifferOnlyAt130(s: string)
    ensures ViewColour(s) != EditColour(s) <==> s == "130"
  {
  }

  /** A green cell is one the leaderboard counts as a zero and a red one a 65; the converse
      fails, since "00" reads as 0 and is not green. */
  lemma ColourAgreesWithParse(s: string)
    ensures ViewColour(s) == Green ==> ParseInt(s) == Some(0)
    ensures ViewColour(s) == Red ==> ParseInt(s) == Some(65)
    ensures ParseInt("00") == Some(0) && ViewColour("00") == NoColour
  {
    ColourTextsParse();
    DoubleZeroParses();
  }

  lemma ColourTextsParse()
    ensures ParseInt("0") == Some(0) && ParseInt("65") == Some(65)
  {
    NoLeadingSpace("0");
    DigitPrefixOfDigits("0");
    ParseUnsignedOfDigits("0");
    assert DigitsValue("0", 10) == 0 by { assert "0"[..0] == ""; }
    NoLeadingSpace("65");
    DigitPrefixOfDigits("65");
    ParseUnsignedOfDigits("65");
    assert DigitsValue("65", 10) == 65 by { assert "65"[..1] == "6" && "6"[..0] == ""; }
  }

  lemma DoubleZeroParses()
    ensures ParseInt("00") == Some(0)
  {
    NoLeadingSpace("00");
    DigitPrefixOfDigits("00");
    ParseUnsignedOfDigits("00");
    assert DigitsValue("00", 10) == 0 by { assert "00"[..1] == "0" && "0"[..0] == ""; }
  }
}
