/** The Judgement entry page: a fixed table of 20 rounds, a player list that can be edited
    until the first score is entered, and a single insert, made by the edit that turns an
    empty grid into a non-empty one. */
module JudgementPage {
  import opened JsBuiltins
  import opened ScoreGrid
  import opened ScoreStore

  const DefaultPlayers: seq<string> := ["Sowmiya", "Srinath", "Vidhya", "Vijay", "Vishwa"]

  /** `shapes`, in the order the round table indexes it. */
  const Shapes: seq<Suit> := [Spades, Diamonds, Clubs, Hearts, Numbers]

  /** `rounds`: 20 deals. The card counts run from 10 down to 1 twice; the first ten rounds
      cycle through the five shapes in order, and the second ten repeat the first ten's
      shapes backwards. */
  function Rounds(): (r: seq<RoundInfo>)
    ensures |r| == 20
    ensures forall i :: 0 <= i < 20 ==> r[i].Deal? && r[i].cards == 10 - i % 10
    ensures forall i :: 0 <= i < 10 ==> r[i].suit == Shapes[i % 5] && r[19 - i].suit == r[i].suit
  {
    [ Deal(Spades, 10), Deal(Diamonds, 9), Deal(Clubs, 8), Deal(Hearts, 7), Deal(Numbers, 6),
      Deal(Spades, 5), Deal(Diamonds, 4), Deal(Clubs, 3), Deal(Hearts, 2), Deal(Numbers, 1),
      Deal(Numbers, 10), Deal(Hearts, 9), Deal(Clubs, 8), Deal(Diamonds, 7), Deal(Spades, 6),
      Deal(Numbers, 5), Deal(Hearts, 4), Deal(Clubs, 3), Deal(Diamonds, 2), Deal(Spades, 1) ]
  }

  /** `Math.max(...players.map(p => p.length))` for a non-empty list; `length` counts UTF-16
      code units. */
  function MaxNameLength(players: seq<string>): (m: nat)
    requires players != []
    ensures forall k :: 0 <= k < |players| ==> Utf16Length(players[k]) <= m
    ensures exists k :: 0 <= k < |players| && Utf16Length(players[k]) == m
  {
    if |players| == 1 then Utf16Length(players[0])
    else
      var rest := MaxNameLength(players[1..]);
      assert forall k :: 1 <= k < |players| ==> players[k] == players[1..][k - 1];
      if Utf16Length(players[0]) >= rest then Utf16Length(players[0]) else rest
  }

  /** `inputWidth = Math.max(maxNameLength * 12, 60)`: 12 pixels per code unit of the
      longest name, and never under 60. With no players `Math.max()` is -Infinity and
      the width is 60. */
  function InputWidth(players: seq<string>): (w: nat)
    ensures w >= 60
    ensures forall k :: 0 <= k < |players| ==> w >= 12 * Utf16Length(players[k])
    ensures w == 60 || exists k :: 0 <= k < |players| && w == 12 * Utf16Length(players[k])
  {
    if players == [] then 60
    else
      var m := MaxNameLength(players);
      if m * 12 >= 60 then m * 12 else 60
  }

  /** A lone name made of characters above U+FFFF, each a surrogate pair, is 24 pixels per
      character wide: six emoji give 144. */
  lemma AstralNameWidth(name: string)
    requires forall i :: 0 <= i < |name| ==> name[i] as int >= 0x1_0000
    ensures InputWidth([name]) == if 24 * |name| >= 60 then 24 * |name| else 60
  {
    assert Utf16Length(name) == 2 * |name|;
  }

  class JudgementBoard {
    var tableName: string
    var players: seq<string>
    var scores: Grid
    var currentPage: int
    var previousTables: seq<ListedTable>
    var newPlayerName: string

    /** At least one player, 20 rows of one cell per player, a page number of at least 1. */
    ghost predicate Valid()
      reads this
    {
      && |players| >= 1
      && |scores| == |Rounds()|
      && Aligned(scores, |players|)
      && currentPage >= 1
    }

    /** The initial state: five default players, an empty 20 by 5 grid, page 1. */
    constructor ()
      ensures Valid()
      ensures tableName == "" && newPlayerName == "" && previousTables == []
      ensures players == DefaultPlayers && scores == Blank(|Rounds()|, |DefaultPlayers|)
      ensures currentPage == 1
    {
      tableName := "";
      players := DefaultPlayers;
      scores := Blank(|Rounds()|, |DefaultPlayers|);
      currentPage := 1;
      previousTables := [];
      newPlayerName := "";
    }

    /** Typing into the table-name input, which is disabled once the grid is locked. */
    method SetTableName(v: string)
      requires Valid()
      modifies this`tableName
      ensures Valid()
      ensures tableName == if old(Locked(scores)) then old(tableName) else v
    {
      if !Locked(scores) {
        tableName := v;
      }
    }

    /** Typing into the new-player input, which is only shown while the grid is unlocked. */
    method SetNewPlayerName(v: string)
      requires Valid()
      modifies this`newPlayerName
      ensures Valid()
      ensures newPlayerName == if old(Locked(scores)) then old(newPlayerName) else v
    {
      if !Locked(scores) {
        newPlayerName := v;
      }
    }

    /** The list of previous tables arrives from the store (on mount and after a save). */
    method SetPreviousTables(data: seq<ListedTable>)
      requires Valid()
      modifies this`previousTables
      ensures Valid() && previousTables == data
    {
      previousTables := data;
    }

    /** `saveTable(updatedScores)`: nothing when the table name is blank, else an insert of
        a new row whose totals are those of the grid as it was when the handler ran. */
    method SaveTable(updatedScores: Grid) returns (call: StoreCall)
      requires Valid()
      ensures Trim(tableName) == "" ==> call == NoCall
      ensures Trim(tableName) != "" ==>
                call == Insert(TableRow(tableName, Judgement, players, updatedScores,
                                        ColumnTotals(scores, |players|), Rounds()))
    {
      if Trim(tableName) == "" {
        return NoCall;
      }
      call := Insert(TableRow(tableName, Judgement, players, updatedScores,
                              ColumnTotals(scores, |players|), Rounds()));
    }

    /** `handleChange(row, col, value)`: the cell is replaced, and the table is saved only
        when the grid was empty before this edit and the value is non-blank. Since the
        totals are taken from the grid before the edit, a saved row's totals are all 0. */
    method HandleChange(row: int, col: int, value: string) returns (call: StoreCall)
      requires Valid()
      modifies this`scores
      ensures Valid()
      ensures scores == SetCell(old(scores), row, col, value)
      ensures call != NoCall <==> !old(Locked(scores)) && Trim(value) != "" && Trim(tableName) != ""
      ensures call.Insert? ==>
                call.row.scores == scores && call.row.name == tableName && call.row.players == players
                && |call.row.totals| == |players|
                && forall k :: 0 <= k < |players| ==> call.row.totals[k] == 0
      ensures call.Insert? && 0 <= row < |scores| && 0 <= col < |players| ==> Locked(scores)
      ensures call.Update? ==> false
    {
      var newScores := SetCell(scores, row, col, value);
      call := NoCall;
      if !Locked(scores) && Trim(value) != "" {
        call := SaveTable(newScores);
        forall k | 0 <= k < |players| ensures ColumnTotal(scores, k) == 0 {
          UnlockedTotalsZero(scores, k);
        }
        if 0 <= row < |scores| && 0 <= col < |players| {
          SetCellLocks(scores, row, col, value);
        }
      }
      scores := newScores;
    }

    /** The "x" button of player `idx`: acts only while the grid is unlocked and more than one
        player remains, and then drops that player and their column. */
    method RemovePlayer(idx: int)
      requires Valid()
      modifies this`players, this`scores
      ensures Valid()
      ensures if !old(Locked(scores)) && |old(players)| > 1
              then players == RemoveAt(old(players), idx) && scores == RemoveColumn(old(scores), idx)
              else players == old(players) && scores == old(scores)
    {
      if !Locked(scores) && |players| > 1 {
        players := RemoveAt(players, idx);
        scores := RemoveColumn(scores, idx);
      }
    }

    /** The "Add Player" button (only shown while the grid is unlocked): a non-blank trimmed
        name is appended, every row gains an empty cell, and the input is cleared. */
    method AddPlayer()
      requires Valid()
      modifies this`players, this`scores, this`newPlayerName
      ensures Valid()
      ensures if !old(Locked(scores)) && Trim(old(newPlayerName)) != ""
              then players == old(players) + [Trim(old(newPlayerName))] && scores == AddColumn(old(scores))
                   && newPlayerName == ""
              else players == old(players) && scores == old(scores) && newPlayerName == old(newPlayerName)
    {
      if !Locked(scores) && Trim(newPlayerName) != "" {
        players := players + [Trim(newPlayerName)];
        scores := AddColumn(scores);
        newPlayerName := "";
      }
    }

    /** `totalPages`. */
    function PageCount(): nat
      reads this
    {
      TotalPages(|previousTables|)
    }

    /** `paginatedTables`: at most five entries. */
    function PaginatedTables(): (r: seq<ListedTable>)
      reads this
      ensures |r| <= ItemsPerPage
    {
      Page(previousTables, currentPage)
    }

    /** The "Previous" button, shown when there is more than one page and disabled on page 1. */
    method PreviousPage()
      requires Valid()
      modifies this`currentPage
      ensures Valid()
      ensures currentPage == if PageCount() > 1 && old(currentPage) != 1
                             then (if old(currentPage) - 1 > 1 then old(currentPage) - 1 else 1)
                             else old(currentPage)
      ensures 1 <= currentPage <= old(currentPage)
    {
      if PageCount() > 1 && currentPage != 1 {
        currentPage := if currentPage - 1 > 1 then currentPage - 1 else 1;
      }
    }

    /** The "Next" button, shown when there is more than one page and disabled on the last. */
    method NextPage()
      requires Valid()
      modifies this`currentPage
      ensures Valid()
      ensures currentPage == if PageCount() > 1 && old(currentPage) != PageCount()
                             then (if old(currentPage) + 1 < PageCount() then old(currentPage) + 1 else PageCount())
                             else old(currentPage)
      ensures old(currentPage) <= PageCount() ==> old(currentPage) <= currentPage <= PageCount()
    {
      var total := PageCount();
      if total > 1 && currentPage != total {
        currentPage := if currentPage + 1 < total then currentPage + 1 else total;
      }
    }
  }

  /** A client of the page: on an empty grid with a table name, the first non-blank edit
      inserts, and the next edit, on the now locked grid, saves nothing. */
  method EditSequence(board: JudgementBoard)
    requires board.Valid() && Trim(board.tableName) != "" && !Locked(board.scores)
    modifies board
    ensures board.Valid()
  {
    assert !IsTrimmable("5"[0]) && !IsTrimmable("40"[0]);
    var first := board.HandleChange(0, 0, "5");
    assert first.Insert? && Locked(board.scores);
    var second := board.HandleChange(1, 0, "40");
    assert second == NoCall;
  }
}
