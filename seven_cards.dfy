/** The Seven Cards entry page: a fixed list of 15 games, a player list that can be edited
    until the first score is entered, and a save on every non-blank edit (an insert the first
    time, an update of the inserted row afterwards). */
module SevenCardsPage {
  import opened JsBuiltins
  import opened ScoreGrid
  import opened ScoreStore

  const DefaultPlayers: seq<string> := ["Sowmiya", "Srinath", "Vidhya", "Vijay", "Vishwa"]
  const GameCount: nat := 15

  /** The label of game n, `Game ${n}`. */
  function GameLabelText(n: nat): string {
    "Game " + NatText(n)
  }

  lemma GameLabelNumber(n: nat)
    ensures var s := GameLabelText(n); |s| > 5 && s[..5] == "Game " && ParseInt(s[5..]) == Some(n)
  {
    var s := GameLabelText(n);
    NatTextShape(n);
    assert s[5..] == IntText(n);
    ParseIntText(n);
  }

  /** `defaultRounds`: the labels "Game 1" to "Game 15"; the number after "Game " reads back
      as the game's position counted from 1. */
  function DefaultRounds(): (r: seq<string>)
    ensures |r| == GameCount
    ensures forall i :: 0 <= i < GameCount ==> |r[i]| > 5 && r[i][..5] == "Game " && ParseInt(r[i][5..]) == Some(i + 1)
  {
    var r := seq(GameCount, i requires 0 <= i < GameCount => GameLabelText(i + 1));
    forall i | 0 <= i < GameCount
      ensures |r[i]| > 5 && r[i][..5] == "Game " && ParseInt(r[i][5..]) == Some(i + 1)
    {
      GameLabelNumber(i + 1);
    }
    r
  }

  /** JavaScript truthiness of the recorded table id: `null` and 0 are false. */
  predicate HasTableId(id: Option<int>) {
    id.Some? && id.value != 0
  }

  class SevenCardsBoard {
    var tableName: string
    var players: seq<string>
    var scores: Grid
    var tableId: Option<int>
    var currentPage: int
    var previousTables: seq<ListedTable>
    var newPlayerName: string

    /** The page's invariant: at least one player, 15 rows of one cell per player, a page
        number of at least 1, and a locked grid always has a non-blank table name (the score
        inputs are disabled while the name is blank, the name input while the grid is locked). */
    ghost predicate Valid()
      reads this
    {
      && |players| >= 1
      && |scores| == GameCount
      && Aligned(scores, |players|)
      && currentPage >= 1
      && (Locked(scores) ==> Trim(tableName) != "")
    }

    /** The initial state: five default players, an empty 15 by 5 grid, no table id, page 1. */
    constructor ()
      ensures Valid()
      ensures tableName == "" && newPlayerName == "" && previousTables == []
      ensures players == DefaultPlayers && scores == Blank(GameCount, |DefaultPlayers|)
      ensures tableId == None && currentPage == 1
    {
      tableName := "";
      players := DefaultPlayers;
      scores := Blank(GameCount, |DefaultPlayers|);
      tableId := None;
      currentPage := 1;
      previousTables := [];
      newPlayerName := "";
    }

    /** Typing into the table-name input, which is disabled once the grid is locked. */
    method SetTableName(v: string)
      requires Valid()
      modifies this`tableName
      ensures Valid()
      ensures tableName == if old(Locked(scores)) then old(tableName) else v
    {
      if !Locked(scores) {
        tableName := v;
      }
    }

    /** Typing into the new-player input, which is disabled once the grid is locked. */
    method SetNewPlayerName(v: string)
      requires Valid()
      modifies this`newPlayerName
      ensures Valid()
      ensures newPlayerName == if old(Locked(scores)) then old(newPlayerName) else v
    {
      if !Locked(scores) {
        newPlayerName := v;
      }
    }

    /** The list of previous tables arrives from the store (on mount and after each save). */
    method SetPreviousTables(data: seq<ListedTable>)
      requires Valid()
      modifies this`previousTables
      ensures Valid() && previousTables == data
    {
      previousTables := data;
    }

    /** `saveTable(updatedScores)`: nothing when the table name is blank; otherwise an update
        of the recorded row when there is a table id, else an insert whose returned id
        (`inserted`, None when the insert failed or returned no row) is recorded. The totals
        sent are those of the grid as it was when the handler ran, one per player. */
    method SaveTable(updatedScores: Grid, inserted: Option<int>) returns (call: StoreCall)
      requires Valid()
      modifies this`tableId
      ensures Valid()
      ensures Trim(tableName) == "" ==> call == NoCall && tableId == old(tableId)
      ensures Trim(tableName) != "" && HasTableId(old(tableId)) ==>
                call == Update(old(tableId).value, players, updatedScores, ColumnTotals(scores, |players|))
                && tableId == old(tableId)
      ensures Trim(tableName) != "" && !HasTableId(old(tableId)) ==>
                call == Insert(TableRow(tableName, SevenCards, players, updatedScores,
                                        ColumnTotals(scores, |players|), Labels(DefaultRounds())))
                && tableId == (if inserted.Some? then inserted else old(tableId))
      ensures call.Insert? ==>
                call.row.name == tableName && call.row.scores == updatedScores
                && call.row.totals == ColumnTotals(scores, |players|)
    {
      if Trim(tableName) == "" {
        return NoCall;
      }
      var totals := ColumnTotals(scores, |players|);
      if HasTableId(tableId) {
        call := Update(tableId.value, players, updatedScores, totals);
      } else {
        call := Insert(TableRow(tableName, SevenCards, players, updatedScores, totals, Labels(DefaultRounds())));
        if inserted.Some? {
          tableId := inserted;
        }
      }
    }

    /** `handleChange(row, col, value)`, reachable only while the table name is non-blank
        (the score inputs are disabled before). The cell is replaced and, when the value is
        non-blank, the table is saved: the saved grid is the edited one, the saved totals are
        those of the grid before the edit. */
    method HandleChange(row: int, col: int, value: string, inserted: Option<int>) returns (call: StoreCall)
      requires Valid()
      modifies this`scores, this`tableId
      ensures Valid()
      ensures Trim(tableName) == "" ==> scores == old(scores) && call == NoCall && tableId == old(tableId)
      ensures Trim(tableName) != "" ==> scores == SetCell(old(scores), row, col, value)
      ensures call != NoCall <==> Trim(tableName) != "" && Trim(value) != ""
      ensures call.Update? ==>
                HasTableId(old(tableId)) && call.id == old(tableId).value && tableId == old(tableId)
                && call.scores == scores && call.totals == ColumnTotals(old(scores), |players|)
      ensures call.Insert? ==>
                !HasTableId(old(tableId)) && call.row.scores == scores && call.row.name == tableName
                && call.row.totals == ColumnTotals(old(scores), |players|)
                && tableId == (if inserted.Some? then inserted else old(tableId))
      ensures call == NoCall ==> tableId == old(tableId)
    {
      if Trim(tableName) == "" {
        return NoCall;
      }
      var before := scores;
      var newScores := SetCell(before, row, col, value);
      call := NoCall;
      if Trim(value) != "" {
        call := SaveTable(newScores, inserted);
      }
      scores := newScores;
    }

    /** The "x" button of player `idx`: acts only while the grid is unlocked and more than one
        player remains, and then drops that player and their column. */
    method RemovePlayer(idx: int)
      requires Valid()
      modifies this`players, this`scores
      ensures Valid()
      ensures if !old(Locked(scores)) && |old(players)| > 1
              then players == RemoveAt(old(players), idx) && scores == RemoveColumn(old(scores), idx)
              else players == old(players) && scores == old(scores)
    {
      if !Locked(scores) && |players| > 1 {
        RemoveColumnKeepsUnlocked(scores, idx);
        players := RemoveAt(players, idx);
        scores := RemoveColumn(scores, idx);
      }
    }

    /** The "Add Player" button (disabled once the grid is locked): a non-blank trimmed name
        is appended, every row gains an empty cell, and the input is cleared. */
    method AddPlayer()
      requires Valid()
      modifies this`players, this`scores, this`newPlayerName
      ensures Valid()
      ensures if !old(Locked(scores)) && Trim(old(newPlayerName)) != ""
              then players == old(players) + [Trim(old(newPlayerName))] && scores == AddColumn(old(scores))
                   && newPlayerName == ""
              else players == old(players) && scores == old(scores) && newPlayerName == old(newPlayerName)
    {
      if !Locked(scores) && Trim(newPlayerName) != "" {
        var grown := AddColumn(scores);
        AddColumnKeepsUnlocked(scores);
        assert Aligned(grown, |players| + 1) && |grown| == GameCount && !Locked(grown);
        players := players + [Trim(newPlayerName)];
        scores := grown;
        newPlayerName := "";
      }
    }

    /** `totalPages`. */
    function PageCount(): nat
      reads this
    {
      TotalPages(|previousTables|)
    }

    /** `paginatedTables`: at most five entries. */
    function PaginatedTables(): (r: seq<ListedTable>)
      reads this
      ensures |r| <= ItemsPerPage
    {
      Page(previousTables, currentPage)
    }

    /** The "Previous" button, shown when there is more than one page and disabled on page 1. */
    method PreviousPage()
      requires Valid()
      modifies this`currentPage
      ensures Valid()
      ensures currentPage == if PageCount() > 1 && old(currentPage) != 1
                             then (if old(currentPage) - 1 > 1 then old(currentPage) - 1 else 1)
                             else old(currentPage)
      ensures 1 <= currentPage <= old(currentPage)
    {
      if PageCount() > 1 && currentPage != 1 {
        currentPage := if currentPage - 1 > 1 then currentPage - 1 else 1;
      }
    }

    /** The "Next" button, shown when there is more than one page and disabled on the last. */
    method NextPage()
      requires Valid()
      modifies this`currentPage
      ensures Valid()
      ensures currentPage == if PageCount() > 1 && old(currentPage) != PageCount()
                             then (if old(currentPage) + 1 < PageCount() then old(currentPage) + 1 else PageCount())
                             else old(currentPage)
      ensures old(currentPage) <= PageCount() ==> old(currentPage) <= currentPage <= PageCount()
    {
      var total := PageCount();
      if total > 1 && currentPage != total {
        currentPage := if currentPage + 1 < total then currentPage + 1 else total;
      }
    }
  }

  /** The stored form of the 15 game labels. */
  function Labels(labels: seq<string>): seq<RoundInfo> {
    seq(|labels|, i requires 0 <= i < |labels| => GameLabel(labels[i]))
  }

  /** A client of the page: with a table name set and an empty grid, the first non-blank edit
      inserts and records the returned id, and the next one updates that row, sending the
      totals of the grid as the first edit left it. */
  method EditSequence(board: SevenCardsBoard)
    requires board.Valid() && Trim(board.tableName) != "" && board.tableId == None
    requires !Locked(board.scores)
    modifies board
    ensures board.Valid()
  {
    var blank := board.scores;
    assert !IsTrimmable("65"[0]) && !IsTrimmable("0"[0]);
    var first := board.HandleChange(0, 0, "65", Some(7));
    assert first.Insert? && board.tableId == Some(7);
    var afterFirst := board.scores;
    var second := board.HandleChange(1, 0, "0", None);
    assert second.Update? && second.id == 7;
    FirstEditTotal(blank);
    assert second.totals[0] == 65;
  }

  lemma {:induction false} FirstEditTotal(g: Grid)
    requires !Locked(g) && |g| > 0 && |g[0]| > 0
    ensures ColumnTotal(SetCell(g, 0, 0, "65"), 0) == 65
  {
    UnlockedTotalsZero(g, 0);
    SetCellTotal(g, 0, 0, "65", 0);
    assert g[0][0] == "" && OrZero("") == 0;
    ParseSixtyFive();
  }

  lemma ParseSixtyFive()
    ensures OrZero("65") == 65
  {
    assert IntText(65) == "65" by { assert NatText(6) == "6"; }
    ParseIntText(65);
  }
}
