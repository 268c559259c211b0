/** What the entry pages send to the remote `score_tables` store. The store itself (its
    select, insert, update and delete, and their latency and failures) is outside this model:
    a page method returns the call it makes, and the store's reply comes back as a parameter. */
module ScoreStore {
  import opened ScoreGrid

  datatype Game = SevenCards | Judgement

  /** The suits of the Judgement round table; "Numbers" is the no-trump round. */
  datatype Suit = Spades | Diamonds | Clubs | Hearts | Numbers

  /** A round descriptor as stored: a "Game N" label (Seven Cards) or a suit and a number of
      cards dealt (Judgement). */
  datatype RoundInfo = GameLabel(text: string) | Deal(suit: Suit, cards: nat)

  /** The fields of a new `score_tables` row. */
  datatype TableRow = TableRow(
    name: string, game: Game, players: seq<string>, scores: Grid, totals: seq<int>,
    rounds: seq<RoundInfo>)

  /** The call a save makes: none, an insert of a new row, or an update of the row `id`. */
  datatype StoreCall =
    | NoCall
    | Insert(row: TableRow)
    | Update(id: int, players: seq<string>, scores: Grid, totals: seq<int>)

  /** An entry of the "previous tables" list. */
  datatype ListedTable = ListedTable(id: int, name: string)
}
