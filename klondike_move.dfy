// Klondike move records (klondike/model/Move.java).

module KlondikeMoves {
  import opened Cards

  /** Move.Type: exactly these two kinds of record. */
  datatype MoveType = MoveCards | FlipCard

  /** The value of a Move object: all its fields at one moment. */
  datatype Record = Record(
    kind: MoveType,
    fromIndex: int,
    toIndex: int,
    count: int,
    payload: seq<Card>,
    flippedAfterMove: bool)

  /**
   * One move. The five constructor arguments are fixed; flippedAfterMove
   * starts false and is changed only by its setter.
   */
  class Move {
    const kind: MoveType
    const fromIndex: int
    const toIndex: int
    const count: int
    const payload: seq<Card>

    var flippedAfterMove: bool

    constructor (kind: MoveType, fromIndex: int, toIndex: int, count: int, payload: seq<Card>)
      ensures Value() == Record(kind, fromIndex, toIndex, count, payload, false)
    {
      this.kind := kind;
      this.fromIndex := fromIndex;
      this.toIndex := toIndex;
      this.count := count;
      this.payload := payload;
      flippedAfterMove := false;
    }

    function Value(): Record
      reads this
    {
      Record(kind, fromIndex, toIndex, count, payload, flippedAfterMove)
    }

    method SetFlippedAfterMove(v: bool)
      modifies this`flippedAfterMove
      ensures Value() == old(Value()).(flippedAfterMove := v)
    {
      flippedAfterMove := v;
    }
  }
}
