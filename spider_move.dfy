// Spider undo records (spider/model/Move.java).

module SpiderMoves {
  import opened Cards

  /** Move.Type: exactly these three kinds of record. */
  datatype MoveType = MoveRun | DealRow | ExtractRun

  /** The value of a Move object: all its fields at one moment. */
  datatype Record = Record(
    kind: MoveType,
    fromIndex: int,
    toIndex: int,
    count: int,
    payload: seq<Card>,
    flippedAfterMove: bool,
    foundationIndex: int,
    flippedAfterExtract: bool)

  /**
   * One undo record. The five constructor arguments are fixed; the three
   * flags below them are set afterwards through their setters.
   */
  class Move {
    const kind: MoveType
    const fromIndex: int
    const toIndex: int
    const count: int
    const payload: seq<Card>

    var flippedAfterMove: bool
    var foundationIndex: int
    var flippedAfterExtract: bool

    constructor (kind: MoveType, fromIndex: int, toIndex: int, count: int, payload: seq<Card>)
      ensures Value() == Record(kind, fromIndex, toIndex, count, payload, false, -1, false)
    {
      this.kind := kind;
      this.fromIndex := fromIndex;
      this.toIndex := toIndex;
      this.count := count;
      this.payload := payload;
      flippedAfterMove := false;
      foundationIndex := -1;
      flippedAfterExtract := false;
    }

    function Value(): Record
      reads this
    {
      Record(kind, fromIndex, toIndex, count, payload, flippedAfterMove, foundationIndex, flippedAfterExtract)
    }

    method SetFlippedAfterMove(v: bool)
      modifies this`flippedAfterMove
      ensures Value() == old(Value()).(flippedAfterMove := v)
    {
      flippedAfterMove := v;
    }

    method SetFoundationIndex(idx: int)
      modifies this`foundationIndex
      ensures Value() == old(Value()).(foundationIndex := idx)
    {
      foundationIndex := idx;
    }

    method SetFlippedAfterExtract(v: bool)
      modifies this`flippedAfterExtract
      ensures Value() == old(Value()).(flippedAfterExtract := v)
    {
      flippedAfterExtract := v;
    }
  }
}
