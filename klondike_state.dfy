// The value of a Klondike game (klondike/engine/KlondikeGame.java) and
// what each of its operations makes of it. KlondikeEngine proves its
// methods against these functions; KlondikeLayout proves what they
// promise.

module KlondikeState {
  import opened Util
  import opened Cards
  import opened KlondikeMoves

  const TableauCount: nat := 7
  const FoundationCount: nat := 4
  const StartScore: int := 500

  /**
   * The game's fields as values: the cards of each tableau and foundation,
   * the stock, the undo deque (most recent record first), the move count
   * and the score.
   */
  datatype State = State(
    tableaux: seq<seq<Card>>,
    foundations: seq<seq<Card>>,
    stock: seq<Card>,
    log: seq<Record>,
    moveCount: int,
    score: int)

  /** A game object before its first newGame: no piles, nothing in the stock or the log. */
  const Initial: State := State([], [], [], [], 0, StartScore)

  /** Suit.values(), in declaration order. */
  const Suits: seq<Suit> := [Spades, Hearts, Diamonds, Clubs]

  /** buildDeck: suit by suit in that order, ranks 1 to 13, every card face-down. */
  function KlondikeDeck(): seq<Card>
  {
    seq(52, k requires 0 <= k < 52 => Card(Suits[k / 13], k % 13 + 1, false))
  }

  /** How many cards the deal gives the columns before column `col`: 0, 1, 3, 6, ... */
  function ColumnStart(col: nat): (n: nat)
    requires col <= TableauCount
    ensures n <= 28 && (col < TableauCount ==> n + col + 1 <= 28)
  {
    if col == 0 then 0
    else if col == 1 then 1
    else if col == 2 then 3
    else if col == 3 then 6
    else if col == 4 then 10
    else if col == 5 then 15
    else if col == 6 then 21
    else 28
  }

  /** Column `col` of the deal: the deck's next col + 1 cards, only the last one face-up. */
  function DealtColumn(deck: seq<Card>, col: nat): seq<Card>
    requires |deck| == 52 && col < TableauCount
  {
    seq(col + 1, r requires 0 <= r < col + 1 => deck[ColumnStart(col) + r].SetFaceUp(r == col))
  }

  /** The cards of `cards`, each turned face-down. */
  function FaceDown(cards: seq<Card>): seq<Card>
  {
    seq(|cards|, k requires 0 <= k < |cards| => cards[k].SetFaceUp(false))
  }

  /**
   * newGame from the shuffled deck `deck`: whatever was there before, seven
   * dealt columns, four empty foundations, the deck's last 24 cards on the
   * stock face-down, an empty log, no moves and a score of 500.
   */
  function Dealt(deck: seq<Card>): State
    requires |deck| == 52
  {
    State(
      seq(TableauCount, col requires 0 <= col < TableauCount => DealtColumn(deck, col)),
      seq(FoundationCount, _ => []),
      FaceDown(deck[28..]),
      [],
      0,
      StartScore)
  }

  /** isWin: no foundation holds fewer than 13 cards. */
  predicate IsWin(foundations: seq<seq<Card>>)
  {
    forall i :: 0 <= i < |foundations| ==> |foundations[i]| >= 13
  }

  /** registerMove: the record goes on top of the deque and one more move is counted. */
  function Registered(s: State, m: Record): State
  {
    s.(log := [m] + s.log, moveCount := s.moveCount + 1)
  }

  /** The cards on the table, without their flags. */
  function CardBag(s: State): multiset<(Suit, Rank)>
  {
    FlatBag(s.tableaux, Key) + FlatBag(s.foundations, Key) + Bag(s.stock, Key)
  }

  predicate AllFaceDown(cards: seq<Card>)
  {
    forall k :: 0 <= k < |cards| ==> !cards[k].faceUp
  }
}
