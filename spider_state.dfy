// The Spider game as a state machine (spider/engine/SpiderGame.java):
// the value of a game's fields, and one function per public operation
// giving the state it leaves behind. The class in spider_game.dfy is
// proved to follow these functions; the lemmas here state what the
// operations promise.

module SpiderState {
  import opened Util
  import opened Core
  import opened Cards
  import opened SpiderPiles
  import opened SpiderMoves
  import opened SpiderRules

  const TableauCount := 10
  const FoundationCount := 8
  const StartScore := 500

  /** The value of every field of a SpiderGame object. */
  datatype State = State(
    tableaux: seq<seq<Card>>,
    foundations: seq<seq<Card>>,
    stock: seq<Card>,
    log: seq<Record>,   // most recent first, as the undo deque
    moveCount: int,
    score: int)

  /** The state of a freshly constructed game, before any newGame. */
  const Initial := State([], [], [], [], 0, StartScore)

  predicate Started(s: State)
  {
    |s.tableaux| == TableauCount && |s.foundations| == FoundationCount
  }

  /** Either a dealt game, or a game that was never dealt (empty lists). */
  predicate WellShaped(s: State)
  {
    Started(s) || (s.tableaux == [] && s.foundations == [] && s.stock == [] && s.log == [])
  }

  /** What a record pushed by the game looks like. */
  predicate RecordOk(r: Record)
  {
    match r.kind
    case MoveRun =>
      && 0 <= r.fromIndex < TableauCount && 0 <= r.toIndex < TableauCount
      && r.fromIndex != r.toIndex && r.count == |r.payload|
    case DealRow => true
    case ExtractRun => 0 <= r.fromIndex < TableauCount && |r.payload| == 13
  }

  /** Each foundation is empty or holds one block of 13; the full ones come first. */
  predicate FoundationsOk(f: seq<seq<Card>>)
  {
    && (forall i :: 0 <= i < |f| ==> |f[i]| == 0 || |f[i]| == 13)
    && (forall i, j :: 0 <= i < j < |f| && f[j] != [] ==> f[i] != [])
  }

  predicate StockFaceDown(stock: seq<Card>)
  {
    forall k :: 0 <= k < |stock| ==> !stock[k].faceUp
  }

  /** The invariant every operation keeps. */
  predicate Inv(s: State)
  {
    && WellShaped(s)
    && FoundationsOk(s.foundations)
    && StockFaceDown(s.stock)
    && (forall k :: 0 <= k < |s.log| ==> RecordOk(s.log[k]))
    && s.moveCount >= 0
  }

  // ---------------------------------------------------------------------
  // Cards in play

  function CardBag(s: State): multiset<(Suit, Rank)>
  {
    FlatBag(s.tableaux, Key) + FlatBag(s.foundations, Key) + Bag(s.stock, Key)
  }

  function CardCount(s: State): nat
  {
    TotalSize(s.tableaux) + TotalSize(s.foundations) + |s.stock|
  }

  // ---------------------------------------------------------------------
  // newGame

  /** The deck of newGame before the shuffle: two decks, rank by rank, four suit slots per rank. */
  function SpiderDeck(oneSuit: bool): seq<Card>
  {
    seq(104, k requires 0 <= k < 104 => Card(SlotSuit(oneSuit, k % 4), (k % 52) / 4 + 1, false))
  }

  /** The suit of a slot; in one-suit mode all four slots are SPADES. */
  function SlotSuit(oneSuit: bool, slot: nat): Suit
    requires slot < 4
  {
    if slot == 0 then (if oneSuit then Spades else Spades)
    else if slot == 1 then (if oneSuit then Spades else Hearts)
    else if slot == 2 then (if oneSuit then Spades else Diamonds)
    else (if oneSuit then Spades else Clubs)
  }

  function ColumnSize(i: nat): nat
  {
    if i < 4 then 6 else 5
  }

  /** How many cards the columns before column `i` take from the deck: 6 for each of the first four, 5 after. */
  function DealtBefore(i: nat): (d: nat)
    ensures d <= 6 * i
  {
    if i <= 4 then 6 * i else 24 + 5 * (i - 4)
  }

  /** top().setFaceUp(true) on a non-empty pile. */
  function TopFaceUp(cards: seq<Card>): seq<Card>
    requires cards != []
  {
    cards[|cards| - 1 := Last(cards).SetFaceUp(true)]
  }

  /** Where in the deck the cards of column `i` come from: from SliceStart(i) up to SliceEnd(i). */
  function SliceStart(i: nat): nat
    requires i < TableauCount
  {
    104 - DealtBefore(i + 1)
  }

  function SliceEnd(i: nat): nat
    requires i < TableauCount
  {
    104 - DealtBefore(i)
  }

  /** `n` cards popped one by one off the end of deck[..e], in the order they come off. */
  function TakenFrom(deck: seq<Card>, e: nat, n: nat): (r: seq<Card>)
    requires n <= e <= |deck|
    ensures |r| == n && forall k :: 0 <= k < n ==> r[k] == deck[e - 1 - k]
  {
    seq(n, k requires 0 <= k < n => deck[e - 1 - k])
  }

  /** Column `i` of a fresh deal: cards taken one by one from the end of the deck, top turned up. */
  function DealtColumn(deck: seq<Card>, i: nat): seq<Card>
    requires i < TableauCount && |deck| == 104
  {
    TopFaceUp(TakenFrom(deck, SliceEnd(i), ColumnSize(i)))
  }

  /** The ten columns of a fresh deal. */
  function DealtColumns(deck: seq<Card>): (t: seq<seq<Card>>)
    requires |deck| == 104
    ensures |t| == TableauCount && forall i :: 0 <= i < TableauCount ==> t[i] == DealtColumn(deck, i)
  {
    seq(TableauCount, i requires 0 <= i < TableauCount => DealtColumn(deck, i))
  }

  /**
   * newGame with the shuffled deck `deck`: fresh columns and foundations, an
   * empty log and reset metrics; the 50 cards left over are pushed onto the
   * stock, which is not cleared first.
   */
  function NewGame(oldStock: seq<Card>, deck: seq<Card>): State
    requires |deck| == 104
  {
    State(
      DealtColumns(deck),
      seq(FoundationCount, i => []),
      oldStock + deck[..50],
      [], 0, StartScore)
  }

  // ---------------------------------------------------------------------
  // moveRun

  /** The record moveRun pushes for moving the top `count` cards of `src`. */
  function MoveRecord(src: seq<Card>, from: int, count: int, to: int): Record
    requires 0 <= count <= |src|
  {
    var start := |src| - count;
    Record(MoveRun, from, to, count, src[start..], start >= 1 && !src[start - 1].faceUp, -1, false)
  }

  /** The columns after the top `count` cards of column `from` moved onto column `to`. */
  function MovedColumns(t: seq<seq<Card>>, from: int, count: int, to: int): seq<seq<Card>>
    requires 0 <= from < |t| && 0 <= to < |t| && 0 <= count <= |t[from]|
  {
    var src := t[from];
    var start := |src| - count;
    t[from := FlippedTop(Tableau, src[..start])][to := t[to] + src[start..]]
  }

  /** The part of moveRun before extraction: move, flip, record, count. */
  function MoveRunCore(s: State, from: int, count: int, to: int): State
    requires Started(s) && 0 <= from < TableauCount && 0 <= to < TableauCount
    requires CanMove(s.tableaux[from], count, s.tableaux[to])
  {
    State(
      MovedColumns(s.tableaux, from, count, to),
      s.foundations,
      s.stock,
      [MoveRecord(s.tableaux[from], from, count, to)] + s.log,
      s.moveCount + 1,
      s.score - 1)
  }

  /** moveRun: the new state and the value returned. */
  function MoveRunOp(s: State, from: int, count: int, to: int): (State, bool)
    requires Started(s) && 0 <= from < TableauCount && 0 <= to < TableauCount
  {
    if !CanMove(s.tableaux[from], count, s.tableaux[to]) then (s, false)
    else (ExtractAll(MoveRunCore(s, from, count, to)), true)
  }

  // ---------------------------------------------------------------------
  // dealRow

  /** The card dealt to column `j`: the stock's j-th card from the top, face-up. */
  function DealtCard(stock: seq<Card>, j: nat): Card
    requires j < |stock|
  {
    stock[|stock| - 1 - j].SetFaceUp(true)
  }

  /** Columns 0..n-1 each receive one dealt card, column 0 first. */
  function DealInto(t: seq<seq<Card>>, stock: seq<Card>, n: nat): (r: seq<seq<Card>>)
    requires n <= |t| && n <= |stock|
    ensures |r| == |t|
  {
    if n == 0 then t
    else DealInto(t, stock, n - 1)[n - 1 := t[n - 1] + [DealtCard(stock, n - 1)]]
  }

  /**
   * dealRow: refused when a column is empty; with fewer than 10 stock cards
   * it deals what there is, records nothing and returns false.
   */
  function DealRowOp(s: State): (State, bool)
    requires WellShaped(s)
  {
    if !CanDeal(s.tableaux) then (s, false)
    else
      var n := Min(TableauCount, |s.stock|);
      var t := DealInto(s.tableaux, s.stock, n);
      var stock := s.stock[..|s.stock| - n];
      if n < TableauCount then (s.(tableaux := t, stock := stock), false)
      else (ExtractAll(DealtState(s)), true)
  }

  /** The state a full deal leaves before its extraction pass: one card per column, a record, -5. */
  function DealtState(s: State): State
    requires Started(s) && |s.stock| >= TableauCount
  {
    var dealt := seq(TableauCount, j requires 0 <= j < TableauCount => DealtCard(s.stock, j));
    State(
      DealInto(s.tableaux, s.stock, TableauCount),
      s.foundations,
      s.stock[..|s.stock| - TableauCount],
      [Record(DealRow, -1, -1, TableauCount, dealt, false, -1, false)] + s.log,
      s.moveCount + 1,
      s.score - 5)
  }

  // ---------------------------------------------------------------------
  // extractCompletedRuns

  predicate StepsUp(low: Card, high: Card)
  {
    low.suit == high.suit && high.rank == low.rank + 1
  }

  /** What extraction looks for: one suit, rising by one from an Ace to a King. */
  predicate IsCompletedBlock(tail: seq<Card>)
    requires |tail| == 13
  {
    && (forall k :: 0 <= k < 12 ==> StepsUp(tail[k], tail[k + 1]))
    && tail[0].rank == 1 && tail[12].rank == 13
  }

  /** The first empty foundation at or after `i`, or -1. */
  function FirstEmptyFrom(f: seq<seq<Card>>, i: nat): (j: int)
    requires i <= |f|
    decreases |f| - i
    ensures j == -1 || i <= j < |f|
    ensures j >= 0 ==> f[j] == [] && forall k :: i <= k < j ==> f[k] != []
    ensures j == -1 ==> forall k :: i <= k < |f| ==> f[k] != []
  {
    if i == |f| then -1 else if f[i] == [] then i else FirstEmptyFrom(f, i + 1)
  }

  /** The last non-empty foundation below `n`, or -1. */
  function LastNonEmptyBelow(f: seq<seq<Card>>, n: nat): (j: int)
    requires n <= |f|
    ensures -1 <= j < n
    ensures j >= 0 ==> f[j] != [] && forall k :: j < k < n ==> f[k] == []
    ensures j == -1 ==> forall k :: 0 <= k < n ==> f[k] == []
  {
    if n == 0 then -1 else if f[n - 1] != [] then n - 1 else LastNonEmptyBelow(f, n - 1)
  }

  /** The pass over column `i` extracts when its last 13 cards form a completed block. */
  predicate Extracts(s: State, i: nat)
    requires i < |s.tableaux|
  {
    var t := s.tableaux[i];
    |t| >= 13 && IsCompletedBlock(t[|t| - 13..])
  }

  /**
   * Column `i`'s last 13 cards go to the first empty foundation (nowhere
   * when there is none), an EXTRACT_RUN record is pushed and the column's
   * new top is turned face-up.
   */
  function Extracted(s: State, i: nat): State
    requires i < |s.tableaux| && |s.tableaux[i]| >= 13
  {
    var t := s.tableaux[i];
    var block := t[|t| - 13..];
    var j := FirstEmptyFrom(s.foundations, 0);
    var f := if j >= 0 then s.foundations[j := s.foundations[j] + block] else s.foundations;
    s.(tableaux := s.tableaux[i := FlippedTop(Tableau, t[..|t| - 13])],
       foundations := f,
       log := [ExtractRecord(i, t)] + s.log)
  }

  /** The record an extraction from column `i`, holding `t`, pushes: the 13 cards it took. */
  function ExtractRecord(i: nat, t: seq<Card>): Record
    requires |t| >= 13
  {
    Record(ExtractRun, i, -1, 13, t[|t| - 13..], false, -1, false)
  }

  /** One pass of the extraction loop, on column `i`. */
  function ExtractAt(s: State, i: nat): State
    requires i < |s.tableaux|
  {
    if Extracts(s, i) then Extracted(s, i) else s
  }

  /** The extraction loop after its first `n` passes. */
  function ExtractUpTo(s: State, n: nat): (r: State)
    requires n <= |s.tableaux|
    ensures |r.tableaux| == |s.tableaux| && |r.foundations| == |s.foundations|
    ensures r.stock == s.stock && r.moveCount == s.moveCount && r.score == s.score
  {
    if n == 0 then s else ExtractAt(ExtractUpTo(s, n - 1), n - 1)
  }

  function ExtractAll(s: State): State
    requires Started(s)
  {
    ExtractUpTo(s, |s.tableaux|)
  }

  // ---------------------------------------------------------------------
  // undo

  /** undo of a move, source side: the run back on top, its top face-up, the revealed card hidden again. */
  function RestoredSource(back: seq<Card>, count: nat, flipped: bool): seq<Card>
  {
    var b1 := if back == [] then back else TopFaceUp(back);
    var idx := |b1| - count - 1;
    if flipped && idx >= 0 then b1[idx := b1[idx].SetFaceUp(false)] else b1
  }

  /** The columns after undoing the move of record `m`. */
  function UndoneColumns(t: seq<seq<Card>>, m: Record): seq<seq<Card>>
    requires 0 <= m.fromIndex < |t| && 0 <= m.toIndex < |t| && m.count >= 0
  {
    var dest := t[m.toIndex];
    var t1 := t[m.toIndex := dest[..Max(0, |dest| - |m.payload|)]];
    t1[m.fromIndex := RestoredSource(t1[m.fromIndex] + m.payload, m.count, m.flippedAfterMove)]
  }

  function UndoMoveRun(s: State, m: Record): State
    requires Started(s) && m.kind == MoveRun && RecordOk(m)
  {
    s.(tableaux := UndoneColumns(s.tableaux, m))
  }

  /** The cards undo of a deal hands back to the stock, face-down: the last column's top first. */
  function Returned(cols: seq<seq<Card>>): seq<Card>
  {
    if cols == [] then []
    else (if Last(cols) != [] then [Last(Last(cols)).SetFaceUp(false)] else []) + Returned(DropLast(cols))
  }

  /** Each of the first ten columns loses its top card. */
  function UndealtColumns(t: seq<seq<Card>>): seq<seq<Card>>
  {
    seq(|t|, j requires 0 <= j < |t| => if j < TableauCount && t[j] != [] then DropLast(t[j]) else t[j])
  }

  function UndoDealRow(s: State): State
    requires Started(s)
  {
    s.(tableaux := UndealtColumns(s.tableaux), stock := s.stock + Returned(s.tableaux))
  }

  function UndoExtract(s: State, m: Record): State
    requires Started(s) && m.kind == ExtractRun && RecordOk(m)
  {
    var f := s.foundations;
    var j := LastNonEmptyBelow(f, |f|);
    var f' := if j >= 0 then f[j := f[j][..Max(0, |f[j]| - 13)]] else f;
    var dest := s.tableaux[m.fromIndex] + m.payload;
    s.(foundations := f', tableaux := s.tableaux[m.fromIndex := TopFaceUp(dest)])
  }

  /** undo: false on an empty log; otherwise inverts the latest record, whatever its kind, with score + 1. */
  function UndoOp(s: State): (State, bool)
    requires Inv(s)
  {
    if s.log == [] then (s, false)
    else
      var m := s.log[0];
      assert RecordOk(m);
      var s1 := s.(log := s.log[1..]);
      var s2 := match m.kind
        case MoveRun => UndoMoveRun(s1, m)
        case DealRow => UndoDealRow(s1)
        case ExtractRun => UndoExtract(s1, m);
      (s2.(moveCount := Max(0, s2.moveCount - 1), score := s2.score + 1), true)
  }
}
