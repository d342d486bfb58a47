// Card conservation in Spider: the cards of a game, counted by suit and
// rank, are the same before and after moveRun, dealRow, the extraction
// pass and undo of a deal; undo of a move or an extraction keeps the count
// only, and the example at the end shows it losing a card after a partial deal.
// Extraction relies on an empty foundation being there, which holds while
// at most 104 cards are in play.

module SpiderConservation {
  import opened Util
  import opened Core
  import opened Cards
  import opened SpiderPiles
  import opened SpiderMoves
  import opened SpiderRules
  import opened SpiderState
  import opened SpiderLaws

  lemma CardBagSize(s: State)
    ensures |CardBag(s)| == CardCount(s)
  {
    FlatBagSize(s.tableaux, Key);
    FlatBagSize(s.foundations, Key);
    BagSize(s.stock, Key);
  }

  lemma FlippedTopBag(kind: PileType, cards: seq<Card>)
    ensures Bag(FlippedTop(kind, cards), Key) == Bag(cards, Key)
  {
    if kind == Tableau && cards != [] && !Last(cards).faceUp {
      var i := |cards| - 1;
      assert FlippedTop(kind, cards) == cards[i := cards[i].SetFaceUp(true)];
      BagUpdateSameKey(cards, i, cards[i].SetFaceUp(true), Key);
    }
  }

  lemma TopFaceUpBag(cards: seq<Card>)
    requires cards != []
    ensures Bag(TopFaceUp(cards), Key) == Bag(cards, Key)
  {
    BagUpdateSameKey(cards, |cards| - 1, Last(cards).SetFaceUp(true), Key);
  }

  /** With at most 104 cards in play, a column holding 13 leaves a foundation empty. */
  lemma EmptyFoundationExists(s: State, i: nat)
    requires Inv(s) && Started(s) && i < TableauCount && CardCount(s) <= 104
    requires |s.tableaux[i]| >= 13
    ensures FirstEmptyFrom(s.foundations, 0) >= 0
  {
    var f := s.foundations;
    FullIffTotal(f);
    TotalSizeAtLeastPart(s.tableaux, i);
    assert TotalSize(f) < 13 * |f|;
  }

  /**
   * With no empty foundation an extraction drops its block: the 13 cards
   * leave the column and go nowhere. This needs more than 104 cards in
   * play, which a reused game object has, its stock never being cleared.
   */
  lemma ExtractionWithoutRoomDropsBlock(s: State, i: nat)
    requires i < |s.tableaux| && |s.tableaux[i]| >= 13
    requires FirstEmptyFrom(s.foundations, 0) == -1
    ensures Extracted(s, i).foundations == s.foundations
    ensures CardCount(Extracted(s, i)) + 13 == CardCount(s)
  {
    var t := s.tableaux[i];
    TotalSizeUpdate(s.tableaux, i, FlippedTop(Tableau, t[..|t| - 13]));
  }

  /** Replacing pile `i` by `x`, where the pile held `x`'s cards and `moved`, takes `moved` out. */
  lemma ColumnsTransfer(t: seq<seq<Card>>, i: nat, x: seq<Card>, moved: multiset<(Suit, Rank)>)
    requires i < |t| && Bag(t[i], Key) == Bag(x, Key) + moved
    ensures FlatBag(t[i := x], Key) + moved == FlatBag(t, Key)
  {
    FlatBagUpdate(t, i, x, Key);
    Transfer(FlatBag(t[i := x], Key), Bag(t[i], Key), FlatBag(t, Key), Bag(x, Key), moved);
  }

  /** Appending `run` to pile `i` adds `run`'s cards. */
  lemma ColumnsAppend(t: seq<seq<Card>>, i: nat, run: seq<Card>)
    requires i < |t|
    ensures FlatBag(t[i := t[i] + run], Key) == FlatBag(t, Key) + Bag(run, Key)
  {
    BagAppend(t[i], run, Key);
    FlatBagUpdate(t, i, t[i] + run, Key);
    Absorb(FlatBag(t[i := t[i] + run], Key), Bag(t[i], Key), FlatBag(t, Key), Bag(run, Key));
  }

  /** The block leaving the columns arrives on the foundations: the sum is unchanged. */
  lemma Rebalance<K>(a: multiset<K>, b: multiset<K>, c: multiset<K>, t: multiset<K>, f: multiset<K>, k: multiset<K>)
    requires a + k == t && b == f + k
    ensures a + b + c == t + f + c
  {
    assert forall e :: (a + b + c)[e] == (a + k)[e] + f[e] + c[e] == (t + f + c)[e];
  }

  lemma Regroup<K>(a: multiset<K>, p: multiset<K>, q: multiset<K>, b: multiset<K>, d: multiset<K>, x: multiset<K>)
    requires a + b == d && p + q == x
    ensures (a + p) + (q + b) == d + x
  {
    assert forall e :: ((a + p) + (q + b))[e] == (a + b)[e] + (p + q)[e];
  }

  lemma AddNothing<K>(a: multiset<K>)
    ensures a + multiset{} == a
  {
    assert forall e :: (a + multiset{})[e] == a[e];
  }

  lemma AddShift<K>(a: multiset<K>, r: multiset<K>, b: multiset<K>)
    ensures (a + r) + b == a + (b + r)
  {
    assert forall e :: ((a + r) + b)[e] == (a + (b + r))[e];
  }

  /** One pass of the extraction loop keeps every card. */
  lemma ExtractAtConserves(s: State, i: nat)
    requires Inv(s) && Started(s) && i < TableauCount && CardCount(s) <= 104
    ensures CardBag(ExtractAt(s, i)) == CardBag(s)
  {
    if Extracts(s, i) {
      EmptyFoundationExists(s, i);
      var t := s.tableaux[i];
      var n := |t| - 13;
      var block := t[n..];
      var f := s.foundations;
      var j := FirstEmptyFrom(f, 0);
      var e := Extracted(s, i);
      var k := Bag(block, Key);
      assert FlatBag(e.tableaux, Key) + k == FlatBag(s.tableaux, Key) by {
        BagSplit(t, n, Key);
        FlippedTopBag(Tableau, t[..n]);
        ColumnsTransfer(s.tableaux, i, FlippedTop(Tableau, t[..n]), k);
      }
      assert FlatBag(e.foundations, Key) == FlatBag(f, Key) + k by {
        ColumnsAppend(f, j, block);
      }
      Rebalance(FlatBag(e.tableaux, Key), FlatBag(e.foundations, Key), Bag(s.stock, Key),
                FlatBag(s.tableaux, Key), FlatBag(f, Key), k);
    }
  }

  lemma {:induction false} ExtractUpToConserves(s: State, n: nat)
    requires Inv(s) && Started(s) && n <= TableauCount && CardCount(s) <= 104
    ensures CardBag(ExtractUpTo(s, n)) == CardBag(s)
  {
    if n > 0 {
      ExtractUpToConserves(s, n - 1);
      var p := ExtractUpTo(s, n - 1);
      ExtractUpToKeepsInv(s, n - 1);
      CardBagSize(p);
      CardBagSize(s);
      ExtractAtConserves(p, n - 1);
    }
  }

  lemma MovedColumnsBag(t: seq<seq<Card>>, from: int, count: int, to: int)
    requires 0 <= from < |t| && 0 <= to < |t| && from != to && 0 <= count <= |t[from]|
    ensures FlatBag(MovedColumns(t, from, count, to), Key) == FlatBag(t, Key)
  {
    var src := t[from];
    var start := |src| - count;
    var run := src[start..];
    var top := FlippedTop(Tableau, src[..start]);
    var t1 := t[from := top];
    assert FlatBag(t1, Key) + Bag(run, Key) == FlatBag(t, Key) by {
      BagSplit(src, start, Key);
      FlippedTopBag(Tableau, src[..start]);
      ColumnsTransfer(t, from, top, Bag(run, Key));
    }
    assert t1[to] == t[to];
    ColumnsAppend(t1, to, run);
  }

  /** moveRun keeps every card (at most 104 in play). */
  lemma MoveRunConserves(s: State, from: int, count: int, to: int)
    requires Inv(s) && Started(s) && 0 <= from < TableauCount && 0 <= to < TableauCount
    requires CardCount(s) <= 104
    ensures CardBag(MoveRunOp(s, from, count, to).0) == CardBag(s)
  {
    if CanMove(s.tableaux[from], count, s.tableaux[to]) {
      if from == to {
        NotOntoItself(s.tableaux[from], count);
      }
      var c := MoveRunCore(s, from, count, to);
      MovedColumnsBag(s.tableaux, from, count, to);
      assert CardBag(c) == CardBag(s);
      CardBagSize(c);
      CardBagSize(s);
      MoveRunCoreKeepsInv(s, from, count, to);
      ExtractUpToConserves(c, |c.tableaux|);
    }
  }

  /** The dealt columns hold the old columns' cards plus the stock's top `n`. */
  lemma {:induction false} DealIntoBag(t: seq<seq<Card>>, stock: seq<Card>, n: nat)
    requires n <= |t| && n <= |stock|
    ensures FlatBag(DealInto(t, stock, n), Key) == FlatBag(t, Key) + Bag(stock[|stock| - n..], Key)
  {
    if n == 0 {
      DealNoneBag(t, stock);
    } else {
      var m := n - 1;
      DealIntoBag(t, stock, m);
      DealOneMore(t, stock, m);
    }
  }

  lemma DealNoneBag(t: seq<seq<Card>>, stock: seq<Card>)
    ensures FlatBag(DealInto(t, stock, 0), Key) == FlatBag(t, Key) + Bag(stock[|stock|..], Key)
  {
    assert stock[|stock|..] == [];
    AddNothing(FlatBag(t, Key));
  }

  lemma DealOneMore(t: seq<seq<Card>>, stock: seq<Card>, m: nat)
    requires m < |t| && m < |stock|
    requires FlatBag(DealInto(t, stock, m), Key) == FlatBag(t, Key) + Bag(stock[|stock| - m..], Key)
    ensures FlatBag(DealInto(t, stock, m + 1), Key) == FlatBag(t, Key) + Bag(stock[|stock| - (m + 1)..], Key)
  {
    DealOneColumn(t, stock, m);
    StockSuffixBag(stock, m);
    Substituted(FlatBag(DealInto(t, stock, m + 1), Key), FlatBag(DealInto(t, stock, m), Key), FlatBag(t, Key),
      Bag(stock[|stock| - m..], Key), Bag([DealtCard(stock, m)], Key), Bag(stock[|stock| - (m + 1)..], Key));
  }

  lemma DealOneColumn(t: seq<seq<Card>>, stock: seq<Card>, m: nat)
    requires m < |t| && m < |stock|
    ensures FlatBag(DealInto(t, stock, m + 1), Key) == FlatBag(DealInto(t, stock, m), Key) + Bag([DealtCard(stock, m)], Key)
  {
    DealIntoAt(t, stock, m, m);
    ColumnsAppend(DealInto(t, stock, m), m, [DealtCard(stock, m)]);
  }

  /** The stock's top `m + 1` cards, by suit and rank, are its `m`-th card from the top and the `m` above it. */
  lemma StockSuffixBag(stock: seq<Card>, m: nat)
    requires m < |stock|
    ensures Bag(stock[|stock| - (m + 1)..], Key) == Bag([DealtCard(stock, m)], Key) + Bag(stock[|stock| - m..], Key)
  {
    var k := |stock| - (m + 1);
    assert stock[k..] == [stock[k]] + stock[k + 1..];
    BagAppend([stock[k]], stock[k + 1..], Key);
    assert Bag([DealtCard(stock, m)], Key) == Bag([stock[k]], Key);
  }

  lemma Substituted<K>(x: multiset<K>, d: multiset<K>, a: multiset<K>, r: multiset<K>, b: multiset<K>, y: multiset<K>)
    requires x == d + b && d == a + r && y == b + r
    ensures x == a + y
  {
    AddShift(a, r, b);
  }

  /** dealRow keeps every card, also when it deals a partial row (at most 104 in play). */
  lemma DealRowConserves(s: State)
    requires Inv(s) && CardCount(s) <= 104
    ensures CardBag(DealRowOp(s).0) == CardBag(s)
  {
    if CanDeal(s.tableaux) {
      var n := Min(TableauCount, |s.stock|);
      DealMovesCards(s, n);
      if n == TableauCount {
        var c := DealtState(s);
        CardBagSize(c);
        CardBagSize(s);
        DealtStateKeepsInv(s);
        ExtractUpToConserves(c, |c.tableaux|);
      }
    }
  }

  /** Dealing the stock's top `n` cards onto the first `n` columns keeps every card. */
  lemma DealMovesCards(s: State, n: nat)
    requires n <= |s.tableaux| && n <= |s.stock|
    ensures FlatBag(DealInto(s.tableaux, s.stock, n), Key) + FlatBag(s.foundations, Key)
              + Bag(s.stock[..|s.stock| - n], Key) == CardBag(s)
  {
    var L := |s.stock|;
    DealIntoBag(s.tableaux, s.stock, n);
    BagSplit(s.stock, L - n, Key);
    var a, b, c, k := FlatBag(s.tableaux, Key), FlatBag(s.foundations, Key), Bag(s.stock[..L - n], Key), Bag(s.stock[L - n..], Key);
    assert forall e :: (a + k + b + c)[e] == (a + b + (c + k))[e];
  }

  /** Undoing a deal moves each column's top card to the stock: no card is lost. */
  lemma {:induction false} UndealBag(t: seq<seq<Card>>)
    requires |t| <= TableauCount
    ensures FlatBag(UndealtColumns(t), Key) + Bag(Returned(t), Key) == FlatBag(t, Key)
  {
    if t != [] {
      UndealBag(DropLast(t));
      UndealOneMore(t);
    }
  }

  lemma UndealOneMore(t: seq<seq<Card>>)
    requires 0 < |t| <= TableauCount
    requires FlatBag(UndealtColumns(DropLast(t)), Key) + Bag(Returned(DropLast(t)), Key) == FlatBag(DropLast(t), Key)
    ensures FlatBag(UndealtColumns(t), Key) + Bag(Returned(t), Key) == FlatBag(t, Key)
  {
    var x := Last(t);
    var y := if x != [] then DropLast(x) else x;
    var r := if x != [] then [Last(x).SetFaceUp(false)] else [];
    UndealtLast(t);
    ReturnedLast(t);
    TopReturnedBag(x);
    Regroup(FlatBag(UndealtColumns(DropLast(t)), Key), Bag(y, Key), Bag(r, Key), Bag(Returned(DropLast(t)), Key),
            FlatBag(DropLast(t), Key), Bag(x, Key));
  }

  lemma UndealtLast(t: seq<seq<Card>>)
    requires 0 < |t| <= TableauCount
    ensures FlatBag(UndealtColumns(t), Key) ==
              FlatBag(UndealtColumns(DropLast(t)), Key) + Bag(if Last(t) != [] then DropLast(Last(t)) else Last(t), Key)
  {
    var u := UndealtColumns(t);
    assert DropLast(u) == UndealtColumns(DropLast(t));
  }

  lemma ReturnedLast(t: seq<seq<Card>>)
    requires t != []
    ensures Bag(Returned(t), Key) ==
              Bag(if Last(t) != [] then [Last(Last(t)).SetFaceUp(false)] else [], Key) + Bag(Returned(DropLast(t)), Key)
  {
    var r := if Last(t) != [] then [Last(Last(t)).SetFaceUp(false)] else [];
    BagAppend(r, Returned(DropLast(t)), Key);
  }

  /** A column without its top card, plus that card turned face-down, holds the column's cards. */
  lemma TopReturnedBag(x: seq<Card>)
    ensures Bag(if x != [] then DropLast(x) else x, Key)
              + Bag(if x != [] then [Last(x).SetFaceUp(false)] else [], Key) == Bag(x, Key)
  {
    if x != [] {
      assert DropLast(x) + [Last(x)] == x;
      BagAppend(DropLast(x), [Last(x)], Key);
      assert Bag([Last(x).SetFaceUp(false)], Key) == Bag([Last(x)], Key);
    }
  }

  /** Undoing a deal keeps every card. */
  lemma UndoDealConserves(s: State)
    requires Inv(s) && s.log != [] && s.log[0].kind == DealRow
    ensures CardBag(UndoOp(s).0) == CardBag(s)
  {
    UndoOfDeal(s);
    UndealBag(s.tableaux);
    BagAppend(s.stock, Returned(s.tableaux), Key);
    Moved(FlatBag(UndealtColumns(s.tableaux), Key), FlatBag(s.foundations, Key), Bag(s.stock, Key), Bag(Returned(s.tableaux), Key));
  }

  /** Moving the part `r` from the first bag to the last one keeps the sum. */
  lemma Moved<K>(a: multiset<K>, b: multiset<K>, c: multiset<K>, r: multiset<K>)
    ensures a + b + (c + r) == (a + r) + b + c
  {
    assert forall e :: (a + b + (c + r))[e] == ((a + r) + b + c)[e];
  }

  /**
   * When the piles the latest record refers to still hold its cards, undo
   * keeps the number of cards in play: a move gives back as many cards as
   * it takes, an extraction moves 13 cards from a foundation to a column.
   */
  predicate UndoFits(s: State)
    requires Inv(s)
  {
    s.log != [] ==>
      var m := s.log[0];
      match m.kind
      case MoveRun => |s.tableaux[m.toIndex]| >= |m.payload|
      case DealRow => true
      case ExtractRun => LastNonEmptyBelow(s.foundations, |s.foundations|) >= 0
  }

  lemma UndoConservesCount(s: State)
    requires Inv(s) && UndoFits(s)
    ensures CardCount(UndoOp(s).0) == CardCount(s)
  {
    if s.log != [] {
      var m := s.log[0];
      var t := s.tableaux;
      match m.kind
      case MoveRun =>
        var dest := t[m.toIndex];
        var t1 := t[m.toIndex := dest[..|dest| - |m.payload|]];
        TotalSizeUpdate(t, m.toIndex, dest[..|dest| - |m.payload|]);
        var back := RestoredSource(t1[m.fromIndex] + m.payload, m.count, m.flippedAfterMove);
        TotalSizeUpdate(t1, m.fromIndex, back);
      case DealRow =>
        UndoDealConserves(s);
        CardBagSize(s);
        CardBagSize(UndoOp(s).0);
      case ExtractRun =>
        var f := s.foundations;
        var j := LastNonEmptyBelow(f, |f|);
        TotalSizeUpdate(f, j, f[j][..Max(0, |f[j]| - 13)]);
        TotalSizeUpdate(t, m.fromIndex, TopFaceUp(t[m.fromIndex] + m.payload));
    }
  }

  /** The extraction pass changes nothing while every column is shorter than 13. */
  lemma {:induction false} ShortColumnsStay(s: State, n: nat)
    requires n <= |s.tableaux|
    requires forall i :: 0 <= i < |s.tableaux| ==> |s.tableaux[i]| < 13
    ensures ExtractUpTo(s, n) == s
  {
    if n > 0 {
      ShortColumnsStay(s, n - 1);
    }
  }

  // A partial deal between a move and its undo: the cards of the example.

  const Six := Card(Spades, 6, true)
  const Five := Card(Spades, 5, true)
  const Nine := Card(Hearts, 9, true)
  const Ace := Card(Clubs, 1, false)
  const Others: seq<seq<Card>> := [[Card(Diamonds, 2, true)], [Card(Diamonds, 2, true)], [Card(Diamonds, 2, true)], [Card(Diamonds, 2, true)],
                                   [Card(Diamonds, 2, true)], [Card(Diamonds, 2, true)], [Card(Diamonds, 2, true)], [Card(Diamonds, 2, true)]]
  const NoFoundations: seq<seq<Card>> := [[], [], [], [], [], [], [], []]

  /** A dealt game: 6 of spades on column 0, 9 of hearts and 5 of spades on column 1, the Ace of clubs alone in the stock. */
  const Before := State([[Six], [Nine, Five]] + Others, NoFoundations, [Ace], [], 0, StartScore)
  /** After moveRun(1, 1, 0). */
  const AfterMove := State([[Six, Five], [Nine]] + Others, NoFoundations, [Ace], [Record(MoveRun, 1, 0, 1, [Five], false, -1, false)], 1, StartScore - 1)
  /** After the partial dealRow that follows. */
  const AfterDeal := AfterMove.(tableaux := [[Six, Five, Ace.SetFaceUp(true)], [Nine]] + Others, stock := [])
  /** After the undo that follows. */
  const AfterUndo := Before.(tableaux := [[Six, Five], [Nine, Five]] + Others, stock := [])

  lemma ExampleStatesOk()
    ensures Inv(Before) && Inv(AfterMove) && Inv(AfterDeal)
  {
    assert Before.log == [] && AfterDeal.log == AfterMove.log;
  }

  lemma MoveStep()
    ensures MoveRunOp(Before, 1, 1, 0) == (AfterMove, true)
  {
    var t0 := Before.tableaux;
    assert CanMove(t0[1], 1, t0[0]);
    assert t0[1][..1] == [Nine] && t0[1][1..] == [Five];
    assert Last([Nine]).faceUp && FlippedTop(Tableau, [Nine]) == [Nine];
    assert MovedColumns(t0, 1, 1, 0) == t0[1 := [Nine]][0 := [Six] + [Five]];
    assert [Six] + [Five] == [Six, Five];
    var moved := AfterMove.tableaux;
    assert forall k :: 0 <= k < TableauCount ==> t0[1 := [Nine]][0 := [Six, Five]][k] == moved[k];
    var c := MoveRunCore(Before, 1, 1, 0);
    assert c == AfterMove;
    ShortColumnsStay(c, |c.tableaux|);
  }

  lemma DealStep()
    ensures DealRowOp(AfterMove) == (AfterDeal, false)
  {
    ExampleStatesOk();
    assert CanDeal(AfterMove.tableaux);
    PartialDealRecordsNothing(AfterMove);
    var (r, ok) := DealRowOp(AfterMove);
    assert DealtCard(AfterMove.stock, 0) == Ace.SetFaceUp(true);
    assert forall j :: 0 <= j < TableauCount ==> r.tableaux[j] == AfterDeal.tableaux[j];
    assert r.tableaux == AfterDeal.tableaux;
  }

  lemma UndoStep()
    ensures Inv(AfterDeal) && UndoOp(AfterDeal) == (AfterUndo, true)
  {
    ExampleStatesOk();
    var m := AfterDeal.log[0];
    var t := AfterDeal.tableaux;
    assert t[0][..Max(0, |t[0]| - 1)] == [Six, Five];
    var t1 := t[0 := [Six, Five]];
    assert t1[1] + [Five] == [Nine, Five];
    assert RestoredSource([Nine, Five], 1, false) == [Nine, Five];
    var u := UndoneColumns(t, m);
    assert forall j :: 0 <= j < TableauCount ==> u[j] == AfterUndo.tableaux[j];
    assert u == AfterUndo.tableaux;
    assert AfterDeal.log[1..] == [];
  }

  /**
   * Undo does not keep the cards themselves. A partial deal pushes no
   * record, so the undo that follows it takes back the move before it,
   * popping the dealt card off the destination column: the Ace of clubs
   * leaves play and the five of spades ends up on two columns, while the
   * number of cards stays the same.
   */
  lemma UndoAfterPartialDealSwapsCards()
    ensures Inv(Before) && MoveRunOp(Before, 1, 1, 0) == (AfterMove, true)
    ensures DealRowOp(AfterMove) == (AfterDeal, false)
    ensures Inv(AfterDeal) && UndoOp(AfterDeal) == (AfterUndo, true)
    ensures CardCount(AfterUndo) == CardCount(Before)
    ensures CardBag(AfterUndo) + multiset{Key(Ace)} == CardBag(Before) + multiset{Key(Five)}
    ensures CardBag(AfterUndo) != CardBag(Before)
  {
    ExampleStatesOk();
    MoveStep();
    DealStep();
    UndoStep();
    BagStep();
  }

  lemma BagStep()
    ensures CardCount(AfterUndo) == CardCount(Before)
    ensures CardBag(AfterUndo) + multiset{Key(Ace)} == CardBag(Before) + multiset{Key(Five)}
    ensures CardBag(AfterUndo) != CardBag(Before)
  {
    var t := Before.tableaux;
    assert AfterUndo.tableaux == t[0 := [Six, Five]];
    TotalSizeUpdate(t, 0, [Six, Five]);
    FlatBagUpdate(t, 0, [Six, Five], Key);
    assert t[0] == [Six];
    BagAppend([Six], [Five], Key);
    assert [Six] + [Five] == [Six, Five];
    assert Bag([Six, Five], Key) == Bag([Six], Key) + multiset{Key(Five)};
    Absorb(FlatBag(AfterUndo.tableaux, Key), Bag([Six], Key), FlatBag(t, Key), multiset{Key(Five)});
    var f := FlatBag(NoFoundations, Key);
    assert CardBag(Before) == FlatBag(t, Key) + f + multiset{Key(Ace)};
    assert CardBag(AfterUndo) == FlatBag(t, Key) + multiset{Key(Five)} + f;
    assert CardBag(AfterUndo)[Key(Five)] == CardBag(Before)[Key(Five)] + 1;
  }
}
