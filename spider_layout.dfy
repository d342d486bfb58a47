// What newGame lays out (spider/engine/SpiderGame.java, newGame): the
// 104-card double deck before the shuffle, and the table dealt from a
// shuffled deck.

module SpiderLayout {
  import opened Util
  import opened Cards
  import opened SpiderRules
  import opened SpiderState
  import opened SpiderConservation

  /** The position of a suit among the four slots of one rank. */
  function SlotOf(s: Suit): (slot: nat)
    ensures slot < 4 && SlotSuit(false, slot) == s
  {
    match s
    case Spades => 0
    case Hearts => 1
    case Diamonds => 2
    case Clubs => 3
  }

  /** The deck is two identical halves of 52 face-down cards. */
  lemma SpiderDeckHalves(oneSuit: bool)
    ensures |SpiderDeck(oneSuit)| == 104
    ensures SpiderDeck(oneSuit)[..52] == SpiderDeck(oneSuit)[52..]
    ensures StockFaceDown(SpiderDeck(oneSuit))
  {
    var d := SpiderDeck(oneSuit);
    forall k | 0 <= k < 52
      ensures d[..52][k] == d[52..][k]
    {
      assert (k + 52) % 52 == k % 52;
    }
  }

  /** One-suit mode deals SPADES only; the first slot of a rank is SPADES in both modes. */
  lemma SpiderDeckSuits(oneSuit: bool)
    ensures oneSuit ==> forall k :: 0 <= k < 104 ==> SpiderDeck(oneSuit)[k].suit == Spades
    ensures forall k :: 0 <= k < 104 && k % 4 == 0 ==> SpiderDeck(oneSuit)[k].suit == Spades
  {
  }

  /** In four-suit mode each half holds every suit and rank exactly once. */
  lemma FourSuitHalfIsFullDeck()
    ensures forall s: Suit, r: Rank :: Card(s, r, false) in SpiderDeck(false)[..52]
    ensures forall i, j :: 0 <= i < j < 52 ==> SpiderDeck(false)[i] != SpiderDeck(false)[j]
  {
    forall s: Suit, r: Rank
      ensures Card(s, r, false) in SpiderDeck(false)[..52]
    {
      CardPosition(s, r);
    }
    forall i, j | 0 <= i < j < 52
      ensures SpiderDeck(false)[i] != SpiderDeck(false)[j]
    {
      PositionsDiffer(i, j);
    }
  }

  lemma CardPosition(s: Suit, r: Rank)
    ensures SpiderDeck(false)[4 * (r - 1) + SlotOf(s)] == Card(s, r, false)
  {
    var k := 4 * (r - 1) + SlotOf(s);
    assert k % 52 == k;
    assert k % 4 == SlotOf(s) && k / 4 == r - 1;
  }

  lemma PositionsDiffer(i: nat, j: nat)
    requires i < j < 52
    ensures SpiderDeck(false)[i] != SpiderDeck(false)[j]
  {
    var d := SpiderDeck(false);
    assert i % 52 == i && j % 52 == j;
    if i / 4 == j / 4 {
      assert i % 4 != j % 4;
      assert d[i].suit != d[j].suit;
    } else {
      assert d[i].rank != d[j].rank;
    }
  }

  /** A shuffle keeps the cards, so a shuffled deck is face-down too. */
  lemma ShuffledFaceDown(shuffled: seq<Card>, deck: seq<Card>)
    requires multiset(shuffled) == multiset(deck) && StockFaceDown(deck)
    ensures StockFaceDown(shuffled)
  {
    forall k | 0 <= k < |shuffled|
      ensures !shuffled[k].faceUp
    {
      assert shuffled[k] in multiset(deck);
    }
  }

  /**
   * The table newGame lays out from a shuffled deck: ten columns of 6, 6,
   * 6, 6, 5, ... 5 cards with only each top card face-up, eight empty
   * foundations, the deck's other 50 cards pushed onto the old stock, an
   * empty log, no moves and a score of 500.
   */
  lemma NewGameLayout(oldStock: seq<Card>, deck: seq<Card>)
    requires |deck| == 104 && StockFaceDown(deck)
    ensures var r := NewGame(oldStock, deck);
      && Started(r)
      && (forall i :: 0 <= i < TableauCount ==> |r.tableaux[i]| == (if i < 4 then 6 else 5))
      && (forall i :: 0 <= i < TableauCount ==> Last(r.tableaux[i]).faceUp)
      && (forall i, k :: 0 <= i < TableauCount && 0 <= k < |r.tableaux[i]| - 1 ==> !r.tableaux[i][k].faceUp)
      && (forall i :: 0 <= i < FoundationCount ==> r.foundations[i] == [])
      && r.stock == oldStock + deck[..50]
      && r.log == [] && r.moveCount == 0 && r.score == 500
  {
  }

  /** newGame leaves a game satisfying the invariant when the old stock was face-down. */
  lemma NewGameKeepsInv(oldStock: seq<Card>, deck: seq<Card>)
    requires |deck| == 104 && StockFaceDown(deck) && StockFaceDown(oldStock)
    ensures Inv(NewGame(oldStock, deck))
  {
  }

  /** newGame deals 54 cards onto the columns and puts 50 on top of the old stock. */
  lemma NewGameCounts(oldStock: seq<Card>, deck: seq<Card>)
    requires |deck| == 104
    ensures TotalSize(NewGame(oldStock, deck).tableaux) == 54
    ensures TotalSize(NewGame(oldStock, deck).foundations) == 0
    ensures CardCount(NewGame(oldStock, deck)) == |oldStock| + 104
  {
    var r := NewGame(oldStock, deck);
    ColumnsDealt(deck, TableauCount);
    assert DealtColumns(deck) == DealtColumns(deck)[..TableauCount];
    TotalSizeAllEmpty(r.foundations);
  }

  lemma {:induction false} ColumnsDealt(deck: seq<Card>, n: nat)
    requires |deck| == 104 && n <= TableauCount
    ensures TotalSize(DealtColumns(deck)[..n]) == DealtBefore(n)
  {
    var t := DealtColumns(deck);
    if n > 0 {
      ColumnsDealt(deck, n - 1);
      assert DropLast(t[..n]) == t[..n - 1];
    }
  }

  /** newGame deals every card of the deck exactly once: the table holds the old stock and the deck. */
  lemma NewGameDealsDeck(oldStock: seq<Card>, deck: seq<Card>)
    requires |deck| == 104
    ensures CardBag(NewGame(oldStock, deck)) == Bag(oldStock, Key) + Bag(deck, Key)
  {
    var r := NewGame(oldStock, deck);
    assert DealtColumns(deck) == DealtColumns(deck)[..TableauCount];
    ColumnsHoldDeck(deck, TableauCount);
    FlatBagAllEmpty(r.foundations, Key);
    BagAppend(oldStock, deck[..50], Key);
    BagSplit(deck, 50, Key);
    Rotate(Bag(deck[50..], Key), FlatBag(r.foundations, Key), Bag(oldStock, Key), Bag(deck[..50], Key));
  }

  lemma Rotate<K>(a: multiset<K>, z: multiset<K>, b: multiset<K>, c: multiset<K>)
    requires z == multiset{}
    ensures a + z + (b + c) == b + (c + a)
  {
    assert forall e :: (a + z + (b + c))[e] == (b + (c + a))[e];
  }

  /** The first `n` columns hold the deck's last DealtBefore(n) cards. */
  lemma ColumnsHoldDeck(deck: seq<Card>, n: nat)
    requires |deck| == 104 && n <= TableauCount
    ensures FlatBag(DealtColumns(deck)[..n], Key) == Bag(deck[104 - DealtBefore(n)..], Key)
  {
    forall i | 0 <= i < TableauCount
      ensures Bag(DealtColumns(deck)[i], Key) == Bag(deck[SliceStart(i)..SliceEnd(i)], Key)
    {
      DealtColumnBag(deck, i);
    }
    SlicesHold(DealtColumns(deck), deck, n);
    assert DealtTail(deck, n) == deck[104 - DealtBefore(n)..];
  }

  /** The deck's last DealtBefore(n) cards: those the first `n` columns are dealt from. */
  function DealtTail(deck: seq<Card>, n: nat): seq<Card>
    requires |deck| == 104 && n <= TableauCount
  {
    deck[104 - DealtBefore(n)..]
  }

  /** Columns holding consecutive slices of the deck, column 0 the top one: the first `n` hold the deck's last DealtBefore(n) cards. */
  lemma {:induction false} SlicesHold(t: seq<seq<Card>>, deck: seq<Card>, n: nat)
    requires |t| == TableauCount && |deck| == 104 && n <= TableauCount
    requires forall i :: 0 <= i < TableauCount ==> Bag(t[i], Key) == Bag(deck[SliceStart(i)..SliceEnd(i)], Key)
    ensures FlatBag(t[..n], Key) == Bag(DealtTail(deck, n), Key)
  {
    if n == 0 {
      assert t[..0] == [] && DealtTail(deck, 0) == [];
    } else {
      SlicesHold(t, deck, n - 1);
      TailSplit(deck, n);
      assert Bag(t[n - 1], Key) == Bag(deck[SliceStart(n - 1)..SliceEnd(n - 1)], Key);
      PrefixBagStep(t, n, deck, SliceStart(n - 1), SliceEnd(n - 1));
    }
  }

  /** The cards the first `n` columns are dealt from: those of the first `n - 1` and the slice of column `n - 1` below them. */
  lemma TailSplit(deck: seq<Card>, n: nat)
    requires |deck| == 104 && 0 < n <= TableauCount
    ensures DealtTail(deck, n - 1) == deck[SliceEnd(n - 1)..] && DealtTail(deck, n) == deck[SliceStart(n - 1)..]
    ensures SliceStart(n - 1) <= SliceEnd(n - 1)
  {
  }

  /** One more column whose cards are the deck slice just below the ones already accounted for. */
  lemma PrefixBagStep(t: seq<seq<Card>>, n: nat, deck: seq<Card>, lo: nat, hi: nat)
    requires 0 < n <= |t| && lo <= hi <= |deck|
    requires FlatBag(t[..n - 1], Key) == Bag(deck[hi..], Key) && Bag(t[n - 1], Key) == Bag(deck[lo..hi], Key)
    ensures FlatBag(t[..n], Key) == Bag(deck[lo..], Key)
  {
    var before, column, rest := FlatBag(t[..n - 1], Key), Bag(deck[lo..hi], Key), Bag(deck[hi..], Key);
    calc {
      FlatBag(t[..n], Key);
      { FlatBagPrefix(t, n, Key); }
      before + column;
      rest + column;
      { AddCommutes(rest, column); }
      column + rest;
      { BagSlices(deck, lo, hi, Key); }
      Bag(deck[lo..], Key);
    }
  }

  lemma AddCommutes<K>(a: multiset<K>, b: multiset<K>)
    ensures a + b == b + a
  {
    assert forall e :: (a + b)[e] == (b + a)[e];
  }

  /** Column `i` holds the slice of the deck it was dealt from, reversed, top turned up. */
  lemma DealtColumnBag(deck: seq<Card>, i: nat)
    requires |deck| == 104 && i < TableauCount
    ensures Bag(DealtColumns(deck)[i], Key) == Bag(deck[SliceStart(i)..SliceEnd(i)], Key)
  {
    TopFaceUpBag(TakenFrom(deck, SliceEnd(i), ColumnSize(i)));
    TakenBag(deck, SliceStart(i), SliceEnd(i), ColumnSize(i));
  }

  /** Cards popped off the end of deck[..e] are, as a bag, the slice they came from. */
  lemma TakenBag(deck: seq<Card>, lo: nat, e: nat, n: nat)
    requires n <= e <= |deck| && lo == e - n
    ensures Bag(TakenFrom(deck, e, n), Key) == Bag(deck[lo..e], Key)
  {
    assert TakenFrom(deck, e, n) == Reverse(deck[lo..e]);
    ReverseBag(deck[lo..e], Key);
  }
}
