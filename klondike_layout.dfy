// What the Klondike deck, deal and win check promise: the 52-card deck,
// the layout newGame leaves, card conservation through the deal, and the
// meaning of a win.

module KlondikeLayout {
  import opened Util
  import opened Cards
  import opened KlondikeRules
  import opened KlondikeState

  /** Where a suit comes in Suit.values(). */
  function SuitIndex(s: Suit): (i: nat)
    ensures i < 4 && Suits[i] == s
  {
    match s
    case Spades => 0
    case Hearts => 1
    case Diamonds => 2
    case Clubs => 3
  }

  /** The card of suit `s` and rank `r` sits at 13 * (the suit's place) + r - 1. */
  lemma DeckPosition(s: Suit, r: Rank)
    ensures 13 * SuitIndex(s) + r - 1 < 52
    ensures KlondikeDeck()[13 * SuitIndex(s) + r - 1] == Card(s, r, false)
  {
    var k := 13 * SuitIndex(s) + r - 1;
    assert k / 13 == SuitIndex(s) && k % 13 == r - 1;
  }

  /** Place 13 * si + rank - 1 of the deck: suit number `si` of Suit.values(), rank `rank`. */
  lemma DeckSlot(si: nat, rank: nat)
    requires si < 4 && 1 <= rank <= 13
    ensures 13 * si + rank - 1 < 52
    ensures KlondikeDeck()[13 * si + rank - 1] == Card(Suits[si], rank, false)
  {
    var k := 13 * si + rank - 1;
    assert k / 13 == si && k % 13 == rank - 1;
  }

  /** Two places of the deck hold different cards. */
  lemma DeckPlacesDiffer(i: nat, j: nat)
    requires i < j < 52
    ensures KlondikeDeck()[i] != KlondikeDeck()[j]
  {
    assert i == 13 * (i / 13) + i % 13 && j == 13 * (j / 13) + j % 13;
    if i / 13 != j / 13 {
      assert Suits[i / 13] != Suits[j / 13];
    }
  }

  /** buildDeck yields 52 face-down cards: every suit and rank, each once. */
  lemma DeckCards()
    ensures |KlondikeDeck()| == 52 && AllFaceDown(KlondikeDeck())
    ensures forall s: Suit, r: Rank :: Card(s, r, false) in KlondikeDeck()
    ensures forall i, j :: 0 <= i < j < 52 ==> KlondikeDeck()[i] != KlondikeDeck()[j]
  {
    forall s: Suit, r: Rank
      ensures Card(s, r, false) in KlondikeDeck()
    {
      DeckPosition(s, r);
    }
    forall i, j | 0 <= i < j < 52
      ensures KlondikeDeck()[i] != KlondikeDeck()[j]
    {
      DeckPlacesDiffer(i, j);
    }
  }

  /** Column `col` ends where column col + 1 starts. */
  lemma NextColumnStart(col: nat)
    requires col < TableauCount
    ensures ColumnStart(col) + col + 1 == ColumnStart(col + 1)
  {
  }

  /** The first `n` columns of the deal hold ColumnStart(n) cards. */
  lemma {:induction false} DealtPrefixSize(deck: seq<Card>, n: nat)
    requires |deck| == 52 && n <= TableauCount
    ensures TotalSize(Dealt(deck).tableaux[..n]) == ColumnStart(n)
  {
    var t := Dealt(deck).tableaux;
    if n > 0 {
      DealtPrefixSize(deck, n - 1);
      NextColumnStart(n - 1);
      assert DropLast(t[..n]) == t[..n - 1];
    }
  }

  /**
   * The layout newGame leaves, whatever the game held before: seven columns
   * of 1 to 7 cards with only each top card face-up (28 in all), four empty
   * foundations, 24 face-down cards in the stock, an empty log, no moves
   * and a score of 500.
   */
  lemma DealtLayout(deck: seq<Card>)
    requires |deck| == 52
    ensures var s := Dealt(deck);
      && |s.tableaux| == TableauCount && |s.foundations| == FoundationCount
      && (forall col :: 0 <= col < TableauCount ==> |s.tableaux[col]| == col + 1)
      && (forall col, r :: 0 <= col < TableauCount && 0 <= r < |s.tableaux[col]| ==>
            (s.tableaux[col][r].faceUp <==> r == col))
      && TotalSize(s.tableaux) == 28
      && (forall i :: 0 <= i < FoundationCount ==> s.foundations[i] == [])
      && |s.stock| == 24 && AllFaceDown(s.stock)
      && s.log == [] && s.moveCount == 0 && s.score == 500
  {
    var t: seq<seq<Card>> := Dealt(deck).tableaux;
    DealtPrefixSize(deck, TableauCount);
    assert t[..TableauCount] == t;
    forall col: nat, r: nat | col < TableauCount && r < |t[col]|
      ensures t[col][r].faceUp <==> r == col
    {
      assert t[col] == DealtColumn(deck, col);
      assert t[col][r] == deck[ColumnStart(col) + r].SetFaceUp(r == col);
    }
  }

  /** Dealing a column only changes flags: it holds the keys of its slice of the deck. */
  lemma ColumnBag(deck: seq<Card>, col: nat)
    requires |deck| == 52 && col < TableauCount
    ensures ColumnStart(col) <= ColumnStart(col + 1)
    ensures Bag(DealtColumn(deck, col), Key) == Bag(deck[ColumnStart(col)..ColumnStart(col + 1)], Key)
  {
    NextColumnStart(col);
    BagSameKeys(DealtColumn(deck, col), deck[ColumnStart(col)..ColumnStart(col + 1)], Key);
  }

  /** The first `n` columns hold the keys of the deck's first ColumnStart(n) cards. */
  lemma {:induction false} DealtPrefixBag(deck: seq<Card>, n: nat)
    requires |deck| == 52 && n <= TableauCount
    ensures FlatBag(Dealt(deck).tableaux[..n], Key) == Bag(deck[..ColumnStart(n)], Key)
  {
    var t := Dealt(deck).tableaux;
    if n == 0 {
      assert t[..0] == [] && deck[..0] == [];
    } else {
      DealtPrefixBag(deck, n - 1);
      ColumnBag(deck, n - 1);
      PrefixBagStep(t, n, deck, ColumnStart(n - 1), ColumnStart(n));
    }
  }

  /** One more sequence of `t` holding the next slice of `d`. */
  lemma PrefixBagStep(t: seq<seq<Card>>, n: nat, d: seq<Card>, lo: nat, hi: nat)
    requires 0 < n <= |t| && lo <= hi <= |d|
    requires FlatBag(t[..n - 1], Key) == Bag(d[..lo], Key)
    requires Bag(t[n - 1], Key) == Bag(d[lo..hi], Key)
    ensures FlatBag(t[..n], Key) == Bag(d[..hi], Key)
  {
    FlatBagPrefix(t, n, Key);
    SliceJoin(d, lo, hi);
    BagAppend(d[..lo], d[lo..hi], Key);
  }

  lemma SliceJoin(d: seq<Card>, lo: nat, hi: nat)
    requires lo <= hi <= |d|
    ensures d[..hi] == d[..lo] + d[lo..hi]
  {
  }

  /** The deal keeps every card: the table holds the keys of the whole deck. */
  lemma DealtConserves(deck: seq<Card>)
    requires |deck| == 52
    ensures CardBag(Dealt(deck)) == Bag(deck, Key)
  {
    TableauxBag(deck);
    StockBag(deck);
    FlatBagAllEmpty(Dealt(deck).foundations, Key);
    BagSplit(deck, 28, Key);
  }

  /** The seven columns hold the keys of the deck's first 28 cards. */
  lemma TableauxBag(deck: seq<Card>)
    requires |deck| == 52
    ensures FlatBag(Dealt(deck).tableaux, Key) == Bag(deck[..28], Key)
  {
    DealtPrefixBag(deck, TableauCount);
    assert Dealt(deck).tableaux[..TableauCount] == Dealt(deck).tableaux;
  }

  /** The stock holds the keys of the deck's last 24 cards. */
  lemma StockBag(deck: seq<Card>)
    requires |deck| == 52
    ensures Bag(Dealt(deck).stock, Key) == Bag(deck[28..], Key)
  {
    BagSameKeys(Dealt(deck).stock, deck[28..], Key);
  }

  /** On a face-down deck the stock is the deck's last 24 cards, in deck order. */
  lemma StockInDeckOrder(deck: seq<Card>)
    requires |deck| == 52 && AllFaceDown(deck)
    ensures Dealt(deck).stock == deck[28..]
  {
    var st := Dealt(deck).stock;
    assert forall k :: 0 <= k < 24 ==> st[k] == deck[28 + k];
  }

  /**
   * newGame from any shuffle of buildDeck's deck: the table holds each of
   * the 52 cards of the deck, and the stock is the shuffled deck's tail.
   */
  lemma ShuffledDeal(deck: seq<Card>)
    requires multiset(deck) == multiset(KlondikeDeck())
    ensures |deck| == 52 && AllFaceDown(deck)
    ensures CardBag(Dealt(deck)) == Bag(KlondikeDeck(), Key)
    ensures Dealt(deck).stock == deck[28..]
  {
    DeckCards();
    assert |multiset(deck)| == |multiset(KlondikeDeck())|;
    forall k | 0 <= k < |deck|
      ensures !deck[k].faceUp
    {
      assert deck[k] in multiset(KlondikeDeck());
    }
    BagPermutation(deck, KlondikeDeck(), Key);
    DealtConserves(deck);
    StockInDeckOrder(deck);
  }

  /** Before any newGame there are no foundations, so isWin holds vacuously. */
  lemma WinBeforeNewGame()
    ensures IsWin(Initial.foundations)
  {
  }

  /** Right after newGame no foundation holds a card: no win. */
  lemma NoWinAfterDeal(deck: seq<Card>)
    requires |deck| == 52
    ensures !IsWin(Dealt(deck).foundations)
  {
    assert Dealt(deck).foundations[0] == [];
  }

  /**
   * A win reached through canPlaceOnFoundation: every foundation holds
   * exactly 13 cards, Ace to King of one suit.
   */
  lemma WinIsCompleteSuits(f: seq<seq<Card>>)
    requires IsWin(f)
    requires forall i :: 0 <= i < |f| ==> PlacedOnFoundation(f[i])
    ensures forall i :: 0 <= i < |f| ==> |f[i]| == 13 && AscendingSuit(f[i])
  {
    forall i | 0 <= i < |f|
      ensures |f[i]| == 13 && AscendingSuit(f[i])
    {
      FoundationBuiltInOrder(f[i]);
      FoundationAtMostThirteen(f[i]);
    }
  }
}
