// The Klondike engine (klondike/engine/KlondikeGame.java): the game object
// with its piles, undo deque and metrics. Each operation is proved to leave
// the game in the state the matching function of KlondikeState gives, so
// the lemmas of KlondikeLayout apply to the object.

module KlondikeEngine {
  import opened Util
  import opened Core
  import opened Cards
  import opened KlondikePiles
  import opened KlondikeMoves
  import opened KlondikeState
  import opened KlondikeLayout

  /** The cards of each pile of `ps`. */
  function Columns(ps: seq<Pile>): (r: seq<seq<Card>>)
    reads set p | p in ps
    ensures |r| == |ps| && forall i :: 0 <= i < |ps| ==> r[i] == ps[i].cards
  {
    if ps == [] then [] else Columns(DropLast(ps)) + [Last(ps).cards]
  }

  /** The values of the records of `ms`. */
  function Records(ms: seq<Move>): (r: seq<Record>)
    reads set m | m in ms
    ensures |r| == |ms| && forall k :: 0 <= k < |ms| ==> r[k] == ms[k].Value()
  {
    if ms == [] then [] else [ms[0].Value()] + Records(ms[1..])
  }

  /** Columns, foundations and stock are distinct objects of the right kinds. */
  ghost predicate DistinctPiles(tableaux: seq<Pile>, foundations: seq<Pile>, stock: Pile)
  {
    && (forall i, j :: 0 <= i < j < |tableaux| ==> tableaux[i] != tableaux[j])
    && (forall i, j :: 0 <= i < j < |foundations| ==> foundations[i] != foundations[j])
    && (forall i, j :: 0 <= i < |tableaux| && 0 <= j < |foundations| ==> tableaux[i] != foundations[j])
    && stock !in tableaux && stock !in foundations
    && (forall i :: 0 <= i < |tableaux| ==> tableaux[i].kind == Tableau)
    && (forall i :: 0 <= i < |foundations| ==> foundations[i].kind == Foundation)
    && stock.kind == Stock
  }

  /** `n` new empty piles of role `kind`, each a distinct object. */
  method NewPiles(kind: PileType, n: nat) returns (ps: seq<Pile>)
    ensures |ps| == n && fresh(set p | p in ps)
    ensures forall i, j :: 0 <= i < j < n ==> ps[i] != ps[j]
    ensures forall i :: 0 <= i < n ==> ps[i].kind == kind && ps[i].cards == []
  {
    ps := [];
    for i := 0 to n
      invariant |ps| == i && fresh(set p | p in ps)
      invariant forall a, b :: 0 <= a < b < i ==> ps[a] != ps[b]
      invariant forall a :: 0 <= a < i ==> ps[a].kind == kind && ps[a].cards == []
    {
      var p := new Pile(kind);
      ps := ps + [p];
    }
  }

  /** buildDeck: for each suit of Suit.values(), the ranks 1 to 13, face-down. */
  method BuildDeck() returns (deck: seq<Card>)
    ensures deck == KlondikeDeck()
  {
    deck := [];
    for si := 0 to 4
      invariant deck == KlondikeDeck()[..13 * si]
    {
      for rank := 1 to 14
        invariant deck == KlondikeDeck()[..13 * si + rank - 1]
      {
        DeckSlot(si, rank);
        deck := deck + [Card(Suits[si], rank, false)];
      }
    }
  }

  /**
   * The inner loop of the deal: from place `start` of the deck, col + 1
   * cards pushed onto the empty pile `pile`, each turned face-up only when
   * it is the last. Returns the next place of the deck.
   */
  method DealColumn(pile: Pile, deck: seq<Card>, col: nat, start: nat) returns (deckIndex: nat)
    requires |deck| == 52 && col < TableauCount && start == ColumnStart(col) && pile.cards == []
    modifies pile
    ensures pile.cards == DealtColumn(deck, col) && deckIndex == ColumnStart(col + 1)
  {
    NextColumnStart(col);
    deckIndex := start;
    for r := 0 to col + 1
      invariant deckIndex == start + r
      invariant pile.cards == DealtColumn(deck, col)[..r]
    {
      var c := deck[deckIndex];
      deckIndex := deckIndex + 1;
      c := c.SetFaceUp(r == col);
      pile.Push(c);
    }
  }

  /** The columns part-way through the deal: those before `col` are dealt, the rest still empty. */
  ghost function DealtUpTo(deck: seq<Card>, col: nat): (t: seq<seq<Card>>)
    requires |deck| == 52 && col <= TableauCount
    ensures |t| == TableauCount
  {
    seq(TableauCount, j requires 0 <= j < TableauCount => if j < col then DealtColumn(deck, j) else [])
  }

  lemma DealtUpToStep(deck: seq<Card>, col: nat)
    requires |deck| == 52 && col < TableauCount
    ensures DealtUpTo(deck, col)[col := DealtColumn(deck, col)] == DealtUpTo(deck, col + 1)
  {
  }

  lemma DealtUpToAll(deck: seq<Card>)
    requires |deck| == 52
    ensures DealtUpTo(deck, TableauCount) == Dealt(deck).tableaux
  {
  }

  class KlondikeGame {
    var tableaux: seq<Pile>
    var foundations: seq<Pile>
    const stock: Pile
    /** The undo deque, most recent record first. */
    var log: seq<Move>
    var moveCount: int
    var score: int

    ghost function Piles(): set<Pile>
      reads this
    {
      {stock} + (set p | p in tableaux) + (set p | p in foundations)
    }

    ghost function Moves(): set<Move>
      reads this
    {
      set m | m in log
    }

    /** The piles are distinct objects of the right roles. */
    ghost predicate Valid()
      reads this
    {
      DistinctPiles(tableaux, foundations, stock)
    }

    /** The value of the game. */
    function View(): State
      reads this, Piles(), Moves()
    {
      State(Columns(tableaux), Columns(foundations), stock.cards, Records(log), moveCount, score)
    }

    constructor ()
      ensures Valid() && View() == Initial
    {
      tableaux := [];
      foundations := [];
      stock := new Pile(Stock);
      log := [];
      moveCount := 0;
      score := StartScore;
    }

    /**
     * newGame(seed), with Collections.shuffle(deck, new Random(seed)) given
     * as `shuffle`, which must return a permutation of the deck. Whatever
     * the game held before, it ends as the deal of the shuffled deck.
     */
    method NewGame(seed: int, shuffle: (int, seq<Card>) -> seq<Card>)
      requires Valid()
      requires multiset(shuffle(seed, KlondikeDeck())) == multiset(KlondikeDeck())
      modifies this, Piles()
      ensures var deck := shuffle(seed, KlondikeDeck());
        |deck| == 52 && Valid() && View() == Dealt(deck)
    {
      Reset();
      var deck := BuildDeck();
      deck := shuffle(seed, deck);
      ShuffledDeal(deck);
      LayOut(deck);
    }

    /**
     * The first part of newGame: the lists, the stock and the deque cleared,
     * the metrics reset, then seven fresh empty tableaux and four fresh
     * empty foundations.
     */
    method Reset()
      requires Valid()
      modifies this, stock
      ensures Cleared() && fresh(Piles() - {stock})
    {
      tableaux := [];
      foundations := [];
      stock.cards := [];
      log := [];
      moveCount := 0;
      score := StartScore;
      tableaux := NewPiles(Tableau, TableauCount);
      foundations := NewPiles(Foundation, FoundationCount);
    }

    /** Seven empty tableaux, four empty foundations, an empty stock and deque, no moves, a score of 500. */
    ghost predicate Cleared()
      reads this, Piles()
    {
      && Valid()
      && |tableaux| == TableauCount && |foundations| == FoundationCount
      && (forall i :: 0 <= i < TableauCount ==> tableaux[i].cards == [])
      && (forall i :: 0 <= i < FoundationCount ==> foundations[i].cards == [])
      && stock.cards == [] && log == [] && moveCount == 0 && score == StartScore
    }

    /** The deal onto the empty piles: the columns, then the rest of the deck onto the stock. */
    method LayOut(deck: seq<Card>)
      requires Cleared() && |deck| == 52
      modifies Piles()
      ensures Valid() && View() == Dealt(deck)
    {
      ghost var s := View();
      assert s.foundations == Dealt(deck).foundations && s.log == [];
      var deckIndex := DealColumns(deck);
      DealStock(deck, deckIndex);
      assert deck[deckIndex..] == deck[28..];
    }

    /** The dealing loop of newGame over the seven fresh empty columns; returns the next place of the deck. */
    method DealColumns(deck: seq<Card>) returns (deckIndex: nat)
      requires Valid() && |deck| == 52 && |tableaux| == TableauCount
      requires forall i :: 0 <= i < TableauCount ==> tableaux[i].cards == []
      modifies set p | p in tableaux
      ensures deckIndex == 28 && View() == old(View()).(tableaux := Dealt(deck).tableaux)
    {
      ghost var s := View();
      assert s.tableaux == DealtUpTo(deck, 0);
      deckIndex := 0;
      for col := 0 to TableauCount
        invariant deckIndex == ColumnStart(col)
        invariant View() == s.(tableaux := DealtUpTo(deck, col))
      {
        deckIndex := OpenColumn(col, deck, deckIndex, s);
      }
      DealtUpToAll(deck);
    }

    /** Column `col` of the deal, from place `start` of the deck. */
    method OpenColumn(col: nat, deck: seq<Card>, start: nat, ghost s: State) returns (deckIndex: nat)
      requires Valid() && |deck| == 52 && col < TableauCount && start == ColumnStart(col)
      requires |tableaux| == TableauCount && View() == s.(tableaux := DealtUpTo(deck, col))
      modifies tableaux[col]
      ensures deckIndex == ColumnStart(col + 1) && View() == s.(tableaux := DealtUpTo(deck, col + 1))
    {
      DealtUpToStep(deck, col);
      deckIndex := DealColumn(tableaux[col], deck, col, start);
    }

    /** The stock loop of newGame: the rest of the deck, from `from`, pushed face-down. */
    method DealStock(deck: seq<Card>, from: nat)
      requires Valid() && from <= |deck|
      modifies stock
      ensures View() == old(View()).(stock := old(stock.cards) + FaceDown(deck[from..]))
    {
      var deckIndex := from;
      while deckIndex < |deck|
        invariant from <= deckIndex <= |deck|
        invariant stock.cards == old(stock.cards) + FaceDown(deck[from..deckIndex])
      {
        var c := deck[deckIndex];
        deckIndex := deckIndex + 1;
        c := c.SetFaceUp(false);
        stock.Push(c);
      }
      assert deck[from..deckIndex] == deck[from..];
    }

    /** isWin: a scan of the foundations that stops at the first with fewer than 13 cards. */
    method IsWin() returns (won: bool)
      ensures won <==> KlondikeState.IsWin(Columns(foundations))
    {
      for i := 0 to |foundations|
        invariant forall k :: 0 <= k < i ==> |foundations[k].cards| >= 13
      {
        if |foundations[i].cards| < 13 {
          return false;
        }
      }
      return true;
    }

    /** registerMove: the record goes on top of the deque, one more move is counted, the score stays. */
    method RegisterMove(m: Move)
      requires Valid()
      modifies this
      ensures Valid() && View() == Registered(old(View()), m.Value())
    {
      log := [m] + log;
      moveCount := moveCount + 1;
    }

    /** undo: reports whether there is a record, and changes nothing. */
    method Undo() returns (ok: bool)
      ensures ok <==> log != []
    {
      if log == [] {
        return false;
      }
      return true;
    }
  }
}
