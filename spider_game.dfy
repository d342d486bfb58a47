// The Spider engine (spider/engine/SpiderGame.java): the game object with
// its piles, undo deque and metrics. Each public operation is proved to
// leave the game in the state the matching function of SpiderState gives,
// so the lemmas of SpiderLaws, SpiderConservation and SpiderLayout apply
// to the object.

module SpiderEngine {
  import opened Util
  import opened Core
  import opened Cards
  import opened SpiderPiles
  import opened SpiderMoves
  import opened SpiderRules
  import opened SpiderState
  import opened SpiderLaws
  import opened SpiderLayout
  import opened SpiderSteps

  /** The cards of each pile of `ps`. */
  function Columns(ps: seq<Pile>): (r: seq<seq<Card>>)
    reads set p | p in ps
    ensures |r| == |ps| && forall i :: 0 <= i < |ps| ==> r[i] == ps[i].cards
  {
    if ps == [] then [] else Columns(DropLast(ps)) + [Last(ps).cards]
  }

  /** The values of the undo records of `ms`. */
  function Records(ms: seq<Move>): (r: seq<Record>)
    reads set m | m in ms
    ensures |r| == |ms| && forall k :: 0 <= k < |ms| ==> r[k] == ms[k].Value()
  {
    if ms == [] then [] else [ms[0].Value()] + Records(ms[1..])
  }

  /** Columns, foundations and stock are distinct objects of the right kinds. */
  ghost predicate DistinctPiles(tableaux: seq<Pile>, foundations: seq<Pile>, stock: Pile)
  {
    && (forall i, j :: 0 <= i < j < |tableaux| ==> tableaux[i] != tableaux[j])
    && (forall i, j :: 0 <= i < j < |foundations| ==> foundations[i] != foundations[j])
    && (forall i, j :: 0 <= i < |tableaux| && 0 <= j < |foundations| ==> tableaux[i] != foundations[j])
    && stock !in tableaux && stock !in foundations
    && (forall i :: 0 <= i < |tableaux| ==> tableaux[i].kind == Tableau)
    && (forall i :: 0 <= i < |foundations| ==> foundations[i].kind == Foundation)
    && stock.kind == Stock
  }

  /** top().setFaceUp(up) on a non-empty pile: its last card's flag changes. */
  method TurnTop(p: Pile, up: bool)
    requires p.cards != []
    modifies p
    ensures p.cards == old(p.cards)[|old(p.cards)| - 1 := Last(old(p.cards)).SetFaceUp(up)]
  {
    p.cards := p.cards[|p.cards| - 1 := Last(p.cards).SetFaceUp(up)];
  }

  /** getCards().get(idx).setFaceUp(up): one card's flag changes. */
  method TurnCard(p: Pile, idx: nat, up: bool)
    requires idx < |p.cards|
    modifies p
    ensures p.cards == old(p.cards)[idx := old(p.cards)[idx].SetFaceUp(up)]
  {
    p.cards := p.cards[idx := p.cards[idx].SetFaceUp(up)];
  }

  /**
   * The flag changes of undoing a move, on the source pile: its top turned
   * up, and the card `count` below the top turned down when `flipped`.
   */
  method RestoreSource(from: Pile, count: nat, flipped: bool)
    modifies from
    ensures from.cards == RestoredSource(old(from.cards), count, flipped)
  {
    if !from.IsEmpty() {
      TurnTop(from, true);
    }
    if flipped {
      var idx := |from.cards| - count - 1;
      if idx >= 0 {
        TurnCard(from, idx, false);
      }
    }
  }

  /** One pass of the dealing loop: pop the stock; if it gave a card, turn it up and push it on `col`. */
  method DealOne(stock: Pile, col: Pile) returns (c: Option<Card>)
    requires stock != col
    modifies stock, col
    ensures old(stock.cards) == [] ==> c == None && stock.cards == [] && col.cards == old(col.cards)
    ensures old(stock.cards) != [] ==>
      && c == Some(Last(old(stock.cards)).SetFaceUp(true))
      && stock.cards == DropLast(old(stock.cards)) && col.cards == old(col.cards) + [c.value]
  {
    c := stock.Pop();
    if c != None {
      c := Some(c.value.SetFaceUp(true));
      col.Push(c.value);
    }
  }

  /** One pass of the loop of undo of a deal: pop `col`; if it gave a card, turn it down and push it on the stock. */
  method UndealOne(col: Pile, stock: Pile)
    requires stock != col
    modifies stock, col
    ensures var c := old(col.cards);
      && col.cards == c[..Max(0, |c| - 1)]
      && stock.cards == old(stock.cards) + (if c != [] then [Last(c).SetFaceUp(false)] else [])
  {
    var c := col.Pop();
    if c != None {
      var card := c.value.SetFaceUp(false);
      stock.Push(card);
    }
  }

  /** The column side of undo of an extraction: addRun, then top().setFaceUp(true). */
  method Restack(p: Pile, run: seq<Card>)
    requires run != []
    modifies p
    ensures p.cards == TopFaceUp(old(p.cards) + run)
  {
    p.AddRun(run);
    TurnTop(p, true);
  }

  /** `n` calls of pop(): the pile loses up to `n` top cards. */
  method PopTimes(p: Pile, n: nat)
    modifies p
    ensures p.cards == old(p.cards)[..Max(0, |old(p.cards)| - n)]
  {
    var i := 0;
    while i < n
      invariant 0 <= i <= n
      invariant p.cards == old(p.cards)[..Max(0, |old(p.cards)| - i)]
    {
      var _ := p.Pop();
      i := i + 1;
    }
  }

  /** push of each card of `run` in order. */
  method PushAll(p: Pile, run: seq<Card>)
    modifies p
    ensures p.cards == old(p.cards) + run
  {
    var i := 0;
    while i < |run|
      invariant 0 <= i <= |run|
      invariant p.cards == old(p.cards) + run[..i]
    {
      p.Push(run[i]);
      i := i + 1;
    }
  }

  /** The scan of extractCompletedRuns over a 13-card tail: each card one above, same suit. */
  method ScanBlock(tail: seq<Card>) returns (ok: bool)
    requires |tail| == 13
    ensures ok <==> forall k :: 0 <= k < 12 ==> StepsUp(tail[k], tail[k + 1])
  {
    ok := true;
    var k := 0;
    while k < 12
      invariant 0 <= k <= 12
      invariant forall j :: 0 <= j < k ==> StepsUp(tail[j], tail[j + 1])
    {
      if tail[k].suit != tail[k + 1].suit || tail[k + 1].rank != tail[k].rank + 1 {
        ok := false;
        return;
      }
      k := k + 1;
    }
  }

  /** The deck of newGame: two decks, rank by rank, in the order SPADES, HEARTS, DIAMONDS, CLUBS (all SPADES in one-suit mode). */
  method BuildDeck(oneSuit: bool) returns (deck: seq<Card>)
    ensures deck == SpiderDeck(oneSuit)
  {
    deck := [];
    for d := 0 to 2
      invariant deck == SpiderDeck(oneSuit)[..52 * d]
    {
      for r := 1 to 14
        invariant deck == SpiderDeck(oneSuit)[..52 * d + 4 * (r - 1)]
      {
        DeckSlots(oneSuit, d, r);
        deck := deck + [Card(if oneSuit then Spades else Spades, r, false)];
        deck := deck + [Card(if oneSuit then Spades else Hearts, r, false)];
        deck := deck + [Card(if oneSuit then Spades else Diamonds, r, false)];
        deck := deck + [Card(if oneSuit then Spades else Clubs, r, false)];
      }
    }
  }

  /** The four cards of rank `r` in copy `d` of the deck come next, in suit order. */
  lemma DeckSlots(oneSuit: bool, d: nat, r: nat)
    requires d < 2 && 1 <= r <= 13
    ensures var k := 52 * d + 4 * (r - 1);
      SpiderDeck(oneSuit)[..k + 4] == SpiderDeck(oneSuit)[..k]
        + [Card(if oneSuit then Spades else Spades, r, false)]
        + [Card(if oneSuit then Spades else Hearts, r, false)]
        + [Card(if oneSuit then Spades else Diamonds, r, false)]
        + [Card(if oneSuit then Spades else Clubs, r, false)]
  {
    var k := 52 * d + 4 * (r - 1);
    var deck := SpiderDeck(oneSuit);
    DeckSlot(oneSuit, d, r, 0);
    DeckSlot(oneSuit, d, r, 1);
    DeckSlot(oneSuit, d, r, 2);
    DeckSlot(oneSuit, d, r, 3);
    assert deck[..k + 4] == deck[..k] + [deck[k], deck[k + 1], deck[k + 2], deck[k + 3]];
  }

  /** Slot `slot` of rank `r` in copy `d` of the deck. */
  lemma DeckSlot(oneSuit: bool, d: nat, r: nat, slot: nat)
    requires d < 2 && 1 <= r <= 13 && slot < 4
    ensures SpiderDeck(oneSuit)[52 * d + 4 * (r - 1) + slot] == Card(SlotSuit(oneSuit, slot), r, false)
  {
    SlotIndex(d, 4 * (r - 1) + slot);
  }

  /** Position `52 * d + i` of the deck is position `i` of copy `d`. */
  lemma SlotIndex(d: nat, i: nat)
    requires d < 2 && i < 52
    ensures (52 * d + i) % 52 == i && (52 * d + i) % 4 == i % 4
  {
    if d == 1 {
      assert 52 + i == 4 * 13 + i;
    }
  }

  /**
   * Column `i` of the opening deal: 6 cards (columns 0-3) or 5 taken one by
   * one off the end of what is left of the deck onto the empty pile `p`,
   * then its top turned face-up.
   */
  method DealOpening(p: Pile, deck: seq<Card>, i: nat, rest: seq<Card>) returns (left: seq<Card>)
    requires p.cards == [] && |deck| == 104 && i < TableauCount && rest == deck[..104 - DealtBefore(i)]
    modifies p
    ensures p.cards == DealtColumn(deck, i) && left == deck[..104 - DealtBefore(i + 1)]
  {
    var count := if i < 4 then 6 else 5;
    ghost var e := SliceEnd(i);
    left := rest;
    for k := 0 to count
      invariant left == deck[..e - k]
      invariant p.cards == TakenFrom(deck, e, k)
    {
      p.Push(Last(left));
      left := DropLast(left);
    }
    TurnTop(p, true);
  }

  /** The columns part-way through the opening deal: those before `i` are dealt, the rest still empty. */
  ghost function OpenedUpTo(deck: seq<Card>, i: nat): (t: seq<seq<Card>>)
    requires |deck| == 104 && i <= TableauCount
    ensures |t| == TableauCount
  {
    seq(TableauCount, j requires 0 <= j < TableauCount => if j < i then DealtColumn(deck, j) else [])
  }

  lemma OpenStep(deck: seq<Card>, i: nat)
    requires |deck| == 104 && i < TableauCount
    ensures OpenedUpTo(deck, i)[i] == [] && OpenedUpTo(deck, i)[i := DealtColumn(deck, i)] == OpenedUpTo(deck, i + 1)
  {
  }

  lemma OpenedAll(deck: seq<Card>)
    requires |deck| == 104
    ensures 104 - DealtBefore(TableauCount) == 50 && OpenedUpTo(deck, TableauCount) == DealtColumns(deck)
  {
  }

  /** `n` new empty piles of role `kind`, each a distinct object. */
  method NewPiles(kind: PileType, n: nat) returns (ps: seq<Pile>)
    ensures |ps| == n && fresh(set p | p in ps)
    ensures forall i, j :: 0 <= i < j < n ==> ps[i] != ps[j]
    ensures forall i :: 0 <= i < n ==> ps[i].kind == kind && ps[i].cards == []
  {
    ps := [];
    for i := 0 to n
      invariant |ps| == i && fresh(set p | p in ps)
      invariant forall a, b :: 0 <= a < b < i ==> ps[a] != ps[b]
      invariant forall a :: 0 <= a < i ==> ps[a].kind == kind && ps[a].cards == []
    {
      var p := new Pile(kind);
      ps := ps + [p];
    }
  }

  class SpiderGame {
    var tableaux: seq<Pile>
    var foundations: seq<Pile>
    const stock: Pile
    /** The undo deque, most recent record first. */
    var log: seq<Move>
    var moveCount: int
    var score: int

    ghost function Piles(): set<Pile>
      reads this
    {
      {stock} + (set p | p in tableaux) + (set p | p in foundations)
    }

    ghost function Moves(): set<Move>
      reads this
    {
      set m | m in log
    }

    /** The piles are distinct objects of the right roles. */
    ghost predicate Distinct()
      reads this
    {
      DistinctPiles(tableaux, foundations, stock)
    }

    /** The value of the game. */
    function View(): State
      reads this, Piles(), Moves()
    {
      State(Columns(tableaux), Columns(foundations), stock.cards, Records(log), moveCount, score)
    }

    ghost predicate Valid()
      reads this, Piles(), Moves()
    {
      Distinct() && Inv(View())
    }

    constructor ()
      ensures Valid() && View() == Initial
    {
      tableaux := [];
      foundations := [];
      stock := new Pile(Stock);
      log := [];
      moveCount := 0;
      score := StartScore;
    }

    /** isWin: the rules' win check on the foundations; false before the first newGame. */
    function IsWin(): (won: bool)
      reads this, Piles(), Moves()
      requires Valid()
      ensures won <==> Started(View()) && forall i :: 0 <= i < FoundationCount ==> |foundations[i].cards| == 13
    {
      if Started(View()) then
        WinIffFoundationsFull(View());
        SpiderRules.IsWin(Columns(foundations))
      else
        SpiderRules.IsWin(Columns(foundations))
    }
  
    // -------------------------------------------------------------------
    // newGame

    /**
     * newGame(seed, oneSuit), with Collections.shuffle(deck, new Random(seed))
     * given as `shuffle`, which must return a permutation of the deck.
     */
    method NewGame(seed: int, oneSuit: bool, shuffle: (int, seq<Card>) -> seq<Card>)
      requires Valid()
      requires multiset(shuffle(seed, SpiderDeck(oneSuit))) == multiset(SpiderDeck(oneSuit))
      modifies this, Piles()
      ensures var deck := shuffle(seed, SpiderDeck(oneSuit));
        |deck| == 104 && Valid() && View() == SpiderState.NewGame(old(stock.cards), deck)
    {
      ghost var oldStock := stock.cards;
      ResetPiles();
      var deck := BuildDeck(oneSuit);
      deck := shuffle(seed, deck);
      SpiderDeckHalves(oneSuit);
      assert |multiset(deck)| == |multiset(SpiderDeck(oneSuit))|;
      ShuffledFaceDown(deck, SpiderDeck(oneSuit));
      LayOut(deck, oldStock);
    }

    /** The deal of newGame onto the fresh piles, the rest of the deck onto the stock, and the reset metrics. */
    method LayOut(deck: seq<Card>, ghost oldStock: seq<Card>)
      requires Distinct() && |deck| == 104 && StockFaceDown(deck) && StockFaceDown(oldStock)
      requires |tableaux| == TableauCount && |foundations| == FoundationCount && log == []
      requires forall i :: 0 <= i < TableauCount ==> tableaux[i].cards == []
      requires forall i :: 0 <= i < FoundationCount ==> foundations[i].cards == []
      requires stock.cards == oldStock
      modifies this, Piles()
      ensures Valid() && View() == SpiderState.NewGame(oldStock, deck)
    {
      ghost var s := View();
      assert s.foundations == seq(FoundationCount, i => []) && s.log == [];
      assert s.tableaux == OpenedUpTo(deck, 0);
      var rest := DealColumns(deck);
      PushAllToStock(rest);
      NewGameKeepsInv(oldStock, deck);
      ResetMetrics(SpiderState.NewGame(oldStock, deck));
    }

    /** moveCount = 0; score = 500, ending in the state `next`. */
    method ResetMetrics(ghost next: State)
      requires Distinct() && next == View().(moveCount := 0, score := StartScore) && Inv(next)
      modifies this
      ensures Valid() && View() == next
    {
      moveCount := 0;
      score := StartScore;
    }

    /** tableaux.clear(), foundations.clear(), undo.clear() and the fresh empty piles. */
    method ResetPiles()
      requires Distinct()
      modifies this
      ensures Distinct() && fresh(Piles() - {stock})
      ensures |tableaux| == TableauCount && |foundations| == FoundationCount && log == []
      ensures forall i :: 0 <= i < TableauCount ==> tableaux[i].cards == []
      ensures forall i :: 0 <= i < FoundationCount ==> foundations[i].cards == []
      ensures moveCount == old(moveCount) && score == old(score)
    {
      tableaux := NewPiles(Tableau, TableauCount);
      foundations := NewPiles(Foundation, FoundationCount);
      log := [];
    }

    /**
     * The deal of newGame: column i receives 6 cards (i < 4) or 5, each
     * removed from the end of the deck, and its top is turned face-up. The
     * cards left over are returned.
     */
    method DealColumns(deck: seq<Card>) returns (rest: seq<Card>)
      requires Distinct() && |tableaux| == TableauCount && |deck| == 104
      requires View().tableaux == OpenedUpTo(deck, 0)
      modifies Piles()
      ensures View() == old(View()).(tableaux := DealtColumns(deck)) && rest == deck[..50]
    {
      rest := deck;
      ghost var s := View();
      for i := 0 to TableauCount
        invariant rest == deck[..104 - DealtBefore(i)]
        invariant View() == s.(tableaux := OpenedUpTo(deck, i))
      {
        rest := OpenColumn(i, deck, rest, s);
      }
      OpenedAll(deck);
    }

    /** Column `i` of the opening deal, from the deck's first `104 - DealtBefore(i)` cards. */
    method OpenColumn(i: nat, deck: seq<Card>, rest: seq<Card>, ghost s: State) returns (left: seq<Card>)
      requires Distinct() && i < TableauCount && |deck| == 104 && rest == deck[..104 - DealtBefore(i)]
      requires View() == s.(tableaux := OpenedUpTo(deck, i))
      modifies tableaux[i]
      ensures View() == s.(tableaux := OpenedUpTo(deck, i + 1))
      ensures left == deck[..104 - DealtBefore(i + 1)]
    {
      OpenStep(deck, i);
      left := DealOpening(tableaux[i], deck, i, rest);
    }

    // -------------------------------------------------------------------
    // moveRun

    /**
     * moveRun: refused (false, nothing changes) unless canMove allows the top
     * `count` cards of column `fromIndex` onto column `toIndex`; otherwise the
     * run moves, the source's new top is turned up, a MOVE_RUN record is
     * pushed, the move count rises by one and the score falls by one, and
     * completed runs are extracted.
     */
    method MoveRun(fromIndex: int, count: int, toIndex: int) returns (ok: bool)
      requires Valid() && Started(View())
      requires 0 <= fromIndex < TableauCount && 0 <= toIndex < TableauCount
      modifies this, Piles(), Moves()
      ensures Valid() && (View(), ok) == MoveRunOp(old(View()), fromIndex, count, toIndex)
    {
      var from := tableaux[fromIndex];
      var to := tableaux[toIndex];
      if !CanMove(from.cards, count, to.cards) {
        return false;
      }
      MoveAndExtract(fromIndex, count, toIndex);
      ok := true;
    }

    /** moveRun once canMove has allowed the move. */
    method MoveAndExtract(fromIndex: int, count: int, toIndex: int)
      requires Valid() && Started(View())
      requires 0 <= fromIndex < TableauCount && 0 <= toIndex < TableauCount
      requires CanMove(tableaux[fromIndex].cards, count, tableaux[toIndex].cards)
      modifies this, Piles()
      ensures Valid() && View() == ExtractAll(MoveRunCore(old(View()), fromIndex, count, toIndex))
    {
      ghost var s := View();
      assert fromIndex != toIndex by {
        if fromIndex == toIndex {
          NotOntoItself(s.tableaux[fromIndex], count);
        }
      }
      var from := tableaux[fromIndex];
      var willReveal := false;
      var revealIdx := |from.cards| - count - 1;
      if revealIdx >= 0 {
        willReveal := !from.cards[revealIdx].faceUp;
      }
      var run := ApplyMove(fromIndex, count, toIndex, willReveal);
      MoveRunAssembled(s, View(), fromIndex, count, toIndex, run, willReveal);
      ExtractCompletedRuns();
    }

    /** The cards move, then the record (with the flag computed before the move) and the metrics. */
    method ApplyMove(fromIndex: nat, count: nat, toIndex: nat, willReveal: bool) returns (run: seq<Card>)
      requires Distinct() && fromIndex < |tableaux| && toIndex < |tableaux| && fromIndex != toIndex
      requires count <= |tableaux[fromIndex].cards|
      modifies this, Piles()
      ensures tableaux == old(tableaux) && foundations == old(foundations)
      ensures var s := old(View()); var src := s.tableaux[fromIndex];
        && run == src[|src| - count..]
        && View() == Tallied(Logged(Moved(s, fromIndex, count, toIndex), Record(MoveType.MoveRun, fromIndex, toIndex, count, run, willReveal, -1, false)),
                             s.moveCount + 1, s.score - 1)
    {
      ghost var s := View();
      run := MoveColumns(fromIndex, count, toIndex);
      RecordMove(fromIndex, toIndex, count, run, willReveal, s);
    }

    /**
     * The bookkeeping of moveRun, once the cards of `s` have moved: a
     * MOVE_RUN record with its flag is pushed, one move more, one point less.
     */
    method RecordMove(fromIndex: int, toIndex: int, count: int, run: seq<Card>, willReveal: bool, ghost s: State)
      requires 0 <= fromIndex < |s.tableaux| && 0 <= toIndex < |s.tableaux| && 0 <= count <= |s.tableaux[fromIndex]|
      requires View() == Moved(s, fromIndex, count, toIndex)
      modifies this
      ensures tableaux == old(tableaux) && foundations == old(foundations)
      ensures View() == Tallied(Logged(Moved(s, fromIndex, count, toIndex), Record(MoveType.MoveRun, fromIndex, toIndex, count, run, willReveal, -1, false)),
                                s.moveCount + 1, s.score - 1)
    {
      ghost var s0 := View();
      var rec := new Move(MoveType.MoveRun, fromIndex, toIndex, count, run);
      rec.SetFlippedAfterMove(willReveal);
      assert View() == s0;
      PushRecord(rec);
      SetMetrics(moveCount + 1, score - 1);
      MovedThenRecorded(s, s0, View(), fromIndex, count, toIndex, rec.Value());
    }

    // -------------------------------------------------------------------
    // dealRow

    /**
     * dealRow: refused when a column is empty. Otherwise one stock card,
     * turned face-up, goes onto each column from the first; if the stock runs
     * out part-way the cards dealt so far stay dealt, nothing is recorded and
     * false is returned. A full deal pushes a DEAL_ROW record, adds one move,
     * takes 5 from the score and extracts completed runs.
     */
    method DealRow() returns (ok: bool)
      requires Valid()
      modifies this, Piles(), Moves()
      ensures Valid() && (View(), ok) == DealRowOp(old(View()))
    {
      if !CanDeal(Columns(tableaux)) {
        return false;
      }
      ghost var s := View();
      if |tableaux| != TableauCount {
        // Before newGame there are no columns and no stock: the first pop gives null.
        assert s.stock == [] && DealRowOp(s) == (s, false);
        return false;
      }
      var dealt, full := DealCards();
      if !full {
        DealRowKeepsInv(s);
        return false;
      }
      FinishDeal(dealt, s);
      ok := true;
    }

    /** The rest of a full deal: the record, the metrics and the extraction pass. */
    method FinishDeal(dealt: seq<Card>, ghost s: State)
      requires Distinct() && Inv(s) && Started(s) && |s.stock| >= TableauCount
      requires dealt == DealtPrefix(s.stock, TableauCount)
      requires View() == DealtUpTo(s, TableauCount)
      modifies this, Piles()
      ensures Valid() && View() == ExtractAll(DealtState(s))
    {
      RecordDeal(dealt, s);
      DealRowInSteps(s, dealt);
      DealtStateKeepsInv(s);
      ExtractCompletedRuns();
    }

    /**
     * The dealing loop of dealRow: one stock card per column, from the
     * first, until the stock runs out. It stops early exactly when the stock
     * had fewer cards than there are columns.
     */
    method DealCards() returns (dealt: seq<Card>, full: bool)
      requires Distinct() && |tableaux| == TableauCount
      modifies Piles()
      ensures var st := old(View()).stock; var n := |dealt|;
        && n <= TableauCount && n <= |st| && (full <==> n == TableauCount) && (!full ==> n == |st|)
        && View() == DealtUpTo(old(View()), n) && dealt == DealtPrefix(st, n)
    {
      ghost var s := View();
      dealt := [];
      for i := 0 to TableauCount
        invariant i <= |s.stock| && |dealt| == i
        invariant View() == DealtUpTo(s, i)
        invariant dealt == DealtPrefix(s.stock, i)
      {
        var c := DealNext(i, s);
        if c == None {
          return dealt, false;
        }
        dealt := dealt + [c.value];
      }
      full := true;
    }

    /** One pass of the dealing loop, after `i` passes that each dealt a card. */
    method DealNext(i: nat, ghost s: State) returns (c: Option<Card>)
      requires Distinct() && i < |tableaux| == |s.tableaux| && i <= |s.stock|
      requires View() == DealtUpTo(s, i)
      modifies stock, tableaux[i]
      ensures c == None ==> i == |s.stock| && View() == DealtUpTo(s, i)
      ensures c != None ==> i < |s.stock| && c.value == DealtCard(s.stock, i) && View() == DealtUpTo(s, i + 1)
    {
      c := DealToColumn(i);
      if c != None {
        DealStep(s, i);
      }
    }

    /** The bookkeeping of a full deal: a DEAL_ROW record of the dealt cards, one move more, five points less. */
    method RecordDeal(dealt: seq<Card>, ghost s: State)
      requires TableauCount <= |s.tableaux| && TableauCount <= |s.stock|
      requires View() == DealtUpTo(s, TableauCount)
      modifies this
      ensures tableaux == old(tableaux) && foundations == old(foundations)
      ensures View() == Tallied(Logged(DealtUpTo(s, TableauCount), Record(MoveType.DealRow, -1, -1, TableauCount, dealt, false, -1, false)),
                                s.moveCount + 1, s.score - 5)
    {
      ghost var s0 := View();
      var rec := new Move(MoveType.DealRow, -1, -1, TableauCount, dealt);
      assert View() == s0;
      PushRecord(rec);
      SetMetrics(moveCount + 1, score - 5);
      DealtThenRecorded(s, View(), rec.Value());
    }

    // -------------------------------------------------------------------
    // extractCompletedRuns

    /** extractCompletedRuns: every column, left to right, is checked once. */
    method ExtractCompletedRuns()
      requires Valid() && Started(View())
      modifies this, Piles()
      ensures tableaux == old(tableaux) && foundations == old(foundations)
      ensures Valid() && View() == ExtractAll(old(View()))
    {
      var i := 0;
      while i < TableauCount
        invariant 0 <= i <= TableauCount
        invariant tableaux == old(tableaux) && foundations == old(foundations)
        invariant Valid() && View() == ExtractUpTo(old(View()), i)
      {
        ExtractColumn(i);
        i := i + 1;
      }
    }

    /** One pass of the extraction loop, on column `i`. */
    method ExtractColumn(i: nat)
      requires Valid() && Started(View()) && i < TableauCount
      modifies this, Piles()
      ensures tableaux == old(tableaux) && foundations == old(foundations)
      ensures Valid() && View() == ExtractAt(old(View()), i)
    {
      var t := tableaux[i];
      if |t.cards| >= 13 {
        var tail := t.cards[|t.cards| - 13..];
        var ok := ScanBlock(tail);
        if ok && tail[0].rank == 1 && tail[12].rank == 13 {
          ghost var s := View();
          assert Extracts(s, i);
          MoveBlock(i);
          ExtractAtKeepsInv(s, i);
        }
      }
    }

    /** The extraction branch: the tail is cleared, placed, recorded, and the column's top turned up. */
    method MoveBlock(i: nat)
      requires Distinct() && Started(View()) && i < TableauCount && |tableaux[i].cards| >= 13
      modifies this, Piles()
      ensures tableaux == old(tableaux) && foundations == old(foundations)
      ensures View() == Extracted(old(View()), i)
    {
      ghost var s := View();
      var t := tableaux[i];
      var extracted := t.cards[|t.cards| - 13..];
      CutColumn(i, |t.cards| - 13);
      PlaceBlock(extracted);
      RecordExtraction(i, extracted);
      FlipColumn(i);
      ExtractedInSteps(s, i);
    }

    /** undo.push(new Move(EXTRACT_RUN, i, -1, 13, extracted)). */
    method RecordExtraction(i: nat, extracted: seq<Card>)
      modifies this
      ensures tableaux == old(tableaux) && foundations == old(foundations)
      ensures View() == Logged(old(View()), Record(MoveType.ExtractRun, i, -1, 13, extracted, false, -1, false))
    {
      ghost var s0 := View();
      var rec := new Move(MoveType.ExtractRun, i, -1, 13, extracted);
      assert View() == s0;
      PushRecord(rec);
    }

    /** The foundation loop of extractCompletedRuns: the block goes onto the first empty foundation. */
    method PlaceBlock(block: seq<Card>)
      requires Distinct()
      modifies Piles()
      ensures View() == Placed(old(View()), block)
    {
      ghost var s := View();
      var j := 0;
      while j < |foundations|
        invariant 0 <= j <= |foundations|
        invariant View() == s
        invariant FirstEmptyFrom(s.foundations, 0) == FirstEmptyFrom(s.foundations, j)
      {
        if foundations[j].IsEmpty() {
          AddToFoundation(j, block);
          return;
        }
        j := j + 1;
      }
    }

    // -------------------------------------------------------------------
    // undo

    /**
     * undo: false on an empty deque. Otherwise the latest record is popped
     * and inverted according to its kind, the move count falls by one but
     * not below 0, and the score rises by one.
     */
    method Undo() returns (ok: bool)
      requires Valid()
      modifies this, Piles()
      ensures Valid() && (View(), ok) == UndoOp(old(View()))
    {
      if log == [] {
        return false;
      }
      UndoLatest();
      ok := true;
    }

    /** The non-empty case of undo. */
    method UndoLatest()
      requires Valid() && log != []
      modifies this, Piles()
      ensures Valid() && View() == UndoOp(old(View())).0
    {
      ghost var s := View();
      UndoInSteps(s);
      var m := PopRecord();
      Revert(m, s.log[0]);
      CountUndo(UndoOp(s).0);
    }

    /** The metrics of undo: one move less, but not below 0, and one point more. */
    method CountUndo(ghost next: State)
      requires Distinct() && next == Tallied(View(), Max(0, View().moveCount - 1), View().score + 1) && Inv(next)
      modifies this
      ensures Valid() && View() == next
    {
      moveCount := Max(0, moveCount - 1);
      score := score + 1;
    }

    /** The switch of undo on the kind of the popped record. */
    method Revert(m: Move, ghost mv: Record)
      requires Distinct() && Started(View()) && mv == m.Value() && RecordOk(mv)
      modifies Piles()
      ensures View() == Reverted(old(View()), mv)
    {
      if m.kind == MoveType.MoveRun {
        UndoMove(m);
      } else if m.kind == MoveType.DealRow {
        UndoDeal();
      } else {
        UndoExtraction(m);
      }
    }

    /** The MOVE_RUN case of undo. */
    method UndoMove(m: Move)
      requires Distinct() && Started(View()) && m.kind == MoveType.MoveRun && RecordOk(m.Value())
      modifies Piles()
      ensures View() == UndoMoveRun(old(View()), m.Value())
    {
      ghost var s, mv := View(), m.Value();
      var run := m.payload;
      assert mv.payload == run && mv.toIndex == m.toIndex && mv.fromIndex == m.fromIndex;
      PopColumnTimes(m.toIndex, |run|);
      ghost var s0 := View();
      assert s0 == Cut(s, mv.toIndex, Max(0, |s.tableaux[mv.toIndex]| - |mv.payload|));
      PushAllToColumn(m.fromIndex, run);
      ghost var s1 := View();
      assert s1 == Appended(s0, mv.fromIndex, mv.payload);
      RestoreFlags(m);
      UndoMoveRunInSteps(s, mv, s1);
    }

    /** The two flag changes of the MOVE_RUN case: the source's top up, and the card the move revealed down again. */
    method RestoreFlags(m: Move)
      requires Distinct() && m.kind == MoveType.MoveRun && 0 <= m.fromIndex < |tableaux| && m.count >= 0
      modifies tableaux[m.fromIndex]
      ensures View() == RestoredFlags(old(View()), m.Value())
    {
      RestoreSource(tableaux[m.fromIndex], m.count, m.flippedAfterMove);
    }

    /** The DEAL_ROW case of undo: from the last column down, each top card goes back to the stock face-down. */
    method UndoDeal()
      requires Distinct() && Started(View())
      modifies Piles()
      ensures View() == UndoDealRow(old(View()))
    {
      ghost var s := View();
      var i := TableauCount;
      while i > 0
        invariant 0 <= i <= TableauCount
        invariant View() == UndealtDownTo(s, i)
      {
        i := i - 1;
        UndealColumn(i);
      }
      UndealtDownToAll(s);
    }

    /** The EXTRACT_RUN case of undo. */
    method UndoExtraction(m: Move)
      requires Distinct() && Started(View()) && m.kind == MoveType.ExtractRun && RecordOk(m.Value())
      modifies Piles()
      ensures View() == UndoExtract(old(View()), m.Value())
    {
      ghost var s, mv := View(), m.Value();
      var run := m.payload;
      assert mv.payload == run && mv.fromIndex == m.fromIndex;
      DropFoundationRun();
      ghost var s1 := View();
      RestackColumn(m.fromIndex, run);
      UndoExtractInSteps(s, mv, s1);
    }

    /** The first half of undoing an extraction: the last non-empty foundation loses up to 13 cards. */
    method DropFoundationRun()
      requires Distinct()
      modifies Piles()
      ensures View() == Drained(old(View()))
    {
      ghost var s := View();
      var j := LastNonEmptyFoundation();
      assert j == LastNonEmptyBelow(s.foundations, |s.foundations|);
      if j >= 0 {
        PopFoundationTimes(j, 13);
      }
    }

    /** The search of undo for the last non-empty foundation. */
    method LastNonEmptyFoundation() returns (j: int)
      ensures j == LastNonEmptyBelow(Columns(foundations), |foundations|)
    {
      ghost var f := Columns(foundations);
      var i := |foundations| - 1;
      while i >= 0
        invariant -1 <= i < |foundations|
        invariant LastNonEmptyBelow(f, |foundations|) == LastNonEmptyBelow(f, i + 1)
      {
        if !foundations[i].IsEmpty() {
          return i;
        }
        i := i - 1;
      }
      return -1;
    }

    // -------------------------------------------------------------------
    // Single statements, each shown on the value of the game

    /** from.takeTop(count), to.addRun(run), from.flipTopUpIfNeeded(). */
    method MoveColumns(from: nat, count: nat, to: nat) returns (run: seq<Card>)
      requires Distinct() && from < |tableaux| && to < |tableaux| && from != to
      requires count <= |tableaux[from].cards|
      modifies tableaux[from], tableaux[to]
      ensures var t := old(View()).tableaux[from];
        run == t[|t| - count..] && View() == Moved(old(View()), from, count, to)
    {
      ghost var s := View();
      run := TakeFromColumn(from, count);
      AddToColumn(to, run);
      FlipColumn(from);
      MovedInSteps(s, from, count, to);
    }

    method TakeFromColumn(i: nat, count: nat) returns (run: seq<Card>)
      requires Distinct() && i < |tableaux| && count <= |tableaux[i].cards|
      modifies tableaux[i]
      ensures var t := old(View()).tableaux[i];
        run == t[|t| - count..] && View() == Cut(old(View()), i, |t| - count)
    {
      run := tableaux[i].TakeTop(count);
    }

    method DealToColumn(i: nat) returns (c: Option<Card>)
      requires Distinct() && i < |tableaux|
      modifies stock, tableaux[i]
      ensures var st := old(View()).stock;
        if st == [] then c == None && View() == old(View())
        else c == Some(Last(st).SetFaceUp(true)) && View() == DealtOne(old(View()), i)
    {
      c := DealOne(stock, tableaux[i]);
    }

    method UndealColumn(i: nat)
      requires Distinct() && i < |tableaux|
      modifies stock, tableaux[i]
      ensures View() == UndealtOne(old(View()), i)
    {
      UndealOne(tableaux[i], stock);
    }

    method RestackColumn(i: nat, run: seq<Card>)
      requires Distinct() && i < |tableaux| && run != []
      modifies tableaux[i]
      ensures View() == Restacked(old(View()), i, run)
    {
      Restack(tableaux[i], run);
    }

    method AddToColumn(i: nat, run: seq<Card>)
      requires Distinct() && i < |tableaux|
      modifies tableaux[i]
      ensures View() == Appended(old(View()), i, run)
    {
      tableaux[i].AddRun(run);
    }

    method PushAllToColumn(i: nat, run: seq<Card>)
      requires Distinct() && i < |tableaux|
      modifies tableaux[i]
      ensures View() == Appended(old(View()), i, run)
    {
      PushAll(tableaux[i], run);
    }


    method CutColumn(i: nat, n: nat)
      requires Distinct() && i < |tableaux| && n <= |tableaux[i].cards|
      modifies tableaux[i]
      ensures View() == Cut(old(View()), i, n)
    {
      tableaux[i].cards := tableaux[i].cards[..n];
    }


    method PopColumnTimes(i: nat, n: nat)
      requires Distinct() && i < |tableaux|
      modifies tableaux[i]
      ensures View() == Cut(old(View()), i, Max(0, |old(View()).tableaux[i]| - n))
    {
      PopTimes(tableaux[i], n);
    }

    method FlipColumn(i: nat)
      requires Distinct() && i < |tableaux|
      modifies tableaux[i]
      ensures View() == Flipped(old(View()), i)
    {
      tableaux[i].FlipTopUpIfNeeded();
    }


    method AddToFoundation(j: nat, run: seq<Card>)
      requires Distinct() && j < |foundations|
      modifies foundations[j]
      ensures var f := old(View()).foundations; View() == old(View()).(foundations := f[j := f[j] + run])
    {
      foundations[j].AddRun(run);
    }

    method PopFoundationTimes(j: nat, n: nat)
      requires Distinct() && j < |foundations|
      modifies foundations[j]
      ensures View() == FoundationCut(old(View()), j, Max(0, |old(View()).foundations[j]| - n))
    {
      PopTimes(foundations[j], n);
    }

    /** newGame's stock.push of each card left in the deck: they go on top of the old stock, in order. */
    method PushAllToStock(run: seq<Card>)
      requires Distinct()
      modifies stock
      ensures View() == old(View()).(stock := old(View()).stock + run)
    {
      PushAll(stock, run);
    }

    /** undo.push(rec): the record's value goes to the head of the log. */
    method PushRecord(rec: Move)
      requires rec !in log
      modifies this
      ensures tableaux == old(tableaux) && foundations == old(foundations) && log == [rec] + old(log)
      ensures View() == Logged(old(View()), rec.Value())
    {
      log := [rec] + log;
      assert log[1..] == old(log);
    }

    /** undo.pop(): the latest record leaves the log. */
    method PopRecord() returns (m: Move)
      requires log != []
      modifies this
      ensures tableaux == old(tableaux) && foundations == old(foundations) && log == old(log)[1..]
      ensures m.Value() == old(View()).log[0] && View() == Unlogged(old(View()))
    {
      m := log[0];
      log := log[1..];
    }

    method SetMetrics(newMoveCount: int, newScore: int)
      modifies this
      ensures tableaux == old(tableaux) && foundations == old(foundations) && log == old(log)
      ensures View() == Tallied(old(View()), newMoveCount, newScore)
    {
      moveCount := newMoveCount;
      score := newScore;
    }
  }
}
