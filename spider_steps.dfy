// The single statements of the Spider engine (spider/engine/SpiderGame.java)
// as changes to the value of the game: each touches one pile, the undo
// deque or the metrics. The lemmas here show that the statements of each
// operation, in the order the engine runs them, compose to the function of
// SpiderState that specifies the operation.

module SpiderSteps {
  import opened Util
  import opened Core
  import opened Cards
  import opened SpiderPiles
  import opened SpiderMoves
  import opened SpiderRules
  import opened SpiderState
  import opened SpiderLaws

  /** Column `i` cut down to its first `n` cards. */
  function Cut(s: State, i: nat, n: nat): State
    requires i < |s.tableaux| && n <= |s.tableaux[i]|
  {
    s.(tableaux := s.tableaux[i := s.tableaux[i][..n]])
  }

  /** Column `i` with `run` added on top. */
  function Appended(s: State, i: nat, run: seq<Card>): State
    requires i < |s.tableaux|
  {
    s.(tableaux := s.tableaux[i := s.tableaux[i] + run])
  }

  /** flipTopUpIfNeeded on column `i`. */
  function Flipped(s: State, i: nat): State
    requires i < |s.tableaux|
  {
    s.(tableaux := s.tableaux[i := FlippedTop(Tableau, s.tableaux[i])])
  }

  /** Foundation `j` cut down to its first `n` cards. */
  function FoundationCut(s: State, j: nat, n: nat): State
    requires j < |s.foundations| && n <= |s.foundations[j]|
  {
    s.(foundations := s.foundations[j := s.foundations[j][..n]])
  }

  /** The last non-empty foundation, if there is one, cut down by up to 13 cards. */
  function Drained(s: State): State
  {
    var f := s.foundations;
    var j := LastNonEmptyBelow(f, |f|);
    if j >= 0 then FoundationCut(s, j, Max(0, |f[j]| - 13)) else s
  }

  /** `block` added to the first empty foundation, if there is one. */
  function Placed(s: State, block: seq<Card>): State
  {
    var f := s.foundations;
    var j := FirstEmptyFrom(f, 0);
    s.(foundations := if j >= 0 then f[j := f[j] + block] else f)
  }

  /** `rec` pushed onto the undo deque. */
  function Logged(s: State, rec: Record): State
  {
    s.(log := [rec] + s.log)
  }

  /** The latest record popped off the undo deque. */
  function Unlogged(s: State): State
    requires s.log != []
  {
    s.(log := s.log[1..])
  }

  /** New values of the two metrics. */
  function Tallied(s: State, moveCount: int, score: int): State
  {
    s.(moveCount := moveCount, score := score)
  }

  /** The top `count` cards of column `from` moved onto column `to`, the source's top turned up. */
  function Moved(s: State, from: int, count: int, to: int): State
    requires 0 <= from < |s.tableaux| && 0 <= to < |s.tableaux| && 0 <= count <= |s.tableaux[from]|
  {
    s.(tableaux := MovedColumns(s.tableaux, from, count, to))
  }

  /** The stock's top card, turned face-up, pushed onto column `i`. */
  function DealtOne(s: State, i: nat): State
    requires i < |s.tableaux| && s.stock != []
  {
    s.(tableaux := s.tableaux[i := s.tableaux[i] + [Last(s.stock).SetFaceUp(true)]], stock := DropLast(s.stock))
  }

  /** Column `i`'s top card, if any, turned face-down and pushed onto the stock. */
  function UndealtOne(s: State, i: nat): State
    requires i < |s.tableaux|
  {
    var c := s.tableaux[i];
    s.(tableaux := s.tableaux[i := c[..Max(0, |c| - 1)]],
       stock := s.stock + (if c != [] then [Last(c).SetFaceUp(false)] else []))
  }

  /** `run` added to column `i` and the new top turned face-up. */
  function Restacked(s: State, i: nat, run: seq<Card>): State
    requires i < |s.tableaux| && run != []
  {
    s.(tableaux := s.tableaux[i := TopFaceUp(s.tableaux[i] + run)])
  }

  /** The first `i` passes of the dealing loop: columns 0..i-1 have one more card, the stock `i` fewer. */
  function DealtUpTo(s: State, i: nat): State
    requires i <= |s.tableaux| && i <= |s.stock|
  {
    s.(tableaux := DealInto(s.tableaux, s.stock, i), stock := s.stock[..|s.stock| - i])
  }

  /** The downward loop of undo of a deal after it has visited columns 9 down to `i`. */
  function UndealtDownTo(s: State, i: nat): (r: State)
    requires i <= TableauCount <= |s.tableaux|
    decreases TableauCount - i
    ensures |r.tableaux| == |s.tableaux|
  {
    if i == TableauCount then s else UndealtOne(UndealtDownTo(s, i + 1), i)
  }

  /** The cards the first `n` passes of the dealing loop hand out, in order. */
  function DealtPrefix(stock: seq<Card>, n: nat): (r: seq<Card>)
    requires n <= |stock|
    ensures |r| == n && forall j :: 0 <= j < n ==> r[j] == DealtCard(stock, j)
  {
    if n == 0 then [] else DealtPrefix(stock, n - 1) + [DealtCard(stock, n - 1)]
  }

  /** The inversion of one record, by its kind. */
  function Reverted(s: State, m: Record): State
    requires Started(s) && RecordOk(m)
  {
    match m.kind
    case MoveRun => UndoMoveRun(s, m)
    case DealRow => UndoDealRow(s)
    case ExtractRun => UndoExtract(s, m)
  }

  // ---------------------------------------------------------------------
  // Composition

  /** One more pass of the dealing loop. */
  lemma DealStep(s: State, i: nat)
    requires i < |s.tableaux| && i < |s.stock|
    ensures DealtUpTo(s, i).stock != [] && DealtOne(DealtUpTo(s, i), i) == DealtUpTo(s, i + 1)
    ensures Last(DealtUpTo(s, i).stock).SetFaceUp(true) == DealtCard(s.stock, i)
  {
    DealIntoAt(s.tableaux, s.stock, i, i);
    assert DropLast(s.stock[..|s.stock| - i]) == s.stock[..|s.stock| - (i + 1)];
  }

  /** The four statements of the extraction branch compose to Extracted. */
  lemma ExtractedInSteps(s: State, i: nat)
    requires i < |s.tableaux| && |s.tableaux[i]| >= 13
    ensures var t := s.tableaux[i]; var block := t[|t| - 13..];
      Flipped(Logged(Placed(Cut(s, i, |t| - 13), block), Record(ExtractRun, i, -1, 13, block, false, -1, false)), i)
      == Extracted(s, i)
  {
  }

  /** takeTop, addRun and flipTopUpIfNeeded compose to Moved. */
  lemma MovedInSteps(s: State, from: nat, count: nat, to: nat)
    requires from < |s.tableaux| && to < |s.tableaux| && from != to && count <= |s.tableaux[from]|
    ensures var t := s.tableaux[from]; var n := |t| - count;
      Flipped(Appended(Cut(s, from, n), to, t[n..]), from) == Moved(s, from, count, to)
  {
  }

  /** undo pops the latest record, inverts it, then counts one move less (not below 0) and one point more. */
  lemma UndoInSteps(s: State)
    requires Inv(s) && s.log != []
    ensures Started(Unlogged(s)) && RecordOk(s.log[0])
    ensures var s2 := Reverted(Unlogged(s), s.log[0]);
      UndoOp(s) == (Tallied(s2, Max(0, s2.moveCount - 1), s2.score + 1), true) && Inv(UndoOp(s).0)
  {
    UndoKeepsInv(s);
  }

  /** The states moveRun passes through before extraction: the cards moved, then the record and the metrics. */
  lemma MovedThenRecorded(s: State, s1: State, s2: State, from: int, count: int, to: int, r: Record)
    requires 0 <= from < |s.tableaux| && 0 <= to < |s.tableaux| && 0 <= count <= |s.tableaux[from]|
    requires s1 == Moved(s, from, count, to)
    requires s2 == Tallied(Logged(s1, r), s1.moveCount + 1, s1.score - 1)
    ensures s2 == Tallied(Logged(Moved(s, from, count, to), r), s.moveCount + 1, s.score - 1)
  {
  }

  /** The states a full deal passes through before extraction: the cards dealt, then the record and the metrics. */
  lemma DealtThenRecorded(s: State, s2: State, r: Record)
    requires TableauCount <= |s.tableaux| && TableauCount <= |s.stock|
    requires var s1 := DealtUpTo(s, TableauCount); s2 == Tallied(Logged(s1, r), s1.moveCount + 1, s1.score - 5)
    ensures s2 == Tallied(Logged(DealtUpTo(s, TableauCount), r), s.moveCount + 1, s.score - 5)
  {
  }

  /** What moveRun has done before extraction is MoveRunCore, and keeps the invariant. */
  lemma MoveRunAssembled(s: State, s1: State, from: int, count: int, to: int, run: seq<Card>, willReveal: bool)
    requires Inv(s) && Started(s) && 0 <= from < TableauCount && 0 <= to < TableauCount
    requires CanMove(s.tableaux[from], count, s.tableaux[to])
    requires var src := s.tableaux[from]; var start := |src| - count;
      run == src[start..] && willReveal == (start >= 1 && !src[start - 1].faceUp)
    requires s1 == Tallied(Logged(Moved(s, from, count, to), Record(MoveRun, from, to, count, run, willReveal, -1, false)),
                           s.moveCount + 1, s.score - 1)
    ensures s1 == MoveRunCore(s, from, count, to) && Inv(s1)
  {
    MoveRunInSteps(s, from, count, to);
    MoveRunCoreKeepsInv(s, from, count, to);
  }

  /** The move of the cards, the record and the metrics compose to MoveRunCore. */
  lemma MoveRunInSteps(s: State, from: int, count: int, to: int)
    requires Started(s) && 0 <= from < TableauCount && 0 <= to < TableauCount
    requires CanMove(s.tableaux[from], count, s.tableaux[to])
    ensures var src := s.tableaux[from];
      Tallied(Logged(Moved(s, from, count, to), MoveRecord(src, from, count, to)), s.moveCount + 1, s.score - 1)
      == MoveRunCore(s, from, count, to)
  {
  }

  /** The ten passes of a full deal, the record and the metrics compose to DealtState. */
  lemma DealRowInSteps(s: State, dealt: seq<Card>)
    requires Started(s) && |s.stock| >= TableauCount
    requires dealt == DealtPrefix(s.stock, TableauCount)
    ensures Tallied(Logged(DealtUpTo(s, TableauCount), Record(DealRow, -1, -1, TableauCount, dealt, false, -1, false)),
                    s.moveCount + 1, s.score - 5)
      == DealtState(s)
  {
    assert dealt == seq(TableauCount, j requires 0 <= j < TableauCount => DealtCard(s.stock, j));
  }

  /**
   * The pops off the destination, the pushes onto the source and the two
   * flag changes compose to UndoMoveRun.
   */
  lemma UndoMoveRunInSteps(s: State, m: Record, s1: State)
    requires Started(s) && m.kind == MoveRun && RecordOk(m)
    requires s1 == Appended(Cut(s, m.toIndex, Max(0, |s.tableaux[m.toIndex]| - |m.payload|)), m.fromIndex, m.payload)
    ensures RestoredFlags(s1, m) == UndoMoveRun(s, m)
  {
  }

  /** The source column with its top turned up and, when the move revealed a card, that card turned down again. */
  function RestoredFlags(s: State, m: Record): State
    requires 0 <= m.fromIndex < |s.tableaux| && m.count >= 0
  {
    s.(tableaux := s.tableaux[m.fromIndex := RestoredSource(s.tableaux[m.fromIndex], m.count, m.flippedAfterMove)])
  }

  /** Popping 13 cards off the last non-empty foundation, then putting the run back on its column, is UndoExtract. */
  lemma UndoExtractInSteps(s: State, m: Record, s1: State)
    requires Started(s) && m.kind == ExtractRun && RecordOk(m)
    requires s1 == Drained(s)
    ensures Restacked(s1, m.fromIndex, m.payload) == UndoExtract(s, m)
  {
  }

  /** The columns from `i` on (up to the tenth) have lost their top card; those before `i` are untouched. */
  function UndealtFrom(t: seq<seq<Card>>, i: nat): (r: seq<seq<Card>>)
    ensures |r| == |t|
  {
    seq(|t|, j requires 0 <= j < |t| => if i <= j < TableauCount && t[j] != [] then DropLast(t[j]) else t[j])
  }

  /** The downward loop of undo of a deal, one column: the pop. */
  lemma UndealColumnStep(t: seq<seq<Card>>, i: nat)
    requires i < TableauCount <= |t|
    ensures var u := UndealtFrom(t, i + 1);
      u[i] == t[i] && u[i := u[i][..Max(0, |t[i]| - 1)]] == UndealtFrom(t, i)
  {
    var u := UndealtFrom(t, i + 1);
    if t[i] != [] {
      assert u[i][..|t[i]| - 1] == DropLast(t[i]);
    }
  }

  /** The downward loop of undo of a deal, one column: the card handed back to the stock. */
  lemma ReturnedStep(t: seq<seq<Card>>, i: nat)
    requires i < |t|
    ensures Returned(t[..i + 1]) == (if t[i] != [] then [Last(t[i]).SetFaceUp(false)] else []) + Returned(t[..i])
  {
    assert DropLast(t[..i + 1]) == t[..i];
  }

  /** After visiting columns 9 down to `i` the columns from `i` on have lost their tops; nothing but the stock changed besides. */
  lemma {:induction false} UndealtDownToColumns(s: State, i: nat)
    requires i <= TableauCount == |s.tableaux|
    decreases TableauCount - i
    ensures UndealtDownTo(s, i) == s.(tableaux := UndealtFrom(s.tableaux, i), stock := UndealtDownTo(s, i).stock)
  {
    if i == TableauCount {
      assert UndealtFrom(s.tableaux, i) == s.tableaux;
    } else {
      UndealtDownToColumns(s, i + 1);
      UndealColumnStep(s.tableaux, i);
    }
  }

  /** After visiting columns 9 down to `i` the stock holds the tops of the columns from `i` on, last column first. */
  lemma {:induction false} UndealtDownToStock(s: State, i: nat)
    requires i <= TableauCount == |s.tableaux|
    decreases TableauCount - i
    ensures UndealtDownTo(s, i).stock + Returned(s.tableaux[..i]) == s.stock + Returned(s.tableaux)
  {
    if i == TableauCount {
      assert s.tableaux[..i] == s.tableaux;
    } else {
      UndealtDownToStock(s, i + 1);
      UndealtDownToColumns(s, i + 1);
      ReturnedStep(s.tableaux, i);
      var v := UndealtDownTo(s, i + 1);
      var c := s.tableaux[i];
      var back := if c != [] then [Last(c).SetFaceUp(false)] else [];
      assert v.tableaux[i] == c;
      assert UndealtDownTo(s, i).stock == v.stock + back;
      Regrouped(v.stock, back, Returned(s.tableaux[..i]));
    }
  }

  lemma Regrouped(a: seq<Card>, b: seq<Card>, c: seq<Card>)
    ensures a + b + c == a + (b + c)
  {
  }

  /** The downward loop, run to the end, is UndoDealRow. */
  lemma UndealtDownToAll(s: State)
    requires Started(s)
    ensures UndealtDownTo(s, 0) == UndoDealRow(s)
  {
    UndealtDownToColumns(s, 0);
    UndealtDownToStock(s, 0);
    assert s.tableaux[..0] == [];
    assert UndealtFrom(s.tableaux, 0) == UndealtColumns(s.tableaux);
  }
}
