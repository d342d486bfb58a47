// What the Spider operations promise, proved about the functions of
// SpiderState: the invariant they keep, the round trips with undo, card
// conservation, the layout of a new game, and the behaviours of the engine
// that a player would not expect.

module SpiderLaws {
  import opened Util
  import opened Core
  import opened Cards
  import opened SpiderPiles
  import opened SpiderMoves
  import opened SpiderRules
  import opened SpiderState

  /** moveRun returns true exactly when canMove accepts; when it refuses, nothing changes. */
  lemma MoveRunSucceedsIff(s: State, from: int, count: int, to: int)
    requires Started(s) && 0 <= from < TableauCount && 0 <= to < TableauCount
    ensures MoveRunOp(s, from, count, to).1 <==> CanMove(s.tableaux[from], count, s.tableaux[to])
    ensures !CanMove(s.tableaux[from], count, s.tableaux[to]) ==> MoveRunOp(s, from, count, to).0 == s
  {
  }

  // ---------------------------------------------------------------------
  // The invariant

  lemma MoveRunCoreKeepsInv(s: State, from: int, count: int, to: int)
    requires Inv(s) && Started(s) && 0 <= from < TableauCount && 0 <= to < TableauCount
    requires CanMove(s.tableaux[from], count, s.tableaux[to])
    ensures Inv(MoveRunCore(s, from, count, to))
  {
    if from == to {
      NotOntoItself(s.tableaux[from], count);
    }
    var r := MoveRunCore(s, from, count, to);
    assert r.log[0].count == |r.log[0].payload|;
    assert forall k :: 1 <= k < |r.log| ==> r.log[k] == s.log[k - 1];
  }

  lemma ExtractAtKeepsInv(s: State, i: nat)
    requires Inv(s) && Started(s) && i < TableauCount
    ensures Inv(ExtractAt(s, i))
  {
    var r := ExtractAt(s, i);
    if r != s {
      assert forall k :: 1 <= k < |r.log| ==> r.log[k] == s.log[k - 1];
      var j := FirstEmptyFrom(s.foundations, 0);
      if j >= 0 {
        var f, f' := s.foundations, r.foundations;
        forall a, b | 0 <= a < b < |f'| && f'[b] != []
          ensures f'[a] != []
        {
          if b != j {
            assert f[b] != [];
          }
        }
      }
    }
  }

  lemma {:induction false} ExtractUpToKeepsInv(s: State, n: nat)
    requires Inv(s) && Started(s) && n <= TableauCount
    ensures Inv(ExtractUpTo(s, n))
  {
    if n > 0 {
      ExtractUpToKeepsInv(s, n - 1);
      ExtractAtKeepsInv(ExtractUpTo(s, n - 1), n - 1);
    }
  }

  /** moveRun keeps the invariant. */
  lemma MoveRunKeepsInv(s: State, from: int, count: int, to: int)
    requires Inv(s) && Started(s) && 0 <= from < TableauCount && 0 <= to < TableauCount
    ensures Inv(MoveRunOp(s, from, count, to).0)
  {
    if CanMove(s.tableaux[from], count, s.tableaux[to]) {
      MoveRunCoreKeepsInv(s, from, count, to);
      ExtractUpToKeepsInv(MoveRunCore(s, from, count, to), |s.tableaux|);
    }
  }

  // ---------------------------------------------------------------------
  // Extraction and the log

  /** Each extraction pushes one record; when none was pushed the state is untouched. */
  lemma {:induction false} ExtractUpToLog(s: State, n: nat)
    requires n <= |s.tableaux|
    ensures |ExtractUpTo(s, n).log| >= |s.log|
    ensures |ExtractUpTo(s, n).log| == |s.log| ==> ExtractUpTo(s, n) == s
  {
    if n > 0 {
      ExtractUpToLog(s, n - 1);
    }
  }

  // ---------------------------------------------------------------------
  // Round trips with undo

  /** Putting a run back and hiding the revealed card again gives the column back. */
  lemma UnflipRestores(src: seq<Card>, count: int)
    requires 1 <= count <= |src| && Last(src).faceUp
    ensures
      var start := |src| - count;
      RestoredSource(FlippedTop(Tableau, src[..start]) + src[start..], count,
                     start >= 1 && !src[start - 1].faceUp) == src
  {
    var start := |src| - count;
    var run := src[start..];
    var back := FlippedTop(Tableau, src[..start]) + run;
    assert Last(back) == Last(run) == Last(src);
    assert Last(src).SetFaceUp(true) == Last(src);
    var b1 := TopFaceUp(back);
    assert b1 == back;
    if start >= 1 && !src[start - 1].faceUp {
      var r := b1[start - 1 := b1[start - 1].SetFaceUp(false)];
      assert forall k :: 0 <= k < |src| ==> r[k] == src[k];
    } else {
      assert forall k :: 0 <= k < |src| ==> b1[k] == src[k];
    }
  }

  /** Popping as many cards as were pushed leaves the pile as it was. */
  lemma PopRunRestores(x: seq<Card>, run: seq<Card>)
    ensures (x + run)[..Max(0, |x + run| - |run|)] == x
  {
    assert (x + run)[..|x|] == x;
  }

  /** Popping the moved run off the destination leaves only the source changed. */
  lemma PopAfterMove(t: seq<seq<Card>>, from: int, count: int, to: int)
    requires 0 <= from < |t| && 0 <= to < |t| && from != to && 0 <= count <= |t[from]|
    ensures
      var moved := MovedColumns(t, from, count, to);
      var dest := moved[to];
      moved[to := dest[..Max(0, |dest| - count)]] == t[from := FlippedTop(Tableau, t[from][..|t[from]| - count])]
  {
    var src := t[from];
    var run := src[|src| - count..];
    PopRunRestores(t[to], run);
  }

  /** The columns after undoing a move are the columns before it. */
  lemma UndoMoveTableaux(t: seq<seq<Card>>, from: int, count: int, to: int)
    requires 0 <= from < |t| && 0 <= to < |t| && from != to
    requires 1 <= count <= |t[from]| && Last(t[from]).faceUp
    ensures UndoneColumns(MovedColumns(t, from, count, to), MoveRecord(t[from], from, count, to)) == t
  {
    var src := t[from];
    var start := |src| - count;
    var top := FlippedTop(Tableau, src[..start]);
    var m := MoveRecord(src, from, count, to);
    var moved := MovedColumns(t, from, count, to);
    var dest := moved[to];
    var t1 := moved[to := dest[..Max(0, |dest| - |m.payload|)]];
    assert t1 == t[from := top] by {
      PopAfterMove(t, from, count, to);
    }
    assert RestoredSource(top + m.payload, count, m.flippedAfterMove) == src by {
      UnflipRestores(src, count);
    }
    assert UndoneColumns(moved, m) == t1[from := src];
  }

  /** The record a move pushes, undone, gives back the columns. */
  lemma UndoMoveRecord(s: State, from: int, count: int, to: int)
    requires Started(s) && 0 <= from < TableauCount && 0 <= to < TableauCount
    requires CanMove(s.tableaux[from], count, s.tableaux[to])
    ensures
      var c := MoveRunCore(s, from, count, to);
      RecordOk(c.log[0]) && UndoMoveRun(c.(log := s.log), c.log[0]).tableaux == s.tableaux
  {
    var src := s.tableaux[from];
    assert from != to && 1 <= count <= |src| && Last(src).faceUp by {
      if from == to {
        NotOntoItself(s.tableaux[from], count);
      }
      CanMoveMeaning(s.tableaux[from], count, s.tableaux[to]);
      assert Last(src) == src[|src| - count..][count - 1];
    }
    UndoMoveTableaux(s.tableaux, from, count, to);
  }

  /** undo of the record a move has just pushed. */
  lemma UndoMoveRunCore(s: State, from: int, count: int, to: int)
    requires Inv(s) && Started(s) && 0 <= from < TableauCount && 0 <= to < TableauCount
    requires CanMove(s.tableaux[from], count, s.tableaux[to])
    ensures Inv(MoveRunCore(s, from, count, to))
    ensures UndoOp(MoveRunCore(s, from, count, to)) == (s, true)
  {
    MoveRunCoreKeepsInv(s, from, count, to);
    UndoMoveRecord(s, from, count, to);
    MoveRunCoreLog(s, from, count, to);
    UndoOfMove(MoveRunCore(s, from, count, to));
  }

  /** A move pushes one MOVE_RUN record on the log it found. */
  lemma MoveRunCoreLog(s: State, from: int, count: int, to: int)
    requires Started(s) && 0 <= from < TableauCount && 0 <= to < TableauCount
    requires CanMove(s.tableaux[from], count, s.tableaux[to])
    ensures MoveRunCore(s, from, count, to).log[1..] == s.log
    ensures MoveRunCore(s, from, count, to).log[0].kind == MoveRun
  {
  }

  /** undo of a DEAL_ROW record, unfolded. */
  lemma UndoOfDeal(e: State)
    requires Inv(e) && e.log != [] && e.log[0].kind == DealRow
    ensures var u := UndoDealRow(e.(log := e.log[1..]));
      UndoOp(e) == (u.(moveCount := Max(0, u.moveCount - 1), score := u.score + 1), true)
  {
  }

  /** undo of a MOVE_RUN record, unfolded. */
  lemma UndoOfMove(e: State)
    requires Inv(e) && e.log != [] && e.log[0].kind == MoveRun
    ensures RecordOk(e.log[0])
    ensures var u := UndoMoveRun(e.(log := e.log[1..]), e.log[0]);
      UndoOp(e) == (u.(moveCount := Max(0, u.moveCount - 1), score := u.score + 1), true)
  {
  }

  /**
   * undo right after a moveRun that completed no run restores the game
   * exactly, except that undo adds 1 to the score the move took 1 from.
   */
  lemma MoveRunThenUndo(s: State, from: int, count: int, to: int)
    requires Inv(s) && Started(s) && 0 <= from < TableauCount && 0 <= to < TableauCount
    requires CanMove(s.tableaux[from], count, s.tableaux[to])
    requires |MoveRunOp(s, from, count, to).0.log| == |s.log| + 1
    ensures Inv(MoveRunOp(s, from, count, to).0)
    ensures UndoOp(MoveRunOp(s, from, count, to).0) == (s, true)
  {
    var c := MoveRunCore(s, from, count, to);
    ExtractUpToLog(c, |s.tableaux|);
    UndoMoveRunCore(s, from, count, to);
  }

  // ---------------------------------------------------------------------
  // dealRow

  /** Column `j` after dealing to the first `n` columns. */
  lemma {:induction false} DealIntoAt(t: seq<seq<Card>>, stock: seq<Card>, n: nat, j: nat)
    requires n <= |t| && n <= |stock| && j < |t|
    ensures DealInto(t, stock, n)[j] == if j < n then t[j] + [DealtCard(stock, j)] else t[j]
  {
    if n > 0 {
      DealIntoAt(t, stock, n - 1, j);
    }
  }

  /** Dealing to the first `n` columns adds one card to each of them and leaves the rest. */
  lemma DealIntoColumns(t: seq<seq<Card>>, stock: seq<Card>, n: nat)
    requires n <= |t| && n <= |stock|
    ensures forall j :: 0 <= j < |t| ==>
              DealInto(t, stock, n)[j] == if j < n then t[j] + [DealtCard(stock, j)] else t[j]
  {
    forall j | 0 <= j < |t| {
      DealIntoAt(t, stock, n, j);
    }
  }

  /** dealRow reports success exactly when every column is occupied and the stock holds a full row. */
  lemma DealRowSucceedsIff(s: State)
    requires Inv(s)
    ensures DealRowOp(s).1 <==> CanDeal(s.tableaux) && |s.stock| >= TableauCount
  {
  }

  /** Dealing nothing: with an empty stock dealRow changes nothing. */
  lemma EmptyStockDealChangesNothing(s: State)
    requires Inv(s) && s.stock == []
    ensures DealRowOp(s) == (s, false)
  {
    if CanDeal(s.tableaux) {
      assert DealInto(s.tableaux, s.stock, 0) == s.tableaux;
    }
  }

  /** dealRow keeps the invariant. */
  lemma DealRowKeepsInv(s: State)
    requires Inv(s)
    ensures Inv(DealRowOp(s).0)
  {
    if CanDeal(s.tableaux) {
      var n := Min(TableauCount, |s.stock|);
      if !Started(s) {
        assert DealInto(s.tableaux, s.stock, n) == [];
      } else if n == TableauCount {
        DealtStateKeepsInv(s);
        ExtractUpToKeepsInv(DealtState(s), |s.tableaux|);
      }
    }
  }

  /**
   * A short stock is dealt out to the first columns and dealRow returns
   * false: no record is pushed and neither the move count nor the score
   * changes, so undo cannot take those cards back.
   */
  lemma PartialDealRecordsNothing(s: State)
    requires Inv(s) && CanDeal(s.tableaux) && 0 < |s.stock| < TableauCount
    ensures
      var (r, ok) := DealRowOp(s);
      && !ok
      && r.stock == [] && r.log == s.log && r.foundations == s.foundations
      && r.moveCount == s.moveCount && r.score == s.score
      && (forall j :: 0 <= j < TableauCount ==>
            r.tableaux[j] == s.tableaux[j] + (if j < |s.stock| then [DealtCard(s.stock, j)] else []))
  {
    DealIntoColumns(s.tableaux, s.stock, |s.stock|);
  }

  /** The cards a deal hands back on undo are the stock cards it dealt, in their old order. */
  lemma {:induction false} ReturnedDealt(t: seq<seq<Card>>, stock: seq<Card>, k: nat)
    requires |t| == TableauCount && TableauCount <= |stock| && StockFaceDown(stock) && k <= TableauCount
    ensures Returned(DealInto(t, stock, TableauCount)[..k]) == stock[|stock| - k..]
  {
    var d := DealInto(t, stock, TableauCount);
    var L := |stock|;
    if k > 0 {
      ReturnedDealt(t, stock, k - 1);
      assert DropLast(d[..k]) == d[..k - 1];
      assert Last(d[..k]) == d[k - 1];
      DealIntoAt(t, stock, TableauCount, k - 1);
      assert Last(d[k - 1]) == DealtCard(stock, k - 1);
      assert Last(d[k - 1]).SetFaceUp(false) == stock[L - k];
      assert [stock[L - k]] + stock[L - (k - 1)..] == stock[L - k..];
    }
  }

  lemma DealtStateKeepsInv(s: State)
    requires Inv(s) && Started(s) && |s.stock| >= TableauCount
    ensures Inv(DealtState(s))
  {
    var c := DealtState(s);
    assert forall k :: 1 <= k < |c.log| ==> c.log[k] == s.log[k - 1];
  }

  /** Taking the dealt card back off each column gives the old columns. */
  lemma UndealColumns(t: seq<seq<Card>>, stock: seq<Card>)
    requires |t| == TableauCount && TableauCount <= |stock|
    ensures UndealtColumns(DealInto(t, stock, TableauCount)) == t
  {
    var d := DealInto(t, stock, TableauCount);
    forall j | 0 <= j < |d|
      ensures d[j] != [] && DropLast(d[j]) == t[j]
    {
      DealIntoAt(t, stock, TableauCount, j);
      assert d[j] == t[j] + [DealtCard(stock, j)];
    }
  }

  /** The deal's own cards, undone, give back the columns and the stock. */
  lemma UndoDealRowOfDealt(s: State)
    requires Started(s) && |s.stock| >= TableauCount && StockFaceDown(s.stock)
    ensures UndoDealRow(DealtState(s).(log := s.log)) == s.(moveCount := s.moveCount + 1, score := s.score - 5)
  {
    DealtStockBack(s);
    UndealColumns(s.tableaux, s.stock);
  }

  /** The ten cards a deal took, returned face-down, complete the stock it left. */
  lemma DealtStockBack(s: State)
    requires Started(s) && |s.stock| >= TableauCount && StockFaceDown(s.stock)
    ensures DealtState(s).stock + Returned(DealtState(s).tableaux) == s.stock
  {
    ReturnedDealt(s.tableaux, s.stock, TableauCount);
    WholePrefix(DealInto(s.tableaux, s.stock, TableauCount));
    StockRejoined(s.stock, |s.stock| - TableauCount);
  }

  lemma WholePrefix<T>(d: seq<T>)
    ensures d[..|d|] == d
  {
  }

  lemma StockRejoined(stock: seq<Card>, n: nat)
    requires n <= |stock|
    ensures stock[..n] + stock[n..] == stock
  {
  }

  /** undo of the record a deal has just pushed: all ten cards go back; the score ends 4 lower. */
  lemma UndoDealtState(s: State)
    requires Inv(s) && Started(s) && |s.stock| >= TableauCount
    ensures Inv(DealtState(s))
    ensures UndoOp(DealtState(s)) == (s.(score := s.score - 4), true)
  {
    DealtStateKeepsInv(s);
    var c := DealtState(s);
    assert c.log[1..] == s.log;
    assert c.log[0].kind == DealRow;
    UndoDealRowOfDealt(s);
  }

  /**
   * undo right after a full deal that completed no run puts the ten cards
   * back on the stock face-down; the score ends 4 lower (-5 then +1).
   */
  lemma DealRowThenUndo(s: State)
    requires Inv(s) && CanDeal(s.tableaux) && |s.stock| >= TableauCount
    requires |DealRowOp(s).0.log| == |s.log| + 1
    ensures Inv(DealRowOp(s).0)
    ensures UndoOp(DealRowOp(s).0) == (s.(score := s.score - 4), true)
  {
    ExtractUpToLog(DealtState(s), |s.tableaux|);
    UndoDealtState(s);
  }

  // ---------------------------------------------------------------------
  // undo

  /** undo succeeds exactly when the log is non-empty; an empty log leaves everything as it was. */
  lemma UndoSucceedsIff(s: State)
    requires Inv(s)
    ensures UndoOp(s).1 <==> s.log != []
    ensures s.log == [] ==> UndoOp(s).0 == s
  {
  }

  /** Whatever it undoes, undo drops one record, lowers the move count to no less than 0 and adds 1 to the score. */
  lemma UndoMetrics(s: State)
    requires Inv(s) && s.log != []
    ensures UndoOp(s).0.log == s.log[1..]
    ensures UndoOp(s).0.moveCount == Max(0, s.moveCount - 1)
    ensures UndoOp(s).0.score == s.score + 1
  {
  }

  /** The cards undo of a deal returns to the stock are face-down. */
  lemma {:induction false} ReturnedFaceDown(cols: seq<seq<Card>>)
    ensures StockFaceDown(Returned(cols))
    ensures |Returned(cols)| <= |cols|
  {
    if cols != [] {
      ReturnedFaceDown(DropLast(cols));
    }
  }

  lemma UndoExtractKeepsFoundations(f: seq<seq<Card>>)
    requires FoundationsOk(f)
    ensures
      var j := LastNonEmptyBelow(f, |f|);
      FoundationsOk(if j >= 0 then f[j := f[j][..Max(0, |f[j]| - 13)]] else f)
  {
    var j := LastNonEmptyBelow(f, |f|);
    if j >= 0 {
      var f' := f[j := f[j][..Max(0, |f[j]| - 13)]];
      assert f'[j] == [];
      forall a, b | 0 <= a < b < |f'| && f'[b] != []
        ensures f'[a] != []
      {
        assert b < j;
      }
    }
  }

  /** undo keeps the invariant. */
  lemma UndoKeepsInv(s: State)
    requires Inv(s)
    ensures Inv(UndoOp(s).0)
  {
    if s.log != [] {
      var m := s.log[0];
      assert forall k :: 0 <= k < |s.log[1..]| ==> s.log[1..][k] == s.log[k + 1];
      match m.kind
      case MoveRun =>
      case DealRow =>
        ReturnedFaceDown(s.tableaux);
        var st := s.stock + Returned(s.tableaux);
        assert forall k :: |s.stock| <= k < |st| ==> st[k] == Returned(s.tableaux)[k - |s.stock|];
      case ExtractRun =>
        UndoExtractKeepsFoundations(s.foundations);
    }
  }

  // ---------------------------------------------------------------------
  // Extraction and its undo

  /**
   * A block ordered as canMove builds runs (King at the bottom, falling to an
   * Ace) is never extracted: extraction wants the Ace at the bottom.
   */
  lemma MovableRunNeverExtracted(block: seq<Card>)
    requires |block| == 13 && IsRun(block)
    ensures !IsCompletedBlock(block)
  {
    assert block[12].rank + 12 == block[0].rank;
  }

  /** What extraction looks for, stated position by position. */
  lemma {:induction false} CompletedBlockMeaning(block: seq<Card>)
    requires |block| == 13
    ensures IsCompletedBlock(block) <==>
              forall k :: 0 <= k < 13 ==> block[k].suit == block[0].suit && block[k].rank == k + 1
  {
    if IsCompletedBlock(block) {
      var k := 0;
      while k < 12
        invariant 0 <= k <= 12
        invariant forall q :: 0 <= q <= k ==> block[q].suit == block[0].suit && block[q].rank == q + 1
      {
        assert StepsUp(block[k], block[k + 1]);
        k := k + 1;
      }
    }
  }

  /**
   * undo right after an extraction puts the 13 cards back on the column
   * with its top face-up, and empties the foundation that took them; the
   * card the extraction turned face-up stays face-up, and undo lowers the
   * move count and raises the score although extraction changed neither.
   */
  lemma ExtractThenUndo(s: State, i: nat)
    requires Inv(s) && Started(s) && i < TableauCount
    requires Extracts(s, i) && FirstEmptyFrom(s.foundations, 0) >= 0
    ensures Inv(ExtractAt(s, i))
    ensures UndoOp(ExtractAt(s, i)) ==
      (Unextracted(s, i).(moveCount := Max(0, s.moveCount - 1), score := s.score + 1), true)
  {
    ExtractAtKeepsInv(s, i);
    ExtractedUndone(s, i);
  }

  lemma ExtractedUndone(s: State, i: nat)
    requires Started(s) && FoundationsOk(s.foundations) && i < TableauCount
    requires |s.tableaux[i]| >= 13 && FirstEmptyFrom(s.foundations, 0) >= 0
    requires Inv(Extracted(s, i))
    ensures UndoOp(Extracted(s, i)) ==
      (Unextracted(s, i).(moveCount := Max(0, s.moveCount - 1), score := s.score + 1), true)
  {
    UndoOfExtraction(Extracted(s, i));
    ExtractRecordUndone(s, i);
    ExtractedLogTail(s, i);
  }

  lemma ExtractedLogTail(s: State, i: nat)
    requires i < |s.tableaux| && |s.tableaux[i]| >= 13
    ensures Extracted(s, i).(log := Extracted(s, i).log[1..]) == Extracted(s, i).(log := s.log)
  {
    assert Extracted(s, i).log[1..] == s.log;
  }

  /** undo when the latest record is an extraction: UndoExtract on the rest of the log, then the metrics. */
  lemma UndoOfExtraction(e: State)
    requires Inv(e) && e.log != [] && e.log[0].kind == ExtractRun
    ensures RecordOk(e.log[0])
    ensures var u := UndoExtract(e.(log := e.log[1..]), e.log[0]);
      UndoOp(e) == (u.(moveCount := Max(0, u.moveCount - 1), score := u.score + 1), true)
  {
  }

  /** Column `i` as undo of an extraction leaves it: the 13 cards back on top of what was left, top face-up. */
  function Unextracted(s: State, i: nat): (r: State)
    requires i < |s.tableaux| && |s.tableaux[i]| >= 13
    ensures r.moveCount == s.moveCount && r.score == s.score
  {
    var t := s.tableaux[i];
    var n := |t| - 13;
    s.(tableaux := s.tableaux[i := TopFaceUp(FlippedTop(Tableau, t[..n]) + t[n..])])
  }

  /** The record an extraction pushes, undone, gives back the foundations and the 13 cards. */
  lemma ExtractRecordUndone(s: State, i: nat)
    requires Started(s) && FoundationsOk(s.foundations) && i < TableauCount
    requires |s.tableaux[i]| >= 13 && FirstEmptyFrom(s.foundations, 0) >= 0
    ensures Extracted(s, i).log[0] == ExtractRecord(i, s.tableaux[i])
    ensures UndoExtract(Extracted(s, i).(log := s.log), ExtractRecord(i, s.tableaux[i])) == Unextracted(s, i)
  {
    UndoExtractFoundations(s, i);
    UndoExtractColumns(s, i);
  }

  lemma UndoExtractFoundations(s: State, i: nat)
    requires Started(s) && FoundationsOk(s.foundations) && i < TableauCount
    requires |s.tableaux[i]| >= 13 && FirstEmptyFrom(s.foundations, 0) >= 0
    ensures UndoExtract(Extracted(s, i).(log := s.log), ExtractRecord(i, s.tableaux[i])).foundations == s.foundations
  {
    ExtractedBlockReturns(s.foundations, s.tableaux[i][|s.tableaux[i]| - 13..]);
  }

  lemma UndoExtractColumns(s: State, i: nat)
    requires Started(s) && i < TableauCount && |s.tableaux[i]| >= 13
    ensures UndoExtract(Extracted(s, i).(log := s.log), ExtractRecord(i, s.tableaux[i])).tableaux == Unextracted(s, i).tableaux
  {
  }

  /** The foundation an extraction fills is the one undo drains, and draining it gives the old foundations. */
  lemma ExtractedBlockReturns(f: seq<seq<Card>>, block: seq<Card>)
    requires FoundationsOk(f) && FirstEmptyFrom(f, 0) >= 0 && |block| == 13
    ensures
      var j := FirstEmptyFrom(f, 0);
      var f' := f[j := f[j] + block];
      LastNonEmptyBelow(f', |f'|) == j && f'[j := f'[j][..Max(0, |f'[j]| - 13)]] == f
  {
    var j := FirstEmptyFrom(f, 0);
    var f' := f[j := f[j] + block];
    forall k | j < k < |f'|
      ensures f'[k] == []
    {
      assert f[j] == [] && f'[k] == f[k];
    }
    LastNonEmptyOfSuffixEmpty(f', j);
    assert f'[j][..Max(0, |f'[j]| - 13)] == [];
  }

  lemma {:induction false} LastNonEmptyOfSuffixEmpty(f: seq<seq<Card>>, j: nat)
    requires j < |f| && f[j] != []
    requires forall k :: j < k < |f| ==> f[k] == []
    ensures LastNonEmptyBelow(f, |f|) == j
  {
    LastNonEmptyFrom(f, j, |f|);
  }

  lemma {:induction false} LastNonEmptyFrom(f: seq<seq<Card>>, j: nat, n: nat)
    requires j < n <= |f| && f[j] != []
    requires forall k :: j < k < n ==> f[k] == []
    ensures LastNonEmptyBelow(f, n) == j
    decreases n
  {
    if n - 1 != j {
      LastNonEmptyFrom(f, j, n - 1);
    }
  }

  /**
   * The flag is not consulted: when an extraction uncovered a face-down
   * card, undoing it leaves that card face-up, so the column differs from
   * the one before the extraction.
   */
  lemma ExtractUndoLeavesCardRevealed(s: State, i: nat)
    requires Inv(s) && Started(s) && i < TableauCount
    requires Extracts(s, i) && FirstEmptyFrom(s.foundations, 0) >= 0
    requires |s.tableaux[i]| >= 14 && !s.tableaux[i][|s.tableaux[i]| - 14].faceUp
    ensures Inv(ExtractAt(s, i))
    ensures UndoOp(ExtractAt(s, i)).0.tableaux[i][|s.tableaux[i]| - 14].faceUp
    ensures UndoOp(ExtractAt(s, i)).0.tableaux[i] != s.tableaux[i]
  {
    ExtractThenUndo(s, i);
    var t := s.tableaux[i];
    var n := |t| - 13;
    var back := FlippedTop(Tableau, t[..n]) + t[n..];
    assert back[n - 1] == Last(FlippedTop(Tableau, t[..n]));
    assert TopFaceUp(back)[n - 1] == back[n - 1];
  }

  // ---------------------------------------------------------------------
  // isWin

  /** In a dealt game the win check holds exactly when all eight foundations hold a block. */
  lemma WinIffFoundationsFull(s: State)
    requires Inv(s) && Started(s)
    ensures IsWin(s.foundations) <==> forall i :: 0 <= i < FoundationCount ==> |s.foundations[i]| == 13
  {
    WinMeansAllFull(s.foundations);
  }
}
