// Spider rules (spider/rules/SpiderRules.java): read-only predicates over
// the cards of piles. They implement the GameRules interface
// (core/GameRules.java): canMove, afterMove, canDeal and isWin.

module SpiderRules {
  import opened Util
  import opened Cards

  /** One step of canMove's scan: `above` lies directly on `below`. */
  predicate LinksDown(below: Card, above: Card)
  {
    above.faceUp && below.faceUp && below.suit == above.suit && below.rank == above.rank + 1
  }

  /** The scan of canMove from index `i` to the top of `cards`. */
  function ScanRun(cards: seq<Card>, i: nat): (ok: bool)
    requires 1 <= i <= |cards|
    decreases |cards| - i
    ensures ok <==> forall k :: i <= k < |cards| ==> LinksDown(cards[k - 1], cards[k])
  {
    if i == |cards| then true
    else LinksDown(cards[i - 1], cards[i]) && ScanRun(cards, i + 1)
  }

  /** canMove: may the top `count` cards of `from` move onto `to`? */
  predicate CanMove(from: seq<Card>, count: int, to: seq<Card>)
  {
    if count <= 0 || |from| < count then false
    else
      var start := |from| - count;
      if !from[start].faceUp then false
      else if !ScanRun(from, start + 1) then false
      else if to == [] then true
      else
        var destTop := Last(to);
        if !destTop.faceUp then false else destTop.rank == from[start].rank + 1
  }

  /**
   * A movable run, defined independently of the scan: non-empty, every card
   * face-up, one suit, and each card one rank below the card beneath it.
   */
  predicate IsRun(run: seq<Card>)
  {
    && run != []
    && (forall k :: 0 <= k < |run| ==> run[k].faceUp)
    && (forall k :: 0 < k < |run| ==> run[k].suit == run[0].suit)
    && (forall k :: 0 < k < |run| ==> run[k].rank + k == run[0].rank)
  }

  /** canDeal: every tableau holds at least one card. */
  function CanDeal(tableaux: seq<seq<Card>>): (r: bool)
    ensures r <==> forall i :: 0 <= i < |tableaux| ==> tableaux[i] != []
  {
    if tableaux == [] then true
    else if tableaux[0] == [] then false
    else CanDeal(tableaux[1..])
  }

  /** isWin: the foundations hold 8 x 13 cards in all. */
  predicate IsWin(foundations: seq<seq<Card>>)
  {
    TotalSize(foundations) == 8 * 13
  }

  /** The scan accepts exactly the runs of IsRun, in both directions. */
  lemma {:induction false} CanMoveMeaning(from: seq<Card>, count: int, to: seq<Card>)
    ensures CanMove(from, count, to) <==>
              && 1 <= count <= |from|
              && IsRun(from[|from| - count..])
              && (to != [] ==> Last(to).faceUp && Last(to).rank == from[|from| - count].rank + 1)
  {
    if 1 <= count <= |from| {
      var start := |from| - count;
      var run := from[start..];
      if from[start].faceUp && ScanRun(from, start + 1) {
        LinksGiveRun(from, start);
      }
      if IsRun(run) {
        assert forall k :: start + 1 <= k < |from| ==> LinksDown(from[k - 1], from[k]) by {
          forall k | start + 1 <= k < |from|
            ensures LinksDown(from[k - 1], from[k])
          {
            assert from[k - 1] == run[k - 1 - start] && from[k] == run[k - start];
          }
        }
      }
    }
  }

  lemma {:induction false} LinksGiveRun(from: seq<Card>, start: nat)
    requires start < |from| && from[start].faceUp
    requires forall k :: start + 1 <= k < |from| ==> LinksDown(from[k - 1], from[k])
    ensures IsRun(from[start..])
    decreases |from| - start
  {
    if start + 1 < |from| {
      LinksGiveRun(from, start + 1);
      var run, rest := from[start..], from[start + 1..];
      assert LinksDown(from[start], from[start + 1]);
      forall k | 0 < k < |run|
        ensures run[k].faceUp && run[k].suit == run[0].suit && run[k].rank + k == run[0].rank
      {
        assert run[k] == rest[k - 1];
      }
    }
  }

  /** Inside a movable run each card is one lower, same suit, than the card it lies on. */
  lemma RunLinksAreOneLower(from: seq<Card>, count: int, to: seq<Card>, k: int)
    requires CanMove(from, count, to)
    requires |from| - count < k < |from|
    ensures from[k].IsOneLowerSameSuit(Some(from[k - 1]))
  {
    assert LinksDown(from[k - 1], from[k]);
  }

  /** Any valid run may move onto an empty tableau. */
  lemma EmptyDestinationAccepts(from: seq<Card>, count: int)
    requires 1 <= count <= |from| && IsRun(from[|from| - count..])
    ensures CanMove(from, count, [])
  {
    CanMoveMeaning(from, count, []);
  }

  /** The destination's suit is not looked at: only its rank and flag count. */
  lemma DestinationSuitIgnored(from: seq<Card>, count: int, to: seq<Card>, s: Suit)
    requires to != []
    ensures CanMove(from, count, to) == CanMove(from, count, DropLast(to) + [Last(to).(suit := s)])
  {
    var to' := DropLast(to) + [Last(to).(suit := s)];
    assert Last(to') == Last(to).(suit := s);
  }

  /** A pile can never move onto itself. */
  lemma NotOntoItself(cards: seq<Card>, count: int)
    ensures !CanMove(cards, count, cards)
  {
    if 1 <= count <= |cards| {
      CanMoveMeaning(cards, count, cards);
      var run := cards[|cards| - count..];
      if IsRun(run) {
        assert Last(cards) == run[|run| - 1];
      }
    }
  }

  /** Each foundation holds at most 13 cards: then a win means all eight are full. */
  lemma WinMeansAllFull(foundations: seq<seq<Card>>)
    requires |foundations| == 8
    requires forall i :: 0 <= i < 8 ==> |foundations[i]| <= 13
    ensures IsWin(foundations) <==> forall i :: 0 <= i < 8 ==> |foundations[i]| == 13
  {
    FullIffTotal(foundations);
  }

  lemma {:induction false} FullIffTotal(fs: seq<seq<Card>>)
    requires forall i :: 0 <= i < |fs| ==> |fs[i]| <= 13
    ensures TotalSize(fs) <= 13 * |fs|
    ensures TotalSize(fs) == 13 * |fs| <==> forall i :: 0 <= i < |fs| ==> |fs[i]| == 13
  {
    if fs != [] {
      var d := DropLast(fs);
      assert forall i :: 0 <= i < |d| ==> d[i] == fs[i];
      FullIffTotal(d);
    }
  }
}
