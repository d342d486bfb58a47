// Klondike piles (klondike/model/Pile.java): a stack of cards, bottom
// first, tagged with its role. Unlike the Spider pile, flipTopUpIfNeeded
// turns the top card up whatever the pile's role, and takeTop cuts the
// top off in one step.

module KlondikePiles {
  import opened Util
  import opened Core
  import opened Cards

  /**
   * What flipTopUpIfNeeded leaves in a pile holding `cards`: the top card
   * face-up, every other card as it was; a pile that is empty or whose top
   * is already face-up is left alone.
   */
  function TopTurnedUp(cards: seq<Card>): (r: seq<Card>)
    ensures |r| == |cards|
    ensures forall i :: 0 <= i < |cards| - 1 ==> r[i] == cards[i]
    ensures cards != [] ==> Last(r) == Last(cards).SetFaceUp(true)
    ensures cards == [] || Last(cards).faceUp ==> r == cards
  {
    if cards != [] && !Last(cards).faceUp then
      DropLast(cards) + [Last(cards).SetFaceUp(true)]
    else
      cards
  }

  class Pile {
    const kind: PileType
    var cards: seq<Card>

    constructor (kind: PileType)
      ensures GetType() == kind && cards == []
    {
      this.kind := kind;
      cards := [];
    }

    function GetType(): PileType
    {
      kind
    }

    predicate IsEmpty()
      reads this
    {
      cards == []
    }

    /** getTopCard: null on an empty pile, otherwise the last card. */
    function GetTopCard(): (r: Option<Card>)
      reads this
      ensures r == None <==> cards == []
      ensures r != None ==> r.value == cards[|cards| - 1]
    {
      if IsEmpty() then None else Some(Last(cards))
    }

    method Push(c: Card)
      modifies this
      ensures cards == old(cards) + [c]
    {
      cards := cards + [c];
    }

    /** pop: null and no change on an empty pile, otherwise removes the last card. */
    method Pop() returns (r: Option<Card>)
      modifies this
      ensures old(cards) == [] ==> r == None && cards == old(cards)
      ensures old(cards) != [] ==> r == Some(Last(old(cards))) && cards == DropLast(old(cards))
    {
      if IsEmpty() {
        r := None;
      } else {
        r := Some(Last(cards));
        cards := DropLast(cards);
      }
    }

    /**
     * topRun: the last `count` cards, bottom to top, with the pile left as it
     * is. A count above the size makes subList throw, so it is excluded.
     */
    function TopRun(count: nat): (r: seq<Card>)
      reads this
      requires count <= |cards|
      ensures |r| == count
      ensures cards[..|cards| - count] + r == cards
    {
      cards[|cards| - count..]
    }

    /**
     * takeTop: copies the last `count` cards, then clears them from the pile.
     * A count above the size gives a negative start, which subList refuses
     * with an exception, so it is excluded.
     */
    method TakeTop(count: nat) returns (slice: seq<Card>)
      requires count <= |cards|
      modifies this
      ensures slice == old(TopRun(count))
      ensures cards + slice == old(cards)
      ensures |cards| == |old(cards)| - count
    {
      var start := |cards| - count;
      slice := cards[start..];
      cards := cards[..start];
    }

    /** addRun: appends the run in order. */
    method AddRun(run: seq<Card>)
      modifies this
      ensures cards == old(cards) + run
    {
      cards := cards + run;
    }

    method FlipTopUpIfNeeded()
      modifies this
      ensures cards == TopTurnedUp(old(cards))
    {
      if !IsEmpty() {
        var top := GetTopCard().value;
        if !top.faceUp {
          cards := DropLast(cards) + [top.SetFaceUp(true)];
        }
      }
    }
  }

  /** takeTop followed by addRun of what it returned gives back the pile. */
  method TakeTopThenAddRun(p: Pile, count: nat)
    requires count <= |p.cards|
    modifies p
    ensures p.cards == old(p.cards)
  {
    var run := p.TakeTop(count);
    p.AddRun(run);
  }
}
