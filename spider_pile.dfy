// Spider piles (spider/model/Pile.java): a stack of cards, bottom first,
// tagged with its role.

module SpiderPiles {
  import opened Util
  import opened Core
  import opened Cards

  /**
   * What flipTopUpIfNeeded leaves in a pile of role `kind` holding `cards`:
   * only a tableau's top card is turned face-up; nothing else changes.
   */
  function FlippedTop(kind: PileType, cards: seq<Card>): (r: seq<Card>)
    ensures |r| == |cards|
    ensures forall i :: 0 <= i < |cards| - 1 ==> r[i] == cards[i]
    ensures cards != [] ==>
              Last(r).suit == Last(cards).suit && Last(r).rank == Last(cards).rank &&
              Last(r).faceUp == (Last(cards).faceUp || kind == Tableau)
    ensures kind != Tableau ==> r == cards
  {
    if kind == Tableau && cards != [] && !Last(cards).faceUp then
      DropLast(cards) + [Last(cards).SetFaceUp(true)]
    else
      cards
  }

  class Pile {
    const kind: PileType
    var cards: seq<Card>

    constructor (kind: PileType)
      ensures this.kind == kind && cards == []
    {
      this.kind := kind;
      cards := [];
    }

    predicate IsEmpty()
      reads this
    {
      cards == []
    }

    /** top: null on an empty pile, otherwise the last card. */
    function Top(): (r: Option<Card>)
      reads this
      ensures r == None <==> cards == []
      ensures r != None ==> r.value == cards[|cards| - 1]
    {
      if IsEmpty() then None else Some(Last(cards))
    }

    method Push(c: Card)
      modifies this
      ensures cards == old(cards) + [c]
    {
      cards := cards + [c];
    }

    /** pop: null and no change on an empty pile, otherwise removes the last card. */
    method Pop() returns (r: Option<Card>)
      modifies this
      ensures old(cards) == [] ==> r == None && cards == old(cards)
      ensures old(cards) != [] ==> r == Some(Last(old(cards))) && cards == DropLast(old(cards))
    {
      if IsEmpty() {
        r := None;
      } else {
        r := Some(Last(cards));
        cards := DropLast(cards);
      }
    }

    /**
     * takeTop: pops `count` cards one at a time, inserting each at the front,
     * so the result is the pile's last `count` cards from bottom to top.
     */
    method TakeTop(count: nat) returns (out: seq<Card>)
      requires count <= |cards|
      modifies this
      ensures out == old(cards)[|old(cards)| - count..]
      ensures cards == old(cards)[..|old(cards)| - count]
      ensures cards + out == old(cards)
    {
      ghost var before := cards;
      out := [];
      var i := 0;
      while i < count
        invariant 0 <= i <= count
        invariant cards == before[..|before| - i]
        invariant out == before[|before| - i..]
      {
        var c := Pop();
        out := [c.value] + out;
        i := i + 1;
      }
    }

    /** addRun: appends the run in order; the foundation branch does the same. */
    method AddRun(run: seq<Card>)
      modifies this
      ensures cards == old(cards) + run
    {
      if kind == Foundation {
        cards := cards + run;
        return;
      }
      cards := cards + run;
    }

    method FlipTopUpIfNeeded()
      modifies this
      ensures cards == FlippedTop(kind, old(cards))
    {
      if kind == Tableau && !IsEmpty() {
        var t := Last(cards);
        if !t.faceUp {
          cards := DropLast(cards) + [t.SetFaceUp(true)];
        }
      }
    }
  }

  /** takeTop followed by addRun of what it returned gives back the pile. */
  method TakeTopThenAddRun(p: Pile, count: nat)
    requires count <= |p.cards|
    modifies p
    ensures p.cards == old(p.cards)
  {
    var run := p.TakeTop(count);
    p.AddRun(run);
  }
}
