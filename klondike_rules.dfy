// Klondike rules (klondike/rules/KlondikeRules.java): read-only predicates
// saying whether a card may be placed on a tableau or a foundation. A null
// card is None; a pile is given by its cards.

module KlondikeRules {
  import opened Util
  import opened Cards

  /** isRed: HEARTS and DIAMONDS are red, every other suit is not. */
  predicate IsRed(c: Card)
  {
    match c.suit
    case Hearts => true
    case Diamonds => true
    case _ => false
  }

  /** isOneLower: the moving card's rank is exactly one below the target's. */
  predicate IsOneLower(moving: Card, target: Card)
  {
    moving.rank + 1 == target.rank
  }

  /** isAlternatingColor: one red card and one card that is not. */
  predicate IsAlternatingColor(a: Card, b: Card)
  {
    IsRed(a) != IsRed(b)
  }

  /** canPlaceOnTableau: a King on an empty pile, otherwise one lower and opposite colour. */
  predicate CanPlaceOnTableau(moving: Option<Card>, tableauPile: seq<Card>)
  {
    if moving == None then false
    else if tableauPile == [] then moving.value.rank == 13
    else
      var top := Last(tableauPile);
      IsOneLower(moving.value, top) && IsAlternatingColor(moving.value, top)
  }

  /** canPlaceOnFoundation: an Ace on an empty pile, otherwise same suit and one higher. */
  predicate CanPlaceOnFoundation(moving: Option<Card>, foundationPile: seq<Card>)
  {
    if moving == None then false
    else if foundationPile == [] then moving.value.rank == 1
    else
      var top := Last(foundationPile);
      moving.value.suit == top.suit && moving.value.rank == top.rank + 1
  }

  /** A null card is refused by both predicates, whatever the pile. */
  lemma NullRefused(p: seq<Card>)
    ensures !CanPlaceOnTableau(None, p) && !CanPlaceOnFoundation(None, p)
  {
  }

  /** The red suits are exactly HEARTS and DIAMONDS. */
  lemma RedSuits(c: Card)
    ensures IsRed(c) <==> c.suit in {Hearts, Diamonds}
  {
  }

  /**
   * The two predicates look at suits and ranks only: changing face-up flags,
   * on the moving card or anywhere in the pile, changes neither answer.
   */
  lemma FlagsIgnored(a: Card, b: Card, p: seq<Card>, q: seq<Card>)
    requires Key(a) == Key(b) && |p| == |q|
    requires forall k :: 0 <= k < |p| ==> Key(p[k]) == Key(q[k])
    ensures CanPlaceOnTableau(Some(a), p) == CanPlaceOnTableau(Some(b), q)
    ensures CanPlaceOnFoundation(Some(a), p) == CanPlaceOnFoundation(Some(b), q)
  {
    if p != [] {
      assert Key(p[|p| - 1]) == Key(q[|q| - 1]);
    }
  }

  // ---------------------------------------------------------------------
  // Piles built by the rules

  /** A foundation in order: one suit, the card at position k of rank k + 1. */
  predicate AscendingSuit(f: seq<Card>)
  {
    forall k :: 0 <= k < |f| ==> f[k].suit == f[0].suit && f[k].rank == k + 1
  }

  /** Each card of `f` was accepted by canPlaceOnFoundation on the cards below it. */
  predicate PlacedOnFoundation(f: seq<Card>)
  {
    forall k :: 0 <= k < |f| ==> CanPlaceOnFoundation(Some(f[k]), f[..k])
  }

  /**
   * A pile built from empty by accepted foundation placements is exactly a
   * same-suit run from the Ace upwards, and every such run can be built so.
   */
  lemma {:induction false} FoundationBuiltInOrder(f: seq<Card>)
    ensures PlacedOnFoundation(f) <==> AscendingSuit(f)
  {
    if f != [] {
      FoundationBuiltInOrder(DropLast(f));
      FoundationPlacedStep(f);
      FoundationRunStep(f);
    }
  }

  lemma FoundationPlacedStep(f: seq<Card>)
    requires f != []
    ensures PlacedOnFoundation(f) <==>
              PlacedOnFoundation(DropLast(f)) && CanPlaceOnFoundation(Some(Last(f)), DropLast(f))
  {
    assert f[..|f| - 1] == DropLast(f);
    assert forall k :: 0 <= k < |f| - 1 ==> f[..k] == DropLast(f)[..k];
  }

  /** The last card extends an ascending run exactly when canPlaceOnFoundation accepts it. */
  lemma FoundationRunStep(f: seq<Card>)
    requires f != []
    ensures AscendingSuit(f) <==>
              AscendingSuit(DropLast(f)) && CanPlaceOnFoundation(Some(Last(f)), DropLast(f))
  {
    var d := DropLast(f);
    if d != [] {
      assert d[0] == f[0];
      if AscendingSuit(d) {
        assert Last(d).rank == |d| && Last(d).suit == f[0].suit;
      }
    }
  }

  /** A foundation in order holds at most thirteen cards: nothing goes on a King. */
  lemma FoundationAtMostThirteen(f: seq<Card>)
    requires AscendingSuit(f)
    ensures |f| <= 13
    ensures |f| == 13 ==> f[12].rank == 13
  {
    if f != [] {
      assert f[|f| - 1].rank == |f|;
    }
  }

  /** A tableau in order: a King at the bottom, each card one lower and of the other colour. */
  predicate DescendingAlternating(t: seq<Card>)
  {
    && (forall k :: 0 <= k < |t| ==> t[k].rank + k == 13)
    && (forall k :: 0 < k < |t| ==> IsAlternatingColor(t[k - 1], t[k]))
  }

  /** Each card of `t` was accepted by canPlaceOnTableau on the cards below it. */
  predicate PlacedOnTableau(t: seq<Card>)
  {
    forall k :: 0 <= k < |t| ==> CanPlaceOnTableau(Some(t[k]), t[..k])
  }

  /**
   * A tableau built from empty by accepted placements is exactly a
   * King-headed run, descending by one with alternating colours.
   */
  lemma {:induction false} TableauBuiltInOrder(t: seq<Card>)
    ensures PlacedOnTableau(t) <==> DescendingAlternating(t)
  {
    if t != [] {
      TableauBuiltInOrder(DropLast(t));
      TableauPlacedStep(t);
      TableauRunStep(t);
    }
  }

  lemma TableauPlacedStep(t: seq<Card>)
    requires t != []
    ensures PlacedOnTableau(t) <==>
              PlacedOnTableau(DropLast(t)) && CanPlaceOnTableau(Some(Last(t)), DropLast(t))
  {
    assert t[..|t| - 1] == DropLast(t);
    assert forall k :: 0 <= k < |t| - 1 ==> t[..k] == DropLast(t)[..k];
  }

  /** The last card extends a King-headed run exactly when canPlaceOnTableau accepts it. */
  lemma TableauRunStep(t: seq<Card>)
    requires t != []
    ensures DescendingAlternating(t) <==>
              DescendingAlternating(DropLast(t)) && CanPlaceOnTableau(Some(Last(t)), DropLast(t))
  {
    var d := DropLast(t);
    if d != [] {
      assert Last(d) == t[|t| - 2];
      if DescendingAlternating(d) {
        assert Last(d).rank + |d| - 1 == 13;
      }
    }
  }

  /** Such a run holds at most thirteen cards: nothing goes on an Ace. */
  lemma TableauAtMostThirteen(t: seq<Card>)
    requires DescendingAlternating(t)
    ensures |t| <= 13
  {
    if t != [] {
      assert t[|t| - 1].rank + |t| - 1 == 13;
    }
  }
}
