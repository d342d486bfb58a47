// Cards. spider/model/Card.java and klondike/model/Card.java declare the
// same class (a rank checked at construction, a face-up flag,
// isOneLowerSameSuit and toString; only the constructor's error message
// differs), and both variants use the four suits of
// spider/model/Suit.java, so one module serves both.

module Cards {
  import opened Util

  /** The four suits, in the declaration order of Suit.java. */
  datatype Suit = Spades | Hearts | Diamonds | Clubs

  /** Ranks run from 1 (Ace) to 13 (King). */
  type Rank = r: int | 1 <= r <= 13 witness 1

  /**
   * A card: a fixed suit and rank and a face-up flag. The flag is the only
   * part that changes; a change is a new value in the slot that holds the card.
   */
  datatype Card = Card(suit: Suit, rank: Rank, faceUp: bool)
  {
    /** setFaceUp: the same card with the flag set to `up`. */
    function SetFaceUp(up: bool): (c: Card)
      ensures c.faceUp == up
      ensures c.suit == suit && c.rank == rank
    {
      this.(faceUp := up)
    }

    /** True when `other` is a card of this suit exactly one rank above. */
    predicate IsOneLowerSameSuit(other: Option<Card>)
    {
      other.Some? && suit == other.value.suit && rank + 1 == other.value.rank
    }

    /** toString: the rank's short name, " of ", and the suit's constant name. */
    function ToString(): string
    {
      RankName(rank) + " of " + SuitName(suit)
    }
  }

  /** The names table of Card.toString (index 0 is the unused "?"). */
  const RankNames: seq<string> := ["?", "A", "2", "3", "4", "5", "6", "7", "8", "9", "10", "J", "Q", "K"]

  /** A card without its flag: what card conservation is about. */
  function Key(c: Card): (Suit, Rank)
  {
    (c.suit, c.rank)
  }

  function RankName(r: Rank): string
  {
    RankNames[r]
  }

  /** Java's Enum.toString: the constant's declared name. */
  function SuitName(s: Suit): string
  {
    match s
    case Spades => "SPADES"
    case Hearts => "HEARTS"
    case Diamonds => "DIAMONDS"
    case Clubs => "CLUBS"
  }

  /** Which of the two Card classes is meant: they differ only in the constructor's error message. */
  datatype Variant = SpiderCard | KlondikeCard

  function RankMessage(v: Variant): string
  {
    match v
    case SpiderCard => "rank 1..13"
    case KlondikeCard => "Rank must be between 1 and 13"
  }

  /**
   * The card constructor of variant `v`: a rank outside 1..13 throws
   * IllegalArgumentException with that variant's message.
   */
  function NewCard(v: Variant, suit: Suit, rank: int, faceUp: bool): (r: Result<Card>)
    ensures r.Ok? <==> 1 <= rank <= 13
    ensures r.Ok? ==> r.value.suit == suit && r.value.rank == rank && r.value.faceUp == faceUp
    ensures r.Err? ==> r.message == RankMessage(v)
  {
    if rank < 1 || rank > 13 then Err(RankMessage(v)) else Ok(Card(suit, rank, faceUp))
  }

  /** No card is one rank below a card of the same rank. */
  lemma OneLowerIrreflexive(a: Card, b: Card)
    requires a.rank == b.rank
    ensures !a.IsOneLowerSameSuit(Some(b))
  {
  }

  /** The relation holds exactly for a non-null card of the same suit one rank up. */
  lemma OneLowerMeaning(a: Card, other: Option<Card>)
    ensures a.IsOneLowerSameSuit(other) <==>
              other != None && other.value.suit == a.suit && other.value.rank == a.rank + 1
    ensures a.IsOneLowerSameSuit(other) ==> !other.value.IsOneLowerSameSuit(Some(a))
    ensures !a.IsOneLowerSameSuit(None)
  {
  }

  lemma {:induction false} RankNameShape(r: Rank)
    ensures 1 <= |RankName(r)| <= 2
    ensures ' ' !in RankName(r)
    ensures |RankName(r)| == 2 <==> r == 10
    ensures r == 10 ==> RankName(r)[1] == '0'
  {
  }

  lemma RankNameInjective(a: Rank, b: Rank)
    requires RankName(a) == RankName(b)
    ensures a == b
  {
  }

  lemma SuitNameInjective(a: Suit, b: Suit)
    requires SuitName(a) == SuitName(b)
    ensures a == b
  {
  }

  /**
   * toString tells cards apart by suit and rank, and ignores the face-up flag.
   */
  lemma {:induction false} ToStringIdentifies(a: Card, b: Card)
    ensures a.ToString() == b.ToString() <==> a.suit == b.suit && a.rank == b.rank
  {
    if a.ToString() == b.ToString() {
      var na, nb := RankName(a.rank), RankName(b.rank);
      RankNameShape(a.rank);
      RankNameShape(b.rank);
      var sa, sb := a.ToString(), b.ToString();
      assert sa[|na|] == ' ' && sb[|nb|] == ' ';
      assert |na| == |nb|;
      assert na == sa[..|na|] == sb[..|nb|] == nb;
      RankNameInjective(a.rank, b.rank);
      assert SuitName(a.suit) == sa[|na| + 4..] == sb[|nb| + 4..] == SuitName(b.suit);
      SuitNameInjective(a.suit, b.suit);
    }
  }

  /**
   * The names toString prints: Ace, Jack, Queen and King by their letter,
   * every other rank by its decimal digits.
   */
  lemma RankNameMeaning(r: Rank)
    ensures RankName(r) == "A" <==> r == 1
    ensures RankName(r) == "J" <==> r == 11
    ensures RankName(r) == "Q" <==> r == 12
    ensures RankName(r) == "K" <==> r == 13
    ensures 2 <= r <= 9 ==> RankName(r) == [('0' as int + r) as char]
    ensures r == 10 ==> RankName(r) == "10"
  {
  }
}
