/** Playing cards: four suits, thirteen ranks and the 52-card deck they make. */
module Cards {

  datatype Suit = Clubs | Diamonds | Spades | Hearts

  /** The ordinal of a rank: 0 is the Ace, 12 the King. */
  type Rank = r: nat | r < 13

  const Ace: Rank := 0

  /** A card; two cards with the same suit and rank are the same card. */
  datatype Card = Card(suit: Suit, rank: Rank)

  /** The thirteen cards of suit `s`, Ace first. */
  function SuitRun(s: Suit): (run: seq<Card>)
    ensures |run| == 13
    ensures forall i :: 0 <= i < 13 ==> run[i] == Card(s, i)
  {
    seq(13, i requires 0 <= i < 13 => Card(s, i))
  }

  /** The unshuffled deck, ordered by suit and then by rank. */
  function FullDeck(): (d: seq<Card>)
    ensures |d| == 52
  {
    SuitRun(Clubs) + SuitRun(Diamonds) + SuitRun(Spades) + SuitRun(Hearts)
  }

  /** A card occurs once in the run of its own suit and never in another run. */
  lemma RunCount(s: Suit, c: Card)
    ensures multiset(SuitRun(s))[c] == if c.suit == s then 1 else 0
  {
    var run := SuitRun(s);
    if c.suit == s {
      var k: int := c.rank;
      assert run == run[..k] + [c] + run[k + 1..];
      assert c !in run[..k] by {
        forall j | 0 <= j < k ensures run[..k][j] != c {
          assert run[j].rank == j;
        }
      }
      var above := run[k + 1..];
      assert c !in above by {
        forall j | 0 <= j < |above| ensures above[j] != c {
          assert run[k + 1 + j].rank == k + 1 + j;
        }
      }
    } else {
      assert forall j :: 0 <= j < 13 ==> run[j].suit != c.suit;
    }
  }

  /** Every one of the 52 cards occurs exactly once in the deck. */
  lemma FullDeckHoldsEachCardOnce(c: Card)
    ensures multiset(FullDeck())[c] == 1
  {
    RunCount(Clubs, c);
    RunCount(Diamonds, c);
    RunCount(Spades, c);
    RunCount(Hearts, c);
  }
}
