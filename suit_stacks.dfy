/**
 * The four suit stacks (foundations). Each suit has its own stack of cards;
 * the last element of a stack is its top.
 */
module SuitStacks {
  import opened Cards

  type Foundations = map<Suit, seq<Card>>

  /** Every suit has a stack. */
  predicate Complete(f: Foundations) {
    forall s: Suit :: s in f
  }

  lemma SuitCases(s: Suit)
    ensures s == Clubs || s == Diamonds || s == Spades || s == Hearts
  {
  }

  /** Four empty stacks, the state after initialisation. */
  function Empty(): (f: Foundations)
    ensures Complete(f)
    ensures forall s: Suit :: f[s] == []
  {
    var f := map[Clubs := [], Diamonds := [], Spades := [], Hearts := []];
    assert Complete(f) by {
      forall s: Suit ensures s in f {
        SuitCases(s);
      }
    }
    f
  }

  predicate IsEmpty(f: Foundations, s: Suit)
    requires Complete(f)
  {
    f[s] == []
  }

  function Peek(f: Foundations, s: Suit): Card
    requires Complete(f) && f[s] != []
  {
    f[s][|f[s]| - 1]
  }

  /** Pushes `c` onto the stack of its own suit. */
  function Push(f: Foundations, c: Card): Foundations
    requires Complete(f)
  {
    f[c.suit := f[c.suit] + [c]]
  }

  function Pop(f: Foundations, s: Suit): Foundations
    requires Complete(f) && f[s] != []
  {
    f[s := f[s][..|f[s]| - 1]]
  }

  /** All the cards held by the four stacks. */
  function Contents(f: Foundations): multiset<Card>
    requires Complete(f)
  {
    multiset(f[Clubs]) + multiset(f[Diamonds]) + multiset(f[Spades]) + multiset(f[Hearts])
  }

  /** Stack `p` holds exactly Ace, 2, 3, ... of suit `s`, bottom to top. */
  predicate Ascending(s: Suit, p: seq<Card>) {
    |p| <= 13 && forall i :: 0 <= i < |p| ==> p[i].suit == s && p[i].rank == i
  }

  predicate AllAscending(f: Foundations)
    requires Complete(f)
  {
    forall s: Suit :: Ascending(s, f[s])
  }

  /** Replacing one stack changes the contents by exactly the cards replaced. */
  lemma ContentsUpdate(f: Foundations, s: Suit, p: seq<Card>)
    requires Complete(f)
    ensures Complete(f[s := p])
    ensures Contents(f[s := p]) + multiset(f[s]) == Contents(f) + multiset(p)
  {
    var g := f[s := p];
    match s
    case Clubs => assert g[Diamonds] == f[Diamonds] && g[Spades] == f[Spades] && g[Hearts] == f[Hearts];
    case Diamonds => assert g[Clubs] == f[Clubs] && g[Spades] == f[Spades] && g[Hearts] == f[Hearts];
    case Spades => assert g[Clubs] == f[Clubs] && g[Diamonds] == f[Diamonds] && g[Hearts] == f[Hearts];
    case Hearts => assert g[Clubs] == f[Clubs] && g[Diamonds] == f[Diamonds] && g[Spades] == f[Spades];
  }

  /** Each stack's cards are among the contents. */
  lemma StackInContents(f: Foundations, s: Suit)
    requires Complete(f)
    ensures multiset(f[s]) <= Contents(f)
  {
  }
}
