/**
 * The whole game state as a value and the effect of each move the facade
 * makes on it. Each move follows the same pattern: find the zone that holds
 * the card, detach it from there, attach it to the destination.
 */
module Game {
  import opened Cards
  import opened SuitStacks
  import opened WorkingStacks

  /** Deck and discard pile are stacks whose last element is the top. */
  datatype State = State(deck: seq<Card>, discard: seq<Card>, foundations: Foundations, tableau: Tableau)

  predicate WellFormed(st: State) {
    Complete(st.foundations) && |st.tableau| == StackCount
  }

  /** Every card held by any zone, with its number of occurrences. */
  function AllCards(st: State): multiset<Card>
    requires WellFormed(st)
  {
    multiset(st.deck) + multiset(st.discard)
      + SuitStacks.Contents(st.foundations) + WorkingStacks.Contents(st.tableau)
  }

  /** The cards that have left the deck: discard pile, foundations and tableau. */
  function OffDeck(st: State): multiset<Card>
    requires WellFormed(st)
  {
    multiset(st.discard) + SuitStacks.Contents(st.foundations) + WorkingStacks.Contents(st.tableau)
  }

  /** Each of the 52 cards lies in exactly one zone, and nothing else does. */
  predicate Partitioned(st: State)
    requires WellFormed(st)
  {
    AllCards(st) == multiset(FullDeck())
  }

  /** What holds between moves: the partition, and every foundation built Ace upward in its suit. */
  predicate Invariant(st: State) {
    WellFormed(st) && Partitioned(st) && AllAscending(st.foundations)
  }

  predicate IsDiscardTop(st: State, c: Card) {
    IsTop(st.discard, c)
  }

  predicate IsSuitStackTop(st: State, c: Card)
    requires WellFormed(st)
  {
    IsTop(st.foundations[c.suit], c)
  }

  /**
   * Whether `c` may go onto the foundation of suit `s`: never onto another
   * suit's, always for an Ace, otherwise only onto a non-empty foundation
   * whose top is one rank lower.
   */
  function CanMoveToSuitStack(f: Foundations, c: Card, s: Suit): (r: bool)
    requires Complete(f)
    ensures Ascending(s, f[s]) ==> (r <==> c.suit == s && (c.rank == Ace || (f[s] != [] && c.rank == |f[s]|)))
  {
    if c.suit != s then false
    else if c.rank == Ace then true
    else if IsEmpty(f, s) then false
    else c.rank == Peek(f, s).rank + 1 && c.suit == s
  }

  /** Moves the top card of the deck onto the discard pile. */
  function AfterDiscard(st: State): (r: State)
    requires WellFormed(st) && st.deck != []
    ensures WellFormed(r)
    ensures |r.deck| == |st.deck| - 1 && r.deck == st.deck[..|r.deck|]
    ensures |r.discard| == |st.discard| + 1 && r.discard[..|st.discard|] == st.discard
    ensures IsDiscardTop(r, st.deck[|st.deck| - 1])
    ensures r.foundations == st.foundations && r.tableau == st.tableau
  {
    var n := |st.deck| - 1;
    st.(deck := st.deck[..n], discard := st.discard + [st.deck[n]])
  }

  /**
   * The state moveToSuitStack leaves: `c` leaves the discard pile if it is its
   * top, otherwise the pile it tops if it is in the tableau, and goes onto
   * its suit's foundation. A card found in neither place is pushed all the same.
   */
  function AfterMoveToSuitStack(st: State, c: Card): (r: State)
    requires WellFormed(st)
    requires CanMoveToSuitStack(st.foundations, c, c.suit)
    requires IsDiscardTop(st, c) || !IsInStacks(st.tableau, c) || IsTopCard(st.tableau, c)
    ensures WellFormed(r) && r.deck == st.deck
    ensures IsSuitStackTop(r, c)
    ensures |r.foundations[c.suit]| == |st.foundations[c.suit]| + 1
    ensures r.foundations[c.suit][..|st.foundations[c.suit]|] == st.foundations[c.suit]
    ensures forall s: Suit :: s != c.suit ==> r.foundations[s] == st.foundations[s]
    ensures IsDiscardTop(st, c) ==> r.discard + [c] == st.discard && r.tableau == st.tableau
    ensures !IsDiscardTop(st, c) ==> r.discard == st.discard
    ensures !IsDiscardTop(st, c) && IsInStacks(st.tableau, c) ==>
      var k := FirstTop(st.tableau, c);
      r.tableau == st.tableau[k := r.tableau[k]] && r.tableau[k] + [c] == st.tableau[k]
    ensures !IsDiscardTop(st, c) && !IsInStacks(st.tableau, c) ==> r.tableau == st.tableau
  {
    var detached :=
      if IsDiscardTop(st, c) then st.(discard := st.discard[..|st.discard| - 1])
      else if IsInStacks(st.tableau, c) then st.(tableau := PopTopCard(st.tableau, c))
      else st;
    detached.(foundations := SuitStacks.Push(detached.foundations, c))
  }

  /** Where moveOneCardToWorkingStack may take `c` from without breaking popTopCard's precondition. */
  predicate OneCardDetachable(st: State, c: Card)
    requires WellFormed(st)
  {
    IsDiscardTop(st, c) || IsSuitStackTop(st, c) || !IsInStacks(st.tableau, c) || IsTopCard(st.tableau, c)
  }

  /**
   * The state moveOneCardToWorkingStack leaves: `c` is detached from the first
   * zone that holds it, in the order discard top, top of its foundation,
   * tableau, and then placed on pile `i`.
   */
  function AfterMoveOneCard(st: State, c: Card, i: nat): (r: State)
    requires WellFormed(st) && i < StackCount
    requires OneCardDetachable(st, c)
    ensures WellFormed(r) && r.deck == st.deck
    ensures IsTop(r.tableau[i], c)
    ensures IsDiscardTop(st, c) ==>
      r.discard + [c] == st.discard && r.foundations == st.foundations
      && r.tableau == WorkingStacks.Push(st.tableau, c, i)
    ensures !IsDiscardTop(st, c) && IsSuitStackTop(st, c) ==>
      r.discard == st.discard && r.foundations == SuitStacks.Pop(st.foundations, c.suit)
      && r.tableau == WorkingStacks.Push(st.tableau, c, i)
    ensures !IsDiscardTop(st, c) && !IsSuitStackTop(st, c) ==>
      r.discard == st.discard && r.foundations == st.foundations
    ensures !IsDiscardTop(st, c) && !IsSuitStackTop(st, c) && IsInStacks(st.tableau, c) ==>
      r.tableau == WorkingStacks.Push(PopTopCard(st.tableau, c), c, i)
    ensures !IsDiscardTop(st, c) && !IsSuitStackTop(st, c) && !IsInStacks(st.tableau, c) ==>
      r.tableau == WorkingStacks.Push(st.tableau, c, i)
  {
    var detached :=
      if IsDiscardTop(st, c) then st.(discard := st.discard[..|st.discard| - 1])
      else if IsSuitStackTop(st, c) then st.(foundations := SuitStacks.Pop(st.foundations, c.suit))
      else if IsInStacks(st.tableau, c) then st.(tableau := PopTopCard(st.tableau, c))
      else st;
    detached.(tableau := WorkingStacks.Push(detached.tableau, c, i))
  }

  /** What dropToStack needs of its cards before it starts. */
  predicate Droppable(st: State, cards: seq<Card>)
    requires WellFormed(st)
  {
    if |cards| == 1 then OneCardDetachable(st, cards[0]) else Unwind(st.tableau, cards).Some?
  }

  /**
   * The state dropToStack leaves: one card moves as by moveOneCardToWorkingStack;
   * any other number is popped off the tableau, last card first, and pushed
   * back onto pile `i` in its original order.
   */
  function AfterDropToStack(st: State, cards: seq<Card>, i: nat): (r: State)
    requires WellFormed(st) && i < StackCount
    requires Droppable(st, cards)
    ensures WellFormed(r) && r.deck == st.deck
    ensures |cards| <= |r.tableau[i]| && r.tableau[i][|r.tableau[i]| - |cards|..] == cards
    ensures |cards| != 1 ==> r.discard == st.discard && r.foundations == st.foundations
  {
    if |cards| == 1 then AfterMoveOneCard(st, cards[0], i)
    else
      var unwound := Unwind(st.tableau, cards).value;
      st.(tableau := PushAll(unwound, cards, i))
  }

  // ---------------------------------------------------------------------
  // Foundation legality

  /**
   * On an ascending foundation that does not yet hold `c`, the legality test
   * accepts `c` exactly when pushing it keeps the foundation ascending.
   */
  lemma {:induction false} LegalSuitMoveKeepsAscending(f: Foundations, c: Card)
    requires Complete(f) && Ascending(c.suit, f[c.suit]) && c !in f[c.suit]
    ensures CanMoveToSuitStack(f, c, c.suit) <==> Ascending(c.suit, f[c.suit] + [c])
  {
    var p := f[c.suit];
    var q := p + [c];
    if p != [] {
      assert p[0] == Card(c.suit, Ace);
    }
    if Ascending(c.suit, q) {
      assert q[|p|] == c;
    }
    if CanMoveToSuitStack(f, c, c.suit) {
      assert c.rank == |p|;
      forall k | 0 <= k < |q| ensures q[k].suit == c.suit && q[k].rank == k {
        if k < |p| {
          assert q[k] == p[k];
        }
      }
    }
  }

  // ---------------------------------------------------------------------
  // Facts about the partition

  /** Under the partition, a card occurs exactly once across all zones. */
  lemma OccursOnce(st: State, c: Card)
    requires WellFormed(st) && Partitioned(st)
    ensures AllCards(st)[c] == 1
  {
    FullDeckHoldsEachCardOnce(c);
  }

  /** Two different piles never share a card, under the partition. */
  lemma {:induction false} PilesDisjoint(st: State, i: nat, j: nat, c: Card)
    requires WellFormed(st) && Partitioned(st)
    requires i < StackCount && j < StackCount && i != j && c in st.tableau[i]
    ensures c !in st.tableau[j]
  {
    var t := st.tableau;
    var none: seq<Card> := [];
    OccursOnce(st, c);
    WorkingStacks.ContentsUpdate(t, i, none);
    PileInContents(t[i := none], j);
    assert t[i := none][j] == t[j];
    assert multiset(none) == multiset{};
    assert WorkingStacks.Contents(t[i := none]) + multiset(t[i]) == WorkingStacks.Contents(t);
    assert multiset(t[j])[c] <= WorkingStacks.Contents(t[i := none])[c];
    assert WorkingStacks.Contents(t)[c] >= multiset(t[i])[c] + multiset(t[j])[c];
  }

  /** A card on the discard pile or in the tableau is not on any foundation, under the partition. */
  lemma {:induction false} NotOnFoundation(st: State, c: Card)
    requires WellFormed(st) && Partitioned(st)
    requires c in st.discard || IsInStacks(st.tableau, c)
    ensures c !in st.foundations[c.suit]
  {
    OccursOnce(st, c);
    StackInContents(st.foundations, c.suit);
    if !(c in st.discard) {
      var k :| 0 <= k < |st.tableau| && c in st.tableau[k];
      PileInContents(st.tableau, k);
    }
  }

  /** The top of the discard pile is in no other zone, under the partition. */
  lemma DiscardTopIsNowhereElse(st: State, c: Card)
    requires WellFormed(st) && Partitioned(st) && IsDiscardTop(st, c)
    ensures c !in st.deck && c !in st.foundations[c.suit] && !IsInStacks(st.tableau, c)
  {
    OccursOnce(st, c);
    assert c in st.discard;
    StackInContents(st.foundations, c.suit);
    forall k | 0 <= k < |st.tableau| ensures c !in st.tableau[k] {
      PileInContents(st.tableau, k);
    }
  }

  // ---------------------------------------------------------------------
  // Card conservation: each move detaches one copy and attaches one copy

  lemma DiscardConserves(st: State)
    requires WellFormed(st) && st.deck != []
    ensures AllCards(AfterDiscard(st)) == AllCards(st)
  {
    var n := |st.deck| - 1;
    assert st.deck == st.deck[..n] + [st.deck[n]];
  }

  /** Moving the discard top or a tableau top to its foundation keeps every card count. */
  lemma MoveToSuitStackConserves(st: State, c: Card)
    requires WellFormed(st) && CanMoveToSuitStack(st.foundations, c, c.suit)
    requires IsDiscardTop(st, c) || IsTopCard(st.tableau, c)
    ensures AllCards(AfterMoveToSuitStack(st, c)) == AllCards(st)
  {
    var r := AfterMoveToSuitStack(st, c);
    var f := st.foundations;
    SuitStacks.ContentsUpdate(f, c.suit, f[c.suit] + [c]);
    assert r.foundations == f[c.suit := f[c.suit] + [c]];
    var fc := SuitStacks.Contents(f);
    assert SuitStacks.Contents(r.foundations) == fc + multiset{c} by {
      MultisetCancel(SuitStacks.Contents(r.foundations), fc + multiset{c}, multiset(f[c.suit]));
    }
    if IsDiscardTop(st, c) {
      var d := st.discard;
      assert d == d[..|d| - 1] + [c];
    } else {
      assert IsInStacks(st.tableau, c) by {
        var k :| 0 <= k < |st.tableau| && IsTop(st.tableau[k], c);
        assert c in st.tableau[k];
      }
      PopTopCardContents(st.tableau, c);
    }
  }

  /**
   * moveToSuitStack as written pushes a card that is neither the discard top
   * nor in the tableau without detaching it: that card then occurs once more,
   * and a partitioned state stops being one.
   */
  lemma MoveToSuitStackDuplicatesUnplacedCard(st: State, c: Card)
    requires WellFormed(st) && CanMoveToSuitStack(st.foundations, c, c.suit)
    requires !IsDiscardTop(st, c) && !IsInStacks(st.tableau, c)
    ensures AllCards(AfterMoveToSuitStack(st, c)) == AllCards(st) + multiset{c}
    ensures Partitioned(st) ==> !Partitioned(AfterMoveToSuitStack(st, c))
  {
    var r := AfterMoveToSuitStack(st, c);
    var f := st.foundations;
    SuitStacks.ContentsUpdate(f, c.suit, f[c.suit] + [c]);
    assert r.foundations == f[c.suit := f[c.suit] + [c]];
    MultisetCancel(SuitStacks.Contents(r.foundations), SuitStacks.Contents(f) + multiset{c}, multiset(f[c.suit]));
    if Partitioned(st) {
      OccursOnce(st, c);
      assert AllCards(r)[c] == 2;
      FullDeckHoldsEachCardOnce(c);
    }
  }

  /** Moving a card from a zone it tops to a tableau pile keeps every card count. */
  lemma MoveOneCardConserves(st: State, c: Card, i: nat)
    requires WellFormed(st) && i < StackCount
    requires IsDiscardTop(st, c) || IsSuitStackTop(st, c) || IsTopCard(st.tableau, c)
    ensures AllCards(AfterMoveOneCard(st, c, i)) == AllCards(st)
  {
    if IsDiscardTop(st, c) {
      MoveOneCardFromDiscard(st, c, i);
    } else if IsSuitStackTop(st, c) {
      MoveOneCardFromSuitStack(st, c, i);
    } else {
      MoveOneCardFromTableau(st, c, i);
    }
  }

  lemma MoveOneCardFromDiscard(st: State, c: Card, i: nat)
    requires WellFormed(st) && i < StackCount && IsDiscardTop(st, c)
    ensures AllCards(AfterMoveOneCard(st, c, i)) == AllCards(st)
  {
    var r := AfterMoveOneCard(st, c, i);
    var d := st.discard;
    assert d == r.discard + [c];
    assert multiset(d) == multiset(r.discard) + multiset{c};
    PushContents(st.tableau, c, i);
    assert WorkingStacks.Contents(r.tableau) == WorkingStacks.Contents(st.tableau) + multiset{c};
    assert r.foundations == st.foundations && r.deck == st.deck;
  }

  lemma MoveOneCardFromSuitStack(st: State, c: Card, i: nat)
    requires WellFormed(st) && i < StackCount && !IsDiscardTop(st, c) && IsSuitStackTop(st, c)
    ensures AllCards(AfterMoveOneCard(st, c, i)) == AllCards(st)
  {
    var r := AfterMoveOneCard(st, c, i);
    var f := st.foundations;
    var p := f[c.suit];
    assert p == p[..|p| - 1] + [c];
    SuitStacks.ContentsUpdate(f, c.suit, p[..|p| - 1]);
    assert r.foundations == f[c.suit := p[..|p| - 1]];
    MultisetCancel(SuitStacks.Contents(r.foundations) + multiset{c}, SuitStacks.Contents(f), multiset(p[..|p| - 1]));
    PushContents(st.tableau, c, i);
    assert WorkingStacks.Contents(r.tableau) == WorkingStacks.Contents(st.tableau) + multiset{c};
    assert r.discard == st.discard && r.deck == st.deck;
  }

  lemma MoveOneCardFromTableau(st: State, c: Card, i: nat)
    requires WellFormed(st) && i < StackCount
    requires !IsDiscardTop(st, c) && !IsSuitStackTop(st, c) && IsTopCard(st.tableau, c)
    ensures AllCards(AfterMoveOneCard(st, c, i)) == AllCards(st)
  {
    var r := AfterMoveOneCard(st, c, i);
    var t := st.tableau;
    assert IsInStacks(t, c) by {
      var k :| 0 <= k < |t| && IsTop(t[k], c);
      assert c in t[k];
    }
    PopTopCardContents(t, c);
    PushContents(PopTopCard(t, c), c, i);
    assert WorkingStacks.Contents(r.tableau) == WorkingStacks.Contents(t);
    assert r.discard == st.discard && r.foundations == st.foundations && r.deck == st.deck;
  }

  /**
   * moveOneCardToWorkingStack as written pushes a card that is not the discard
   * top, not the top of its foundation and not in the tableau (one still in
   * the deck, say) without detaching it: that card then occurs once more, and
   * a partitioned state stops being one.
   */
  lemma MoveOneCardDuplicatesUnplacedCard(st: State, c: Card, i: nat)
    requires WellFormed(st) && i < StackCount
    requires !IsDiscardTop(st, c) && !IsSuitStackTop(st, c) && !IsInStacks(st.tableau, c)
    ensures AllCards(AfterMoveOneCard(st, c, i)) == AllCards(st) + multiset{c}
    ensures Partitioned(st) ==> !Partitioned(AfterMoveOneCard(st, c, i))
  {
    var r := AfterMoveOneCard(st, c, i);
    PushContents(st.tableau, c, i);
    assert r.discard == st.discard && r.foundations == st.foundations && r.deck == st.deck;
    assert WorkingStacks.Contents(r.tableau) == WorkingStacks.Contents(st.tableau) + multiset{c};
    if Partitioned(st) {
      OccursOnce(st, c);
      assert AllCards(r)[c] == 2;
      FullDeckHoldsEachCardOnce(c);
    }
  }

  /** Pushing one card onto a pile adds exactly that card. */
  lemma PushContents(t: Tableau, c: Card, i: nat)
    requires i < |t|
    ensures WorkingStacks.Contents(WorkingStacks.Push(t, c, i)) == WorkingStacks.Contents(t) + multiset{c}
  {
    WorkingStacks.ContentsUpdate(t, i, t[i] + [c]);
    MultisetCancel(WorkingStacks.Contents(WorkingStacks.Push(t, c, i)), WorkingStacks.Contents(t) + multiset{c}, multiset(t[i]));
  }

  /** A multi-card drop takes its cards off the tableau and puts them back: every count is kept. */
  lemma DropToStackConserves(st: State, cards: seq<Card>, i: nat)
    requires WellFormed(st) && i < StackCount && Droppable(st, cards)
    requires |cards| == 1 ==> IsDiscardTop(st, cards[0]) || IsSuitStackTop(st, cards[0]) || IsTopCard(st.tableau, cards[0])
    ensures AllCards(AfterDropToStack(st, cards, i)) == AllCards(st)
  {
    if |cards| == 1 {
      MoveOneCardConserves(st, cards[0], i);
    } else {
      var u := Unwind(st.tableau, cards).value;
      WorkingStacks.ContentsUpdate(u, i, u[i] + cards);
      MultisetCancel(WorkingStacks.Contents(PushAll(u, cards, i)), WorkingStacks.Contents(u) + multiset(cards), multiset(u[i]));
    }
  }

  lemma MultisetCancel(a: multiset<Card>, b: multiset<Card>, z: multiset<Card>)
    requires a + z == b + z
    ensures a == b
  {
    forall x ensures a[x] == b[x] {
      assert (a + z)[x] == (b + z)[x];
    }
  }

  // ---------------------------------------------------------------------
  // Order preservation of a multi-card move

  /**
   * Dropping a run of two or more cards that lies on top of pile `src`, none
   * of which tops another pile, takes the run off `src` and leaves it on
   * top of pile `i` in its original order; nothing else changes.
   */
  lemma {:induction false} DropToStackMovesRun(st: State, src: nat, cards: seq<Card>, i: nat)
    requires WellFormed(st) && src < StackCount && i < StackCount && src != i
    requires |cards| > 1 && |cards| <= |st.tableau[src]|
    requires st.tableau[src][|st.tableau[src]| - |cards|..] == cards
    requires forall j, x :: 0 <= j < StackCount && j != src && x in cards ==> !IsTop(st.tableau[j], x)
    ensures Droppable(st, cards)
    ensures var r := AfterDropToStack(st, cards, i);
      && r.tableau[src] == st.tableau[src][..|st.tableau[src]| - |cards|]
      && r.tableau[i] == st.tableau[i] + cards
      && (forall j :: 0 <= j < StackCount && j != src && j != i ==> r.tableau[j] == st.tableau[j])
      && r.discard == st.discard && r.foundations == st.foundations && r.deck == st.deck
  {
    var t := st.tableau;
    var below := t[src][..|t[src]| - |cards|];
    assert t[src] == below + cards;
    UnwindSuffix(t, src, below, cards);
  }

  /**
   * Dropping a run of two or more cards back onto the pile it lies on, none
   * of which tops another pile, pops it and pushes it back: the state is
   * unchanged.
   */
  lemma {:induction false} DropRunOntoItsOwnPile(st: State, src: nat, cards: seq<Card>)
    requires WellFormed(st) && src < StackCount
    requires |cards| > 1 && |cards| <= |st.tableau[src]|
    requires st.tableau[src][|st.tableau[src]| - |cards|..] == cards
    requires forall j, x :: 0 <= j < StackCount && j != src && x in cards ==> !IsTop(st.tableau[j], x)
    ensures Droppable(st, cards)
    ensures AfterDropToStack(st, cards, src) == st
  {
    var t := st.tableau;
    var below := t[src][..|t[src]| - |cards|];
    assert t[src] == below + cards;
    UnwindSuffix(t, src, below, cards);
    assert PushAll(t[src := below], cards, src) == t;
  }

  /**
   * Under the partition, the sequence getSequence returns for a card of pile
   * `src` meets the precondition of the multi-card move: none of its cards
   * tops any other pile, so dropping it moves it as a unit.
   */
  lemma {:induction false} SequenceIsMovable(st: State, c: Card, src: nat)
    requires WellFormed(st) && Partitioned(st) && src < StackCount && c in st.tableau[src]
    ensures var run := GetSequence(st.tableau, c, src);
      forall j, x :: 0 <= j < StackCount && j != src && x in run ==> !IsTop(st.tableau[j], x)
  {
    var t := st.tableau;
    var run := GetSequence(t, c, src);
    forall j, x | 0 <= j < StackCount && j != src && x in run ensures !IsTop(t[j], x) {
      assert x in t[src] by {
        assert t[src] == t[src][..|t[src]| - |run|] + run;
      }
      PilesDisjoint(st, src, j, x);
    }
  }

  // ---------------------------------------------------------------------
  // The invariant is kept by every legal move

  lemma DiscardKeepsInvariant(st: State)
    requires Invariant(st) && st.deck != []
    ensures Invariant(AfterDiscard(st))
  {
    DiscardConserves(st);
  }

  lemma MoveToSuitStackKeepsInvariant(st: State, c: Card)
    requires Invariant(st) && CanMoveToSuitStack(st.foundations, c, c.suit)
    requires IsDiscardTop(st, c) || IsTopCard(st.tableau, c)
    ensures Invariant(AfterMoveToSuitStack(st, c))
  {
    var r := AfterMoveToSuitStack(st, c);
    MoveToSuitStackConserves(st, c);
    if IsDiscardTop(st, c) {
      assert c in st.discard;
    } else {
      assert IsInStacks(st.tableau, c) by {
        var k :| 0 <= k < |st.tableau| && IsTop(st.tableau[k], c);
        assert c in st.tableau[k];
      }
    }
    NotOnFoundation(st, c);
    LegalSuitMoveKeepsAscending(st.foundations, c);
    assert r.foundations[c.suit] == st.foundations[c.suit] + [c];
    forall s: Suit ensures Ascending(s, r.foundations[s]) {
      if s != c.suit {
        assert Ascending(s, st.foundations[s]);
      }
    }
  }

  lemma MoveOneCardKeepsInvariant(st: State, c: Card, i: nat)
    requires Invariant(st) && i < StackCount
    requires IsDiscardTop(st, c) || IsSuitStackTop(st, c) || IsTopCard(st.tableau, c)
    ensures Invariant(AfterMoveOneCard(st, c, i))
  {
    MoveOneCardConserves(st, c, i);
    MoveOneCardKeepsAscending(st, c, i);
  }

  /** Taking a card off a foundation, or leaving the foundations alone, keeps them ascending. */
  lemma MoveOneCardKeepsAscending(st: State, c: Card, i: nat)
    requires WellFormed(st) && AllAscending(st.foundations) && i < StackCount
    requires OneCardDetachable(st, c)
    ensures AllAscending(AfterMoveOneCard(st, c, i).foundations)
  {
    var f := st.foundations;
    var g := AfterMoveOneCard(st, c, i).foundations;
    if !IsDiscardTop(st, c) && IsSuitStackTop(st, c) {
      assert g == f[c.suit := f[c.suit][..|f[c.suit]| - 1]];
      forall s: Suit ensures Ascending(s, g[s]) {
        assert Ascending(s, f[s]);
      }
    } else {
      assert g == f;
    }
  }

  lemma DropToStackKeepsInvariant(st: State, cards: seq<Card>, i: nat)
    requires Invariant(st) && i < StackCount && Droppable(st, cards)
    requires |cards| == 1 ==> IsDiscardTop(st, cards[0]) || IsSuitStackTop(st, cards[0]) || IsTopCard(st.tableau, cards[0])
    ensures Invariant(AfterDropToStack(st, cards, i))
  {
    if |cards| == 1 {
      MoveOneCardKeepsInvariant(st, cards[0], i);
    } else {
      DropToStackConserves(st, cards, i);
    }
  }
}
