/**
 * The game facade. One object owns the deck, the discard pile, the suit
 * stacks and the working stacks, changes them only through its moves, and
 * notifies every registered listener once after each move.
 */
module Model {
  import opened Cards
  import opened SuitStacks
  import opened WorkingStacks
  import opened Game

  /** A registered observer, known by its registration handle. */
  type Listener = nat

  class GameModel {
    var deck: seq<Card>
    var discardPile: seq<Card>
    var suitStacks: Foundations
    var workingStacks: Tableau
    var listeners: seq<Listener>
    /** The gameStateChanged call-outs made so far, in order, one entry per listener called. */
    var calls: seq<Listener>
    /** How many rounds of notification have been made. */
    ghost var notifications: nat
    /** The working stacks' drop rule, left uninterpreted. */
    const dropRule: (Card, Pile) -> bool

    /** The four zones as one value. */
    function Snapshot(): State
      reads this
    {
      State(deck, discardPile, suitStacks, workingStacks)
    }

    ghost predicate Valid()
      reads this
    {
      WellFormed(Snapshot())
    }

    /**
     * A new game: `shuffled` is the deck after shuffling and dealing, `dealt`
     * the seven piles the deal produced, `rule` the drop rule of the piles.
     */
    constructor (shuffled: seq<Card>, dealt: Tableau, rule: (Card, Pile) -> bool)
      requires |dealt| == StackCount
      requires multiset(shuffled) + WorkingStacks.Contents(dealt) == multiset(FullDeck())
      ensures Valid() && Invariant(Snapshot())
      ensures deck == shuffled && discardPile == [] && suitStacks == SuitStacks.Empty()
      ensures workingStacks == dealt && dropRule == rule
      ensures listeners == [] && calls == [] && notifications == 0
    {
      deck := shuffled;
      discardPile := [];
      suitStacks := SuitStacks.Empty();
      workingStacks := dealt;
      listeners := [];
      calls := [];
      notifications := 0;
      dropRule := rule;
      new;
      assert SuitStacks.Contents(suitStacks) == multiset{};
    }

    method AddListener(l: Listener)
      modifies this
      ensures listeners == old(listeners) + [l]
      ensures Snapshot() == old(Snapshot()) && calls == old(calls) && notifications == old(notifications)
    {
      listeners := listeners + [l];
    }

    /** Calls every listener once, in registration order. */
    method NotifyListeners()
      modifies this
      ensures calls == old(calls) + listeners && notifications == old(notifications) + 1
      ensures Snapshot() == old(Snapshot()) && listeners == old(listeners)
    {
      var i := 0;
      while i < |listeners|
        invariant 0 <= i <= |listeners|
        invariant calls == old(calls) + listeners[..i]
        invariant Snapshot() == old(Snapshot()) && listeners == old(listeners)
        invariant notifications == old(notifications)
      {
        calls := calls + [listeners[i]];
        i := i + 1;
      }
      assert listeners[..i] == listeners;
      notifications := notifications + 1;
    }

    /** The deck is empty exactly when all 52 cards are out of it. */
    function IsEmptyDeck(): (r: bool)
      reads this
      requires Valid()
      ensures r <==> deck == []
      ensures Invariant(Snapshot()) ==> (r <==> OffDeck(Snapshot()) == multiset(FullDeck()))
    {
      var st := Snapshot();
      if deck == [] then true
      else
        assert Invariant(st) ==> OffDeck(st) != multiset(FullDeck()) by {
          if Invariant(st) {
            var c := deck[0];
            OccursOnce(st, c);
            FullDeckHoldsEachCardOnce(c);
            assert OffDeck(st)[c] == 0;
          }
        }
        false
    }

    /** The discard pile is empty exactly when it has no top card. */
    function IsEmptyDiscardPile(): (r: bool)
      reads this
      ensures r <==> !exists c :: IsDiscardTop(Snapshot(), c)
    {
      assert discardPile != [] ==> IsDiscardTop(Snapshot(), discardPile[|discardPile| - 1]);
      |discardPile| == 0
    }

    /** The top of the discard pile, which under the invariant is nowhere else. */
    function GetDiscardPileTop(): (r: Card)
      reads this
      requires Valid() && !IsEmptyDiscardPile()
      ensures IsDiscardTop(Snapshot(), r)
      ensures Invariant(Snapshot()) ==>
        r !in deck && r !in suitStacks[r.suit] && !IsInStacks(workingStacks, r)
    {
      var r := discardPile[|discardPile| - 1];
      assert Invariant(Snapshot()) ==>
        r !in deck && r !in suitStacks[r.suit] && !IsInStacks(workingStacks, r) by {
        if Invariant(Snapshot()) {
          DiscardTopIsNowhereElse(Snapshot(), r);
        }
      }
      r
    }

    /** Whether the foundation of `s` has a card; on ascending foundations, whether its Ace is there. */
    function HasTopPileCard(s: Suit): (r: bool)
      reads this
      requires Valid()
      ensures r <==> suitStacks[s] != []
      ensures AllAscending(suitStacks) ==> (r <==> Card(s, Ace) in suitStacks[s])
    {
      assert AllAscending(suitStacks) && suitStacks[s] != [] ==> suitStacks[s][0] == Card(s, Ace);
      !IsEmpty(suitStacks, s)
    }

    /** The top of the foundation of `s`; on ascending foundations, its rank is the foundation's height less one. */
    function GetTopPileCard(s: Suit): (r: Card)
      reads this
      requires Valid() && HasTopPileCard(s)
      ensures IsTop(suitStacks[s], r)
      ensures AllAscending(suitStacks) ==> r == Card(s, |suitStacks[s]| - 1)
    {
      assert AllAscending(suitStacks) ==> Ascending(s, suitStacks[s]);
      Peek(suitStacks, s)
    }

    function CanMoveToSuitStack(c: Card, s: Suit): bool
      reads this
      requires Valid()
    {
      Game.CanMoveToSuitStack(suitStacks, c, s)
    }

    function CanDropOnStack(c: Card, i: StackIndex): bool
      reads this
      requires Valid()
    {
      dropRule(c, workingStacks[i])
    }

    function GetSequence(c: Card, i: StackIndex): seq<Card>
      reads this
      requires Valid() && c in workingStacks[i]
    {
      WorkingStacks.GetSequence(workingStacks, c, i)
    }

    /** Draws the top card of the deck and places it on the discard pile. */
    method Discard()
      requires Valid() && !IsEmptyDeck()
      modifies this
      ensures Snapshot() == AfterDiscard(old(Snapshot()))
      ensures listeners == old(listeners) && calls == old(calls) + listeners
      ensures notifications == old(notifications) + 1
    {
      var n := |deck| - 1;
      var drawn := deck[n];
      deck := deck[..n];
      discardPile := discardPile + [drawn];
      NotifyListeners();
    }

    /** Moves `c` from the discard pile or the tableau onto its suit stack. */
    method MoveToSuitStack(c: Card)
      requires Valid() && CanMoveToSuitStack(c, c.suit)
      requires IsDiscardTop(Snapshot(), c) || !IsInStacks(workingStacks, c) || IsTopCard(workingStacks, c)
      modifies this
      ensures Snapshot() == AfterMoveToSuitStack(old(Snapshot()), c)
      ensures listeners == old(listeners) && calls == old(calls) + listeners
      ensures notifications == old(notifications) + 1
    {
      if !IsEmptyDiscardPile() && discardPile[|discardPile| - 1] == c {
        discardPile := discardPile[..|discardPile| - 1];
      } else if IsInStacks(workingStacks, c) {
        workingStacks := PopTopCard(workingStacks, c);
      }
      suitStacks := SuitStacks.Push(suitStacks, c);
      NotifyListeners();
    }

    /**
     * Moves `cards` onto pile `i`. A single card may come from the discard
     * pile, a suit stack or the tableau; a longer run is unwound off the
     * tableau through a temporary stack and pushed back in its original order.
     */
    method DropToStack(cards: seq<Card>, i: StackIndex)
      requires Valid() && Droppable(Snapshot(), cards)
      modifies this
      ensures Snapshot() == AfterDropToStack(old(Snapshot()), cards, i)
      ensures listeners == old(listeners) && calls == old(calls) + listeners
      ensures notifications == old(notifications) + 1
    {
      if |cards| == 1 {
        MoveOneCardToWorkingStack(cards[0], i);
      } else {
        var unwound, temp := PopRun(workingStacks, cards);
        workingStacks := PushRun(unwound, temp, i, cards);
      }
      NotifyListeners();
    }

    /**
     * Takes `c` from the first place that holds it, in the order discard top,
     * top of its suit stack, tableau, and pushes it onto pile `i`.
     */
    method MoveOneCardToWorkingStack(c: Card, i: StackIndex)
      requires Valid() && OneCardDetachable(Snapshot(), c)
      modifies this
      ensures Snapshot() == AfterMoveOneCard(old(Snapshot()), c, i)
      ensures listeners == old(listeners) && calls == old(calls) && notifications == old(notifications)
    {
      if !IsEmptyDiscardPile() && discardPile[|discardPile| - 1] == c {
        discardPile := discardPile[..|discardPile| - 1];
      } else if !IsEmpty(suitStacks, c.suit) && Peek(suitStacks, c.suit) == c {
        suitStacks := SuitStacks.Pop(suitStacks, c.suit);
      } else if IsInStacks(workingStacks, c) {
        workingStacks := PopTopCard(workingStacks, c);
      }
      workingStacks := WorkingStacks.Push(workingStacks, c, i);
    }
  }
  /**
   * The first loop of dropToStack: pops `cards` off the piles, last card
   * first, each from the pile it tops, onto a temporary stack.
   */
  method PopRun(piles: Tableau, cards: seq<Card>) returns (rest: Tableau, temp: seq<Card>)
    requires Unwind(piles, cards).Some?
    ensures Unwind(piles, cards) == Some(rest)
    ensures |temp| == |cards|
    ensures forall m :: 0 <= m < |temp| ==> temp[m] == cards[|cards| - 1 - m]
  {
    var n := |cards|;
    rest := piles;
    temp := [];
    var k := n;
    assert cards[..k] == cards;
    while k > 0
      invariant 0 <= k <= n
      invariant Unwind(rest, cards[..k]) == Unwind(piles, cards)
      invariant |temp| == n - k
      invariant forall m :: 0 <= m < |temp| ==> temp[m] == cards[n - 1 - m]
    {
      k := k - 1;
      assert cards[..k + 1][..k] == cards[..k];
      rest := PopTopCard(rest, cards[k]);
      temp := temp + [cards[k]];
    }
    assert cards[..0] == [];
  }

  /**
   * The second loop of dropToStack: pops the temporary stack empty, pushing
   * each card onto pile `i`, so that the run `cards` whose reverse `temp`
   * holds ends up on the pile in its original order.
   */
  method PushRun(piles: Tableau, temp: seq<Card>, i: nat, ghost cards: seq<Card>) returns (result: Tableau)
    requires i < |piles|
    requires |temp| == |cards| && forall m :: 0 <= m < |temp| ==> temp[m] == cards[|cards| - 1 - m]
    ensures result == PushAll(piles, cards, i)
  {
    var n := |cards|;
    var stack := temp;
    result := piles;
    assert piles[i] + cards[..0] == piles[i];
    while stack != []
      invariant |stack| <= n && |result| == |piles|
      invariant forall m :: 0 <= m < |stack| ==> stack[m] == cards[n - 1 - m]
      invariant result == PushAll(piles, cards[..n - |stack|], i)
    {
      var top := stack[|stack| - 1];
      ghost var j := n - |stack|;
      assert cards[..j + 1] == cards[..j] + [top];
      assert piles[i] + cards[..j + 1] == (piles[i] + cards[..j]) + [top];
      stack := stack[..|stack| - 1];
      result := WorkingStacks.Push(result, top, i);
    }
    assert cards[..n] == cards;
  }
}
