/**
 * The seven working stacks (tableau piles). Each pile is a sequence of cards
 * whose last element is its top; a pile's cards above a given card form the
 * "sequence" that can be moved as a unit.
 */
module WorkingStacks {
  import opened Cards

  datatype Option<T> = None | Some(value: T)

  type Pile = seq<Card>
  type Tableau = seq<Pile>

  /** The number of working stacks, one per value of StackIndex. */
  const StackCount := 7
  type StackIndex = i: nat | i < 7

  predicate IsTop(p: seq<Card>, c: Card) {
    p != [] && p[|p| - 1] == c
  }

  /** `c` lies somewhere in some pile. */
  predicate IsInStacks(t: Tableau, c: Card) {
    exists i :: 0 <= i < |t| && c in t[i]
  }

  /** `c` is the top of some pile. */
  predicate IsTopCard(t: Tableau, c: Card) {
    exists i :: 0 <= i < |t| && IsTop(t[i], c)
  }

  /** The lowest-numbered pile whose top is `c`. */
  function FirstTop(t: Tableau, c: Card): (i: nat)
    requires IsTopCard(t, c)
    ensures i < |t| && IsTop(t[i], c)
    ensures forall j :: 0 <= j < i ==> !IsTop(t[j], c)
  {
    if IsTop(t[0], c) then 0
    else
      assert IsTopCard(t[1..], c) by {
        var k :| 0 <= k < |t| && IsTop(t[k], c);
        assert IsTop(t[1..][k - 1], c);
      }
      1 + FirstTop(t[1..], c)
  }

  /** Removes `c` from the top of the pile it tops. */
  function PopTopCard(t: Tableau, c: Card): Tableau
    requires IsTopCard(t, c)
  {
    var i := FirstTop(t, c);
    t[i := t[i][..|t[i]| - 1]]
  }

  /** Places `c` on top of pile `i`. */
  function Push(t: Tableau, c: Card, i: nat): Tableau
    requires i < |t|
  {
    t[i := t[i] + [c]]
  }

  /** Places `cards` on top of pile `i`, first card lowest. */
  function PushAll(t: Tableau, cards: seq<Card>, i: nat): Tableau
    requires i < |t|
  {
    t[i := t[i] + cards]
  }

  /** The position of the lowest occurrence of `c` in `p`. */
  function IndexOf(p: Pile, c: Card): (k: nat)
    requires c in p
    ensures k < |p| && p[k] == c && c !in p[..k]
  {
    if p[0] == c then 0
    else
      assert p[1..][..IndexOf(p[1..], c)] == p[1..IndexOf(p[1..], c) + 1];
      1 + IndexOf(p[1..], c)
  }

  /**
   * `c` and every card stacked above it in pile `i`, that is, pushed after it.
   * On the screen these cards lie below `c`.
   */
  function GetSequence(t: Tableau, c: Card, i: nat): (run: seq<Card>)
    requires i < |t| && c in t[i]
    ensures run != [] && run[0] == c
    ensures |run| <= |t[i]| && t[i] == t[i][..|t[i]| - |run|] + run
  {
    t[i][IndexOf(t[i], c)..]
  }

  /** All the cards held by the piles. */
  function Contents(t: Tableau): multiset<Card> {
    if t == [] then multiset{} else Contents(t[..|t| - 1]) + multiset(t[|t| - 1])
  }

  /** Replacing one pile changes the contents by exactly the cards replaced. */
  lemma {:induction false} ContentsUpdate(t: Tableau, i: nat, p: Pile)
    requires i < |t|
    ensures Contents(t[i := p]) + multiset(t[i]) == Contents(t) + multiset(p)
  {
    var n := |t| - 1;
    var u := t[i := p];
    assert Contents(u) == Contents(u[..n]) + multiset(u[n]);
    assert Contents(t) == Contents(t[..n]) + multiset(t[n]);
    if i < n {
      assert u[..n] == t[..n][i := p];
      assert u[n] == t[n] && t[..n][i] == t[i];
      ContentsUpdate(t[..n], i, p);
      calc {
        Contents(u) + multiset(t[i]);
        Contents(t[..n][i := p]) + multiset(t[n]) + multiset(t[i]);
        Contents(t[..n][i := p]) + multiset(t[..n][i]) + multiset(t[n]);
        Contents(t[..n]) + multiset(p) + multiset(t[n]);
        Contents(t) + multiset(p);
      }
    } else {
      assert u[..n] == t[..n];
    }
  }

  /** Each pile's cards are among the contents. */
  lemma {:induction false} PileInContents(t: Tableau, i: nat)
    requires i < |t|
    ensures multiset(t[i]) <= Contents(t)
  {
    var n := |t| - 1;
    if i < n {
      PileInContents(t[..n], i);
    }
  }

  /** Popping a top card removes exactly that card. */
  lemma PopTopCardContents(t: Tableau, c: Card)
    requires IsTopCard(t, c)
    ensures |PopTopCard(t, c)| == |t|
    ensures Contents(PopTopCard(t, c)) + multiset{c} == Contents(t)
  {
    var i := FirstTop(t, c);
    var p := t[i];
    assert p == p[..|p| - 1] + [c];
    assert multiset(p) == multiset(p[..|p| - 1]) + multiset{c};
    var t' := t[i := p[..|p| - 1]];
    assert PopTopCard(t, c) == t';
    ContentsUpdate(t, i, p[..|p| - 1]);
    calc {
      Contents(t') + multiset{c} + multiset(p[..|p| - 1]);
      Contents(t') + multiset(p);
      Contents(t) + multiset(p[..|p| - 1]);
    }
    var rest := multiset(p[..|p| - 1]);
    forall x ensures (Contents(t') + multiset{c})[x] == Contents(t)[x] {
      assert (Contents(t') + multiset{c} + rest)[x] == (Contents(t) + rest)[x];
    }
  }

  /**
   * Pops `cards` one at a time, last card first, each from the pile it tops
   * at that moment; None when some card is not a top when its turn comes.
   */
  function Unwind(t: Tableau, cards: seq<Card>): (r: Option<Tableau>)
    ensures r.Some? ==> |r.value| == |t|
    ensures r.Some? ==> Contents(r.value) + multiset(cards) == Contents(t)
    decreases |cards|
  {
    if cards == [] then Some(t)
    else
      var n := |cards| - 1;
      var c := cards[n];
      if !IsTopCard(t, c) then None
      else
        PopTopCardContents(t, c);
        assert cards == cards[..n] + [c];
        Unwind(PopTopCard(t, c), cards[..n])
  }

  /**
   * When `cards` lies on top of pile `src` and no other pile's top is one of
   * them, unwinding removes exactly that run from `src`.
   */
  lemma {:induction false} UnwindSuffix(t: Tableau, src: nat, below: Pile, cards: seq<Card>)
    requires src < |t| && t[src] == below + cards
    requires forall j, x :: 0 <= j < |t| && j != src && x in cards ==> !IsTop(t[j], x)
    ensures Unwind(t, cards) == Some(t[src := below])
    decreases |cards|
  {
    if cards == [] {
      assert t[src] == below;
      assert t[src := below] == t;
    } else {
      var n := |cards| - 1;
      var c := cards[n];
      assert IsTop(t[src], c);
      assert c in cards;
      var i := FirstTop(t, c);
      assert i == src;
      assert t[src][..|t[src]| - 1] == below + cards[..n];
      var t' := PopTopCard(t, c);
      assert t' == t[src := below + cards[..n]];
      forall j, x | 0 <= j < |t'| && j != src && x in cards[..n] ensures !IsTop(t'[j], x) {
        assert t'[j] == t[j];
        assert x in cards;
      }
      UnwindSuffix(t', src, below, cards[..n]);
      assert t'[src := below] == t[src := below];
    }
  }
}
