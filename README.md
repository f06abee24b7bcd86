# Klondike solitaire game model in Dafny

This project models `GameModel`, the facade of a Klondike solitaire rules
engine. The facade owns the game state: a deck, a discard pile, four suit
stacks (foundations, one per suit) and seven working stacks (tableau piles).
It moves cards between these zones and notifies its registered listeners
after every move. Every move follows one pattern: find the zone that holds
the card, detach the card from it, attach the card to the destination.

The project has five modules.

- `Cards` (`cards.dfy`) defines suits and ranks. A rank is an ordinal from 0
  (Ace) to 12 (King). A card is a suit and a rank. `FullDeck` is the
  unshuffled deck, ordered by suit and then by rank.
- `SuitStacks` (`suit_stacks.dfy`) models the four foundations as a map from
  suit to a sequence of cards. The last element is the top.
- `WorkingStacks` (`working_stacks.dfy`) models the seven piles as a
  sequence of seven sequences. It has the operations the facade asks of its
  pile manager: membership, pop-the-top-card, push, and get-the-sequence
  (a card and every card above it). `Unwind` is a specification function.
  It describes what the pop loop of `dropToStack` does to the piles.
- `Game` (`game.dfy`) is the state as a value (`State`) and one function per
  move. Each function gives the state that the move leaves. The module also
  holds the lemmas about the moves. Card conservation says the multiset of
  cards across all zones is unchanged. The invariant says every one of the
  52 cards is in exactly one zone and every foundation is built Ace upward
  in its own suit. The module also proves the order of a multi-card move.
- `Model` (`game_model.dfy`) is the class `GameModel`. Its fields are
  mutated in place by its methods. The `ensures` of each move (`Discard`,
  `MoveToSuitStack`, `DropToStack` and `MoveOneCardToWorkingStack`) equates
  the new `Snapshot()` with the matching `Game` function applied to the old
  one. `Discard`, `MoveToSuitStack` and `DropToStack` also say that each
  listener was called once more, in registration order.
  `MoveOneCardToWorkingStack` makes no notification of its own.
  `AddListener` and `NotifyListeners` leave `Snapshot()` unchanged. The two
  loops of `dropToStack` are the methods `PopRun` and `PushRun`, which
  change no state.

Listeners are reduced to registration handles. `NotifyListeners` appends
each registered handle to the `calls` trace and increments a ghost counter
of notification rounds. The shuffle and the deal are not visible, so the
constructor takes the shuffled deck that remains after dealing and the seven
dealt piles as parameters. It requires that together they hold each of the
52 cards exactly once. The piles' drop-legality rule (`canDropOnStack`) is
not visible either, so it is a constructor parameter, a total function
`(Card, Pile) -> bool` that the model never interprets.

Card equality in the source is reference equality (`==`) on card objects.
The model uses value equality, which is the same when there is one object
per suit and rank.

`popTopCard` of the pile manager is not part of this model. It pops a card
that is on top of some pile. The model pops it from the lowest-numbered pile
whose top it is. When every card is in one zone, only one pile can match.
The source's `assert` lines and `@pre` tags become `requires` clauses.
`popTopCard`'s demand that its card be a pile top is one of these too. That
is why `MoveToSuitStack`, `MoveOneCardToWorkingStack` and `DropToStack`
require that a card they will take from the tableau is the top of a pile.

The loop at `GameModel.java:217-221` pops `pCards[length-1]` first, which is
the top of the run, and works down. The second loop pushes the run back in
its original order.

The doc comment of `getSequence` speaks of a card and the cards "below" it,
meaning below it on the screen. In the model a pile is a stack, so those are
the cards above it: the card and every card stacked on it later.

`moveToSuitStack` and `moveOneCardToWorkingStack` push their card even when
none of the zones they probe holds it. For `moveToSuitStack` that is a card
that is neither the discard top nor in the tableau. For
`moveOneCardToWorkingStack` it is a card that is not the discard top, not
the top of its foundation and not in the tableau, for example a card still
in the deck or lower down in its foundation. The card is then pushed as a
second copy. `MoveToSuitStackDuplicatesUnplacedCard` and
`MoveOneCardDuplicatesUnplacedCard` show that this breaks the partition.

## Model

| member | source | states |
|---|---|---|
| `Cards.FullDeckHoldsEachCardOnce` | test/ca/mcgill/cs/stg/solitaire/model/TestDeck.java:27-31 | the unshuffled deck, in suit-then-rank order, holds each of the 52 cards exactly once |
| `Game.CanMoveToSuitStack` | src/ca/mcgill/cs/stg/solitaire/model/GameModel.java:131-155 | on an ascending foundation of `s`: legal iff the card is of suit `s` and is either an Ace, or the foundation is non-empty and the card's rank is one above the top's, which is the foundation's height |
| `Game.LegalSuitMoveKeepsAscending` | src/ca/mcgill/cs/stg/solitaire/model/GameModel.java:138-155 | for a card not yet on its ascending foundation: the legality test accepts it exactly when pushing it keeps the foundation Ace, 2, 3, ... of one suit (both directions) |
| `Game.AfterDiscard` | src/ca/mcgill/cs/stg/solitaire/model/GameModel.java:119-129 | needs a non-empty deck; the deck loses exactly its top card, that card becomes the discard top above the old pile, foundations and tableau are unchanged |
| `Game.AfterMoveToSuitStack` | src/ca/mcgill/cs/stg/solitaire/model/GameModel.java:157-175 | needs a legal foundation move; the card becomes the top of its foundation, which grows by one, and other suits are unchanged; if it was the discard top the discard pile loses exactly it and the tableau is unchanged; otherwise, if it is in the tableau, it leaves the pile it topped |
| `Game.AfterMoveOneCard` | src/ca/mcgill/cs/stg/solitaire/model/GameModel.java:231-246 | the card is detached from the first zone that holds it, in the order discard top, top of its foundation, tableau; other zones are unchanged and the card ends on top of pile `i` |
| `Game.AfterDropToStack` | src/ca/mcgill/cs/stg/solitaire/model/GameModel.java:207-229 | pile `i` ends with the dropped cards in their original order; a move of other than one card leaves the discard pile and the foundations unchanged |
| `Game.DiscardConserves` | src/ca/mcgill/cs/stg/solitaire/model/GameModel.java:124-129 | drawing to the discard pile keeps the multiset of all cards |
| `Game.MoveToSuitStackConserves` | src/ca/mcgill/cs/stg/solitaire/model/GameModel.java:165-173 | when the card is the discard top or a pile top, the multiset of all cards is unchanged |
| `Game.MoveToSuitStackDuplicatesUnplacedCard` | src/ca/mcgill/cs/stg/solitaire/model/GameModel.java:164-173 | when the card is neither the discard top nor in the tableau, it is pushed without being detached: it occurs once more, and a partitioned state is no longer partitioned |
| `Game.MoveOneCardDuplicatesUnplacedCard` | src/ca/mcgill/cs/stg/solitaire/model/GameModel.java:233-245 | when the card is not the discard top, not its foundation's top and not in the tableau, it is pushed without being detached: it occurs once more, and a partitioned state is no longer partitioned |
| `Game.MoveOneCardConserves` | src/ca/mcgill/cs/stg/solitaire/model/GameModel.java:231-246 | moving the discard top, a foundation top or a pile top to a pile keeps the multiset of all cards |
| `Game.DropToStackConserves` | src/ca/mcgill/cs/stg/solitaire/model/GameModel.java:207-229 | a drop whose cards can be detached keeps the multiset of all cards |
| `Game.DropToStackMovesRun` | src/ca/mcgill/cs/stg/solitaire/model/GameModel.java:214-226 | a run of two or more cards on top of pile `src`, none of which tops another pile, can be dropped; afterwards `src` holds only what was below the run, pile `i` holds its old cards followed by the run in its original order, and all other piles and zones are unchanged |
| `Game.DropRunOntoItsOwnPile` | src/ca/mcgill/cs/stg/solitaire/model/GameModel.java:214-226 | dropping a run of two or more cards back onto the pile it lies on, when none of its cards tops another pile, leaves the whole state unchanged |
| `Game.SequenceIsMovable` | src/ca/mcgill/cs/stg/solitaire/model/GameModel.java:195-205 | when each card is in one zone, none of the cards of a pile's sequence tops another pile, so the sequence meets the precondition of the run move |
| `Game.DiscardKeepsInvariant` | src/ca/mcgill/cs/stg/solitaire/model/GameModel.java:124-129 | discarding keeps the partition of the 52 cards and the ascending foundations |
| `Game.MoveToSuitStackKeepsInvariant` | src/ca/mcgill/cs/stg/solitaire/model/GameModel.java:162-175 | a legal foundation move of the discard top or a pile top keeps the partition and keeps every foundation ascending |
| `Game.MoveOneCardKeepsInvariant` | src/ca/mcgill/cs/stg/solitaire/model/GameModel.java:231-246 | moving a zone top onto a pile keeps the partition and the ascending foundations |
| `Game.MoveOneCardKeepsAscending` | src/ca/mcgill/cs/stg/solitaire/model/GameModel.java:237-240 | taking the top card off a foundation, or leaving the foundations alone, keeps every foundation ascending |
| `Game.DropToStackKeepsInvariant` | src/ca/mcgill/cs/stg/solitaire/model/GameModel.java:207-229 | every drop whose cards can be detached keeps the partition and the ascending foundations |
| `Game.DiscardTopIsNowhereElse` | src/ca/mcgill/cs/stg/solitaire/model/GameModel.java:165-169 | when each card is in one zone, the discard top is in neither the deck, its foundation nor the tableau, so the first probe of a move finds the card's only copy |
| `WorkingStacks.GetSequence` | src/ca/mcgill/cs/stg/solitaire/model/GameModel.java:195-205 | the sequence is non-empty, starts with the given card and is a suffix of the pile: the card and every card stacked above it (below it on the screen) |
| `WorkingStacks.PopTopCardContents` | src/ca/mcgill/cs/stg/solitaire/model/GameModel.java:171 | popping a pile top removes exactly that one card and keeps seven piles |
| `WorkingStacks.Unwind` | src/ca/mcgill/cs/stg/solitaire/model/GameModel.java:216-221 | when every pop succeeds, the piles lose exactly the popped cards |
| `WorkingStacks.UnwindSuffix` | src/ca/mcgill/cs/stg/solitaire/model/GameModel.java:214-221 | popping a run that lies on top of one pile, none of whose cards tops another pile, removes exactly that run from that pile |
| `Model.PopRun` | src/ca/mcgill/cs/stg/solitaire/model/GameModel.java:216-221 | the for-loop leaves the piles as `Unwind` describes and the temporary stack holding the run reversed |
| `Model.PushRun` | src/ca/mcgill/cs/stg/solitaire/model/GameModel.java:222-225 | emptying the temporary stack onto pile `i` appends the run to that pile in its original order |
| `Model.GameModel.constructor` | src/ca/mcgill/cs/stg/solitaire/model/GameModel.java:95-101 | initial state: the given deck and dealt piles, an empty discard pile, four empty foundations, no listeners; every card is in exactly one zone |
| `Model.GameModel.AddListener` | src/ca/mcgill/cs/stg/solitaire/model/GameModel.java:82-85 | appends the listener; no duplicate check; nothing else changes |
| `Model.GameModel.NotifyListeners` | src/ca/mcgill/cs/stg/solitaire/model/GameModel.java:87-93 | each registered listener is called exactly once, in registration order; game state unchanged |
| `Model.GameModel.IsEmptyDeck` | src/ca/mcgill/cs/stg/solitaire/model/GameModel.java:106-109 | reads only; under the invariant, the deck is empty exactly when all 52 cards are in the other zones |
| `Model.GameModel.IsEmptyDiscardPile` | src/ca/mcgill/cs/stg/solitaire/model/GameModel.java:114-117 | reads only; the pile is empty exactly when it has no top card |
| `Model.GameModel.GetDiscardPileTop` | src/ca/mcgill/cs/stg/solitaire/model/GameModel.java:254-258 | needs a non-empty discard pile; reads only; returns its top, which under the invariant is in no other zone |
| `Model.GameModel.HasTopPileCard` | src/ca/mcgill/cs/stg/solitaire/model/GameModel.java:178-181 | reads only; on ascending foundations, true exactly when the Ace of the suit is on its foundation |
| `Model.GameModel.GetTopPileCard` | src/ca/mcgill/cs/stg/solitaire/model/GameModel.java:183-186 | needs a non-empty foundation; on ascending foundations the top is the card of that suit whose rank is the foundation's height less one |
| `Model.GameModel.Discard` | src/ca/mcgill/cs/stg/solitaire/model/GameModel.java:119-129 | needs a non-empty deck; new state is `AfterDiscard` of the old; listeners are notified exactly once |
| `Model.GameModel.MoveToSuitStack` | src/ca/mcgill/cs/stg/solitaire/model/GameModel.java:157-175 | needs a legal foundation move; new state is `AfterMoveToSuitStack` of the old; listeners are notified exactly once |
| `Model.GameModel.DropToStack` | src/ca/mcgill/cs/stg/solitaire/model/GameModel.java:207-229 | new state is `AfterDropToStack` of the old; listeners are notified exactly once, also for a multi-card run |
| `Model.GameModel.MoveOneCardToWorkingStack` | src/ca/mcgill/cs/stg/solitaire/model/GameModel.java:231-246 | new state is `AfterMoveOneCard` of the old; no notification of its own |

## Left out

- Shuffling (`GameModel.java:97`) is random and done by the deck class, which is not part of this model. The shuffled deck is a constructor parameter.
- Dealing the tableau (`GameModel.java:100`) follows a rule of the pile manager that is not part of this model. The dealt piles are a constructor parameter, and the model does not prove that 24 cards remain in the deck.
- The singleton (`GameModel.java:50`, `:73-76`) is dropped. The model is an ordinary object built by its constructor.
- Listener objects and their `gameStateChanged` callbacks are reduced to handles recorded in a call trace. What a listener does when called is not modelled.
- `getStackAt` (`GameModel.java:248-251`) returns a presentation view with face-up and face-down status. That status belongs to the pile manager and is not modelled.
- `canDropOnStack` (`GameModel.java:190-193`) forwards to a rule of the pile manager that is not part of this model. The rule is an uninterpreted constructor parameter, so no property of it is proved.
- `GameModel.CanMoveToSuitStack`, `GameModel.CanDropOnStack` and `GameModel.GetSequence` in the class only forward to `Game.CanMoveToSuitStack`, to the drop rule and to `WorkingStacks.GetSequence`. Their properties are stated on those functions.
- Java's `assert` statements are checked only when assertions are enabled. The model treats each as a precondition that callers must meet. It does not model a run that breaks one.
- `TestDeck` resets the deck through reflection. Only its intent, the suit-then-rank order, is modelled, as `FullDeck`.
