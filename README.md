# Suit-collection card game: a Dafny model of `main.py`

`main.py` is a two-player card game with a human player against the
computer. Each side is dealt 3 cards on the easy setting and 6 otherwise.
In every turn both sides draw one card from the shuffled 52-card deck and
throw one card onto the discard pile. The first side to hold the target
number of cards of one suit (3 or 6) wins. When fewer than two cards are
left to draw, or the deck is empty after a turn, the lower total of card
values wins (J, Q and K count 10 and the ace counts 1), and equal totals
are a draw. The computer chooses its discard with a rule built on a rough
win-probability estimate.

The model is split into five modules:

- `Seqs` (seqs.dfy) states the two Python list built-ins the game relies on.
  - `max(xs, key=f)` keeps the first maximum.
  - `xs.remove(x)` drops the first occurrence of `x`; `IndexOf` is that
    first occurrence.
- `Cards` (cards.dfy) holds the card values, the ordered base deck, the
  shuffled deck as any permutation of it, suit counts, the score and the deal.
- `Hand` (hand.dfy) evaluates a hand.
  - The suit-count dictionary is a list of (suit, count) pairs in the order
    Python inserts them, because that order decides ties in `max`.
  - `EvaluateHand` is the source's loop.
  - `Tallies` and `Evaluate` are the functions that specify it.
  - `CheckWinner` is the win test.
- `Heuristic` (heuristic.dfy) holds the win-probability estimate, over exact
  reals, and the computer's discard rule.
- `Game` (game.dfy) holds the turn engine, as a class whose fields are the
  closure variables of `start_game`.
  - `play_turn` and `on_player_discard` become step methods.
  - Where the game waits is a `Phase`:
    - the player must choose;
    - the computer must move;
    - drawing is next;
    - the game is over.
  - `Valid()` states two invariants: both hands keep the dealt size, and the
    cards in the deck, the drawn-but-unplaced cards, the two hands and the
    pile always make up exactly the 52 cards that were dealt.
  - The same steps are also functions on a `Table`, a value holding all the
    fields (`DrawPair`, `PlayerStep`, `ComputerStep`, `Settle`, `Respond`).
    `OnPlayerDiscard` and `FinishTurn` state their new state as `Respond`
    and `Settle` of the old one. `Replay` runs a whole game from a list of
    the player's picks, and `PlayOut` is the loop that reaches the state
    `Replay` gives.

## Model

| member | source | states |
|---|---|---|
| Seqs.FirstMaxBy | main.py:41 | the index `max(key=...)` picks: no element has a larger key, and every element before it has a strictly smaller key |
| Seqs.FirstMaxByIsFirstMax | main.py:66 | the element at FirstMaxBy satisfies IsFirstMax: it is in the list, its key is maximal, and it is the earliest at that key |
| Seqs.FirstMaxUnique | main.py:66 | at most one element satisfies IsFirstMax, so that predicate pins down what `max` returns |
| Seqs.IndexOf | main.py:148 | the first occurrence of x, which `list.remove` at main.py:148 and 154 deletes: the position holds x, and x does not occur before it |
| Seqs.RemoveFirst | main.py:148 | `list.remove`: one element fewer, exactly one copy of x gone from the multiset, elements before its first occurrence unchanged and those after shifted down by one |
| Seqs.DropAt | main.py:154 | dropping position i removes exactly one copy of the element at i |
| Cards.Value | main.py:14-20 | the card value is in 1..10; J, Q and K are 10, the ace is 1, and the number cards 2..10 are their own number |
| Cards.SuitRow | main.py:31-32 | definition: the thirteen cards of one suit in the order of the value list; characterised by RowsAt |
| Cards.Rows | main.py:32 | definition: the suit-major comprehension over a list of suits; characterised by RowsAt |
| Cards.BaseDeck | main.py:30-32 | definition: the comprehension over the four suits; characterised by BaseDeckAt, BaseDeckAllCards and BaseDeckSuitCount |
| Cards.IsShuffledDeck | main.py:33 | definition: a reordering of the base deck, with the same multiset of cards; its consequences are ShuffledDeckFacts |
| Cards.RowsAt | main.py:32 | the suit-major comprehension has 13 cards per suit, and position i holds suit i/13 with the rank at i%13 |
| Cards.BaseDeckAt | main.py:29-32 | the unshuffled deck has 52 cards, position i is (suits[i/13], values[i%13]), and every card sits at its own ordinal |
| Cards.BaseDeckAllCards | main.py:29-32 | the unshuffled deck has 52 pairwise distinct cards and contains every card |
| Cards.BaseDeckSuitCount | main.py:29-32 | the unshuffled deck has 13 cards of every suit |
| Cards.ShuffledDeckDistinct | main.py:33 | a permutation of the base deck has no repeated card |
| Cards.ShuffledDeckComplete | main.py:33 | a permutation of the base deck has 52 cards and contains every card |
| Cards.ShuffledDeckFacts | main.py:29-34 | what create_deck returns: 52 distinct cards, every card present, 13 of each suit |
| Cards.SuitCount | main.py:39-40 | the number of cards of a suit never exceeds the hand size |
| Cards.SuitCountSnoc | main.py:39-40 | appending a card adds one to its suit's count and nothing to the others |
| Cards.SuitCountAppend | main.py:39-40 | suit counts add over concatenated card lists |
| Cards.SuitCountMultiset | main.py:39-40 | suit counts depend only on the multiset of cards, not on their order |
| Cards.SuitCountUniform | main.py:39-40 | a list of cards all of one suit counts its length for that suit and 0 for the others |
| Cards.DistinctCountsAtMostOne | main.py:29-33 | helper of ShuffledDeckDistinct: in a list with no repeated card, each card occurs at most once |
| Cards.RepeatedCountsTwice | main.py:29-33 | helper of ShuffledDeckDistinct: two equal cards at different positions give multiplicity two or more |
| Cards.Score | main.py:87-88 | the sum of card values lies between the hand size and ten times the hand size |
| Cards.ScoreAppend | main.py:87-88 | the score adds over concatenated card lists |
| Cards.DealCards | main.py:75-79 | the three slices concatenate back to the deck; each hand has n cards when the deck has at least 2n; the rest is empty when it has fewer; a deck of at most n cards all goes to the player |
| Hand.Target | main.py:51 | definition: 3 on the easy setting and 6 otherwise, the same expression as main.py:84 and main.py:127 |
| Hand.Get | main.py:40 | definition: `suit_counts.get(s, 0)`; characterised by GetTallies |
| Hand.Bump | main.py:40 | definition: `suit_counts[s] = suit_counts.get(s, 0) + 1`, with a new key last; characterised by BumpKeysDistinct, BumpCountsMatch and BumpAppearanceOrder |
| Hand.Tallies | main.py:38-40 | definition: the dictionary after the loop, the specification of EvaluateHand; characterised by TalliesCountsOf and GetTallies |
| Hand.Find | main.py:40 | the dictionary slot of a suit: either the first slot with that suit, or past the end when the suit is absent |
| Hand.FindIs | main.py:40 | pins Find down: the first slot with that suit, or the end when there is none |
| Hand.SumUpdate | main.py:40 | replacing one count changes the total by the difference |
| Hand.SumSnoc | main.py:40 | a new slot adds its count to the total |
| Hand.BumpKeysDistinct | main.py:40 | the `get(suit, 0) + 1` update never creates a second slot for a suit |
| Hand.SuitCountSnocAll | main.py:39-40 | one more card adds one to its own suit's count and leaves every other suit's count alone |
| Hand.BumpCountsMatch | main.py:39-40 | after one more card, the dictionary still holds exactly the hand's suit counts |
| Hand.SuitCountAt | main.py:39-40 | the suit of any card in the hand has a count of at least one |
| Hand.BumpAppearanceOrder | main.py:39-40 | after one more card, the keys are still in order of first appearance in the hand |
| Hand.BumpCountsOf | main.py:39-40 | the loop body preserves CountsOf: distinct keys, exact counts, first-appearance order |
| Hand.TalliesCountsOf | main.py:38-40 | the dictionary the loop builds has one key per suit present, holds each suit's count, and lists keys in order of first appearance |
| Hand.GetTallies | main.py:40 | `suit_counts.get(s, 0)` is the number of cards of suit s in the hand |
| Hand.Evaluate | main.py:37-46 | the best suit occurs in the hand, its count is the reported count, and no suit has a larger count |
| Hand.EvaluateCountsSum | main.py:38-40 | the counts sum to the hand size, and each suit's entry is its count in the hand |
| Hand.FirstTopKeyAppearsFirst | main.py:41 | the first dictionary key at the top count appears in the hand no later than any card whose suit reaches that count |
| Hand.EvaluateTieBreak | main.py:41 | among suits tied at the top count, the best suit is the one whose first card comes earliest in the hand |
| Hand.EvaluateHand | main.py:37-46 | the loop returns exactly the metrics Evaluate specifies |
| Hand.CheckWinner | main.py:82-84 | the hand wins exactly when some suit has at least the target count (3 for easy, 6 for hard) |
| Heuristic.Clamp | main.py:56 | the result lies in [0, 1], and values already in [0, 1] are unchanged |
| Heuristic.WinningProbability | main.py:49-56 | the estimate lies in [0, 1], and it is 1.0 once the leading suit reaches the target |
| Heuristic.RatioThreshold | main.py:56-65 | (r/13)/n is below 0.3 exactly when 10r < 39n |
| Heuristic.RatioMonotone | main.py:56 | the unclamped ratio (r/13)/n never drops as r grows |
| Heuristic.ProbabilityMonotone | main.py:49-56 | with more cards left in the deck, the estimate never drops |
| Heuristic.ProbabilityBelowThreshold | main.py:54-65 | the estimate is below 0.3 exactly when the target is not met and 10·remaining < 39·cards_needed |
| Heuristic.ProbabilityNotAtThreshold | main.py:56-65 | the estimate never equals 0.3, so the branch at line 65 never depends on the equality case |
| Heuristic.RatioBelowMargin | main.py:56-65 | an exact ratio below 0.3 is below it by at least 1/780 |
| Heuristic.RatioAboveMargin | main.py:56-65 | an exact ratio above 0.3 is above it by at least 1/780 |
| Heuristic.ProbabilityMargin | main.py:56-65 | every estimate is at least 1/780 away from 0.3, so float rounding cannot flip the branch |
| Heuristic.OffSuit | main.py:68 | the comprehension keeps only cards of the hand that are not of the best suit |
| Heuristic.OffSuitPrefix | main.py:68 | the comprehension over a prefix of the hand is a prefix of the comprehension over the whole hand |
| Heuristic.OffSuitPosition | main.py:68 | an off-suit card lands in the comprehension right after the off-suit cards that come before it |
| Heuristic.OffSuitMaxBounds | main.py:70 | no off-suit card of the hand is worth more than the comprehension's maximum |
| Heuristic.OffSuitBefore | main.py:68-70 | an off-suit card that comes earlier in the hand comes earlier in the comprehension |
| Heuristic.OffSuitMaxStrict | main.py:70 | an off-suit card before the maximum's first occurrence is worth strictly less |
| Heuristic.OffSuitFirstMax | main.py:68-70 | the comprehension's `max` is the highest off-suit card of the hand, and the earliest at that value |
| Heuristic.ChooseDiscard | main.py:59-72 | the discarded card comes from the hand plus the new card, and the reported probability is the estimate for that full hand with the deck's length as remaining |
| Heuristic.ChooseDiscardRule | main.py:59-72 | below 0.3 the first highest card of the full hand goes; otherwise the first highest off-suit card if any exists; and the first highest card when all cards share the best suit |
| Game.EndGame | main.py:220-228 | never a suit win; the player wins exactly when their score is lower, the computer exactly when its score is lower, and a draw exactly on equal scores |
| Game.EndGameSymmetric | main.py:220-228 | swapping the hands swaps the winner and the scores |
| Game.PlayerKeeps | main.py:145-150 | the hand keeps its size; throwing the new card leaves it unchanged; otherwise the new card is last; and hand plus thrown card equals old hand plus new card as a multiset |
| Game.ComputerKeeps | main.py:152-156 | the hand keeps its size, and hand plus thrown card equals old hand plus new card as a multiset |
| Game.AfterDiscards | main.py:159-166 | a player suit win is checked first; the computer wins only when the player has not; the game goes on only if neither has collected and the deck is not empty; otherwise it ends by points |
| Game.GatherFive | main.py:128-157 | the cards of the five places (deck, drawn, two hands, pile) are the union of their multisets |
| Game.DealConserves | main.py:128 | dealing leaves every card of the shuffled deck in a hand or in the deck |
| Game.DrawConserves | main.py:139-140 | popping the front two cards moves them from the deck to the drawn cards and loses nothing |
| Game.PlayerStepConserves | main.py:145-150 | the player's discard keeps the full multiset of cards in play |
| Game.ComputerStepConserves | main.py:152-157 | the computer's discard keeps the full multiset of cards in play |
| Game.DrawPair | main.py:133-142 | play_turn on a whole table: the game ends exactly when fewer than two cards remain, and then by points with the deck kept; otherwise the player gets the front card, the computer the next, and the deck loses those two; hands and pile unchanged, and no card is lost |
| Game.Settle | main.py:159-166 | the end of on_player_discard on a table: hands and pile unchanged, a game that goes on has taken the next two cards, one that ends keeps its deck, and no card is lost |
| Game.PlayerStep | main.py:145-150 | the player's discard on a table: the computer's drawn card waits, the pile gains the chosen card, the hand keeps its size, deck and computer hand unchanged, and no card is lost |
| Game.ComputerThrow | main.py:152-157 | the computer throws a given card of its hand plus the drawn one: the pile gains that card, the hand keeps its size, deck and player hand unchanged, and no card is lost |
| Game.ComputerStep | main.py:152-157 | the computer throws the card its rule picks: the pile gains one card, the hand keeps its size, deck and player hand unchanged, and no card is lost |
| Game.Respond | main.py:144-166 | one whole on_player_discard: both hands keep their size, the pile gains the player's card then one more, a game that goes on took the next two cards of the deck, one that ends kept its deck, and no card is lost |
| Game.Pick | main.py:186-196 | a position among the held cards and the new card always names a card the player may throw |
| Game.Replay | main.py:133-168 | the game answered turn by turn from a list of picks: hand sizes kept, no card lost, and a game that is over, or has no picks left, stays as it is |
| Game.ReplayStep | main.py:166 | replaying from a pick is that turn's on_player_discard followed by the rest of the picks |
| Game.Game.Valid | main.py:125-166 | definition of the class invariant: both hands keep the dealt size, and the deck, the drawn cards, the hands and the pile hold exactly the dealt cards; every step method keeps it |
| Game.Game.constructor | main.py:125-131 | deals Target cards to each side from the front of the shuffled deck, empties the pile, and plays the first turn (line 233); all 52 cards are accounted for |
| Game.Game.PlayTurn | main.py:133-142 | with fewer than two cards left, ends by points; otherwise pops exactly the front two cards as the player's and the computer's new cards; hands and pile unchanged |
| Game.Game.OnPlayerDiscard | main.py:144-166 | the player's hand is PlayerKeeps of the choice; the computer's hand loses exactly ChooseDiscard's card; the pile grows by the player's card then the computer's; the whole new state is Respond of the old one |
| Game.Game.PlayerDiscard | main.py:145-150 | the player's hand becomes PlayerKeeps of the choice, the pile gains the chosen card, and the computer's side and the deck are untouched |
| Game.Game.ComputerDiscard | main.py:152-157 | the computer's hand becomes the kept cards and the pile gains the thrown card; the deck and the player's hand are untouched |
| Game.Game.FinishTurn | main.py:159-166 | hands and pile unchanged; the new state is Settle of the old one: decided by the suit checks in their order, or by points, or the next turn draws two cards |
| Game.Game.PlayOut | main.py:133-168 | the final state is Replay of the picks from the starting state; while the game goes on, each played turn took exactly two cards from the deck; with more picks than half the deck, the game is over |

## Left out

- The tkinter interface is not modelled: `render_turn` (main.py:170-218), `show_winner` (main.py:91-122), `select_difficulty` (main.py:237-251) and the window main loop. The player's choice is a parameter of `OnPlayerDiscard`, and `PlayOut` takes the sequence of choices.
- `Game.Game.OnPlayerDiscard` requires the choice to be a held card or the new card. The source only offers those cards as buttons (main.py:186-196), so no other card can reach `on_player_discard`.
- `random.shuffle` (main.py:33) is not modelled: the constructor accepts any permutation of the base deck.
- Floating point is not modelled: the estimate is an exact real. `Heuristic.ProbabilityMargin` shows every estimate is at least 1/780 away from the 0.3 threshold, so rounding cannot change the branch taken at main.py:65.
- The difficulty is a two-valued datatype. The source compares the string with `'easy'`, so any other string plays as the 6-card setting.
- The `difficulty` parameter of `evaluate_hand` (main.py:37) is not modelled: the source never reads it.
- `__str__` and `__hash__` (main.py:11-12, 25-26) are left out, because nothing in the game logic depends on them; card equality is Dafny's structural equality of `Card`, as `__eq__` defines it.
- Card values are a `Rank` enum, not strings. `Cards.Value` gives the meaning `int(value)` has in the source.
- The nested closures and the recursion between `play_turn` and `on_player_discard` are modelled as methods of one object and an explicit `Phase`.
- `Game.Game.ComputerDiscard` receives the thrown and kept cards from its caller, `Game.Game.OnPlayerDiscard`, which computes them with `ChooseDiscard` and `ComputerKeeps` as `Game.ComputerStep` does.
- There is no separate discard rule for the hard setting: both settings call choose_card_to_discard (main.py:153), which reads the difficulty only through the target. J, Q and K are worth 10 (main.py:15-16); no card is worth 11, 12 or 13.
