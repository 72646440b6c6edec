/**
 * One game of start_game: the deal, the turns in which each side draws a
 * card and throws one away, the suit-win checks and the end by points.
 */
module Game {
  import opened Cards
  import opened Seqs
  import opened Hand
  import opened Heuristic

  datatype Side = Player | Computer

  /** How a game ends: a side collects the target number of one suit, or the
      deck runs out and the lower point total wins, or the totals tie. */
  datatype Outcome =
    | SuitWin(winner: Side)
    | ScoreWin(winner: Side, playerScore: nat, computerScore: nat)
    | Draw(score: nat)

  /** end_game: the lower total of card values wins; equal totals draw. */
  function EndGame(playerHand: seq<Card>, computerHand: seq<Card>): (o: Outcome)
    ensures !o.SuitWin?
    ensures o == ScoreWin(Player, Score(playerHand), Score(computerHand)) <==> Score(playerHand) < Score(computerHand)
    ensures o == ScoreWin(Computer, Score(playerHand), Score(computerHand)) <==> Score(computerHand) < Score(playerHand)
    ensures o == Draw(Score(playerHand)) <==> Score(playerHand) == Score(computerHand)
  {
    var p, c := Score(playerHand), Score(computerHand);
    if p < c then ScoreWin(Player, p, c)
    else if c < p then ScoreWin(Computer, p, c)
    else Draw(p)
  }

  function Other(s: Side): Side {
    if s == Player then Computer else Player
  }

  /** The same outcome seen with the two seats exchanged. */
  function Swapped(o: Outcome): Outcome {
    match o
    case SuitWin(w) => SuitWin(Other(w))
    case ScoreWin(w, p, c) => ScoreWin(Other(w), c, p)
    case Draw(s) => Draw(s)
  }

  /** The end by points does not favour either seat. */
  lemma EndGameSymmetric(a: seq<Card>, b: seq<Card>)
    ensures EndGame(b, a) == Swapped(EndGame(a, b))
  {
  }

  /** The player's half of on_player_discard: throwing the new card leaves
      the hand as it was; throwing a held card removes its first occurrence
      and appends the new card. */
  function PlayerKeeps(hand: seq<Card>, newCard: Card, choice: Card): (h: seq<Card>)
    requires choice in hand + [newCard]
    ensures |h| == |hand|
    ensures choice == newCard ==> h == hand
    ensures choice != newCard ==> |h| > 0 && h[|h| - 1] == newCard
    ensures multiset(h) + multiset{choice} == multiset(hand) + multiset{newCard}
  {
    if choice == newCard then hand
    else RemoveFirst(hand, choice) + [newCard]
  }

  /** The computer's half of on_player_discard: the hand plus the new card,
      less the first occurrence of the card it throws. */
  function ComputerKeeps(hand: seq<Card>, newCard: Card, discard: Card): (h: seq<Card>)
    requires discard in hand + [newCard]
    ensures |h| == |hand|
    ensures multiset(h) + multiset{discard} == multiset(hand) + multiset{newCard}
  {
    RemoveFirst(hand + [newCard], discard)
  }

  /** What happens after both discards: the game continues or is decided. */
  datatype Verdict = Decided(outcome: Outcome) | NextTurn

  /** Some suit of the hand has reached the target. */
  ghost predicate Collected(h: seq<Card>, d: Difficulty) {
    exists s :: SuitCount(h, s) >= Target(d)
  }

  /** The checks at the end of on_player_discard, in their order: the player
      wins on a suit before the computer is looked at, then an empty deck ends
      the game by points. */
  function AfterDiscards(playerHand: seq<Card>, computerHand: seq<Card>, deckEmpty: bool, d: Difficulty): (v: Verdict)
    requires |playerHand| > 0 && |computerHand| > 0
    ensures v == Decided(SuitWin(Player)) <==> Collected(playerHand, d)
    ensures v == Decided(SuitWin(Computer)) <==> !Collected(playerHand, d) && Collected(computerHand, d)
    ensures v == NextTurn <==> !Collected(playerHand, d) && !Collected(computerHand, d) && !deckEmpty
    ensures v.Decided? && !v.outcome.SuitWin? ==> v.outcome == EndGame(playerHand, computerHand) && deckEmpty
  {
    var playerWon, computerWon := CheckWinner(playerHand, d), CheckWinner(computerHand, d);
    if playerWon then Decided(SuitWin(Player))
    else if computerWon then Decided(SuitWin(Computer))
    else if deckEmpty then Decided(EndGame(playerHand, computerHand))
    else NextTurn
  }

  /** Where a turn stands, and which cards are between the deck and the
      hands: both drawn cards while the player chooses, the computer's drawn
      card once the player has thrown, none otherwise. */
  datatype Phase =
    | Drawing
    | AwaitingDiscard(newPlayerCard: Card, newComputerCard: Card)
    | ComputerToMove(newComputerCard: Card)
    | Over(outcome: Outcome)

  /** The drawn cards not yet placed in a hand or on the pile. */
  function Pending(p: Phase): seq<Card> {
    match p
    case AwaitingDiscard(newPlayerCard, newComputerCard) => [newPlayerCard, newComputerCard]
    case ComputerToMove(newComputerCard) => [newComputerCard]
    case _ => []
  }

  /** All the cards of a list of piles, in one multiset. */
  ghost function Gather(piles: seq<seq<Card>>): multiset<Card> {
    if piles == [] then multiset{} else Gather(piles[..|piles| - 1]) + multiset(piles[|piles| - 1])
  }

  /** The five places a card can be: deck, drawn, the two hands, the pile. */
  lemma GatherFive(a: seq<Card>, b: seq<Card>, c: seq<Card>, d: seq<Card>, e: seq<Card>)
    ensures Gather([a, b, c, d, e]) == multiset(a) + multiset(b) + multiset(c) + multiset(d) + multiset(e)
  {
    assert Gather([a]) == multiset(a) by { assert [a][..0] == []; }
    assert Gather([a, b]) == Gather([a]) + multiset(b) by { assert [a, b][..1] == [a]; }
    assert Gather([a, b, c]) == Gather([a, b]) + multiset(c) by { assert [a, b, c][..2] == [a, b]; }
    assert Gather([a, b, c, d]) == Gather([a, b, c]) + multiset(d) by { assert [a, b, c, d][..3] == [a, b, c]; }
    assert Gather([a, b, c, d, e]) == Gather([a, b, c, d]) + multiset(e) by { assert [a, b, c, d, e][..4] == [a, b, c, d]; }
  }

  /** Dealing puts the cards of the shuffled deck in the hands and the deck. */
  lemma DealConserves(shuffled: seq<Card>, p: seq<Card>, c: seq<Card>, rest: seq<Card>)
    requires shuffled == p + c + rest
    ensures Gather([rest, [], p, c, []]) == multiset(shuffled)
  {
    GatherFive(rest, [], p, c, []);
  }

  /** Drawing the front two cards moves them out of the deck and nothing else. */
  lemma DrawConserves(deck: seq<Card>, ph: seq<Card>, ch: seq<Card>, pile: seq<Card>)
    requires |deck| >= 2
    ensures Gather([deck[2..], [deck[0], deck[1]], ph, ch, pile]) == Gather([deck, [], ph, ch, pile])
  {
    GatherFive(deck[2..], [deck[0], deck[1]], ph, ch, pile);
    GatherFive(deck, [], ph, ch, pile);
    assert deck == [deck[0], deck[1]] + deck[2..];
  }

  /** The player's discard keeps every card in play: the hand trades the
      drawn card for the thrown one, which joins the pile. */
  lemma PlayerStepConserves(deck: seq<Card>, ph: seq<Card>, ch: seq<Card>, pile: seq<Card>,
                            kept: seq<Card>, np: Card, nc: Card, thrown: Card)
    requires multiset(kept) + multiset{thrown} == multiset(ph) + multiset{np}
    ensures Gather([deck, [nc], kept, ch, pile + [thrown]]) == Gather([deck, [np, nc], ph, ch, pile])
  {
    GatherFive(deck, [nc], kept, ch, pile + [thrown]);
    GatherFive(deck, [np, nc], ph, ch, pile);
    var after := Gather([deck, [nc], kept, ch, pile + [thrown]]);
    forall x ensures after[x] == Gather([deck, [np, nc], ph, ch, pile])[x] {
      assert (multiset(kept) + multiset{thrown})[x] == (multiset(ph) + multiset{np})[x];
    }
  }

  /** The computer's discard keeps every card in play in the same way. */
  lemma ComputerStepConserves(deck: seq<Card>, ph: seq<Card>, ch: seq<Card>, pile: seq<Card>,
                              kept: seq<Card>, nc: Card, thrown: Card)
    requires multiset(kept) + multiset{thrown} == multiset(ch) + multiset{nc}
    ensures Gather([deck, [], ph, kept, pile + [thrown]]) == Gather([deck, [nc], ph, ch, pile])
  {
    GatherFive(deck, [], ph, kept, pile + [thrown]);
    GatherFive(deck, [nc], ph, ch, pile);
    var after := Gather([deck, [], ph, kept, pile + [thrown]]);
    forall x ensures after[x] == Gather([deck, [nc], ph, ch, pile])[x] {
      assert (multiset(kept) + multiset{thrown})[x] == (multiset(ch) + multiset{nc})[x];
    }
  }

  /** The closure variables of start_game as one value. */
  datatype Table = Table(deck: seq<Card>, playerHand: seq<Card>, computerHand: seq<Card>,
                         discardPile: seq<Card>, phase: Phase)

  /** Every card of a table, wherever it is. */
  ghost function TableCards(t: Table): multiset<Card> {
    Gather([t.deck, Pending(t.phase), t.playerHand, t.computerHand, t.discardPile])
  }

  /** play_turn: with fewer than two cards left the game ends by points;
      otherwise the front two cards are drawn for the player and the
      computer. No card is lost, and the hands and the pile stay as they are. */
  function DrawPair(t: Table): (r: Table)
    requires t.phase.Drawing?
    ensures r.playerHand == t.playerHand && r.computerHand == t.computerHand
    ensures r.discardPile == t.discardPile
    ensures r.phase.AwaitingDiscard? || r.phase.Over?
    ensures r.phase.Over? <==> |t.deck| < 2
    ensures r.phase.Over? ==> r.phase.outcome == EndGame(t.playerHand, t.computerHand) && r.deck == t.deck
    ensures r.phase.AwaitingDiscard? ==> r.phase == AwaitingDiscard(t.deck[0], t.deck[1]) && r.deck == t.deck[2..]
    ensures TableCards(r) == TableCards(t)
  {
    if |t.deck| < 2 then t.(phase := Over(EndGame(t.playerHand, t.computerHand)))
    else
      DrawConserves(t.deck, t.playerHand, t.computerHand, t.discardPile);
      t.(deck := t.deck[2..], phase := AwaitingDiscard(t.deck[0], t.deck[1]))
  }

  /** The end of on_player_discard: the verdict of AfterDiscards, or the
      next play_turn. No card is lost, and the hands and the pile stay as
      they are. */
  function Settle(t: Table, d: Difficulty): (r: Table)
    requires t.phase.Drawing? && |t.playerHand| > 0 && |t.computerHand| > 0
    ensures r.playerHand == t.playerHand && r.computerHand == t.computerHand
    ensures r.discardPile == t.discardPile
    ensures r.phase.AwaitingDiscard? || r.phase.Over?
    ensures r.phase.AwaitingDiscard? ==> |t.deck| >= 2 && r.deck == t.deck[2..]
    ensures r.phase.Over? ==> r.deck == t.deck
    ensures TableCards(r) == TableCards(t)
  {
    match AfterDiscards(t.playerHand, t.computerHand, t.deck == [], d)
    case Decided(o) => t.(phase := Over(o))
    case NextTurn => DrawPair(t)
  }

  /** The player's half of on_player_discard on a table: the hand keeps its
      size, the chosen card goes on the pile, the computer's drawn card waits,
      and no card is lost. */
  function PlayerStep(t: Table, choice: Card): (r: Table)
    requires t.phase.AwaitingDiscard?
    requires choice in t.playerHand + [t.phase.newPlayerCard]
    ensures r.phase == ComputerToMove(t.phase.newComputerCard)
    ensures r.deck == t.deck && r.computerHand == t.computerHand
    ensures |r.playerHand| == |t.playerHand|
    ensures r.discardPile == t.discardPile + [choice]
    ensures TableCards(r) == TableCards(t)
  {
    var newPlayerCard, newComputerCard := t.phase.newPlayerCard, t.phase.newComputerCard;
    var kept := PlayerKeeps(t.playerHand, newPlayerCard, choice);
    PlayerStepConserves(t.deck, t.playerHand, t.computerHand, t.discardPile,
                        kept, newPlayerCard, newComputerCard, choice);
    Table(t.deck, kept, t.computerHand, t.discardPile + [choice], ComputerToMove(newComputerCard))
  }

  /** The computer throws `thrown`, one of its cards or the drawn one: the
      card goes on the pile, the hand keeps its size, and no card is lost. */
  function ComputerThrow(t: Table, thrown: Card): (r: Table)
    requires t.phase.ComputerToMove?
    requires thrown in t.computerHand + [t.phase.newComputerCard]
    ensures r.phase == Drawing
    ensures r.deck == t.deck && r.playerHand == t.playerHand
    ensures |r.computerHand| == |t.computerHand|
    ensures r.discardPile == t.discardPile + [thrown]
    ensures TableCards(r) == TableCards(t)
  {
    var newComputerCard := t.phase.newComputerCard;
    var kept := ComputerKeeps(t.computerHand, newComputerCard, thrown);
    ComputerStepConserves(t.deck, t.playerHand, t.computerHand, t.discardPile,
                          kept, newComputerCard, thrown);
    Table(t.deck, t.playerHand, kept, t.discardPile + [thrown], Drawing)
  }

  /** The computer's half of on_player_discard on a table: it throws the card
      its rule picks from the hand plus the drawn card. */
  function ComputerStep(t: Table, d: Difficulty): (r: Table)
    requires t.phase.ComputerToMove?
    ensures r.phase == Drawing
    ensures r.deck == t.deck && r.playerHand == t.playerHand
    ensures |r.computerHand| == |t.computerHand|
    ensures |r.discardPile| == |t.discardPile| + 1 && r.discardPile[..|t.discardPile|] == t.discardPile
    ensures TableCards(r) == TableCards(t)
  {
    var thrown := ChooseDiscard(t.computerHand, t.phase.newComputerCard, t.deck, d).card;
    assert (t.discardPile + [thrown])[..|t.discardPile|] == t.discardPile;
    ComputerThrow(t, thrown)
  }

  /** One whole on_player_discard: the player throws `choice`, the computer
      throws the card its rule picks, and the turn is settled. Both hands keep
      their size, the pile gains the player's card and then the computer's,
      a turn that goes on has taken the next two cards of the deck, and no
      card is lost. */
  function Respond(t: Table, choice: Card, d: Difficulty): (r: Table)
    requires t.phase.AwaitingDiscard? && |t.playerHand| > 0 && |t.computerHand| > 0
    requires choice in t.playerHand + [t.phase.newPlayerCard]
    ensures |r.playerHand| == |t.playerHand| && |r.computerHand| == |t.computerHand|
    ensures |r.discardPile| == |t.discardPile| + 2 && r.discardPile[..|t.discardPile| + 1] == t.discardPile + [choice]
    ensures r.phase.AwaitingDiscard? || r.phase.Over?
    ensures r.phase.AwaitingDiscard? ==> |t.deck| >= 2 && r.deck == t.deck[2..]
    ensures r.phase.Over? ==> r.deck == t.deck
    ensures TableCards(r) == TableCards(t)
  {
    var u := PlayerStep(t, choice);
    var v := ComputerStep(u, d);
    assert v.discardPile[..|t.discardPile| + 1] == t.discardPile + [choice];
    Settle(v, d)
  }

  /** The player's choice given as a position among the held cards and the
      new card, wrapped around their number. */
  function Pick(t: Table, pick: nat): (c: Card)
    requires t.phase.AwaitingDiscard?
    ensures c in t.playerHand + [t.phase.newPlayerCard]
  {
    var options := t.playerHand + [t.phase.newPlayerCard];
    options[pick % |options|]
  }

  /** The game from `t` on, answering each turn with the next pick until the
      picks run out or the game is over. Hand sizes are kept, no card is lost,
      and a game that is over stays as it is. */
  function Replay(t: Table, picks: seq<nat>, d: Difficulty): (r: Table)
    requires |t.playerHand| > 0 && |t.computerHand| > 0
    requires t.phase.AwaitingDiscard? || t.phase.Over?
    ensures |r.playerHand| == |t.playerHand| && |r.computerHand| == |t.computerHand|
    ensures r.phase.AwaitingDiscard? || r.phase.Over?
    ensures TableCards(r) == TableCards(t)
    ensures t.phase.Over? || picks == [] ==> r == t
    decreases |picks|
  {
    if picks == [] || t.phase.Over? then t
    else Replay(Respond(t, Pick(t, picks[0]), d), picks[1..], d)
  }

  /** Replaying from the i-th pick is one Respond followed by the rest. */
  lemma ReplayStep(t: Table, picks: seq<nat>, i: nat, d: Difficulty)
    requires |t.playerHand| > 0 && |t.computerHand| > 0
    requires t.phase.AwaitingDiscard? && i < |picks|
    ensures Replay(t, picks[i..], d) == Replay(Respond(t, Pick(t, picks[i]), d), picks[i + 1..], d)
  {
    assert picks[i..][1..] == picks[i + 1..];
  }

  /** The state of one game: the closure variables of start_game. */
  class Game {
    var deck: seq<Card>
    var playerHand: seq<Card>
    var computerHand: seq<Card>
    var discardPile: seq<Card>
    var phase: Phase
    const difficulty: Difficulty
    /** The cards the game was dealt from. */
    ghost const pack: multiset<Card>

    /** The fields as one value. */
    function Snapshot(): Table
      reads this
    {
      Table(deck, playerHand, computerHand, discardPile, phase)
    }

    /** Every card of the game, wherever it is. */
    ghost function AllCards(): multiset<Card>
      reads this
    {
      Gather([deck, Pending(phase), playerHand, computerHand, discardPile])
    }

    /** Each hand keeps the dealt size, and the 52 cards are all accounted for. */
    ghost predicate Valid()
      reads this
    {
      && |playerHand| == Target(difficulty)
      && |computerHand| == Target(difficulty)
      && AllCards() == pack
    }

    /** start_game after the shuffle: deal Target(d) cards to each side from
        the front of the deck, then play the first turn. */
    constructor (shuffled: seq<Card>, d: Difficulty)
      requires IsShuffledDeck(shuffled) && |shuffled| == 52
      ensures Valid() && pack == multiset(shuffled)
      ensures difficulty == d && discardPile == []
      ensures playerHand == shuffled[..Target(d)]
      ensures computerHand == shuffled[Target(d)..2 * Target(d)]
      ensures phase == AwaitingDiscard(shuffled[2 * Target(d)], shuffled[2 * Target(d) + 1])
      ensures deck == shuffled[2 * Target(d) + 2..]
    {
      var n := Target(d);
      var dealt := DealCards(shuffled, n);
      difficulty := d;
      pack := multiset(shuffled);
      playerHand := dealt.player;
      computerHand := dealt.computer;
      deck := dealt.rest;
      discardPile := [];
      phase := Drawing;
      new;
      DealConserves(shuffled, playerHand, computerHand, deck);
      PlayTurn();
    }

    /** play_turn: with fewer than two cards left the game ends by points;
        otherwise the front two cards go to the player and the computer. */
    method PlayTurn()
      requires Valid() && phase.Drawing?
      modifies this
      ensures Valid()
      ensures playerHand == old(playerHand) && computerHand == old(computerHand)
      ensures discardPile == old(discardPile)
      ensures |old(deck)| < 2 ==> deck == old(deck) && phase == Over(EndGame(playerHand, computerHand))
      ensures |old(deck)| >= 2 ==> deck == old(deck)[2..] && phase == AwaitingDiscard(old(deck)[0], old(deck)[1])
    {
      if |deck| < 2 {
        var outcome := EndGame(playerHand, computerHand);
        phase := Over(outcome);
        return;
      }
      var newPlayerCard, newComputerCard := deck[0], deck[1];
      DrawConserves(deck, playerHand, computerHand, discardPile);
      deck := deck[2..];
      phase := AwaitingDiscard(newPlayerCard, newComputerCard);
    }

    /** on_player_discard: the player throws `choice` (one of the held cards
        or the new card), the computer throws the card its rule picks, and the
        game is decided or goes on to the next turn. */
    method OnPlayerDiscard(choice: Card)
      requires Valid() && phase.AwaitingDiscard?
      requires choice in playerHand + [phase.newPlayerCard]
      modifies this
      ensures Valid()
      ensures playerHand == PlayerKeeps(old(playerHand), old(phase).newPlayerCard, choice)
      ensures var thrown := ChooseDiscard(old(computerHand), old(phase).newComputerCard, old(deck), difficulty).card;
        && computerHand == ComputerKeeps(old(computerHand), old(phase).newComputerCard, thrown)
        && discardPile == old(discardPile) + [choice] + [thrown]
      ensures Snapshot() == Respond(old(Snapshot()), choice, difficulty)
    {
      PlayerDiscard(choice);
      var thrown := ChooseDiscard(computerHand, phase.newComputerCard, deck, difficulty).card;
      ComputerDiscard(thrown, ComputerKeeps(computerHand, phase.newComputerCard, thrown));
      FinishTurn();
    }

    /** The player's half of on_player_discard: throwing the new card sends
        it straight to the pile; throwing a held card removes its first
        occurrence, appends the new card and piles the thrown one. */
    method PlayerDiscard(choice: Card)
      requires Valid() && phase.AwaitingDiscard?
      requires choice in playerHand + [phase.newPlayerCard]
      modifies this
      ensures Valid() && phase == ComputerToMove(old(phase).newComputerCard)
      ensures deck == old(deck) && computerHand == old(computerHand)
      ensures playerHand == PlayerKeeps(old(playerHand), old(phase).newPlayerCard, choice)
      ensures discardPile == old(discardPile) + [choice]
    {
      var newPlayerCard, newComputerCard := phase.newPlayerCard, phase.newComputerCard;
      PlayerStepConserves(deck, playerHand, computerHand, discardPile,
                          PlayerKeeps(playerHand, newPlayerCard, choice), newPlayerCard, newComputerCard, choice);
      if choice == newPlayerCard {
        discardPile := discardPile + [newPlayerCard];
      } else {
        playerHand := RemoveFirst(playerHand, choice) + [newPlayerCard];
        discardPile := discardPile + [choice];
      }
      phase := ComputerToMove(newComputerCard);
    }

    /** The computer's half of on_player_discard, once its rule has picked
        `thrown` and the hand plus the new card has lost that card, leaving
        `kept`: the hand is replaced by `kept` and the thrown card joins the
        pile. */
    method ComputerDiscard(thrown: Card, kept: seq<Card>)
      requires Valid() && phase.ComputerToMove?
      requires |kept| == |computerHand|
      requires multiset(kept) + multiset{thrown} == multiset(computerHand) + multiset{phase.newComputerCard}
      modifies this
      ensures Valid() && phase == Drawing
      ensures deck == old(deck) && playerHand == old(playerHand)
      ensures computerHand == kept
      ensures discardPile == old(discardPile) + [thrown]
    {
      ComputerStepConserves(deck, playerHand, computerHand, discardPile, kept, phase.newComputerCard, thrown);
      computerHand := kept;
      discardPile := discardPile + [thrown];
      phase := Drawing;
    }

    /** The end of on_player_discard: check for a suit win, for the player
        first, then for an empty deck, and otherwise play the next turn. */
    method FinishTurn()
      requires Valid() && phase.Drawing?
      modifies this
      ensures Valid()
      ensures playerHand == old(playerHand) && computerHand == old(computerHand)
      ensures discardPile == old(discardPile)
      ensures Snapshot() == Settle(old(Snapshot()), difficulty)
    {
      var verdict := AfterDiscards(playerHand, computerHand, deck == [], difficulty);
      if verdict.Decided? {
        phase := Over(verdict.outcome);
      } else {
        PlayTurn();
      }
    }

    /** The chain play_turn, on_player_discard, play_turn, ... driven by the
        player's successive choices, each given as a position among the held
        cards and the new card; it ends in the state Replay gives. Every played turn
        takes two cards from the deck, so the game is over before the picks
        run out once there are more picks than half the deck. */
    method PlayOut(picks: seq<nat>) returns (turns: nat)
      requires Valid() && (phase.AwaitingDiscard? || phase.Over?)
      modifies this
      ensures Valid() && (phase.AwaitingDiscard? || phase.Over?)
      ensures turns <= |picks|
      ensures phase.AwaitingDiscard? ==> turns == |picks| && |deck| + 2 * turns == |old(deck)|
      ensures |picks| > |old(deck)| / 2 ==> phase.Over?
      ensures Snapshot() == Replay(old(Snapshot()), picks, difficulty)
    {
      turns := 0;
      while turns < |picks| && phase.AwaitingDiscard?
        invariant Valid() && (phase.AwaitingDiscard? || phase.Over?)
        invariant turns <= |picks|
        invariant phase.AwaitingDiscard? ==> |deck| + 2 * turns == |old(deck)|
        invariant Replay(old(Snapshot()), picks, difficulty) == Replay(Snapshot(), picks[turns..], difficulty)
        decreases |picks| - turns
      {
        var now := Snapshot();
        ReplayStep(now, picks, turns, difficulty);
        OnPlayerDiscard(Pick(now, picks[turns]));
        turns := turns + 1;
      }
    }
  }
}
