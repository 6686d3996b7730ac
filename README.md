# Blackjack in Dafny

A model of the rules engine of a terminal Blackjack game written in C++ (`game_function.cpp`),
with proofs of its properties. The game has these parts:

- **Card.** A card has a rank and a suit. It has a point value: Ace 1, pips 2–10, and 10 for
  each court card. Cards are ordered by rank, and each card has a short label such as `A-S` or
  `10-H`.
- **Deck (the shoe).** The shoe is filled with six standard decks and shuffled once. Each draw
  takes the card at the end of the pile.
- **Hand.** A hand collects cards. Its total counts one Ace as 11 when that stays within 21.
  From the total come a natural (two cards totalling 21) and a bust (over 21). The hand also
  has the face-up first card and a sort by value.
- **PositiveMessages.** This is a winning-streak counter that picks one of three encouragement
  messages.
- **isValidBet.** This checks a bet against the pattern `^\d+(\.\d+)?$`.
- **playBlackjack.** This is the game loop, which runs while money is left. Each pass reads a
  bet and checks it: first the format, then against the bankroll, then against the minimum of
  10. An accepted bet starts a round:
  1. The player gets two cards and the dealer two.
  2. A natural pays 1.5 times the bet at once.
  3. Otherwise the player hits or stands. Any other character is ignored, and a bust loses the
     bet.
  4. The dealer then draws while below 17.
  5. A dealer bust or a higher player total wins the bet, a lower one loses it, and equal
     totals push.

The bankroll and the streak are carried from round to round.

The model has one module per concern, in the order the source builds them up:

| module | file | contents |
|---|---|---|
| `Cards` | `cards.dfy` | rank, suit, value, ordering, label |
| `Shoe` | `shoe.dfy` | the construction loops as functions, the class `Deck` with its constructor, `Shuffle` and `Draw` |
| `Hands` | `hand.dfy` | valuation functions on card sequences, the class `Hand` with `AddCard`, the `GetTotal` loop and the `SortCards` insertion sort |
| `Streak` | `streak.dfy` | the counter's update as a function, the class `PositiveMessages` |
| `Bets` | `bets.dfy` | the pattern as a predicate, a recognizer proved to accept exactly it, the decimal value, the bet checks |
| `Input` | `input.dfy` | the console input as one character stream: `>>` into a string (a word) and into a `char` (the next non-blank character) |
| `Round` | `round.dfy` | one round as a function of the shoe and the input, with its properties |
| `Table` | `table.dfy` | the game loop as a function (`Step`, `Session`) and the same loop as methods on the `Deck`, `Hand` and `PositiveMessages` objects, proved equal to the function |

Randomness and input are parameters:

- `rolls` are the random generator's draws that the shuffle consumes;
- `input` is everything the player types.

The methods in `Table` are proved to give the same outcome, shoe, unread input, bankroll and
stop reason as the functions `Round.PlayRound` and `Table.Session`. The properties of the game
are proved as lemmas about those functions.

Behaviour of the code worth noting, which the model keeps:

- **The deck count.** The game always builds six decks and ignores its `numDecks` argument.
- **Drawing from an empty shoe.** This is undefined behaviour in the code. The model turns it
  into the fault `ShoeEmpty`.
- **A push.** It leaves the streak counter untouched.

## Model

| member | source | states |
|---|---|---|
| Cards.Value | game_function.cpp:23-30 | a card is worth 1 to 10; exactly the Ace is worth 1; exactly Ten, Jack, Queen and King are worth 10; Two to Nine are worth their enumerator value |
| Cards.RankOf | game_function.cpp:103 | the cast from 1..13 to a rank yields the rank with that enumerator value |
| Cards.SuitOf | game_function.cpp:103 | the cast from 0..3 to a suit yields the suit with that enumerator value |
| Cards.RankNumberInjective | game_function.cpp:16 | different ranks have different enumerator values |
| Cards.SuitNumberInjective | game_function.cpp:17 | different suits have different enumerator values |
| Cards.Less | game_function.cpp:78-81 | a card lower than another has a different rank and a value no higher |
| Cards.LessIsStrictWeakOrder | game_function.cpp:78-81 | comparison by rank is irreflexive, asymmetric and transitive, and two cards are incomparable exactly when their ranks are equal (the suit never breaks a tie) |
| Cards.LessAgreesWithValue | game_function.cpp:78-81 | a card lower by rank is never higher by value, and a card lower by value is lower by rank |
| Cards.Label | game_function.cpp:33-75 | a label is 3 or 4 characters long, with the dash before the suit letter |
| Cards.LabelInjective | game_function.cpp:33-75 | two cards have the same label exactly when they are the same card |
| Shoe.Deck.constructor | game_function.cpp:94-107 | the pile is what the three nested loops push for numDecks decks: rank-major, suit-minor |
| Shoe.Deck.PushDeck | game_function.cpp:99-105 | the middle loop pushes one full deck, rank by rank |
| Shoe.Deck.PushRank | game_function.cpp:101-104 | the inner loop pushes one rank in the four suits |
| Shoe.FreshShoe | game_function.cpp:94-107 | the constructor's pile for n ≥ 0 decks holds 52·n cards |
| Shoe.FreshShoeHolds | game_function.cpp:94-107 | every card occurs in a fresh shoe once per deck |
| Shoe.FreshShoeCount | game_function.cpp:94-107 | a shoe of n decks has 52·n cards, each (rank, suit) pair exactly n times; a negative count gives an empty shoe |
| Shoe.Deck.Shuffle | game_function.cpp:110-113 | the pile becomes the swap sequence the random draws dictate, and is a permutation of the old pile |
| Shoe.ShuffleFrom | game_function.cpp:110-113 | whatever the random draws, the shuffle keeps the length and the multiset of cards |
| Shoe.Swap | game_function.cpp:110-113 | an exchange puts each of the two cards at the other's position, leaves every other position alone and keeps the multiset |
| Shoe.Top | game_function.cpp:117 | the card a draw hands out is a card of the pile (that it is the last one, and what is left, is stated by Shoe.DrawConserves) |
| Shoe.Rest | game_function.cpp:118 | a draw leaves one card fewer |
| Shoe.Deck.Draw | game_function.cpp:116-121 | the card handed out is the last card of the pile; the pile keeps everything before it; together they are the old pile exactly |
| Shoe.DrawConserves | game_function.cpp:116-121 | one draw splits the pile into the rest and the top card, with nothing lost or duplicated |
| Shoe.DrawnConserves | game_function.cpp:350-353 | k draws hand out k cards and leave the first |s| − k, with nothing lost or duplicated |
| Hands.Hand.constructor | game_function.cpp:349 | a new hand is empty |
| Hands.Hand.AddCard | game_function.cpp:139-142 | the card is appended at the end of the hand |
| Hands.Hand.AddCardNumbers | game_function.cpp:132-136 | the card with the given rank and suit numbers is appended |
| Hands.Sum | game_function.cpp:149-156 | the raw sum, every Ace counted as 1, lies between the number of cards and ten times it |
| Hands.HasAce | game_function.cpp:152-155 | the Ace flag is set exactly when the hand holds at least one Ace |
| Hands.Total | game_function.cpp:145-162 | the total is the raw sum or at most 10 more, and a total over 21 is the raw sum |
| Hands.IsBlackjack | game_function.cpp:185-188 | a natural is two cards, one of them an Ace |
| Hands.IsBusted | game_function.cpp:191-194 | a bust has a raw sum over 21, and so at least three cards |
| Hands.Hand.GetTotal | game_function.cpp:145-162 | the one-pass loop computes the hand's total; a total within 21 is the best value any choice of Aces as 11 gives within 21 |
| Hands.TotalSoftAce | game_function.cpp:145-162 | the total is the raw sum or the raw sum plus 10, plus 10 exactly when there is an Ace and the sum plus 10 is within 21; a total over 21 is the raw sum |
| Hands.TotalIsBest | game_function.cpp:145-162 | the total counts no Ace or one Ace as 11; no other choice of Aces gives a larger value within 21; a total over 21 means every choice busts |
| Hands.SumBounds | game_function.cpp:149-156 | the raw sum lies between the card count and ten times it, and an Ace is present exactly when the Ace count is positive |
| Hands.VisibleCard | game_function.cpp:175-182 | the visible card is empty exactly for an empty hand |
| Hands.VisibleCardStable | game_function.cpp:175-182 | the card shown is the first card's label, and adding cards never changes it |
| Hands.BlackjackIsAceAndTen | game_function.cpp:185-188 | a hand is a natural exactly when it is two cards, an Ace and a ten-valued card in either order |
| Hands.TwoCardsNeverBust | game_function.cpp:191-194 | a two-card hand is never busted |
| Hands.AddCardTotal | game_function.cpp:191-194 | adding a card raises the raw sum by its value, and a busted hand stays busted |
| Hands.Hand.SortCards | game_function.cpp:204-210 | the cards end ascending by value, as a permutation of the old cards, with the total unchanged |
| Hands.InsertAt | game_function.cpp:204-210 | one insertion step extends the sorted prefix by one card and permutes the cards |
| Hands.TotalPermutation | game_function.cpp:204-210 | reordering the cards changes neither the raw sum, the Ace flag, the total, a natural nor a bust |
| Streak.PositiveMessages.constructor | game_function.cpp:273-279 | the tracker starts with the three messages and a counter of 0 |
| Streak.PositiveMessages.Update | game_function.cpp:282-294 | a win increments the counter, clamped to the last message index; a loss resets it to 0; the messages are kept |
| Streak.PositiveMessages.GetMessage | game_function.cpp:297-300 | the message returned is one of the messages (the index is always in range) |
| Streak.NextWins | game_function.cpp:282-294 | one update keeps a counter in range; a win never lowers it and a loss resets it to 0 |
| Streak.NextWinsInRange | game_function.cpp:282-294 | an update keeps the counter in [0, size); a win gives min(old + 1, size − 1), a loss 0 |
| Streak.WinNeverDecreases | game_function.cpp:284-289 | a win never lowers the counter |
| Streak.FirstMessageNeverShownAfterWin | game_function.cpp:284-289 | with two or more messages the counter is at least 1 after a win |
| Streak.AfterOutcomesInRange | game_function.cpp:282-294 | any run of outcomes keeps the counter a valid message index |
| Streak.WinningRun | game_function.cpp:284-289 | n wins in a row from w leave the counter at min(w + n, size − 1) |
| Streak.LossForgets | game_function.cpp:290-293 | after a loss the counter no longer depends on anything before it |
| Bets.MatchesPattern | game_function.cpp:307 | the language of the pattern, defined independently of the recognizer; a string in it starts and ends with a digit |
| Bets.IsValidBet | game_function.cpp:304-311 | the recognizer accepts a string exactly when it is in the language of the pattern: one or more digits, optionally followed by a point and one or more digits |
| Bets.RunStartIsPattern | game_function.cpp:304-311 | from its start state the recognizer ends in an accepting state exactly on the strings of the pattern |
| Bets.RejectedExamples | game_function.cpp:304-311 | "-5", "abc", "", "10.", ".5" and "1.2.3" are rejected; "10", "12.50" and "0" are accepted |
| Bets.ParseBet | game_function.cpp:335 | the value of a well-formed bet is non-negative |
| Bets.ParseBetBounds | game_function.cpp:335 | a well-formed bet lies between its whole part and the next integer; a bet without a point is its digits' value |
| Bets.CheckBet | game_function.cpp:329-346 | the format is checked first, then bet > money, then bet < 10; each rejection names the first check failed, and a well-formed bet within [10, money] is accepted |
| Input.ReadWord | game_function.cpp:327 | a word read is non-empty, and the word and the rest are no longer than the input together (so a bet always consumes input) |
| Input.ReadWordSpec | game_function.cpp:327 | a word is read exactly when something other than blanks remains; it is non-empty and blank-free, and what follows it is empty or starts with a blank |
| Input.ReadWordTyped | game_function.cpp:327 | a word typed after blanks and followed by a blank or the end is read back exactly, and the rest is left unread |
| Input.ReadChoice | game_function.cpp:376 | reading a choice consumes at least one character |
| Input.ReadChoiceSpec | game_function.cpp:376 | a character is read exactly when something other than blanks remains, and it is not a blank |
| Input.ReadChoiceTyped | game_function.cpp:376 | a character typed after blanks is read back exactly, and the rest is left unread |
| Round.PlayerTurn | game_function.cpp:372-399 | the hit-or-stand loop reads input, moves cards from the shoe to the hand without losing any, and ends in a bust only on a busted hand |
| Round.DealerTurn | game_function.cpp:406-412 | the dealer's loop moves cards from the shoe to the hand without losing any; it completes exactly on a total of 17 or more, and falls short only on an empty shoe |
| Round.Settle | game_function.cpp:413-429 | the settlement is never a natural or a player bust, and it is a win exactly when the dealer busts or the player's total is higher |
| Round.IsWin | game_function.cpp:413-419 | a round counts as a win exactly when it pays the player |
| Round.Payout | game_function.cpp:363-429 | on a non-negative bet the change lies between minus the bet and 1.5 times the bet, and only a push changes nothing (the exact amount of each ending is stated by Round.PayoutBounds) |
| Round.PlayOut | game_function.cpp:372-429 | after the deal a round is never a natural, the hands only grow, and no card is lost or added |
| Round.PlayRound | game_function.cpp:349-429 | a round reads no more than its input, keeps the number of cards, and a settled round dealt two cards to each side |
| Round.PlayerTurnDraws | game_function.cpp:372-399 | the player's turn only moves cards, in order, from the top of the shoe into the hand; it runs out of shoe only when the shoe is empty, and out of input only when just blanks remain |
| Round.PlayerTurnStopsAtBust | game_function.cpp:377-389 | starting from a hand that is not busted, the turn ends in a bust exactly when the final hand is busted, and no earlier hand on the way was over 21 |
| Round.StoodNotBusted | game_function.cpp:391-401 | a player who stands has not busted, so the dealer plays |
| Round.HitChoice | game_function.cpp:377-390 | 'h' draws the top card; the turn ends if that busts and goes on otherwise |
| Round.StandChoice | game_function.cpp:391-394 | 's' ends the turn with nothing drawn |
| Round.OtherChoice | game_function.cpp:395-398 | any other non-blank character is passed over and the next one is read |
| Round.DealerTurnDraws | game_function.cpp:406-412 | the dealer only takes cards, in order, from the top of the shoe; the turn completes exactly when the total reaches 17 or more; no earlier total was over 16; it is incomplete only when the shoe is empty |
| Round.DealerStandsOn17 | game_function.cpp:406 | a dealer on 17 or more, soft or hard, draws nothing |
| Round.SettleCases | game_function.cpp:413-429 | a win exactly when the dealer busts or the player is higher; a loss exactly when the dealer has not busted and is higher; a push exactly on equal totals |
| Round.PayoutBounds | game_function.cpp:363-429 | a natural gains exactly 1.5 times the bet, a dealer bust or a higher player total exactly the bet; a bust or a lower total costs exactly the bet; only a push changes nothing |
| Round.DealtCards | game_function.cpp:349-353 | the deal gives the top two cards to the player and the next two to the dealer, with nothing lost |
| Round.PlayOutConserves | game_function.cpp:372-412 | after the deal, the hands and the shoe together keep exactly the cards they started with |
| Round.RoundConservesCards | game_function.cpp:349-412 | at the end of a round both hands and the shoe hold exactly the cards of the shoe at its start |
| Round.NaturalPaysAtOnce | game_function.cpp:363-370 | a round is a natural exactly when the first two cards make 21; then no choice is read, the dealer keeps two cards and four cards left the shoe |
| Round.BustSkipsDealer | game_function.cpp:383-401 | a bust leaves the player over 21 with three or more cards, and the dealer draws nothing |
| Round.ShowdownAfterStand | game_function.cpp:401-429 | every other settled round has a player within 21, a dealer on 17 or more, and the ending their totals dictate |
| Round.ShortShoeAborts | game_function.cpp:350-353 | a shoe of fewer than four cards cannot be dealt from: the round aborts, leaving the shoe and the input unchanged |
| Round.DealTopFour | game_function.cpp:349-370 | with a, b, c, d on top (a last), the player holds a and b and the dealer c and d; the round is a natural on [a, b] or else is played out from there |
| Round.OtherOut | game_function.cpp:395-398 | an ignored character before the choices does not change the round |
| Round.StandThenDealer | game_function.cpp:391-412 | standing at once hands the round to the dealer with the player's two cards |
| Round.StandOffPush | game_function.cpp:391-429 | equal totals of 17 or more, with an ignored character before the stand, push |
| Round.NaturalExample | game_function.cpp:363-370 | Ace and King on top make a natural that pays 15 on a bet of 10, whatever else is typed |
| Round.PushExample | game_function.cpp:426-429 | 10 and 8 against 9 and 9, with an ignored character before the stand, is a push |
| Table.StartingShoe | game_function.cpp:316-317 | the shuffled six-deck shoe holds 312 cards, every card exactly six times |
| Table.StreakAfter | game_function.cpp:363-429 | the counter after a settled round stays a valid message index |
| Table.Step | game_function.cpp:323-346 | a pass stops for lack of money exactly when the bankroll is at or below zero, and a pass that goes on consumes input |
| Table.Play | game_function.cpp:349-429 | a round on an accepted bet stops the game only on a fault, and never reads more than its input |
| Table.Session | game_function.cpp:323-431 | the game reports running out of money only with the bankroll at or below zero |
| Table.RoundKeepsMoney | game_function.cpp:337-346 | a round on a bet no larger than the bankroll never takes the bankroll below zero, and leaves it unchanged only on a push |
| Table.PlayInvariant | game_function.cpp:363-429 | a round on an accepted bet keeps the bankroll non-negative and the streak counter a valid index |
| Table.StepInvariant | game_function.cpp:323-346 | a pass stops for lack of money exactly when the bankroll is at or below zero, and keeps the bankroll and the counter in range |
| Table.SessionSolvent | game_function.cpp:323-431 | from a non-negative bankroll the game never ends in debt, and it ends for lack of money only at exactly zero |
| Table.SessionStops | game_function.cpp:323 | the game ends for lack of money exactly when the final bankroll is at or below zero |
| Table.SessionStreakInRange | game_function.cpp:282-300 | the streak counter is a valid message index for the whole game |
| Table.StreakAfterCases | game_function.cpp:413-429 | a push keeps the counter; a win makes it min(old + 1, 2), which is at least 1; a loss resets it |
| Table.RejectedBetChangesNothing | game_function.cpp:329-346 | a rejected bet consumes the word typed and keeps the bankroll, the shoe and the streak |
| Table.InvalidBetExample | game_function.cpp:329-333 | typing "-5" as a bet changes nothing and draws no card |
| Table.PlayerHits | game_function.cpp:372-399 | the hit-or-stand loop on the hand and deck objects ends as the player's turn does, leaving the same shoe and input and a hand with the same cards |
| Table.DealerDraws | game_function.cpp:406-412 | the dealer's loop on the objects leaves the dealer's cards and the shoe as the dealer's turn does |
| Table.FinishHand | game_function.cpp:372-429 | the rest of a round on the objects, after a deal that is not a natural, has the outcome, shoe and unread input of playing the round out |
| Table.PlayHand | game_function.cpp:349-429 | a round on the deck object has the outcome, shoe and unread input of the round function |
| Table.Settlement | game_function.cpp:363-429 | the bankroll changes by the payout and the streak object by the ending: an update(true) on a win, an update(false) on a loss, nothing on a push |
| Table.GamePass | game_function.cpp:323-429 | one pass on the objects is the pass function: the same stop, or the same new bankroll, shoe, counter and input |
| Table.RunGame | game_function.cpp:323-431 | the loop on the objects ends with the bankroll, streak counter and stop reason the game function gives |
| Table.PlayBlackjack | game_function.cpp:314-433 | the game builds six decks whatever is asked for, shuffles them, and ends as the game function does on the shuffled shoe, from a streak of 0 |

## Left out

- Output. Everything written to the console is out of scope: `Hand::display`, the prompts and
  the messages. The messages exist only as the three strings the streak tracker holds.
- `project_main.cpp` is not part of this model. It is the entry point: it asks whether to
  play and stops unless the answer is `y` or `Y`. Then it seeds the random generator and calls
  `playBlackjack` with a fixed 1000 in money and 6 decks.
- `PlayerHand`, `DealerHand` and `getBetAmount` are not modelled. The game uses plain `Hand`
  objects and never calls them.
- Randomness.
  - `std::random_shuffle` takes its random draws from the `rolls` parameter.
  - The swap scheme is the usual one: position i is exchanged with a position at or below it,
    chosen by the draw modulo i + 1. The standard does not fix the exact algorithm.
  - Uniformity is not modelled, only that the result is a permutation.
- Floating point. The bankroll and the bets are exact reals, so `double` rounding is not
  modelled.
- `std::stod`. It is modelled as the exact decimal value of a string the pattern accepts. Its
  out-of-range exception for very long digit strings is not modelled.
- `std::regex`. The regex engine is replaced by a hand-written recognizer, which is proved to
  accept exactly the language of the pattern.
- Console input. The input is a single stream. Reads skip the six C-locale blanks. A bet is a
  whitespace-delimited word and a choice is the next non-blank character.
- End of input.
  - In the C++ code a failed `>>` leaves its variable as it was. The bet loop therefore
    reuses the last word typed, and rounds can still be dealt on it.
  - The choice variable is declared anew each round (game_function.cpp:372-376). If input ends
    before the round's first choice, it is read uninitialized.
  - If input ends after a choice was read in the same round, the variable keeps that
    character. After an `h` the C++ hits on every pass until the player busts and loses the
    bet. After any character other than `h` or `s` it prints "Invalid choice" forever.
  - The program never ends normally unless the money runs out.
  - The model stops instead: `NoMoreInput` at a bet, and the fault `InputEnded` during the
    player's turn, which ends the game. Where the C++ would go on hitting to a bust, the
    model ends the game with `InputEnded` rather than settling the round as a loss.
- An empty shoe. Drawing from an empty `std::deque` is undefined behaviour in the C++ code. In
  the model:
  - a round whose shoe cannot supply a card ends with the fault `ShoeEmpty`, and the game stops;
  - a shoe of fewer than four cards aborts before any card is dealt.
- Hands.Hand.AddCardNumbers: requires a rank number from 1 to 13. In the C++ the cast of 0,
  14 or 15 to the rank enum is defined, and would give a card worth 0, 14 or 15. Such
  numbers are not modelled, because the overload is never called.
- Shoe.Deck.Draw: returns the drawn card by value. The C++ code returns a reference to the
  element it has just popped, which dangles. The model gives it the evidently intended meaning.
- Hands.Hand.SortCards: is an insertion sort on the `cards` sequence, not `std::sort` on a
  vector in place.
  - `std::sort` is not stable, so the order of cards of equal value may differ from a run of
    the C++ program.
  - The contract states what `std::sort` promises: ascending by value, and a permutation.
- Round.PlayRound: keeps the player's cards in the order they were dealt. The sorted hand
  differs only in order, and `Hands.TotalPermutation` shows that no total, natural or bust
  depends on the order. `Table.PlayHand` sorts the hand object as the source does.
- Table.PlayHand: states the outcome, the shoe left and the unread input, not the final
  hands. The hand objects are local to the round, as in the source.
