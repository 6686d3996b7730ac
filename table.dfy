/** The game loop: bets are read and checked, rounds are played from one shoe, and the
    bankroll and the winning streak are carried from round to round until the money is gone. */
module Table {
  import opened Cards
  import opened Shoe
  import opened Hands
  import opened Input
  import opened Bets
  import opened Streak
  import opened Round

  /** The number of decks in the shoe, whatever number the caller asks for. */
  const ShoeDecks: int := 6

  /** Why the game loop stopped: the bankroll is empty, the input ran out, or a round could
      not be finished. */
  datatype Stop = OutOfMoney | NoMoreInput | Fault(fault: Fault)

  /** The bankroll and streak counter the game ends with, and why it ended. */
  datatype Final = Final(money: real, wins: int, stop: Stop)

  /** What the game loop carries from one pass to the next. */
  datatype State = State(money: real, shoe: seq<Card>, wins: int, input: string)

  /** One pass of the game loop either goes on from a new state or stops. */
  datatype Pass = Next(state: State) | Halt(stop: Stop)

  /** The streak counter after a settled round: a push leaves it alone, a win advances it and
      a loss resets it. */
  function StreakAfter(wins: int, e: Ending): (w: int)
    ensures 0 <= wins < |Messages| ==> 0 <= w < |Messages|
  {
    if e == Push then wins else NextWins(wins, IsWin(e), |Messages|)
  }

  /** One pass of the game loop: stop when the money is gone; otherwise read a bet, and
      either turn it away or play a round on it and settle. */
  function Step(st: State): (r: Pass)
    ensures r.Next? ==> |r.state.input| < |st.input|
    ensures r == Halt(OutOfMoney) <==> st.money <= 0.0
  {
    if st.money <= 0.0 then Halt(OutOfMoney)
    else
      match ReadWord(st.input)
      case None => Halt(NoMoreInput)
      case Some((word, rest)) =>
        match CheckBet(word, st.money)
        case Accepted(bet) => Play(st, bet, rest)
        case _ => Next(State(st.money, st.shoe, st.wins, rest))
  }

  /** A round played on an accepted bet, with the input left after the bet, and its
      settlement: the bankroll changes by the payout and the streak by the ending. */
  function Play(st: State, bet: real, rest: string): (r: Pass)
    ensures r.Next? ==> |r.state.input| <= |rest|
    ensures r.Halt? ==> r.stop.Fault?
  {
    var d := PlayRound(st.shoe, rest);
    match d.outcome
    case Aborted(f) => Halt(Fault(f))
    case Settled(e) => Next(State(st.money + Payout(e, bet), d.shoe, StreakAfter(st.wins, e), d.input))
  }

  /** The game from a given state to the end. */
  function Session(st: State): (f: Final)
    ensures f.stop == OutOfMoney ==> f.money <= 0.0
    decreases |st.input|
  {
    match Step(st)
    case Halt(stop) => Final(st.money, st.wins, stop)
    case Next(next) => Session(next)
  }

  lemma SessionContinues(st: State, next: State)
    requires Step(st) == Next(next)
    ensures Session(st) == Session(next)
  {
  }

  lemma SessionHalts(st: State, stop: Stop)
    requires Step(st) == Halt(stop)
    ensures Session(st) == Final(st.money, st.wins, stop)
  {
  }

  /** The shoe the game starts from: six fresh decks after the shuffle. */
  function StartingShoe(rolls: seq<nat>): (s: seq<Card>)
    requires |rolls| >= 311
    ensures |s| == 52 * ShoeDecks
    ensures forall c :: multiset(s)[c] == ShoeDecks
  {
    FreshShoeHolds(ShoeDecks);
    ShuffleFrom(FreshShoe(ShoeDecks), rolls, 1)
  }

  // ---------------------------------------------------------------------------------------
  // Properties of the game loop

  /** A round settled on an accepted bet never takes the bankroll below zero. */
  lemma RoundKeepsMoney(money: real, bet: real, e: Ending)
    requires MinBet <= bet <= money
    ensures money + Payout(e, bet) >= 0.0
    ensures e == Push <==> money + Payout(e, bet) == money
  {
    PayoutBounds(e, bet);
  }

  /** A round on an accepted bet keeps the bankroll non-negative and the streak counter a
      message index, and never stops the game for lack of money. */
  lemma PlayInvariant(st: State, bet: real, rest: string)
    requires MinBet <= bet <= st.money
    ensures Play(st, bet, rest) != Halt(OutOfMoney)
    ensures Play(st, bet, rest).Next? ==> Play(st, bet, rest).state.money >= 0.0
    ensures Play(st, bet, rest).Next? && 0 <= st.wins < |Messages| ==> 0 <= Play(st, bet, rest).state.wins < |Messages|
  {
    var d := PlayRound(st.shoe, rest);
    if d.outcome.Settled? {
      RoundKeepsMoney(st.money, bet, d.outcome.ending);
      if 0 <= st.wins < |Messages| {
        NextWinsInRange(st.wins, IsWin(d.outcome.ending), |Messages|);
      }
    }
  }

  /** One pass keeps the bankroll non-negative and the streak counter a message index, and
      it stops for lack of money exactly when the bankroll is at or below zero. */
  lemma StepInvariant(st: State)
    ensures Step(st) == Halt(OutOfMoney) <==> st.money <= 0.0
    ensures Step(st).Next? && st.money >= 0.0 ==> Step(st).state.money >= 0.0
    ensures Step(st).Next? && 0 <= st.wins < |Messages| ==> 0 <= Step(st).state.wins < |Messages|
  {
    if st.money > 0.0 {
      match ReadWord(st.input)
      case None =>
      case Some((word, rest)) =>
        var c := CheckBet(word, st.money);
        if c.Accepted? {
          PlayInvariant(st, c.bet, rest);
        }
    }
  }

  /** Starting with a non-negative bankroll, the game never ends in debt, and it only stops
      for lack of money once the bankroll is exactly zero. */
  lemma {:induction false} SessionSolvent(st: State)
    requires st.money >= 0.0
    ensures Session(st).money >= 0.0
    ensures Session(st).stop == OutOfMoney ==> Session(st).money == 0.0
    decreases |st.input|
  {
    StepInvariant(st);
    if Step(st).Next? {
      SessionSolvent(Step(st).state);
    }
  }

  /** The loop only reports running out of money when the bankroll is at or below zero, and
      it only stops for any other reason with money left. */
  lemma {:induction false} SessionStops(st: State)
    ensures Session(st).stop == OutOfMoney <==> Session(st).money <= 0.0
    decreases |st.input|
  {
    StepInvariant(st);
    if Step(st).Next? {
      SessionStops(Step(st).state);
    }
  }

  /** The streak counter stays a valid index into the messages for the whole game. */
  lemma {:induction false} SessionStreakInRange(st: State)
    requires 0 <= st.wins < |Messages|
    ensures 0 <= Session(st).wins < |Messages|
    decreases |st.input|
  {
    StepInvariant(st);
    if Step(st).Next? {
      SessionStreakInRange(Step(st).state);
    }
  }

  /** A push leaves the streak counter as it was; a win advances it, clamped to the last
      message, and a loss resets it. */
  lemma StreakAfterCases(wins: int, e: Ending)
    requires 0 <= wins < |Messages|
    ensures e == Push ==> StreakAfter(wins, e) == wins
    ensures IsWin(e) ==> StreakAfter(wins, e) == Min(wins + 1, |Messages| - 1) >= 1
    ensures e == PlayerBust || e == DealerHigher ==> StreakAfter(wins, e) == 0
  {
    NextWinsInRange(wins, IsWin(e), |Messages|);
  }

  /** A bet that is turned away (badly formed, above the bankroll or below the minimum) uses
      up the word typed and nothing else: the bankroll, the shoe and the streak are kept. */
  lemma RejectedBetChangesNothing(st: State, word: string, rest: string)
    requires st.money > 0.0 && ReadWord(st.input) == Some((word, rest))
    requires !CheckBet(word, st.money).Accepted?
    ensures Step(st) == Next(State(st.money, st.shoe, st.wins, rest))
  {
  }

  /** Typing "-5" as a bet changes nothing and draws no card. */
  lemma InvalidBetExample(st: State, rest: string)
    requires st.money > 0.0 && st.input == "-5" + rest && (rest == [] || IsBlank(rest[0]))
    ensures Step(st) == Next(State(st.money, st.shoe, st.wins, rest))
  {
    assert !IsValidBet("-5") by {
      RejectedExamples();
    }
    ReadWordTyped([], "-5", rest);
    assert [] + "-5" + rest == "-5" + rest;
  }

  // ---------------------------------------------------------------------------------------
  // The game loop as it runs, on the shoe, hand and streak objects

  /** The hit-or-stand loop on the player's hand object. `dealt` is the hand in the order the
      cards came, which the sorted hand object is a permutation of. */
  method PlayerHits(player: Hand, deck: Deck, input: string, ghost dealt: seq<Card>)
    returns (end: TurnEnd, rest: string)
    requires multiset(player.cards) == multiset(dealt)
    modifies player, deck
    ensures var t := PlayerTurn(dealt, old(deck.cards), input);
      end == t.end && rest == t.input && deck.cards == t.shoe && multiset(player.cards) == multiset(t.hand)
  {
    rest := input;
    ghost var hand := dealt;
    while true
      invariant multiset(player.cards) == multiset(hand)
      invariant PlayerTurn(hand, deck.cards, rest) == PlayerTurn(dealt, old(deck.cards), input)
      decreases |rest|
    {
      var read := ReadChoice(rest);
      if read.None? {
        end := Stuck(InputEnded);
        return;
      }
      var choice := read.value.0;
      rest := read.value.1;
      if choice == 'h' {
        if |deck.cards| == 0 {
          end := Stuck(ShoeEmpty);
          return;
        }
        var card := deck.Draw();
        player.AddCard(card);
        hand := hand + [card];
        var total := player.GetTotal();
        TotalPermutation(player.cards, hand);
        if total > 21 {
          end := Bust;
          return;
        }
      } else if choice == 's' {
        end := Stood;
        return;
      }
    }
  }

  /** The dealer's drawing loop on the dealer's hand object. */
  method DealerDraws(dealer: Hand, deck: Deck) returns (complete: bool)
    modifies dealer, deck
    ensures var d := DealerTurn(old(dealer.cards), old(deck.cards));
      complete == d.complete && dealer.cards == d.hand && deck.cards == d.shoe
  {
    var total := dealer.GetTotal();
    while total < 17
      invariant total == Total(dealer.cards)
      invariant DealerTurn(dealer.cards, deck.cards) == DealerTurn(old(dealer.cards), old(deck.cards))
      decreases 17 - Sum(dealer.cards)
    {
      if |deck.cards| == 0 {
        return false;
      }
      AddCardTotal(dealer.cards, Top(deck.cards));
      TotalSoftAce(dealer.cards);
      var card := deck.Draw();
      dealer.AddCard(card);
      total := dealer.GetTotal();
    }
    complete := true;
  }

  /** One round on the shoe object, from the deal to the settlement. */
  method PlayHand(deck: Deck, input: string) returns (outcome: Outcome, rest: string)
    modifies deck
    ensures var r := PlayRound(old(deck.cards), input);
      outcome == r.outcome && rest == r.input && deck.cards == r.shoe
  {
    if |deck.cards| < 4 {
      return Aborted(ShoeEmpty), input;
    }
    ghost var shoe := deck.cards;
    ghost var n := |shoe|;
    var player := new Hand();
    var dealer := new Hand();
    var card := deck.Draw();
    player.AddCard(card);
    assert deck.cards == shoe[..n - 1];
    card := deck.Draw();
    player.AddCard(card);
    assert deck.cards == shoe[..n - 2];
    card := deck.Draw();
    dealer.AddCard(card);
    assert deck.cards == shoe[..n - 3];
    card := deck.Draw();
    dealer.AddCard(card);
    assert deck.cards == shoe[..n - 4];
    assert player.cards == [shoe[n - 1], shoe[n - 2]] && dealer.cards == [shoe[n - 3], shoe[n - 4]];
    player.SortCards();
    var total := player.GetTotal();
    if |player.cards| == 2 && total == 21 {
      return Settled(Natural), input;
    }
    outcome, rest := FinishHand(player, dealer, deck, input, [shoe[n - 1], shoe[n - 2]]);
  }

  /** The rest of a round once the cards are dealt and the deal is not a natural. */
  method FinishHand(player: Hand, dealer: Hand, deck: Deck, input: string, ghost dealt: seq<Card>)
      returns (outcome: Outcome, rest: string)
    requires player != dealer && |dealt| == 2 && !IsBlackjack(dealt)
    requires multiset(player.cards) == multiset(dealt)
    modifies player, dealer, deck
    ensures var r := PlayOut(dealt, old(dealer.cards), old(deck.cards), input);
      outcome == r.outcome && rest == r.input && deck.cards == r.shoe
  {
    TwoCardsNeverBust(dealt);
    PlayerTurnStopsAtBust(dealt, deck.cards, input);
    ghost var t := PlayerTurn(dealt, deck.cards, input);
    var end;
    end, rest := PlayerHits(player, deck, input, dealt);
    if end.Stuck? {
      return Aborted(end.fault), rest;
    }
    var total := player.GetTotal();
    TotalPermutation(player.cards, t.hand);
    if total <= 21 {
      var complete := DealerDraws(dealer, deck);
      if !complete {
        return Aborted(ShoeEmpty), rest;
      }
      var dealerTotal := dealer.GetTotal();
      if dealerTotal > 21 || total > dealerTotal {
        outcome := Settled(if dealerTotal > 21 then DealerBust else PlayerHigher);
      } else if total < dealerTotal {
        outcome := Settled(DealerHigher);
      } else {
        outcome := Settled(Push);
      }
    } else {
      outcome := Settled(PlayerBust);
    }
  }

  /** The settlement of a round on the bankroll and the streak object: a natural pays one and
      a half times the bet, a win the bet, a loss costs the bet, and a push changes nothing. */
  method Settlement(streak: PositiveMessages, money: real, bet: real, e: Ending) returns (after: real)
    requires streak.Valid() && streak.messages == Messages
    modifies streak
    ensures streak.Valid() && streak.messages == Messages
    ensures after == money + Payout(e, bet)
    ensures streak.consecutiveWins == StreakAfter(old(streak.consecutiveWins), e)
  {
    after := money;
    if e == Natural {
      streak.Update(true);
      after := money + bet * 1.5;
    } else if e == PlayerBust || e == DealerHigher {
      streak.Update(false);
      after := money - bet;
    } else if e == DealerBust || e == PlayerHigher {
      streak.Update(true);
      after := money + bet;
    }
  }

  /** One pass of the game loop while there is money: read a bet, turn it away or play a
      round on it and settle it. `stop` is set when the pass ends the game. */
  method GamePass(deck: Deck, streak: PositiveMessages, money: real, input: string)
    returns (after: real, rest: string, stop: Option<Stop>)
    requires money > 0.0
    requires streak.Valid() && streak.messages == Messages
    modifies deck, streak
    ensures streak.Valid() && streak.messages == Messages
    ensures var p := Step(State(money, old(deck.cards), old(streak.consecutiveWins), input));
      if stop.Some? then p == Halt(stop.value) && after == money &&
        streak.consecutiveWins == old(streak.consecutiveWins)
      else p == Next(State(after, deck.cards, streak.consecutiveWins, rest))
  {
    after := money;
    ghost var st := State(money, deck.cards, streak.consecutiveWins, input);
    var read := ReadWord(input);
    if read.None? {
      return money, input, Some(NoMoreInput);
    }
    var betInput := read.value.0;
    rest := read.value.1;
    stop := None;
    if !IsValidBet(betInput) {
      return;
    }
    var bet := ParseBet(betInput);
    if bet > money || bet < MinBet {
      return;
    }
    assert Step(st) == Play(st, bet, rest);
    var outcome;
    outcome, rest := PlayHand(deck, rest);
    match outcome
    case Aborted(f) =>
      stop := Some(Fault(f));
    case Settled(e) =>
      after := Settlement(streak, money, bet, e);
  }

  /** The loop over rounds, on the shoe and streak objects, from the given bankroll and
      input. */
  method RunGame(deck: Deck, streak: PositiveMessages, startMoney: real, input: string)
    returns (money: real, stop: Stop)
    requires streak.Valid() && streak.messages == Messages
    modifies deck, streak
    ensures var f := Session(State(startMoney, old(deck.cards), old(streak.consecutiveWins), input));
      money == f.money && streak.consecutiveWins == f.wins && stop == f.stop
  {
    money := startMoney;
    var s := input;
    while money > 0.0
      invariant streak.Valid() && streak.messages == Messages
      invariant Session(State(money, deck.cards, streak.consecutiveWins, s)) ==
                Session(State(startMoney, old(deck.cards), old(streak.consecutiveWins), input))
      decreases |s|
    {
      ghost var st := State(money, deck.cards, streak.consecutiveWins, s);
      var halt;
      money, s, halt := GamePass(deck, streak, money, s);
      if halt.Some? {
        SessionHalts(st, halt.value);
        return money, halt.value;
      }
      SessionContinues(st, State(money, deck.cards, streak.consecutiveWins, s));
    }
    SessionHalts(State(money, deck.cards, streak.consecutiveWins, s), OutOfMoney);
    stop := OutOfMoney;
  }

  /** The game: a six-deck shoe is built and shuffled (the requested deck count is not used),
      then rounds are played while there is money left. `rolls` are the random generator's
      draws for the shuffle and `input` is everything the player types. */
  method PlayBlackjack(startMoney: real, numDecks: nat, rolls: seq<nat>, input: string)
    returns (money: real, stop: Stop)
    requires |rolls| >= 311
    ensures var f := Session(State(startMoney, StartingShoe(rolls), 0, input));
      money == f.money && stop == f.stop
  {
    var deck := new Deck(ShoeDecks);
    FreshShoeCount(ShoeDecks, Card(Ace, Clubs));
    deck.Shuffle(rolls);
    var streak := new PositiveMessages();
    money, stop := RunGame(deck, streak, startMoney, input);
  }
}
