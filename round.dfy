/** One round of the game as a function of the shoe and the player's input: the deal, the
    player's hits, the dealer's draws and the settlement. */
module Round {
  import opened Cards
  import opened Shoe
  import opened Hands
  import opened Input

  /** Why a round could not be finished: a draw from an empty shoe, or no choice left to read. */
  datatype Fault = ShoeEmpty | InputEnded

  /** How the player's turn ended: standing, busting, or stuck on a fault. */
  datatype TurnEnd = Stood | Bust | Stuck(fault: Fault)

  /** The state after the player's turn: how it ended, the player's cards, the shoe and the
      input still unread. */
  datatype Turn = Turn(end: TurnEnd, hand: seq<Card>, shoe: seq<Card>, input: string)

  /** The hit-or-stand loop: 'h' draws a card and ends the turn if it busts, 's' stands, and
      any other character is ignored and the next one is read. */
  function PlayerTurn(hand: seq<Card>, shoe: seq<Card>, input: string): (r: Turn)
    ensures |r.input| <= |input|
    ensures |r.shoe| <= |shoe| && |r.hand| + |r.shoe| == |hand| + |shoe|
    ensures r.end == Bust ==> IsBusted(r.hand)
    decreases |input|
  {
    match ReadChoice(input)
    case None => Turn(Stuck(InputEnded), hand, shoe, input)
    case Some((c, rest)) =>
      if c == 'h' then
        if shoe == [] then Turn(Stuck(ShoeEmpty), hand, shoe, rest)
        else
          var h := hand + [Top(shoe)];
          if IsBusted(h) then Turn(Bust, h, Rest(shoe), rest)
          else PlayerTurn(h, Rest(shoe), rest)
      else if c == 's' then Turn(Stood, hand, shoe, rest)
      else PlayerTurn(hand, shoe, rest)
  }

  /** The state after the dealer's turn: whether the dealer reached 17, the dealer's cards and
      the shoe. */
  datatype Draws = Draws(complete: bool, hand: seq<Card>, shoe: seq<Card>)

  /** The dealer draws while the total is below 17 and stands on any 17, soft or hard. */
  function DealerTurn(hand: seq<Card>, shoe: seq<Card>): (r: Draws)
    ensures |r.shoe| <= |shoe| && |r.hand| + |r.shoe| == |hand| + |shoe|
    ensures r.complete <==> Total(r.hand) >= 17
    ensures !r.complete ==> r.shoe == []
    decreases 17 - Sum(hand)
  {
    if Total(hand) >= 17 then Draws(true, hand, shoe)
    else if shoe == [] then Draws(false, hand, shoe)
    else
      AddCardTotal(hand, Top(shoe));
      TotalSoftAce(hand);
      DealerTurn(hand + [Top(shoe)], Rest(shoe))
  }

  /** How a settled round ended. */
  datatype Ending = Natural | PlayerBust | DealerBust | PlayerHigher | DealerHigher | Push

  datatype Outcome = Settled(ending: Ending) | Aborted(fault: Fault)

  /** A played round: its outcome, both hands as they ended, the shoe and the unread input. */
  datatype Deal = Deal(outcome: Outcome, player: seq<Card>, dealer: seq<Card>, shoe: seq<Card>, input: string)

  /** The comparison once the dealer has finished: a busted dealer or a higher player total
      wins, a higher dealer total loses, equal totals push. */
  function Settle(player: seq<Card>, dealer: seq<Card>): (e: Ending)
    ensures e != Natural && e != PlayerBust
    ensures IsWin(e) <==> IsBusted(dealer) || Total(player) > Total(dealer)
  {
    if IsBusted(dealer) || Total(player) > Total(dealer) then
      if IsBusted(dealer) then DealerBust else PlayerHigher
    else if Total(player) < Total(dealer) then DealerHigher
    else Push
  }

  /** A round from the deal on: two cards to the player, then two to the dealer, each from the
      top of the shoe; a two-card 21 pays at once; otherwise the player's turn and, unless the
      player busts, the dealer's turn and the settlement. */
  function PlayRound(shoe: seq<Card>, input: string): (r: Deal)
    ensures |r.input| <= |input|
    ensures |r.player| + |r.dealer| + |r.shoe| == |shoe|
    ensures r.outcome.Settled? ==> |r.player| >= 2 && |r.dealer| >= 2
  {
    if |shoe| < 4 then Deal(Aborted(ShoeEmpty), [], [], shoe, input)
    else
      var n := |shoe|;
      var player := [shoe[n - 1], shoe[n - 2]];
      var dealer := [shoe[n - 3], shoe[n - 4]];
      var rest := shoe[..n - 4];
      if IsBlackjack(player) then Deal(Settled(Natural), player, dealer, rest, input)
      else PlayOut(player, dealer, rest, input)
  }

  /** A round after a deal that is not a natural: the player's turn, then the dealer's turn
      unless the player has gone bust, then the comparison of totals. */
  function PlayOut(player: seq<Card>, dealer: seq<Card>, shoe: seq<Card>, input: string): (r: Deal)
    ensures |r.input| <= |input|
    ensures r.outcome != Settled(Natural)
    ensures |r.player| >= |player| && |r.dealer| >= |dealer|
    ensures |r.player| + |r.dealer| + |r.shoe| == |player| + |dealer| + |shoe|
  {
    var t := PlayerTurn(player, shoe, input);
    match t.end
    case Stuck(f) => Deal(Aborted(f), t.hand, dealer, t.shoe, t.input)
    case Bust => Deal(Settled(PlayerBust), t.hand, dealer, t.shoe, t.input)
    case Stood =>
      var d := DealerTurn(dealer, t.shoe);
      if d.complete then Deal(Settled(Settle(t.hand, d.hand)), t.hand, d.hand, d.shoe, t.input)
      else Deal(Aborted(ShoeEmpty), t.hand, d.hand, d.shoe, t.input)
  }

  /** Rounds that count as a win for the streak. */
  predicate IsWin(e: Ending)
    ensures IsWin(e) <==> Payout(e, 1.0) > 0.0
  {
    e == Natural || e == DealerBust || e == PlayerHigher
  }

  /** The change in the bankroll a settled round makes on a bet: a natural pays one and a half
      times the bet, a win the bet, a loss costs the bet and a push nothing. */
  function Payout(e: Ending, bet: real): (delta: real)
    ensures bet >= 0.0 ==> -bet <= delta <= bet * 1.5
    ensures bet > 0.0 && e != Push ==> delta != 0.0
  {
    match e
    case Natural => bet * 1.5
    case DealerBust => bet
    case PlayerHigher => bet
    case PlayerBust => -bet
    case DealerHigher => -bet
    case Push => 0.0
  }

  // ---------------------------------------------------------------------------------------
  // The player's turn

  lemma DrawnUnfold(s: seq<Card>, k: nat)
    requires 0 < k <= |s|
    ensures Drawn(s, k) == [Top(s)] + Drawn(Rest(s), k - 1)
  {
  }

  /** The hand and shoe after a turn are those at its start with some cards moved, in order,
      from the top of the shoe to the hand. */
  predicate DrewFrom(hand: seq<Card>, shoe: seq<Card>, hand': seq<Card>, shoe': seq<Card>)
  {
    |shoe'| <= |shoe| && shoe' == shoe[..|shoe'|] && hand' == hand + Drawn(shoe, |shoe| - |shoe'|)
  }

  /** Drawing a first card and then the rest is drawing them all. */
  lemma DrewFromStep(hand: seq<Card>, shoe: seq<Card>, hand': seq<Card>, shoe': seq<Card>)
    requires shoe != [] && DrewFrom(hand + [Top(shoe)], Rest(shoe), hand', shoe')
    ensures DrewFrom(hand, shoe, hand', shoe')
  {
    var m := |shoe| - |shoe'|;
    DrawnUnfold(shoe, m);
    assert hand + Drawn(shoe, m) == hand + [Top(shoe)] + Drawn(Rest(shoe), m - 1);
  }

  /** Moving cards from the shoe to the hand neither loses nor duplicates one. */
  lemma DrewFromConserves(hand: seq<Card>, shoe: seq<Card>, hand': seq<Card>, shoe': seq<Card>)
    requires DrewFrom(hand, shoe, hand', shoe')
    ensures multiset(hand') + multiset(shoe') == multiset(hand) + multiset(shoe)
  {
    var m := |shoe| - |shoe'|;
    DrawnConserves(shoe, m);
    assert shoe[..|shoe| - m] == shoe';
  }

  /** No hand on the way, from the start up to but excluding n cards drawn, was over the
      bound. */
  predicate StayedAtMost(hand: seq<Card>, shoe: seq<Card>, n: nat, bound: int)
    requires n <= |shoe|
  {
    forall k :: 0 <= k < n ==> Total(hand + Drawn(shoe, k)) <= bound
  }

  lemma StayedAtMostStep(hand: seq<Card>, shoe: seq<Card>, n: nat, bound: int)
    requires 0 < n <= |shoe| && Total(hand) <= bound
    requires StayedAtMost(hand + [Top(shoe)], Rest(shoe), n - 1, bound)
    ensures StayedAtMost(hand, shoe, n, bound)
  {
    forall k | 0 <= k < n
      ensures Total(hand + Drawn(shoe, k)) <= bound
    {
      if k > 0 {
        DrawnUnfold(shoe, k);
        assert hand + Drawn(shoe, k) == hand + [Top(shoe)] + Drawn(Rest(shoe), k - 1);
      } else {
        assert hand + Drawn(shoe, k) == hand;
      }
    }
  }

  /** The player's turn only takes cards off the top of the shoe, in order, into the hand. */
  lemma {:induction false} PlayerTurnDraws(hand: seq<Card>, shoe: seq<Card>, input: string)
    ensures var r := PlayerTurn(hand, shoe, input); DrewFrom(hand, shoe, r.hand, r.shoe)
    ensures var r := PlayerTurn(hand, shoe, input); r.end == Stuck(ShoeEmpty) ==> r.shoe == []
    ensures var r := PlayerTurn(hand, shoe, input); r.end == Stuck(InputEnded) ==> AllBlank(r.input)
    decreases |input|
  {
    var r := PlayerTurn(hand, shoe, input);
    match ReadChoice(input)
    case None =>
      ReadChoiceSpec(input);
      assert shoe[..|shoe|] == shoe;
    case Some((c, rest)) =>
      if c == 'h' && shoe != [] {
        var h := hand + [Top(shoe)];
        if IsBusted(h) {
          assert Drawn(shoe, 1) == [Top(shoe)];
        } else {
          PlayerTurnDraws(h, Rest(shoe), rest);
          DrewFromStep(hand, shoe, r.hand, r.shoe);
        }
      } else if c != 'h' && c != 's' {
        PlayerTurnDraws(hand, shoe, rest);
      } else {
        assert shoe[..|shoe|] == shoe;
      }
  }

  /** From a hand that has not busted, the turn ends in a bust exactly when the final hand is
      over 21, and no hand before the last one drawn to was over 21. */
  lemma {:induction false} PlayerTurnStopsAtBust(hand: seq<Card>, shoe: seq<Card>, input: string)
    requires !IsBusted(hand)
    ensures var r := PlayerTurn(hand, shoe, input); r.end.Bust? <==> IsBusted(r.hand)
    ensures var r := PlayerTurn(hand, shoe, input);
      |r.shoe| <= |shoe| && StayedAtMost(hand, shoe, |shoe| - |r.shoe|, 21)
    decreases |input|
  {
    var r := PlayerTurn(hand, shoe, input);
    PlayerTurnDraws(hand, shoe, input);
    match ReadChoice(input)
    case None =>
    case Some((c, rest)) =>
      if c == 'h' && shoe != [] {
        var h := hand + [Top(shoe)];
        if IsBusted(h) {
          assert Drawn(shoe, 0) == [];
          assert hand + [] == hand;
        } else {
          PlayerTurnStopsAtBust(h, Rest(shoe), rest);
          StayedAtMostStep(hand, shoe, |shoe| - |r.shoe|, 21);
        }
      } else if c != 'h' && c != 's' {
        PlayerTurnStopsAtBust(hand, shoe, rest);
      }
  }

  /** A player who stands has not busted, so the dealer always plays after a stand. */
  lemma StoodNotBusted(hand: seq<Card>, shoe: seq<Card>, input: string)
    requires !IsBusted(hand)
    ensures PlayerTurn(hand, shoe, input).end.Stood? ==> !IsBusted(PlayerTurn(hand, shoe, input).hand)
  {
    PlayerTurnStopsAtBust(hand, shoe, input);
  }

  /** Reading 's' ends the turn standing, with nothing drawn. */
  lemma StandChoice(hand: seq<Card>, shoe: seq<Card>, rest: string)
    ensures PlayerTurn(hand, shoe, ['s'] + rest) == Turn(Stood, hand, shoe, rest)
  {
    ReadChoiceTyped([], 's', rest);
    assert [] + ['s'] + rest == ['s'] + rest;
  }

  /** Reading 'h' draws the top card; the turn ends if it busts and goes on otherwise. */
  lemma HitChoice(hand: seq<Card>, shoe: seq<Card>, rest: string)
    requires shoe != []
    ensures var h := hand + [Top(shoe)];
      PlayerTurn(hand, shoe, ['h'] + rest) ==
        if IsBusted(h) then Turn(Bust, h, Rest(shoe), rest) else PlayerTurn(h, Rest(shoe), rest)
  {
    ReadChoiceTyped([], 'h', rest);
    assert [] + ['h'] + rest == ['h'] + rest;
  }

  /** Any other character is reported as invalid and passed over. */
  lemma OtherChoice(hand: seq<Card>, shoe: seq<Card>, c: char, rest: string)
    requires c != 'h' && c != 's' && !IsBlank(c)
    ensures PlayerTurn(hand, shoe, [c] + rest) == PlayerTurn(hand, shoe, rest)
  {
    ReadChoiceTyped([], c, rest);
    assert [] + [c] + rest == [c] + rest;
  }

  // ---------------------------------------------------------------------------------------
  // The dealer's turn

  /** The dealer's turn takes cards off the top of the shoe in order and stops at the first
      total of 17 or more; it is incomplete only when the shoe runs out first. */
  lemma {:induction false} DealerTurnDraws(hand: seq<Card>, shoe: seq<Card>)
    ensures var r := DealerTurn(hand, shoe); DrewFrom(hand, shoe, r.hand, r.shoe)
    ensures var r := DealerTurn(hand, shoe);
      (r.complete <==> Total(r.hand) >= 17) && (!r.complete ==> r.shoe == [])
    ensures var r := DealerTurn(hand, shoe);
      |r.shoe| <= |shoe| && StayedAtMost(hand, shoe, |shoe| - |r.shoe|, 16)
    decreases 17 - Sum(hand)
  {
    var r := DealerTurn(hand, shoe);
    if Total(hand) >= 17 || shoe == [] {
      assert shoe[..|shoe|] == shoe;
    } else {
      var h := hand + [Top(shoe)];
      AddCardTotal(hand, Top(shoe));
      TotalSoftAce(hand);
      DealerTurnDraws(h, Rest(shoe));
      DrewFromStep(hand, shoe, r.hand, r.shoe);
      StayedAtMostStep(hand, shoe, |shoe| - |r.shoe|, 16);
    }
  }

  /** A dealer already on 17 or more, soft or hard, draws nothing. */
  lemma DealerStandsOn17(hand: seq<Card>, shoe: seq<Card>)
    requires Total(hand) >= 17
    ensures DealerTurn(hand, shoe) == Draws(true, hand, shoe)
  {
  }

  // ---------------------------------------------------------------------------------------
  // The settlement and the payout

  /** The settlement names exactly the comparison of the final totals. */
  lemma SettleCases(player: seq<Card>, dealer: seq<Card>)
    ensures IsWin(Settle(player, dealer)) <==> IsBusted(dealer) || Total(player) > Total(dealer)
    ensures Settle(player, dealer) == DealerHigher <==> !IsBusted(dealer) && Total(player) < Total(dealer)
    ensures Settle(player, dealer) == Push <==> !IsBusted(dealer) && Total(player) == Total(dealer)
    ensures Settle(player, dealer) != Natural && Settle(player, dealer) != PlayerBust
  {
  }

  /** A natural gains exactly one and a half times the bet, any other win exactly the bet, a
      loss costs exactly the bet, and only a push leaves the bankroll unchanged. */
  lemma PayoutBounds(e: Ending, bet: real)
    requires bet > 0.0
    ensures IsWin(e) ==> bet <= Payout(e, bet) <= bet * 1.5
    ensures e == Natural ==> Payout(e, bet) == bet * 1.5
    ensures e == DealerBust || e == PlayerHigher ==> Payout(e, bet) == bet
    ensures e == PlayerBust || e == DealerHigher ==> Payout(e, bet) == -bet
    ensures Payout(e, bet) == 0.0 <==> e == Push
    ensures Payout(e, bet) > 0.0 <==> IsWin(e)
  {
  }

  // ---------------------------------------------------------------------------------------
  // The round as a whole

  /** The deal takes the top four cards: the player gets the top two, the dealer the next two. */
  lemma DealtCards(shoe: seq<Card>)
    requires |shoe| >= 4
    ensures var n := |shoe|;
      multiset([shoe[n - 1], shoe[n - 2]]) + multiset([shoe[n - 3], shoe[n - 4]]) + multiset(shoe[..n - 4])
      == multiset(shoe)
  {
    var n := |shoe|;
    assert shoe == shoe[..n - 4] + [shoe[n - 4], shoe[n - 3]] + [shoe[n - 2], shoe[n - 1]];
  }

  /** A round neither loses nor duplicates a card: the two hands and the shoe it leaves hold
      exactly the cards of the shoe it started from. */
  lemma ShareOut(a: multiset<Card>, b: multiset<Card>, c: multiset<Card>, d: multiset<Card>, x: multiset<Card>)
    requires a + b == c + d
    ensures a + x + b == c + x + d && x + a + b == x + c + d
  {
    assert forall e :: a[e] + b[e] == (a + b)[e] == (c + d)[e] == c[e] + d[e];
    assert a + x + b == c + x + d;
    assert x + a + b == x + c + d;
  }

  /** The rest of a round neither loses nor duplicates a card either. */
  lemma PlayOutConserves(player: seq<Card>, dealer: seq<Card>, shoe: seq<Card>, input: string)
    ensures var r := PlayOut(player, dealer, shoe, input);
      multiset(r.player) + multiset(r.dealer) + multiset(r.shoe) ==
      multiset(player) + multiset(dealer) + multiset(shoe)
  {
    var t := PlayerTurn(player, shoe, input);
    PlayerTurnDraws(player, shoe, input);
    DrewFromConserves(player, shoe, t.hand, t.shoe);
    ShareOut(multiset(t.hand), multiset(t.shoe), multiset(player), multiset(shoe), multiset(dealer));
    if t.end.Stood? {
      var d := DealerTurn(dealer, t.shoe);
      DealerTurnDraws(dealer, t.shoe);
      DrewFromConserves(dealer, t.shoe, d.hand, d.shoe);
      ShareOut(multiset(d.hand), multiset(d.shoe), multiset(dealer), multiset(t.shoe), multiset(t.hand));
    }
  }

  lemma RoundConservesCards(shoe: seq<Card>, input: string)
    ensures var r := PlayRound(shoe, input);
      multiset(r.player) + multiset(r.dealer) + multiset(r.shoe) == multiset(shoe)
  {
    if |shoe| >= 4 {
      var n := |shoe|;
      DealtCards(shoe);
      PlayOutConserves([shoe[n - 1], shoe[n - 2]], [shoe[n - 3], shoe[n - 4]], shoe[..n - 4], input);
    }
  }

  /** A natural is settled at once, exactly when the player's first two cards make 21, and
      then no choice is read and the dealer does not draw. */
  lemma NaturalPaysAtOnce(shoe: seq<Card>, input: string)
    ensures var r := PlayRound(shoe, input);
      r.outcome == Settled(Natural) <==> |shoe| >= 4 && IsBlackjack([shoe[|shoe| - 1], shoe[|shoe| - 2]])
    ensures var r := PlayRound(shoe, input);
      r.outcome == Settled(Natural) ==> r.input == input && |r.dealer| == 2 && |r.shoe| == |shoe| - 4
  {
    if |shoe| >= 4 {
      var n := |shoe|;
      var player, dealer, rest := [shoe[n - 1], shoe[n - 2]], [shoe[n - 3], shoe[n - 4]], shoe[..n - 4];
      if !IsBlackjack(player) {
        TwoCardsNeverBust(player);
        PlayerTurnStopsAtBust(player, rest, input);
        var t := PlayerTurn(player, rest, input);
        if t.end.Stood? {
          SettleCases(t.hand, DealerTurn(dealer, t.shoe).hand);
        }
      }
    }
  }

  /** A bust ends the round before the dealer plays: the player's total is over 21 and the
      dealer keeps the two cards dealt. */
  lemma BustSkipsDealer(shoe: seq<Card>, input: string)
    ensures var r := PlayRound(shoe, input);
      r.outcome == Settled(PlayerBust) ==> IsBusted(r.player) && |r.dealer| == 2 && |r.player| >= 3
  {
    if |shoe| >= 4 {
      var n := |shoe|;
      var player, dealer, rest := [shoe[n - 1], shoe[n - 2]], [shoe[n - 3], shoe[n - 4]], shoe[..n - 4];
      if !IsBlackjack(player) {
        var t := PlayerTurn(player, rest, input);
        if t.end.Stood? {
          SettleCases(t.hand, DealerTurn(dealer, t.shoe).hand);
        }
      }
    }
  }

  /** When the dealer plays and the round is settled, the player stood on 21 or less and the
      dealer finished on 17 or more; the ending is the settlement of those totals. */
  lemma ShowdownAfterStand(shoe: seq<Card>, input: string)
    ensures var r := PlayRound(shoe, input);
      r.outcome.Settled? && r.outcome.ending != Natural && r.outcome.ending != PlayerBust ==>
        !IsBusted(r.player) && Total(r.dealer) >= 17 && r.outcome.ending == Settle(r.player, r.dealer)
  {
    if |shoe| >= 4 {
      var n := |shoe|;
      var player, dealer, rest := [shoe[n - 1], shoe[n - 2]], [shoe[n - 3], shoe[n - 4]], shoe[..n - 4];
      if !IsBlackjack(player) {
        TwoCardsNeverBust(player);
        PlayerTurnStopsAtBust(player, rest, input);
        var t := PlayerTurn(player, rest, input);
        if t.end.Stood? {
          DealerTurnDraws(dealer, t.shoe);
          SettleCases(t.hand, DealerTurn(dealer, t.shoe).hand);
        }
      }
    }
  }

  /** A shoe with fewer than four cards cannot be dealt from: the round aborts and leaves the
      shoe and the input as they were. */
  lemma ShortShoeAborts(shoe: seq<Card>, input: string)
    requires |shoe| < 4
    ensures PlayRound(shoe, input) == Deal(Aborted(ShoeEmpty), [], [], shoe, input)
  {
  }

  // ---------------------------------------------------------------------------------------
  // Worked rounds (the top of the shoe is its last card)

  /** A round on a shoe whose top four cards are a, b, c, d (a on top): the player gets a
      and b, the dealer c and d. */
  lemma DealTopFour(below: seq<Card>, a: Card, b: Card, c: Card, d: Card, input: string)
    ensures PlayRound(below + [d, c, b, a], input) ==
      if IsBlackjack([a, b]) then Deal(Settled(Natural), [a, b], [c, d], below, input)
      else PlayOut([a, b], [c, d], below, input)
  {
    var shoe := below + [d, c, b, a];
    var n := |shoe|;
    assert [shoe[n - 1], shoe[n - 2]] == [a, b] && [shoe[n - 3], shoe[n - 4]] == [c, d];
    assert shoe[..n - 4] == below;
  }

  /** A character other than a choice is passed over. */
  lemma OtherOut(player: seq<Card>, dealer: seq<Card>, shoe: seq<Card>, c: char, rest: string)
    requires c != 'h' && c != 's' && !IsBlank(c)
    ensures PlayOut(player, dealer, shoe, [c] + rest) == PlayOut(player, dealer, shoe, rest)
  {
    OtherChoice(player, shoe, c, rest);
  }

  /** Ace and King dealt to the player: a natural, paying 15 on a bet of 10, whatever the
      rest of the shoe and the input. */
  lemma NaturalExample(below: seq<Card>, input: string)
    ensures var r := PlayRound(below + [Card(Two, Clubs), Card(Three, Clubs), Card(King, Diamonds), Card(Ace, Spades)], input);
      r.outcome == Settled(Natural) && r.input == input && Payout(r.outcome.ending, 10.0) == 15.0
  {
    BlackjackIsAceAndTen([Card(Ace, Spades), Card(King, Diamonds)]);
    DealTopFour(below, Card(Ace, Spades), Card(King, Diamonds), Card(Three, Clubs), Card(Two, Clubs), input);
  }

  /** Standing at once hands the round straight to the dealer. */
  lemma StandThenDealer(player: seq<Card>, dealer: seq<Card>, shoe: seq<Card>, rest: string)
    ensures var d := DealerTurn(dealer, shoe);
      PlayOut(player, dealer, shoe, ['s'] + rest) ==
        if d.complete then Deal(Settled(Settle(player, d.hand)), player, d.hand, d.shoe, rest)
        else Deal(Aborted(ShoeEmpty), player, d.hand, d.shoe, rest)
  {
    StandChoice(player, shoe, rest);
  }

  /** Two hands on equal totals of 17 or more, with an unknown character passed over
      before the stand: a push. */
  lemma StandOffPush(below: seq<Card>, a: Card, b: Card, c: Card, d: Card, rest: string)
    requires !IsBlackjack([a, b]) && Total([a, b]) == Total([c, d]) >= 17
    ensures var r := PlayRound(below + [d, c, b, a], ['x', 's'] + rest);
      r.outcome == Settled(Push) && r.input == rest
  {
    DealTopFour(below, a, b, c, d, ['x', 's'] + rest);
    assert ['x', 's'] + rest == ['x'] + (['s'] + rest);
    OtherOut([a, b], [c, d], below, 'x', ['s'] + rest);
    StandThenDealer([a, b], [c, d], below, rest);
    DealerStandsOn17([c, d], below);
  }

  /** 10 and 8 against 9 and 9, with an unknown character passed over before the stand: a
      push. */
  lemma PushExample(below: seq<Card>, rest: string)
    ensures var r := PlayRound(below + [Card(Nine, Diamonds), Card(Nine, Clubs), Card(Eight, Spades), Card(Ten, Hearts)], ['x', 's'] + rest);
      r.outcome == Settled(Push) && r.input == rest
  {
    var player := [Card(Ten, Hearts), Card(Eight, Spades)];
    var dealer := [Card(Nine, Clubs), Card(Nine, Diamonds)];
    assert Total(player) == 18 && !IsBlackjack(player) by {
      TwoCards(player);
    }
    assert Total(dealer) == 18 by {
      TwoCards(dealer);
    }
    StandOffPush(below, Card(Ten, Hearts), Card(Eight, Spades), Card(Nine, Clubs), Card(Nine, Diamonds), rest);
  }
}
