/** The winning-streak tracker that picks an encouragement message after each win. */
module Streak {

  /** The encouragement messages, from the first win of a streak onwards. */
  const Messages: seq<string> := [
    "You're on a winning streak!",
    "Keep it up! You're doing great!",
    "Nice job! You're unbeatable!"
  ]

  /** The consecutive-win counter after one outcome: a win increments it, clamped to the
      last message index; anything else resets it to 0. */
  function NextWins(wins: int, win: bool, size: int): (w: int)
    ensures 0 <= wins < size ==> 0 <= w < size && (win ==> wins <= w)
    ensures !win ==> w == 0
  {
    if win then (if wins + 1 >= size then size - 1 else wins + 1) else 0
  }

  /** The counter after a run of outcomes, the earliest first. */
  function AfterOutcomes(wins: int, outcomes: seq<bool>, size: int): int
    decreases |outcomes|
  {
    if outcomes == [] then wins
    else AfterOutcomes(NextWins(wins, outcomes[0], size), outcomes[1..], size)
  }

  /** A sequence of n wins. */
  function Wins(n: nat): (s: seq<bool>)
    ensures |s| == n && forall i :: 0 <= i < n ==> s[i]
  {
    if n == 0 then [] else [true] + Wins(n - 1)
  }

  function Min(a: int, b: int): int
  {
    if a <= b then a else b
  }

  /** One update keeps the counter a valid message index; a win sets it to the old counter
      plus one, clamped to size - 1, and a loss resets it. */
  lemma NextWinsInRange(wins: int, win: bool, size: int)
    requires 0 <= wins < size
    ensures 0 <= NextWins(wins, win, size) < size
    ensures win ==> NextWins(wins, win, size) == Min(wins + 1, size - 1)
    ensures !win ==> NextWins(wins, win, size) == 0
  {
  }

  /** Across consecutive wins the counter never decreases. */
  lemma WinNeverDecreases(wins: int, size: int)
    requires 0 <= wins < size
    ensures wins <= NextWins(wins, true, size)
  {
  }

  /** With two or more messages the counter is at least 1 after a win, so the first message
      is never the one shown after a win. */
  lemma FirstMessageNeverShownAfterWin(wins: int, size: int)
    requires 0 <= wins < size && size >= 2
    ensures NextWins(wins, true, size) >= 1
  {
  }

  /** Any run of outcomes keeps the counter within the messages. */
  lemma {:induction false} AfterOutcomesInRange(wins: int, outcomes: seq<bool>, size: int)
    requires 0 <= wins < size
    ensures 0 <= AfterOutcomes(wins, outcomes, size) < size
    decreases |outcomes|
  {
    if outcomes != [] {
      NextWinsInRange(wins, outcomes[0], size);
      AfterOutcomesInRange(NextWins(wins, outcomes[0], size), outcomes[1..], size);
    }
  }

  /** Starting from w, n consecutive wins leave the counter at min(w + n, size - 1). */
  lemma {:induction false} WinningRun(wins: int, n: nat, size: int)
    requires 0 <= wins < size
    ensures AfterOutcomes(wins, Wins(n), size) == Min(wins + n, size - 1)
    decreases n
  {
    if n > 0 {
      assert Wins(n)[1..] == Wins(n - 1);
      WinningRun(NextWins(wins, true, size), n - 1, size);
    }
  }

  /** A loss anywhere wipes out everything before it. */
  lemma {:induction false} LossForgets(wins: int, before: seq<bool>, after: seq<bool>, size: int)
    ensures AfterOutcomes(wins, before + [false] + after, size) == AfterOutcomes(0, after, size)
    decreases |before|
  {
    if before == [] {
      assert before + [false] + after == [false] + after;
    } else {
      assert (before + [false] + after)[1..] == before[1..] + [false] + after;
      LossForgets(NextWins(wins, before[0], size), before[1..], after, size);
    }
  }

  class PositiveMessages {
    var messages: seq<string>
    var consecutiveWins: int

    ghost predicate Valid()
      reads this
    {
      0 <= consecutiveWins < |messages|
    }

    constructor ()
      ensures Valid() && messages == Messages && consecutiveWins == 0
    {
      messages := Messages;
      consecutiveWins := 0;
    }

    /** Records the outcome of a round. */
    method Update(win: bool)
      requires Valid()
      modifies this
      ensures Valid() && messages == old(messages)
      ensures consecutiveWins == NextWins(old(consecutiveWins), win, |messages|)
    {
      if win {
        consecutiveWins := consecutiveWins + 1;
        if consecutiveWins >= |messages| {
          consecutiveWins := |messages| - 1;
        }
      } else {
        consecutiveWins := 0;
      }
    }

    /** The message for the current streak; always an index within the messages. */
    function GetMessage(): (m: string)
      reads this
      requires Valid()
      ensures m in messages
    {
      messages[consecutiveWins]
    }
  }
}
