/** The shoe: several standard decks in one ordered pile, drawn from its end. */
module Shoe {
  import opened Cards

  /** The pile after the innermost construction loop pushes, onto acc, the cards of rank
      number j in suits k, k + 1, ..., Spades. */
  function AddSuits(acc: seq<Card>, j: int, k: int): seq<Card>
    requires 1 <= j <= 13 && 0 <= k <= 4
    decreases 4 - k
  {
    if k == 4 then acc else AddSuits(acc + [Card(RankOf(j), SuitOf(k))], j, k + 1)
  }

  /** The pile after the middle loop pushes, onto acc, ranks j, j + 1, ..., King, each in
      all four suits. */
  function AddRanks(acc: seq<Card>, j: int): seq<Card>
    requires 1 <= j <= 14
    decreases 14 - j
  {
    if j == 14 then acc else AddRanks(AddSuits(acc, j, 0), j + 1)
  }

  /** The pile after the outer loop pushes one full deck for each of decks i, ..., n - 1. */
  function AddDecks(acc: seq<Card>, i: int, n: int): seq<Card>
    decreases n - i
  {
    if i >= n then acc else AddDecks(AddRanks(acc, 1), i + 1, n)
  }

  /** The pile the constructor builds for numDecks decks (none when numDecks <= 0). */
  function FreshShoe(numDecks: int): (s: seq<Card>)
    ensures numDecks >= 0 ==> |s| == 52 * numDecks
  {
    if numDecks >= 0 then
      AddDecksLength([], 0, numDecks);
      AddDecks([], 0, numDecks)
    else AddDecks([], 0, numDecks)
  }

  lemma {:induction false} AddSuitsCount(acc: seq<Card>, j: int, k: int, c: Card)
    requires 1 <= j <= 13 && 0 <= k <= 4
    ensures |AddSuits(acc, j, k)| == |acc| + 4 - k
    ensures multiset(AddSuits(acc, j, k))[c] == multiset(acc)[c] +
            if RankNumber(c.rank) == j && k <= SuitNumber(c.suit) then 1 else 0
    decreases 4 - k
  {
    if k < 4 {
      var d := Card(RankOf(j), SuitOf(k));
      AddSuitsCount(acc + [d], j, k + 1, c);
      RankNumberInjective(c.rank, d.rank);
      SuitNumberInjective(c.suit, d.suit);
      assert multiset(acc + [d])[c] == multiset(acc)[c] + if c == d then 1 else 0;
    }
  }

  lemma {:induction false} AddRanksCount(acc: seq<Card>, j: int, c: Card)
    requires 1 <= j <= 14
    ensures |AddRanks(acc, j)| == |acc| + 4 * (14 - j)
    ensures multiset(AddRanks(acc, j))[c] == multiset(acc)[c] +
            if j <= RankNumber(c.rank) then 1 else 0
    decreases 14 - j
  {
    if j < 14 {
      AddSuitsCount(acc, j, 0, c);
      AddRanksCount(AddSuits(acc, j, 0), j + 1, c);
    }
  }

  /** One more deck adds 52 cards. */
  lemma DeckLength(acc: seq<Card>)
    ensures |AddRanks(acc, 1)| == |acc| + 52
  {
    AddRanksCount(acc, 1, Card(Ace, Clubs));
  }

  lemma {:induction false} AddDecksLength(acc: seq<Card>, i: int, n: int)
    requires i <= n
    ensures |AddDecks(acc, i, n)| == |acc| + 52 * (n - i)
    decreases n - i
  {
    if i < n {
      var deck := AddRanks(acc, 1);
      assert |deck| == |acc| + 52 by {
        DeckLength(acc);
      }
      AddDecksLength(deck, i + 1, n);
      assert AddDecks(acc, i, n) == AddDecks(deck, i + 1, n);
    }
  }

  lemma {:induction false} AddDecksCount(acc: seq<Card>, i: int, n: int, c: Card)
    requires i <= n
    ensures multiset(AddDecks(acc, i, n))[c] == multiset(acc)[c] + (n - i)
    decreases n - i
  {
    if i < n {
      var deck := AddRanks(acc, 1);
      assert multiset(deck)[c] == multiset(acc)[c] + 1 by {
        AddRanksCount(acc, 1, c);
      }
      AddDecksCount(deck, i + 1, n, c);
      assert AddDecks(acc, i, n) == AddDecks(deck, i + 1, n);
    }
  }

  /** A shoe of n decks holds 52 * n cards, each (rank, suit) pair exactly n times; a
      non-positive deck count gives an empty shoe. */
  lemma FreshShoeCount(numDecks: int, c: Card)
    ensures numDecks >= 0 ==> |FreshShoe(numDecks)| == 52 * numDecks
    ensures numDecks >= 0 ==> multiset(FreshShoe(numDecks))[c] == numDecks
    ensures numDecks < 0 ==> FreshShoe(numDecks) == []
  {
    if numDecks >= 0 {
      AddDecksCount([], 0, numDecks, c);
    }
  }

  /** Every card of a fresh shoe occurs once per deck. */
  lemma FreshShoeHolds(numDecks: int)
    requires numDecks >= 0
    ensures forall c :: multiset(FreshShoe(numDecks))[c] == numDecks
  {
    forall c {
      FreshShoeCount(numDecks, c);
    }
  }

  /** The card a draw hands out: the one at the end of the pile. */
  function Top(s: seq<Card>): (c: Card)
    requires |s| > 0
    ensures c in s
  {
    s[|s| - 1]
  }

  /** The pile left after a draw: everything but its last card. */
  function Rest(s: seq<Card>): (r: seq<Card>)
    requires |s| > 0
    ensures |r| == |s| - 1
  {
    s[..|s| - 1]
  }

  /** A draw neither loses nor duplicates a card: the pile it leaves and the card it hands out
      make up the old pile exactly. */
  lemma DrawConserves(s: seq<Card>)
    requires |s| > 0
    ensures |Rest(s)| == |s| - 1
    ensures Rest(s) + [Top(s)] == s
    ensures multiset(Rest(s)) + multiset{Top(s)} == multiset(s)
  {
    assert Rest(s) + [Top(s)] == s;
  }

  /** The first k cards that k successive draws hand out, in the order they come. */
  function Drawn(s: seq<Card>, k: nat): (d: seq<Card>)
    requires k <= |s|
    decreases k
  {
    if k == 0 then [] else [Top(s)] + Drawn(Rest(s), k - 1)
  }

  /** k draws leave the first |s| - k cards and hand out the other k, nothing more or less. */
  lemma DrawnConserves(s: seq<Card>, k: nat)
    requires k <= |s|
    ensures |Drawn(s, k)| == k
    ensures multiset(Drawn(s, k)) + multiset(s[..|s| - k]) == multiset(s)
  {
    DrawnIsTop(s, k);
    assert s == s[..|s| - k] + s[|s| - k..];
  }

  /** The cards k draws hand out are the top k cards of the pile. */
  lemma {:induction false} DrawnIsTop(s: seq<Card>, k: nat)
    requires k <= |s|
    ensures |Drawn(s, k)| == k
    ensures multiset(Drawn(s, k)) == multiset(s[|s| - k..])
    decreases k
  {
    if k > 0 {
      var t, r := Top(s), Rest(s);
      DrawnIsTop(r, k - 1);
      var below := r[|r| - (k - 1)..];
      assert s[|s| - k..] == below + [t];
      assert Drawn(s, k) == [t] + Drawn(r, k - 1);
      assert multiset(Drawn(s, k)) == multiset([t]) + multiset(below);
      assert multiset(s[|s| - k..]) == multiset(below) + multiset([t]);
    } else {
      assert s[|s|..] == [];
    }
  }

  /** Exchange two positions of the pile. */
  function Swap(s: seq<Card>, i: nat, j: nat): (r: seq<Card>)
    requires i < |s| && j < |s|
    ensures |r| == |s| && r[i] == s[j] && r[j] == s[i]
    ensures forall k :: 0 <= k < |s| && k != i && k != j ==> r[k] == s[k]
    ensures multiset(r) == multiset(s)
  {
    s[i := s[j]][j := s[i]]
  }

  /** The random shuffle from position i on: position i is exchanged with position
      rolls[i - 1] % (i + 1), the draw of a random generator, then the next position.
      Whatever the draws, the result is a permutation of the pile. */
  function ShuffleFrom(s: seq<Card>, rolls: seq<nat>, i: nat): (r: seq<Card>)
    requires 1 <= i && |s| <= |rolls| + 1
    ensures |r| == |s| && multiset(r) == multiset(s)
    decreases |s| - i
  {
    if i >= |s| then s
    else ShuffleFrom(Swap(s, i, rolls[i - 1] % (i + 1)), rolls, i + 1)
  }

  /** The shoe object; `cards` is the pile, its end being the top. */
  class Deck {
    var cards: seq<Card>

    /** Pushes numDecks standard decks, rank-major and suit-minor within each deck. */
    constructor (numDecks: int)
      ensures cards == FreshShoe(numDecks)
    {
      cards := [];
      new;
      var i := 0;
      while i < numDecks
        invariant 0 <= i && (numDecks >= 0 ==> i <= numDecks)
        invariant AddDecks(cards, i, numDecks) == FreshShoe(numDecks)
      {
        assert AddDecks(cards, i, numDecks) == AddDecks(AddRanks(cards, 1), i + 1, numDecks);
        PushDeck();
        i := i + 1;
      }
    }

    /** The constructor's middle loop: one deck, rank by rank. */
    method PushDeck()
      modifies this
      ensures cards == AddRanks(old(cards), 1)
    {
      ghost var start := cards;
      var j := 1;
      while j <= 13
        invariant 1 <= j <= 14
        invariant AddRanks(cards, j) == AddRanks(start, 1)
      {
        ghost var before := cards;
        PushRank(j);
        assert AddRanks(before, j) == AddRanks(cards, j + 1);
        j := j + 1;
      }
    }

    /** The constructor's inner loop: the given rank in the four suits. */
    method PushRank(j: int)
      requires 1 <= j <= 13
      modifies this
      ensures cards == AddSuits(old(cards), j, 0)
    {
      var k := 0;
      while k <= 3
        invariant 0 <= k <= 4
        invariant AddSuits(cards, j, k) == AddSuits(old(cards), j, 0)
      {
        assert AddSuits(cards, j, k) == AddSuits(cards + [Card(RankOf(j), SuitOf(k))], j, k + 1);
        cards := cards + [Card(RankOf(j), SuitOf(k))];
        k := k + 1;
      }
    }

    /** Shuffles in place: every position from the second on is exchanged with a position
        at or below it chosen by the next random draw. */
    method Shuffle(rolls: seq<nat>)
      requires |cards| <= |rolls| + 1
      modifies this
      ensures cards == ShuffleFrom(old(cards), rolls, 1)
      ensures multiset(cards) == multiset(old(cards))
    {
      var i := 1;
      while i < |cards|
        invariant 1 <= i && |cards| == |old(cards)|
        invariant ShuffleFrom(cards, rolls, i) == ShuffleFrom(old(cards), rolls, 1)
      {
        var j := rolls[i - 1] % (i + 1);
        if i != j {
          cards := Swap(cards, i, j);
        } else {
          assert Swap(cards, i, j) == cards;
        }
        i := i + 1;
      }
    }

    /** Removes the last card of the pile and returns it. */
    method Draw() returns (c: Card)
      requires |cards| > 0
      modifies this
      ensures c == Top(old(cards)) && cards == Rest(old(cards))
      ensures multiset(cards) + multiset{c} == multiset(old(cards))
    {
      DrawConserves(cards);
      c := cards[|cards| - 1];
      cards := cards[..|cards| - 1];
    }
  }
}
