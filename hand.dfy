/** A hand of cards and its Blackjack valuation. */
module Hands {
  import opened Cards
  import opened Shoe

  /** The sum of the point values, every Ace counted as 1. */
  function Sum(s: seq<Card>): (r: int)
    ensures |s| <= r <= 10 * |s|
  {
    if s == [] then 0 else Sum(s[..|s| - 1]) + Value(s[|s| - 1])
  }

  /** Whether some card is worth 1 point, that is, is an Ace. */
  predicate HasAce(s: seq<Card>)
    ensures HasAce(s) <==> AceCount(s) > 0
  {
    s != [] && (HasAce(s[..|s| - 1]) || Value(s[|s| - 1]) == 1)
  }

  /** The number of Aces in the hand. */
  function AceCount(s: seq<Card>): (n: int)
    ensures 0 <= n <= |s|
  {
    if s == [] then 0 else AceCount(s[..|s| - 1]) + (if s[|s| - 1].rank == Ace then 1 else 0)
  }

  /** The hand's total: the raw sum, plus 10 when there is an Ace and that stays within 21. */
  function Total(s: seq<Card>): (t: int)
    ensures Sum(s) <= t <= Sum(s) + 10
    ensures t > 21 ==> t == Sum(s)
  {
    if HasAce(s) && Sum(s) + 10 <= 21 then Sum(s) + 10 else Sum(s)
  }

  /** A natural: exactly two cards totalling 21. */
  predicate IsBlackjack(s: seq<Card>)
    ensures IsBlackjack(s) ==> |s| == 2 && HasAce(s)
  {
    |s| == 2 && Total(s) == 21
  }

  /** A bust needs a raw sum over 21, hence at least three cards. */
  predicate IsBusted(s: seq<Card>)
    ensures IsBusted(s) ==> Sum(s) > 21 && |s| >= 3
  {
    Total(s) > 21
  }

  /** The label of the first card, or the empty string for an empty hand. */
  function VisibleCard(s: seq<Card>): (shown: string)
    ensures shown == "" <==> s == []
  {
    if s != [] then Label(s[0]) else ""
  }

  /** The value of the hand when k of its Aces are counted as 11. */
  function Valuation(s: seq<Card>, k: int): int
  {
    Sum(s) + 10 * k
  }

  predicate SortedByValue(s: seq<Card>)
  {
    forall p, q :: 0 <= p < q < |s| ==> Value(s[p]) <= Value(s[q])
  }

  lemma {:induction false} SumAppend(a: seq<Card>, b: seq<Card>)
    ensures Sum(a + b) == Sum(a) + Sum(b)
    ensures AceCount(a + b) == AceCount(a) + AceCount(b)
    ensures HasAce(a + b) <==> HasAce(a) || HasAce(b)
    decreases |b|
  {
    if b == [] {
      assert a + b == a;
    } else {
      var b' := b[..|b| - 1];
      SumAppend(a, b');
      assert (a + b)[..|a + b| - 1] == a + b';
    }
  }

  /** Every card is worth at least 1 and at most 10, and an Ace exactly 1, so the raw sum is
      at least the number of cards and twice the non-Aces plus the Aces; HasAce counts the Aces. */
  lemma {:induction false} SumBounds(s: seq<Card>)
    ensures |s| <= Sum(s) <= 10 * |s|
    ensures 0 <= AceCount(s) <= |s|
    ensures Sum(s) >= 2 * |s| - AceCount(s)
    ensures HasAce(s) <==> AceCount(s) > 0
    decreases |s|
  {
    if s != [] {
      SumBounds(s[..|s| - 1]);
    }
  }

  /** The total is the best value the hand can take: some number of Aces counted as 11 (none
      or one), no other choice of Aces as 11 gives a larger value within 21, and a total over
      21 means every choice busts. */
  lemma TotalIsBest(s: seq<Card>)
    ensures Total(s) == Valuation(s, 0) || (AceCount(s) >= 1 && Total(s) == Valuation(s, 1))
    ensures forall k :: 0 <= k <= AceCount(s) && Valuation(s, k) <= 21 ==> Valuation(s, k) <= Total(s)
    ensures Total(s) > 21 ==> forall k :: 0 <= k <= AceCount(s) ==> Valuation(s, k) > 21
  {
    SumBounds(s);
  }

  /** The soft-Ace rule: the total is the raw sum or the raw sum plus 10, the latter exactly
      when there is an Ace and the promoted total is within 21; a total over 21 is the raw sum. */
  lemma TotalSoftAce(s: seq<Card>)
    ensures Total(s) == Sum(s) || Total(s) == Sum(s) + 10
    ensures Total(s) == Sum(s) + 10 <==> HasAce(s) && Sum(s) + 10 <= 21
    ensures Total(s) > 21 ==> Total(s) == Sum(s)
    ensures Sum(s) <= Total(s)
  {
  }

  /** The raw sum and the Ace flag of a two-card hand, spelled out. */
  lemma TwoCards(s: seq<Card>)
    requires |s| == 2
    ensures Sum(s) == Value(s[0]) + Value(s[1])
    ensures HasAce(s) <==> Value(s[0]) == 1 || Value(s[1]) == 1
  {
    var first := s[..1];
    assert first[..0] == [] && first[0] == s[0];
    assert Sum(first) == Value(s[0]) && (HasAce(first) <==> Value(s[0]) == 1);
    assert s[..|s| - 1] == first;
  }

  /** A Blackjack is exactly an Ace together with a ten-valued card; three or more cards never are. */
  lemma BlackjackIsAceAndTen(s: seq<Card>)
    ensures IsBlackjack(s) <==>
      |s| == 2 && ((s[0].rank == Ace && Value(s[1]) == 10) || (Value(s[0]) == 10 && s[1].rank == Ace))
    ensures |s| != 2 ==> !IsBlackjack(s)
  {
    if |s| == 2 {
      TwoCards(s);
    }
  }

  /** Two cards can never bust. */
  lemma TwoCardsNeverBust(s: seq<Card>)
    requires |s| == 2
    ensures !IsBusted(s)
  {
    TwoCards(s);
  }

  /** Adding a card raises the raw sum by its value, and a busted hand stays busted. */
  lemma AddCardTotal(s: seq<Card>, c: Card)
    ensures Sum(s + [c]) == Sum(s) + Value(c)
    ensures IsBusted(s) ==> IsBusted(s + [c])
    ensures Total(s + [c]) >= Sum(s) + 1
  {
    assert (s + [c])[..|s + [c]| - 1] == s;
  }

  /** Adding a card never changes the card shown face up. */
  lemma VisibleCardStable(s: seq<Card>, c: Card)
    requires s != []
    ensures VisibleCard(s + [c]) == VisibleCard(s) == Label(s[0])
  {
  }

  lemma {:induction false} SumRemove(s: seq<Card>, i: int)
    requires 0 <= i < |s|
    ensures Sum(s) == Value(s[i]) + Sum(s[..i] + s[i + 1..])
  {
    assert s == s[..i] + ([s[i]] + s[i + 1..]);
    SumAppend(s[..i], [s[i]] + s[i + 1..]);
    SumAppend([s[i]], s[i + 1..]);
    SumAppend(s[..i], s[i + 1..]);
    assert [s[i]][..0] == [];
  }

  lemma HasAceMember(s: seq<Card>)
    ensures HasAce(s) <==> exists c :: c in s && Value(c) == 1
    decreases |s|
  {
    if s != [] {
      var s' := s[..|s| - 1];
      HasAceMember(s');
      assert s == s' + [s[|s| - 1]];
      assert forall c :: c in s <==> c in s' || c == s[|s| - 1];
    }
  }

  /** Taking out the card at i takes one copy of it out of the multiset. */
  lemma MultisetRemove(s: seq<Card>, i: int)
    requires 0 <= i < |s|
    ensures multiset(s[..i] + s[i + 1..]) == multiset(s) - multiset{s[i]}
  {
    assert s == s[..i] + [s[i]] + s[i + 1..];
  }

  lemma {:induction false} SumPermutation(a: seq<Card>, b: seq<Card>)
    requires multiset(a) == multiset(b)
    ensures Sum(a) == Sum(b)
    decreases |a|
  {
    if a != [] {
      var x := a[|a| - 1];
      var a' := a[..|a| - 1];
      assert multiset(a') == multiset(a) - multiset{x} by {
        assert a == a' + [x];
      }
      assert x in b by {
        assert x in multiset(b);
      }
      var i :| 0 <= i < |b| && b[i] == x;
      MultisetRemove(b, i);
      SumPermutation(a', b[..i] + b[i + 1..]);
      SumRemove(b, i);
    } else {
      assert |b| == |multiset(b)| == 0;
    }
  }

  lemma HasAcePermutation(a: seq<Card>, b: seq<Card>)
    requires multiset(a) == multiset(b)
    ensures HasAce(a) <==> HasAce(b)
  {
    HasAceMember(a);
    HasAceMember(b);
    forall c ensures c in a <==> c in b {
      assert c in a <==> c in multiset(a);
      assert c in b <==> c in multiset(b);
    }
  }

  /** Reordering the cards changes neither the raw sum nor the Ace flag, hence not the
      total, Blackjack or bust. */
  lemma TotalPermutation(a: seq<Card>, b: seq<Card>)
    requires multiset(a) == multiset(b)
    ensures Sum(a) == Sum(b) && (HasAce(a) <==> HasAce(b)) && Total(a) == Total(b)
    ensures IsBlackjack(a) == IsBlackjack(b) && IsBusted(a) == IsBusted(b)
  {
    assert |a| == |multiset(a)| == |b|;
    SumPermutation(a, b);
    HasAcePermutation(a, b);
  }

  /** A participant's hand; `cards` is in the order the cards were added (or sorted). */
  class Hand {
    var cards: seq<Card>

    constructor ()
      ensures cards == []
    {
      cards := [];
    }

    method AddCard(c: Card)
      modifies this
      ensures cards == old(cards) + [c]
    {
      cards := cards + [c];
    }

    /** Adds the card with the given enumerator values of rank and suit. */
    method AddCardNumbers(rank: int, suit: int)
      requires 1 <= rank <= 13 && 0 <= suit <= 3
      modifies this
      ensures cards == old(cards) + [Card(RankOf(rank), SuitOf(suit))]
    {
      cards := cards + [Card(RankOf(rank), SuitOf(suit))];
    }

    /** Sums the values and notes an Ace in one pass, then promotes one Ace if that stays within 21. */
    method GetTotal() returns (total: int)
      ensures total == Total(cards)
      ensures total <= 21 ==> forall k :: 0 <= k <= AceCount(cards) && Valuation(cards, k) <= 21 ==> Valuation(cards, k) <= total
    {
      total := 0;
      var hasAce := false;
      var i := 0;
      while i < |cards|
        invariant 0 <= i <= |cards|
        invariant total == Sum(cards[..i])
        invariant hasAce == HasAce(cards[..i])
      {
        assert cards[..i + 1][..i] == cards[..i];
        total := total + Value(cards[i]);
        if Value(cards[i]) == 1 {
          hasAce := true;
        }
        i := i + 1;
      }
      assert cards[..i] == cards;
      if hasAce && total + 10 <= 21 {
        total := total + 10;
      }
      TotalIsBest(cards);
    }

    /** Sorts the cards ascending by point value (insertion sort). */
    method SortCards()
      modifies this
      ensures SortedByValue(cards)
      ensures multiset(cards) == multiset(old(cards))
      ensures Total(cards) == Total(old(cards))
    {
      var a := cards;
      var i := 0;
      while i < |a|
        invariant 0 <= i <= |a| == |old(cards)|
        invariant multiset(a) == multiset(old(cards))
        invariant forall p, q :: 0 <= p < q < i ==> Value(a[p]) <= Value(a[q])
      {
        a := InsertAt(a, i);
        i := i + 1;
      }
      TotalPermutation(a, old(cards));
      cards := a;
    }
  }

  /** Insertion in progress: s[j] is being moved down; the first i + 1 cards other than s[j]
      are in order, and s[j] is no larger than anything after it. */
  ghost predicate Inserting(s: seq<Card>, i: int, j: int)
  {
    0 <= j <= i < |s| &&
    (forall p, q :: 0 <= p < q <= i && p != j && q != j ==> Value(s[p]) <= Value(s[q])) &&
    (forall q :: j < q <= i ==> Value(s[j]) <= Value(s[q]))
  }

  lemma InsertingStep(s: seq<Card>, i: int, j: int)
    requires Inserting(s, i, j) && j > 0 && Value(s[j - 1]) > Value(s[j])
    ensures Inserting(Swap(s, j - 1, j), i, j - 1)
  {
  }

  lemma InsertingDone(s: seq<Card>, i: int, j: int)
    requires Inserting(s, i, j) && (j == 0 || Value(s[j - 1]) <= Value(s[j]))
    ensures forall p, q :: 0 <= p < q <= i ==> Value(s[p]) <= Value(s[q])
  {
  }

  /** One insertion step: moves s[i] down past the larger values before it, so that a sorted
      prefix of length i becomes a sorted prefix of length i + 1. */
  method InsertAt(s: seq<Card>, i: int) returns (a: seq<Card>)
    requires 0 <= i < |s|
    requires forall p, q :: 0 <= p < q < i ==> Value(s[p]) <= Value(s[q])
    ensures |a| == |s| && multiset(a) == multiset(s)
    ensures forall p, q :: 0 <= p < q <= i ==> Value(a[p]) <= Value(a[q])
  {
    a := s;
    var j := i;
    while j > 0 && Value(a[j - 1]) > Value(a[j])
      invariant Inserting(a, i, j) && |a| == |s|
      invariant multiset(a) == multiset(s)
    {
      InsertingStep(a, i, j);
      a, j := Swap(a, j - 1, j), j - 1;
    }
    InsertingDone(a, i, j);
  }
}
