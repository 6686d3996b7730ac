/** Playing cards: rank, suit, Blackjack point value, ordering and label. */
module Cards {

  datatype Rank = Ace | Two | Three | Four | Five | Six | Seven | Eight | Nine | Ten | Jack | Queen | King
  datatype Suit = Clubs | Diamonds | Hearts | Spades
  datatype Card = Card(rank: Rank, suit: Suit)

  /** The enumerator value of a rank: Ace = 1 up to King = 13. */
  function RankNumber(r: Rank): (n: int)
    ensures 1 <= n <= 13
  {
    match r
    case Ace => 1 case Two => 2 case Three => 3 case Four => 4 case Five => 5
    case Six => 6 case Seven => 7 case Eight => 8 case Nine => 9 case Ten => 10
    case Jack => 11 case Queen => 12 case King => 13
  }

  /** The enumerator value of a suit: Clubs = 0 up to Spades = 3. */
  function SuitNumber(s: Suit): (n: int)
    ensures 0 <= n <= 3
  {
    match s
    case Clubs => 0 case Diamonds => 1 case Hearts => 2 case Spades => 3
  }

  /** The cast from an integer in the enumerator range back to a rank. */
  function RankOf(j: int): (r: Rank)
    requires 1 <= j <= 13
    ensures RankNumber(r) == j
  {
    if j == 1 then Ace else if j == 2 then Two else if j == 3 then Three
    else if j == 4 then Four else if j == 5 then Five else if j == 6 then Six
    else if j == 7 then Seven else if j == 8 then Eight else if j == 9 then Nine
    else if j == 10 then Ten else if j == 11 then Jack else if j == 12 then Queen
    else King
  }

  /** The cast from an integer in the enumerator range back to a suit. */
  function SuitOf(k: int): (s: Suit)
    requires 0 <= k <= 3
    ensures SuitNumber(s) == k
  {
    if k == 0 then Clubs else if k == 1 then Diamonds else if k == 2 then Hearts else Spades
  }

  /** The casts and the enumerator values are inverse in the other direction too. */
  lemma RankNumberInjective(r: Rank, q: Rank)
    ensures RankNumber(r) == RankNumber(q) <==> r == q
  {
  }

  lemma SuitNumberInjective(s: Suit, t: Suit)
    ensures SuitNumber(s) == SuitNumber(t) <==> s == t
  {
  }

  /** Point value: Ace counts 1, Jack, Queen and King count 10, the rest their pips. */
  function Value(c: Card): (v: int)
    ensures 1 <= v <= 10
    ensures v == 1 <==> c.rank == Ace
    ensures v == 10 <==> c.rank in {Ten, Jack, Queen, King}
    ensures 2 <= RankNumber(c.rank) <= 10 ==> v == RankNumber(c.rank)
  {
    if 11 <= RankNumber(c.rank) <= 13 then 10 else RankNumber(c.rank)
  }

  /** The card comparison used for ordering: by rank only, the suit never breaks a tie. */
  predicate Less(a: Card, b: Card)
    ensures Less(a, b) ==> a.rank != b.rank && Value(a) <= Value(b)
  {
    RankNumber(a.rank) < RankNumber(b.rank)
  }

  /** Less is a strict weak order whose incomparable cards are exactly those of equal rank. */
  lemma LessIsStrictWeakOrder(a: Card, b: Card, c: Card)
    ensures !Less(a, a)
    ensures Less(a, b) ==> !Less(b, a)
    ensures Less(a, b) && Less(b, c) ==> Less(a, c)
    ensures !Less(a, b) && !Less(b, a) <==> a.rank == b.rank
  {
    RankNumberInjective(a.rank, b.rank);
  }

  /** Ordering by rank never contradicts ordering by value. */
  lemma LessAgreesWithValue(a: Card, b: Card)
    ensures Less(a, b) ==> Value(a) <= Value(b)
    ensures Value(a) < Value(b) ==> Less(a, b)
  {
  }

  function RankLabel(r: Rank): (s: string)
    ensures 1 <= |s| <= 2
  {
    match r
    case Ace => "A" case Two => "2" case Three => "3" case Four => "4" case Five => "5"
    case Six => "6" case Seven => "7" case Eight => "8" case Nine => "9" case Ten => "10"
    case Jack => "J" case Queen => "Q" case King => "K"
  }

  function SuitLabel(s: Suit): (t: string)
    ensures |t| == 2 && t[0] == '-'
  {
    match s
    case Clubs => "-C" case Diamonds => "-D" case Hearts => "-H" case Spades => "-S"
  }

  /** The short label of a card: rank symbol followed by "-" and the suit letter. */
  function Label(c: Card): (s: string)
    ensures 3 <= |s| <= 4
    ensures s[|s| - 2] == '-'
  {
    RankLabel(c.rank) + SuitLabel(c.suit)
  }

  /** Different cards have different labels, so a label names exactly one card. */
  lemma LabelInjective(a: Card, b: Card)
    ensures Label(a) == Label(b) <==> a == b
  {
    if Label(a) == Label(b) {
      var la, lb := Label(a), Label(b);
      assert SuitLabel(a.suit) == la[|la| - 2..];
      assert SuitLabel(b.suit) == lb[|lb| - 2..];
      assert RankLabel(a.rank) == la[..|la| - 2];
      assert RankLabel(b.rank) == lb[..|lb| - 2];
    }
  }
}
