/** Bet input: the format check, the numeric value and the limits a bet must respect. */
module Bets {

  /** The smallest bet the table accepts. */
  const MinBet: real := 10.0

  predicate IsDigit(c: char)
  {
    '0' <= c <= '9'
  }

  predicate AllDigits(s: string)
  {
    forall i :: 0 <= i < |s| ==> IsDigit(s[i])
  }

  /** The position of the first point, or the length when there is none. */
  function PointIndex(s: string): (k: nat)
    ensures k <= |s|
    ensures k < |s| ==> s[k] == '.'
    ensures forall i :: 0 <= i < k ==> s[i] != '.'
    decreases |s|
  {
    if s == [] then 0 else if s[0] == '.' then 0 else 1 + PointIndex(s[1..])
  }

  /** The language of the pattern ^\d+(\.\d+)?$ : one or more digits up to the first point
      (or the end), and when there is a point, one or more digits after it and nothing else. */
  ghost predicate MatchesPattern(s: string)
    ensures MatchesPattern(s) ==> s != [] && IsDigit(s[0]) && IsDigit(s[|s| - 1])
  {
    var k := PointIndex(s);
    0 < k && AllDigits(s[..k]) && (k == |s| || (k + 1 < |s| && AllDigits(s[k + 1..])))
  }

  /** States of the recognizer: nothing read, in the whole part, just after the point, in
      the fraction, and the dead state. */
  datatype Scan = Start | Whole | Point | Fraction | Dead

  function NextScan(q: Scan, c: char): Scan
  {
    match q
    case Start => if IsDigit(c) then Whole else Dead
    case Whole => if IsDigit(c) then Whole else if c == '.' then Point else Dead
    case Point => if IsDigit(c) then Fraction else Dead
    case Fraction => if IsDigit(c) then Fraction else Dead
    case Dead => Dead
  }

  function Run(q: Scan, s: string): Scan
    decreases |s|
  {
    if s == [] then q else Run(NextScan(q, s[0]), s[1..])
  }

  /** The hand-rolled recognizer for the bet pattern: accepting states are Whole and Fraction.
      It accepts exactly the strings of the pattern. */
  predicate IsValidBet(s: string)
    ensures IsValidBet(s) <==> MatchesPattern(s)
  {
    RunStartIsPattern(s);
    var q := Run(Start, s);
    q == Whole || q == Fraction
  }

  lemma AllDigitsCons(s: string)
    requires s != []
    ensures AllDigits(s) <==> IsDigit(s[0]) && AllDigits(s[1..])
  {
    assert forall i :: 0 < i < |s| ==> s[i] == s[1..][i - 1];
  }

  /** Splitting off the first character shifts the first point one place to the left. */
  lemma PointIndexCons(s: string)
    requires s != [] && s[0] != '.'
    ensures PointIndex(s) == 1 + PointIndex(s[1..])
    ensures var k := PointIndex(s);
      s[..k] == [s[0]] + s[1..][..k - 1] && (k < |s| ==> s[k + 1..] == s[1..][k..])
  {
  }

  lemma {:induction false} RunDead(s: string)
    ensures Run(Dead, s) == Dead
    decreases |s|
  {
    if s != [] {
      RunDead(s[1..]);
    }
  }

  lemma {:induction false} RunFraction(s: string)
    ensures Run(Fraction, s) == Fraction <==> AllDigits(s)
    ensures Run(Fraction, s) == Fraction || Run(Fraction, s) == Dead
    decreases |s|
  {
    if s != [] {
      RunFraction(s[1..]);
      RunDead(s[1..]);
      AllDigitsCons(s);
    }
  }

  lemma RunPoint(s: string)
    ensures Run(Point, s) == Fraction <==> |s| > 0 && AllDigits(s)
    ensures Run(Point, s) != Whole
  {
    if s != [] {
      RunFraction(s[1..]);
      RunDead(s[1..]);
      AllDigitsCons(s);
    }
  }

  /** Once the whole part has begun: the recognizer stays in Whole exactly on more digits,
      and reaches Fraction exactly on digits, a point, and one or more digits. */
  lemma {:induction false} RunWhole(s: string)
    ensures Run(Whole, s) == Whole <==> AllDigits(s)
    ensures var k := PointIndex(s);
      Run(Whole, s) == Fraction <==> AllDigits(s[..k]) && k + 1 < |s| && AllDigits(s[k + 1..])
    decreases |s|
  {
    if s != [] {
      var t := s[1..];
      AllDigitsCons(s);
      RunDead(t);
      if s[0] == '.' {
        RunPoint(t);
        assert s[..0] == [] && s[1..] == t;
      } else {
        PointIndexCons(s);
        var k := PointIndex(s);
        AllDigitsCons(s[..k]);
        assert s[..k][1..] == t[..k - 1];
        if IsDigit(s[0]) {
          RunWhole(t);
        }
      }
    }
  }

  /** From the start state the recognizer ends in an accepting state exactly on the strings
      of the pattern. */
  lemma RunStartIsPattern(s: string)
    ensures var q := Run(Start, s); q == Whole || q == Fraction <==> MatchesPattern(s)
  {
    if s != [] {
      var t := s[1..];
      RunDead(t);
      if s[0] != '.' {
        PointIndexCons(s);
        var k := PointIndex(s);
        AllDigitsCons(s[..k]);
        assert s[..k][1..] == t[..k - 1];
        if IsDigit(s[0]) {
          RunWhole(t);
          if k == |s| {
            assert t[..k - 1] == t;
          }
          if PointIndex(t) == |t| {
            assert t[..k - 1] == t;
          }
        }
      }
    }
  }

  /** Signs, letters, the empty string and a trailing point are all rejected. */
  lemma RejectedExamples()
    ensures !IsValidBet("-5") && !IsValidBet("abc") && !IsValidBet("") && !IsValidBet("10.")
    ensures !IsValidBet(".5") && !IsValidBet("1.2.3")
    ensures IsValidBet("10") && IsValidBet("12.50") && IsValidBet("0")
  {
  }

  /** The number a string of digits denotes. */
  function DigitsValue(d: string): nat
    requires AllDigits(d)
    decreases |d|
  {
    if d == [] then 0 else 10 * DigitsValue(d[..|d| - 1]) + (d[|d| - 1] as int - '0' as int)
  }

  function Pow10(n: nat): (p: nat)
    ensures p >= 1
  {
    if n == 0 then 1 else 10 * Pow10(n - 1)
  }

  /** A digit string of length n denotes a number below 10^n. */
  lemma {:induction false} DigitsBelowPow10(d: string)
    requires AllDigits(d)
    ensures DigitsValue(d) < Pow10(|d|)
    decreases |d|
  {
    if d != [] {
      DigitsBelowPow10(d[..|d| - 1]);
    }
  }

  /** The number the digits before the point denote. */
  function WholePart(s: string): nat
    requires IsValidBet(s)
  {
    DigitsValue(s[..PointIndex(s)])
  }

  /** The value of a well-formed bet, as an exact decimal: the whole part plus the fraction
      digits over the matching power of ten. */
  function ParseBet(s: string): (r: real)
    requires IsValidBet(s)
    ensures r >= 0.0
  {
    var k := PointIndex(s);
    if k == |s| then WholePart(s) as real
    else Decimal(WholePart(s), DigitsValue(s[k + 1..]), Pow10(|s| - k - 1))
  }

  /** The number whole + num / den. */
  function Decimal(whole: nat, num: nat, den: nat): real
    requires den > 0
  {
    whole as real + num as real / den as real
  }

  /** A proper fraction of naturals lies in [0, 1). */
  lemma ProperFraction(num: nat, den: nat)
    requires num < den
    ensures 0.0 <= num as real / den as real < 1.0
  {
  }

  /** A well-formed bet lies between its whole part and the next integer, and a bet without
      a point is exactly its digits' value. */
  lemma ParseBetBounds(s: string)
    requires IsValidBet(s)
    ensures WholePart(s) as real <= ParseBet(s) < WholePart(s) as real + 1.0
    ensures AllDigits(s) ==> ParseBet(s) == DigitsValue(s) as real
  {
    var k := PointIndex(s);
    if k < |s| {
      var f := s[k + 1..];
      DigitsBelowPow10(f);
      ProperFraction(DigitsValue(f), Pow10(|f|));
      assert !AllDigits(s) by {
        assert !IsDigit(s[k]);
      }
    } else {
      assert s[..k] == s;
    }
  }

  /** Whether a bet is accepted, and if not, which check turned it away. */
  datatype BetCheck = Accepted(bet: real) | InvalidFormat | NotEnoughMoney | BelowMinimum

  /** The checks a bet goes through, in order: the format, then the bankroll, then the minimum. */
  function CheckBet(input: string, money: real): (r: BetCheck)
    ensures r.InvalidFormat? <==> !MatchesPattern(input)
    ensures r.Accepted? ==> IsValidBet(input) && MatchesPattern(input) && r.bet == ParseBet(input) && MinBet <= r.bet <= money
    ensures r.NotEnoughMoney? ==> IsValidBet(input) && ParseBet(input) > money
    ensures r.BelowMinimum? ==> IsValidBet(input) && ParseBet(input) <= money && ParseBet(input) < MinBet
    ensures IsValidBet(input) && MinBet <= ParseBet(input) <= money ==> r.Accepted?
  {
    if !IsValidBet(input) then InvalidFormat
    else
      var bet := ParseBet(input);
      if bet > money then NotEnoughMoney
      else if bet < MinBet then BelowMinimum
      else Accepted(bet)
  }
}
