/** The card number check: the loop against the right-to-left rule of Annex B of ISO/IEC 7812-1, and
    which mistakes it catches. */
module Luhn {

  type DigitChar = c: char | '0' <= c <= '9' witness '0'

  function ValueOf(c: DigitChar): nat {
    (c as int) - ('0' as int)
  }

  /** A doubled digit counts as the sum of the digits of its double. */
  function Weight(v: nat, doubled: bool): nat
    requires v < 10
  {
    if doubled then 2 * v / 10 + 2 * v % 10 else v
  }

  /** From the right, every second digit is doubled; `doubled` says whether the last one is. */
  function Sum(s: seq<DigitChar>, doubled: bool): nat {
    if s == [] then 0 else Weight(ValueOf(s[|s| - 1]), doubled) + Sum(s[..|s| - 1], !doubled)
  }

  /** Accepted: the sum is a multiple of ten, and the digits are not all zero. */
  predicate Accepted(s: seq<DigitChar>) {
    Sum(s, false) % 10 == 0 && exists i :: 0 <= i < |s| && s[i] != '0'
  }

  method DigitsOnly(text: string) returns (digits: seq<DigitChar>)
    ensures digits == Kept(text)
  {
    digits := [];
    for n := 0 to |text|
      invariant digits == Kept(text[..n])
    {
      assert text[..n + 1][..n] == text[..n];
      if '0' <= text[n] <= '9' {
        digits := digits + [text[n]];
      }
    }
    assert text[..|text|] == text;
  }

  function Kept(text: string): seq<DigitChar> {
    if text == "" then []
    else
      var c := text[|text| - 1];
      Kept(text[..|text| - 1]) + if '0' <= c <= '9' then [c] else []
  }

  /** The digits of two texts come one after the other, and one character counts if it is one of the ten
      ASCII digits. */
  lemma {:induction false} KeptAppends(a: string, b: string)
    ensures Kept(a + b) == Kept(a) + Kept(b)
    ensures |b| == 1 ==> Kept(b) == if 48 <= b[0] as int <= 57 then [b[0]] else []
  {
    if b == "" {
      assert a + b == a;
    } else {
      assert (a + b)[..|a + b| - 1] == a + b[..|b| - 1];
      KeptAppends(a, b[..|b| - 1]);
    }
  }

  /** What each digit counts when it is doubled. */
  lemma DoubledDigits(v: nat)
    requires v < 10
    ensures Weight(v, true) == [0, 2, 4, 6, 8, 1, 3, 5, 7, 9][v] && Weight(v, false) == v
  {
  }

  /** The last digit counts as it is, the one before it doubled, and so on in pairs. */
  lemma SumOfPair(s: seq<DigitChar>, tens: DigitChar, ones: DigitChar)
    ensures Sum(s + [tens, ones], false)
            == Sum(s, false) + [0, 2, 4, 6, 8, 1, 3, 5, 7, 9][ValueOf(tens)] + ValueOf(ones)
  {
    assert (s + [tens, ones])[..|s| + 1] == s + [tens] && (s + [tens])[..|s|] == s;
    DoubledDigits(ValueOf(tens));
    DoubledDigits(ValueOf(ones));
  }

  method PassesLuhn(digits: seq<DigitChar>) returns (ok: bool)
    ensures ok <==> Accepted(digits)
  {
    var sum, double := 0, false;
    var i := |digits|;
    assert digits[..i] == digits;
    while i > 0
      invariant 0 <= i <= |digits|
      invariant sum + Sum(digits[..i], double) == Sum(digits, false)
    {
      i := i - 1;
      var value := ValueOf(digits[i]);
      WeightIs(value, double);
      SumLast(digits, i, double);
      if double {
        value := value * 2;
        if value > 9 {
          value := value - 9;
        }
      }
      sum := sum + value;
      double := !double;
    }
    assert sum == Sum(digits, false);
    ZeroIff(digits, false);
    ok := sum > 0 && sum % 10 == 0;
  }

  lemma SumLast(s: seq<DigitChar>, i: nat, doubled: bool)
    requires i < |s|
    ensures Sum(s[..i + 1], doubled) == Weight(ValueOf(s[i]), doubled) + Sum(s[..i], !doubled)
  {
    assert s[..i + 1][..i] == s[..i];
  }

  /** A candidate of 13 to 19 digits, whatever separates them. */
  method ValidateCreditCard(text: string) returns (ok: bool)
    ensures ok <==> 13 <= |Kept(text)| <= 19 && Accepted(Kept(text))
  {
    var digits := DigitsOnly(text);
    if |digits| < 13 || |digits| > 19 {
      return false;
    }
    ok := PassesLuhn(digits);
  }

  /** The sum is zero exactly for a string of zeros. */
  lemma {:induction false} ZeroIff(s: seq<DigitChar>, doubled: bool)
    ensures Sum(s, doubled) == 0 <==> forall i | 0 <= i < |s| :: s[i] == '0'
  {
    if s != [] {
      ZeroIff(s[..|s| - 1], !doubled);
      WeightZero(ValueOf(s[|s| - 1]), doubled);
    }
  }

  lemma WeightZero(v: nat, doubled: bool)
    requires v < 10
    ensures Weight(v, doubled) == 0 <==> v == 0
  {
  }

  lemma WeightInjective(u: nat, v: nat, doubled: bool)
    requires u < 10 && v < 10 && u != v
    ensures Weight(u, doubled) != Weight(v, doubled) && Weight(u, doubled) < 10 && Weight(v, doubled) < 10
  {
  }

  /** Whether position i counts double when the last position does not. */
  predicate DoubledAt(s: seq<DigitChar>, i: nat) {
    (|s| - 1 - i) % 2 == 1
  }

  /** Replacing one digit changes the sum by the change of its own weight. */
  lemma {:induction false} SumReplaced(s: seq<DigitChar>, i: nat, c: DigitChar, doubled: bool)
    requires i < |s|
    ensures
      var here := DoubledAt(s, i) != doubled;
      Sum(s[i := c], doubled) + Weight(ValueOf(s[i]), here) == Sum(s, doubled) + Weight(ValueOf(c), here)
    decreases |s|
  {
    var n := |s| - 1;
    if i == n {
      assert s[i := c][..n] == s[..n];
    } else {
      SumReplaced(s[..n], i, c, !doubled);
      assert s[i := c][..n] == s[..n][i := c];
      assert DoubledAt(s, i) != DoubledAt(s[..n], i);
    }
  }

  /** An accepted number is rejected after any change of one digit. */
  lemma OneDigitDetected(s: seq<DigitChar>, i: nat, c: DigitChar)
    requires Accepted(s) && i < |s| && c != s[i]
    ensures !Accepted(s[i := c])
  {
    var here := DoubledAt(s, i);
    SumReplaced(s, i, c, false);
    WeightInjective(ValueOf(s[i]), ValueOf(c), here);
    SumMoves(Sum(s, false), Sum(s[i := c], false), Weight(ValueOf(s[i]), here), Weight(ValueOf(c), here));
  }

  lemma SumMoves(a: nat, b: nat, was: nat, now: nat)
    requires b + was == a + now && a % 10 == 0 && was < 10 && now < 10 && was != now
    ensures b % 10 != 0
  {
    Shifted(a, b, was, now);
    SameRemainder(was, now);
  }

  function Swapped(s: seq<DigitChar>, i: nat): seq<DigitChar>
    requires i + 1 < |s|
  {
    s[i := s[i + 1]][i + 1 := s[i]]
  }

  /** What doubling adds to a digit. */
  function Extra(v: nat): int {
    if v < 5 then v else v - 9
  }

  lemma WeightIs(v: nat, doubled: bool)
    requires v < 10
    ensures Weight(v, doubled) == v + if doubled then Extra(v) else 0
  {
  }

  lemma SameRemainder(x: int, y: int)
    requires -10 < x - y < 10
    ensures x % 10 == y % 10 <==> x == y
  {
  }

  /** Swapping neighbours keeps the weights apart except for 0 and 9. */
  lemma SwapWeights(u: nat, v: nat, doubled: bool)
    requires u < 10 && v < 10
    ensures (Weight(u, doubled) + Weight(v, !doubled)) % 10 == (Weight(v, doubled) + Weight(u, !doubled)) % 10 <==>
            u == v || (u == 0 && v == 9) || (u == 9 && v == 0)
  {
    WeightIs(u, doubled);
    WeightIs(u, !doubled);
    WeightIs(v, doubled);
    WeightIs(v, !doubled);
    SameRemainder(Weight(u, doubled) + Weight(v, !doubled), Weight(v, doubled) + Weight(u, !doubled));
  }

  lemma Shifted(a: nat, b: nat, was: nat, now: nat)
    requires b + was == a + now && a % 10 == 0
    ensures b % 10 == 0 <==> was % 10 == now % 10
  {
  }

  lemma SwapSum(s: seq<DigitChar>, i: nat)
    requires i + 1 < |s|
    ensures
      var u, v, here := ValueOf(s[i]), ValueOf(s[i + 1]), DoubledAt(s, i);
      Sum(Swapped(s, i), false) + (Weight(u, here) + Weight(v, !here))
      == Sum(s, false) + (Weight(v, here) + Weight(u, !here))
  {
    var first := s[i := s[i + 1]];
    SumReplaced(s, i, s[i + 1], false);
    SwapSecond(s, i, first);
  }

  lemma SwapSecond(s: seq<DigitChar>, i: nat, first: seq<DigitChar>)
    requires i + 1 < |s| && first == s[i := s[i + 1]]
    ensures
      var u, v, here := ValueOf(s[i]), ValueOf(s[i + 1]), DoubledAt(s, i);
      Sum(Swapped(s, i), false) + Weight(v, !here) == Sum(first, false) + Weight(u, !here)
  {
    SumReplaced(first, i + 1, s[i], false);
    assert DoubledAt(first, i + 1) == !DoubledAt(s, i);
    assert first[i + 1] == s[i + 1] && first[i + 1 := s[i]] == Swapped(s, i);
  }

  /** An accepted number stays accepted after swapping two unequal neighbours exactly if they are 0
      and 9. */
  lemma SwapDetectedIff(s: seq<DigitChar>, i: nat)
    requires Accepted(s) && i + 1 < |s| && s[i] != s[i + 1]
    ensures Accepted(Swapped(s, i)) <==> {s[i], s[i + 1]} == {'0', '9'}
  {
    var u, v, here := ValueOf(s[i]), ValueOf(s[i + 1]), DoubledAt(s, i);
    SwapSum(s, i);
    Shifted(Sum(s, false), Sum(Swapped(s, i), false), Weight(u, here) + Weight(v, !here), Weight(v, here) + Weight(u, !here));
    SwapWeights(u, v, here);
    SwapKeepsNonZero(s, i);
    SetOfTwo(s[i], s[i + 1]);
  }

  lemma SetOfTwo(a: DigitChar, b: DigitChar)
    ensures {a, b} == {'0', '9'} <==> (a == '0' && b == '9') || (a == '9' && b == '0')
  {
    if {a, b} == {'0', '9'} {
      assert a in {'0', '9'} && b in {'0', '9'} && '0' in {a, b} && '9' in {a, b};
    }
  }

  lemma SwapKeepsNonZero(s: seq<DigitChar>, i: nat)
    requires i + 1 < |s|
    ensures (exists k :: 0 <= k < |s| && s[k] != '0') ==> exists k :: 0 <= k < |s| && Swapped(s, i)[k] != '0'
  {
    if k :| 0 <= k < |s| && s[k] != '0' {
      var there := if k == i then i + 1 else if k == i + 1 then i else k;
      assert Swapped(s, i)[there] == s[k];
    }
  }
}
