/** Integers as text, as an f-string writes them and `int` reads them back. */
module Decimal {
  import opened Values

  function Digit(n: nat): char
    requires n < 10
  {
    '0' + n as char
  }

  predicate IsDigit(c: char) {
    '0' <= c <= '9'
  }

  function Natural(n: nat): (s: string)
    ensures s != [] && forall i | 0 <= i < |s| :: IsDigit(s[i])
  {
    if n < 10 then [Digit(n)] else Natural(n / 10) + [Digit(n % 10)]
  }

  function Text(n: int): string {
    if n < 0 then ['-'] + Natural(-n) else Natural(n)
  }

  function ReadNatural(s: string): Option<int> {
    if s == [] then None
    else
      var last := s[|s| - 1];
      if !IsDigit(last) then None
      else if |s| == 1 then Some((last - '0') as int)
      else
        var front := ReadNatural(s[..|s| - 1]);
        if front == None then None else Some(front.value * 10 + (last - '0') as int)
  }

  /** The part of `int(s)` that reads what `Text` can write; everything else is a ValueError here. */
  function Read(s: string): Option<int> {
    if s != [] && s[0] == '-' then
      match ReadNatural(s[1..])
      case None => None
      case Some(n) => Some(-n)
    else ReadNatural(s)
  }

  lemma {:induction false} NaturalRoundTrip(n: nat)
    ensures ReadNatural(Natural(n)) == Some(n)
  {
    if n < 10 {
    } else {
      NaturalRoundTrip(n / 10);
      var s := Natural(n);
      assert s[..|s| - 1] == Natural(n / 10);
    }
  }

  lemma RoundTrip(n: int)
    ensures Read(Text(n)) == Some(n)
  {
    if n < 0 {
      NaturalRoundTrip(-n);
      var s := Natural(-n);
      assert Text(n) == ['-'] + s && (['-'] + s)[1..] == s;
    } else {
      NaturalRoundTrip(n);
      var s := Natural(n);
      assert Text(n) == s && s != [] && IsDigit(s[0]);
    }
  }

  lemma Injective(m: int, n: int)
    requires Text(m) == Text(n)
    ensures m == n
  {
    RoundTrip(m);
    RoundTrip(n);
  }

  /** A text that contains a character other than digits and minus is not a number. */
  lemma {:induction false} ForeignNatural(s: string, i: nat)
    requires i < |s| && !IsDigit(s[i])
    ensures ReadNatural(s) == None
  {
    if i >= |s| - 1 {
    } else {
      ForeignNatural(s[..|s| - 1], i);
    }
  }

  lemma ForeignText(s: string, i: nat)
    requires i < |s| && !IsDigit(s[i]) && s[i] != '-'
    ensures Read(s) == None
  {
    if s[0] == '-' {
      ForeignNatural(s[1..], i - 1);
    } else {
      ForeignNatural(s, i);
    }
  }

  /** Decimal notation: one digit below ten, and one more digit for every factor of ten. */
  lemma Notation(n: nat, d: nat)
    requires d < 10
    ensures Text(d) == ['0' + d as char]
    ensures 0 < n ==> Text(10 * n + d) == Text(n) + ['0' + d as char] && Text(0 - n) == ['-'] + Text(n)
  {
    if 0 < n {
      assert (10 * n + d) / 10 == n && (10 * n + d) % 10 == d;
    }
  }
}
