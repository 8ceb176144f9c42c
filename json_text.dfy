/** Invariant-culture decimal rendering of integers, as `Int32.ToString` and
    `Int64.ToString(CultureInfo.InvariantCulture)` produce it, with the parser
    that inverts it. */
module JsonText {
  import opened Wrappers

  predicate IsDigit(c: char) {
    '0' <= c <= '9'
  }

  function DigitChar(d: nat): (c: char)
    requires d < 10
    ensures IsDigit(c)
  {
    ['0', '1', '2', '3', '4', '5', '6', '7', '8', '9'][d]
  }

  function DigitValue(c: char): (d: nat)
    requires IsDigit(c)
    ensures d < 10 && DigitChar(d) == c
  {
    (c as int - '0' as int) as nat
  }

  /** Digits of `n`, most significant first, with no leading zero. */
  function Natural(n: nat): (s: string)
    ensures |s| >= 1
    ensures forall i :: 0 <= i < |s| ==> IsDigit(s[i])
    ensures |s| > 1 ==> s[0] != '0'
  {
    if n < 10 then [DigitChar(n)] else Natural(n / 10) + [DigitChar(n % 10)]
  }

  /** The invariant-culture text of an integer: a minus sign for negatives. */
  function Decimal(n: int): string {
    if n < 0 then "-" + Natural(-n) else Natural(n)
  }

  /** The value of a string of digits, `None` if any character is not a digit. */
  function ParseNatural(s: string): (r: Option<nat>)
    ensures r.Some? <==> forall i :: 0 <= i < |s| ==> IsDigit(s[i])
  {
    if |s| == 0 then Some(0)
    else if !IsDigit(s[|s| - 1]) then None
    else match ParseNatural(s[..|s| - 1])
      case None => None
      case Some(h) => Some(h * 10 + DigitValue(s[|s| - 1]))
  }

  /** The value of an optionally signed decimal text. */
  function ParseDecimal(s: string): Option<int> {
    if |s| > 0 && s[0] == '-' then
      match ParseNatural(s[1..])
      case None => None
      case Some(m) => Some(0 - m)
    else
      match ParseNatural(s)
      case None => None
      case Some(m) => Some(m as int)
  }

  /** The last digit of a number of two or more digits, and what precedes it. */
  lemma NaturalSplit(n: nat)
    requires n >= 10
    ensures var s := Natural(n);
      s[..|s| - 1] == Natural(n / 10) && s[|s| - 1] == DigitChar(n % 10)
  {
    var s := Natural(n);
    assert s == Natural(n / 10) + [DigitChar(n % 10)];
  }

  /** Parsing a string whose last character is a digit: the value of what
      precedes it, times ten, plus that digit. */
  lemma {:induction false} ParseNaturalLast(s: string, h: nat)
    requires |s| > 0 && IsDigit(s[|s| - 1]) && ParseNatural(s[..|s| - 1]) == Some(h)
    ensures ParseNatural(s) == Some(h * 10 + DigitValue(s[|s| - 1]))
  {
  }

  lemma {:induction false} NaturalRoundTrip(n: nat)
    ensures ParseNatural(Natural(n)) == Some(n)
  {
    if n >= 10 {
      var s := Natural(n);
      NaturalSplit(n);
      NaturalRoundTrip(n / 10);
      ParseNaturalLast(s, n / 10);
      assert DigitValue(s[|s| - 1]) == n % 10;
      assert n / 10 * 10 + n % 10 == n;
    }
  }

  /** Parsing the rendered text gives back the number. */
  lemma DecimalRoundTrip(n: int)
    ensures ParseDecimal(Decimal(n)) == Some(n)
  {
    if n < 0 {
      var digits := Natural(-n);
      var s := "-" + digits;
      assert Decimal(n) == s;
      assert s[0] == '-' && s[1..] == digits;
      NaturalRoundTrip(-n);
      assert ParseNatural(s[1..]) == Some(-n);
    } else {
      var s := Natural(n);
      assert Decimal(n) == s;
      assert IsDigit(s[0]);
      NaturalRoundTrip(n);
    }
  }

  /** The rendering starts with a minus sign exactly for negative numbers, and
      two numbers never share a rendering. */
  lemma DecimalInjective(m: int, n: int)
    ensures (Decimal(n)[0] == '-') <==> n < 0
    ensures Decimal(m) == Decimal(n) ==> m == n
  {
    DecimalRoundTrip(m);
    DecimalRoundTrip(n);
  }
}
