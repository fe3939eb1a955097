/** The two numbers the parser reads, a port and a uid: digit strings of any length, bounded before they
    are converted.

    What counts as a digit is the host language's business: a table says which characters its digit test
    passes, and which of them, being decimal digits, its conversion takes. */
module BoundedNumbers {
  import opened Options

  const MAX_UID: nat := 0xFFFF_FFFF

  /** More digits than this the host language refuses to convert. */
  const INT_DIGITS: nat := 4300

  const SUPERSCRIPT_TWO := '\U{00B2}'
  const ARABIC_ZERO := '\U{0660}'

  /** `isDigit` is the digit test; `decimal` gives the value of the characters the conversion takes. */
  datatype DigitTable = DigitTable(isDigit: char -> bool, decimal: char -> Option<nat>)

  predicate IsAscii(c: char) {
    '0' <= c <= '9'
  }

  function AsciiValue(c: char): (d: nat)
    requires IsAscii(c)
    ensures d <= 9 && (d == 0 ==> c == '0')
  {
    c as int - '0' as int
  }

  /** What the tables of every version of Unicode have in common: decimal digits are digits, with the ASCII
      ones among them; a superscript two is a digit but not a decimal one. */
  ghost predicate IsUnicode(t: DigitTable) {
    && (forall c: char | t.decimal(c).Some? :: t.isDigit(c) && t.decimal(c).value <= 9)
    && (forall c: char | IsAscii(c) :: t.decimal(c) == Some(AsciiValue(c)))
    && t.isDigit(SUPERSCRIPT_TWO) && t.decimal(SUPERSCRIPT_TWO).None?
    && t.decimal(ARABIC_ZERO) == Some(0)
  }

  predicate AllDigits(t: DigitTable, s: string) {
    forall c | c in s :: t.isDigit(c)
  }

  predicate AllDecimal(t: DigitTable, s: string) {
    forall c | c in s :: t.decimal(c).Some?
  }

  predicate AllAscii(s: string) {
    forall c | c in s :: IsAscii(c)
  }

  function Value(t: DigitTable, s: string): nat
    requires AllDecimal(t, s)
  {
    if s == [] then 0 else 10 * Value(t, s[..|s| - 1]) + t.decimal(s[|s| - 1]).value
  }

  function Decimal(n: nat): (s: string)
    ensures AllAscii(s) && s != []
  {
    var last := ['0' + (n % 10) as char];
    if n < 10 then last else Decimal(n / 10) + last
  }

  function Pow10(k: nat): nat {
    if k == 0 then 1 else 10 * Pow10(k - 1)
  }

  lemma {:induction false} DecimalBounds(n: nat)
    ensures n < Pow10(|Decimal(n)|)
    ensures n > 0 ==> Pow10(|Decimal(n)| - 1) <= n
  {
    if n >= 10 {
      DecimalBounds(n / 10);
    }
  }

  lemma {:induction false} ValueAbove(t: DigitTable, s: string)
    requires AllDecimal(t, s) && s != [] && t.decimal(s[0]).value > 0
    ensures Value(t, s) >= Pow10(|s| - 1)
  {
    var front := s[..|s| - 1];
    if front == [] {
      assert Value(t, front) == 0;
    } else {
      ValueAbove(t, front);
    }
  }

  lemma {:induction false} Pow10Grows(a: nat, b: nat)
    requires a <= b
    ensures Pow10(a) <= Pow10(b)
  {
    if a < b {
      Pow10Grows(a, b - 1);
    }
  }

  lemma {:induction false} DecimalIsShort(n: nat, k: nat)
    requires k > 0 && n < Pow10(k)
    ensures |Decimal(n)| <= k
  {
    if n >= 10 {
      DecimalIsShort(n / 10, k - 1);
    }
  }

  /** What is written in decimal is read as the number it was. */
  lemma {:induction false} ReadsWhatWasWritten(t: DigitTable, n: nat)
    requires IsUnicode(t)
    ensures AllDecimal(t, Decimal(n)) && Value(t, Decimal(n)) == n
  {
    var last := '0' + (n % 10) as char;
    assert IsAscii(last) && t.decimal(last) == Some(AsciiValue(last)) && AsciiValue(last) == n % 10;
    if n >= 10 {
      ReadsWhatWasWritten(t, n / 10);
      assert Decimal(n)[..|Decimal(n)| - 1] == Decimal(n / 10);
    } else {
      assert Value(t, [last]) == 10 * Value(t, [last][..0]) + n;
    }
  }

  /** Only ASCII zeros are dropped. */
  function StripZeros(s: string): string {
    if s != [] && s[0] == '0' then StripZeros(s[1..]) else s
  }

  function Normalized(s: string): (n: string)
    ensures n != []
  {
    if StripZeros(s) == [] then "0" else StripZeros(s)
  }

  lemma {:induction false} StripZerosDropsZeros(t: DigitTable, s: string)
    requires IsUnicode(t)
    ensures AllDecimal(t, StripZeros(s)) <==> AllDecimal(t, s)
    ensures AllDecimal(t, s) ==> Value(t, StripZeros(s)) == Value(t, s)
    ensures StripZeros(s) != [] ==> StripZeros(s)[0] != '0'
    ensures AllAscii(s) ==> AllAscii(StripZeros(s))
  {
    if s != [] && s[0] == '0' {
      assert s == ['0'] + s[1..];
      StripZerosDropsZeros(t, s[1..]);
      assert IsAscii('0') && t.decimal('0') == Some(0);
      if AllDecimal(t, s) {
        LeadingZero(t, s[1..]);
      }
    }
  }

  lemma {:induction false} LeadingZero(t: DigitTable, s: string)
    requires AllDecimal(t, s) && t.decimal('0') == Some(0)
    ensures AllDecimal(t, ['0'] + s) && Value(t, ['0'] + s) == Value(t, s)
  {
    if s != [] {
      LeadingZero(t, s[..|s| - 1]);
      assert (['0'] + s)[..|s|] == ['0'] + s[..|s| - 1];
    }
  }

  lemma NormalizedKeepsValue(t: DigitTable, s: string)
    requires IsUnicode(t)
    ensures AllDecimal(t, Normalized(s)) <==> AllDecimal(t, s)
    ensures AllDecimal(t, s) ==> Value(t, Normalized(s)) == Value(t, s)
  {
    StripZerosDropsZeros(t, s);
    assert IsAscii('0') && t.decimal('0') == Some(0);
    if StripZeros(s) == [] {
      assert Value(t, "0") == 10 * Value(t, "0"[..0]) + 0;
    }
  }

  /** A number, no plausible one, or an error that the conversion raises. */
  datatype Reading = Number(n: nat) | Implausible | Refused

  /** The host language's conversion, which takes decimal digits only, and not too many. */
  function ToInt(t: DigitTable, s: string): Option<nat>
    requires |s| <= INT_DIGITS
  {
    if AllDecimal(t, s) then Some(Value(t, s)) else None
  }

  /** Refuses exactly a short string with a digit that is not decimal; is never given one too long. */
  function BoundedInt(t: DigitTable, digits: string, maximum: nat): (r: Reading)
    requires IsUnicode(t) && AllDigits(t, digits) && |Decimal(maximum)| <= INT_DIGITS
    ensures r.Refused? <==> |Normalized(digits)| <= |Decimal(maximum)| && !AllDecimal(t, digits)
    ensures r.Number? <==>
            && |Normalized(digits)| <= |Decimal(maximum)|
            && AllDecimal(t, digits) && Value(t, digits) <= maximum
    ensures r.Number? ==> r.n == Value(t, digits)
  {
    NormalizedKeepsValue(t, digits);
    var normalized := Normalized(digits);
    if |normalized| > |Decimal(maximum)| then Implausible
    else
      match ToInt(t, normalized)
      case None => Refused
      case Some(value) => if value <= maximum then Number(value) else Implausible
  }

  lemma LongerIsLarger(t: DigitTable, s: string, maximum: nat)
    requires AllDecimal(t, s) && |s| > |Decimal(maximum)| && t.decimal(s[0]) != Some(0)
    ensures Value(t, s) > maximum
  {
    hide Value, Decimal, Pow10;
    assert s[0] in s;
    DecimalBounds(maximum);
    ValueAbove(t, s);
    Pow10Grows(|Decimal(maximum)|, |s| - 1);
  }

  /** Digits that do not begin with a zero of another script are read as the number they spell, exactly when
      it is within bounds, however many ASCII zeros and digits there are. */
  lemma PlainNumbersAreRead(t: DigitTable, digits: string, maximum: nat)
    requires IsUnicode(t) && AllDecimal(t, digits) && |Decimal(maximum)| <= INT_DIGITS
    requires StripZeros(digits) != [] ==> t.decimal(StripZeros(digits)[0]) != Some(0)
    ensures AllDigits(t, digits)
    ensures BoundedInt(t, digits, maximum)
         == if Value(t, digits) <= maximum then Number(Value(t, digits)) else Implausible
  {
    hide Value, Decimal, StripZeros;
    NormalizedKeepsValue(t, digits);
    if |Normalized(digits)| > |Decimal(maximum)| {
      assert Normalized(digits) == StripZeros(digits);
      LongerIsLarger(t, Normalized(digits), maximum);
    }
  }

  lemma AsciiNumbersAreRead(t: DigitTable, digits: string, maximum: nat)
    requires IsUnicode(t) && AllAscii(digits) && |Decimal(maximum)| <= INT_DIGITS
    ensures AllDecimal(t, digits) && AllDigits(t, digits)
    ensures BoundedInt(t, digits, maximum)
         == if Value(t, digits) <= maximum then Number(Value(t, digits)) else Implausible
  {
    StripZerosDropsZeros(t, digits);
    assert forall c | c in digits :: IsAscii(c) && t.decimal(c) == Some(AsciiValue(c));
    if StripZeros(digits) != [] {
      var first := StripZeros(digits)[0];
      assert first in StripZeros(digits);
      assert IsAscii(first) && t.decimal(first) == Some(AsciiValue(first));
    }
    PlainNumbersAreRead(t, digits, maximum);
  }

  /** Zeros of another script are not dropped: padded with enough of them, zero is not read as zero. */
  lemma ForeignZerosHideZero(t: DigitTable, k: nat, maximum: nat)
    requires IsUnicode(t) && |Decimal(maximum)| < k && |Decimal(maximum)| <= INT_DIGITS
    ensures
      var digits := seq(k, i => ARABIC_ZERO);
      && AllDigits(t, digits) && AllDecimal(t, digits) && Value(t, digits) == 0
      && BoundedInt(t, digits, maximum) == Implausible
  {
    var digits := seq(k, i => ARABIC_ZERO);
    assert forall c | c in digits :: c == ARABIC_ZERO;
    ZerosAreZero(t, digits);
    assert StripZeros(digits) == digits;
  }

  lemma {:induction false} ZerosAreZero(t: DigitTable, s: string)
    requires forall c | c in s :: t.decimal(c) == Some(0)
    ensures AllDecimal(t, s) && Value(t, s) == 0
  {
    if s != [] {
      ZerosAreZero(t, s[..|s| - 1]);
    }
  }
}
