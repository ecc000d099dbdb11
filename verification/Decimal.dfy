/**
 * Decimal text of integers: the `%d` verb that names the archive files and prints the
 * staked amounts, and the 64-bit parser that reads the amounts back.
 */
module Decimal {
  import opened MachineInts
  import opened Wrappers

  function DigitChar(d: nat): (c: char)
    requires d < 10
    ensures '0' <= c <= '9'
  {
    ('0' as int + d) as char
  }

  predicate IsDigit(c: char) {
    '0' <= c <= '9'
  }

  function DigitValue(c: char): (d: nat)
    requires IsDigit(c)
    ensures d < 10
  {
    c as int - '0' as int
  }

  // The digits of n, most significant first, without leading zeros.
  function Digits(n: nat): (s: string)
    ensures |s| > 0 && forall i :: 0 <= i < |s| ==> IsDigit(s[i])
  {
    if n < 10 then [DigitChar(n)] else Digits(n / 10) + [DigitChar(n % 10)]
  }

  // The text that the `%d` verb prints.
  function Print(x: int): string {
    if x < 0 then "-" + Digits(-x) else Digits(x)
  }

  // The number that a string of digits stands for, or None when it is not one.
  function Unsigned(s: string): Option<nat> {
    if |s| == 0 || !IsDigit(s[|s| - 1]) then None
    else if |s| == 1 then Some(DigitValue(s[0]))
    else match Unsigned(s[..|s| - 1])
      case None => None
      case Some(high) => Some(10 * high + DigitValue(s[|s| - 1]))
  }

  // The base-ten parser with bit size 64: an optional sign, at least one digit, and a
  // value that fits.
  function ParseInt64(s: string): Option<int> {
    var negative := |s| > 0 && s[0] == '-';
    var digits := if |s| > 0 && (s[0] == '-' || s[0] == '+') then s[1..] else s;
    match Unsigned(digits)
    case None => None
    case Some(n) =>
      var x := if negative then -(n as int) else n as int;
      if MIN_INT64 <= x <= MAX_INT64 then Some(x) else None
  }

  lemma {:induction false} UnsignedReadsDigits(n: nat)
    ensures Unsigned(Digits(n)) == Some(n)
  {
    var s := Digits(n);
    if n < 10 {
      assert s == [DigitChar(n)];
    } else {
      UnsignedReadsDigits(n / 10);
      assert s[..|s| - 1] == Digits(n / 10) && s[|s| - 1] == DigitChar(n % 10);
    }
  }

  // Printing then parsing gives the number back exactly when it fits in 64 bits.
  lemma ParseReadsPrint(x: int)
    ensures ParseInt64(Print(x)) == if MIN_INT64 <= x <= MAX_INT64 then Some(x) else None
  {
    var s := Print(x);
    if x < 0 {
      UnsignedReadsDigits(-x);
      assert s[1..] == Digits(-x);
    } else {
      UnsignedReadsDigits(x);
      assert IsDigit(s[0]);
    }
  }

  // Distinct numbers have distinct texts, of any size.
  lemma PrintInjective(x: int, y: int)
    requires Print(x) == Print(y)
    ensures x == y
  {
    var s := Print(x);
    if x < 0 {
      UnsignedReadsDigits(-x);
      assert s[1..] == Digits(-x);
    } else {
      UnsignedReadsDigits(x);
      assert IsDigit(s[0]);
    }
    if y < 0 {
      UnsignedReadsDigits(-y);
      assert s[1..] == Digits(-y);
    } else {
      UnsignedReadsDigits(y);
      assert IsDigit(s[0]);
    }
  }

  function Pow10(k: nat): nat {
    if k == 0 then 1 else 10 * Pow10(k - 1)
  }

  // What digits are worth by their places: ones last, tens before them, and so on.
  function Worth(s: string): int {
    if |s| == 0 then 0 else (s[0] as int - '0' as int) * Pow10(|s| - 1) + Worth(s[1..])
  }

  lemma {:induction false} WorthSnoc(s: string, c: char)
    ensures Worth(s + [c]) == 10 * Worth(s) + (c as int - '0' as int)
  {
    if |s| == 0 {
      assert s + [c] == [c];
    } else {
      WorthSnoc(s[1..], c);
      assert (s + [c])[1..] == s[1..] + [c];
    }
  }

  lemma {:induction false} DigitsAreDecimal(n: nat)
    ensures Worth(Digits(n)) == n && (n > 0 ==> Digits(n)[0] != '0')
  {
    if n >= 10 {
      DigitsAreDecimal(n / 10);
      WorthSnoc(Digits(n / 10), DigitChar(n % 10));
    } else {
      assert Worth([DigitChar(n)]) == n;
    }
  }

  // The text is the ordinary one: a minus in front of negative numbers only, and then
  // digits that by their places are worth the number, without leading zeros.
  lemma PrintIsDecimal(x: int)
    ensures var s := Print(x);
            && |s| > 0 && (s[0] == '-' <==> x < 0)
            && var digits := if x < 0 then s[1..] else s;
               && |digits| > 0 && (forall i :: 0 <= i < |digits| ==> '0' <= digits[i] <= '9')
               && Worth(digits) == (if x < 0 then -x else x)
               && (x != 0 ==> digits[0] != '0') && (x == 0 ==> digits == "0")
  {
    DigitsAreDecimal(if x < 0 then -x else x);
    if x < 0 {
      assert Print(x)[1..] == Digits(-x);
    } else {
      assert IsDigit(Print(x)[0]);
    }
  }
}
