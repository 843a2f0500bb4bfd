/** `std::to_string` of whole numbers: the decimal text, and that no other text reads as the number. */
module Numerals {

  function Decimal(n: nat): (s: string)
    ensures s != "" && forall i :: 0 <= i < |s| ==> '0' <= s[i] <= '9'
  {
    var digit := ["0", "1", "2", "3", "4", "5", "6", "7", "8", "9"][n % 10];
    if n < 10 then digit else Decimal(n / 10) + digit
  }

  function IntText(i: int): string {
    if i < 0 then "-" + Decimal(-i) else Decimal(i)
  }

  /** Reading a text of digits from the left. */
  function Value(s: string): int {
    if s == "" then 0 else 10 * Value(s[..|s| - 1]) + (s[|s| - 1] as int - '0' as int)
  }

  predicate Digits(s: string) {
    forall i :: 0 <= i < |s| ==> '0' <= s[i] <= '9'
  }

  lemma ValueSnoc(s: string, c: char)
    ensures Value(s + [c]) == 10 * Value(s) + (c as int - '0' as int)
  {
    assert (s + [c])[..|s|] == s;
  }

  lemma LastDigit(n: nat)
    ensures var c := ('0' as int + n % 10) as char;
            ["0", "1", "2", "3", "4", "5", "6", "7", "8", "9"][n % 10] == [c]
  {
  }

  lemma DecimalSnoc(n: nat)
    ensures Decimal(n) == (if n < 10 then "" else Decimal(n / 10)) + [('0' as int + n % 10) as char]
  {
    LastDigit(n);
  }

  /** The text of `n` has only digits, no leading zero unless it is "0", and reads as `n`. */
  lemma {:induction false} DecimalReads(n: nat)
    ensures Digits(Decimal(n)) && Value(Decimal(n)) == n
    ensures Decimal(n)[0] == '0' <==> n == 0
    decreases n
  {
    DecimalSnoc(n);
    if n < 10 {
      ValueSnoc("", ('0' as int + n % 10) as char);
      assert "" + Decimal(n) == Decimal(n);
    } else {
      DecimalReads(n / 10);
      ValueSnoc(Decimal(n / 10), ('0' as int + n % 10) as char);
    }
  }

  lemma {:induction false} ValueOfDigits(s: string)
    requires Digits(s)
    ensures Value(s) >= 0 && (s != "" && s[0] != '0' ==> Value(s) > 0)
    decreases s
  {
    if s != "" {
      ValueOfDigits(s[..|s| - 1]);
    }
  }

  /** The last digit and the number before it. */
  lemma LastDigitOf(s: string)
    requires s != "" && Digits(s)
    ensures var init, d := s[..|s| - 1], s[|s| - 1] as int - '0' as int;
            Digits(init) && Value(init) >= 0 && 0 <= d < 10 && Value(s) / 10 == Value(init) && Value(s) % 10 == d
  {
    var init, d := s[..|s| - 1], s[|s| - 1] as int - '0' as int;
    ValueOfDigits(init);
    Quotient(Value(init), d);
  }

  lemma {:induction false} OnlyText(n: nat, s: string)
    requires s != "" && Digits(s) && (s[0] == '0' ==> s == "0") && Value(s) == n
    ensures s == Decimal(n)
    decreases |s|
  {
    var init, c := s[..|s| - 1], s[|s| - 1];
    LastDigitOf(s);
    DecimalSnoc(n);
    assert s == init + [c];
    if init == "" {
      assert n < 10;
    } else {
      assert init[0] == s[0] != '0';
      ValueOfDigits(init);
      OnlyText(n / 10, init);
    }
  }

  /** No other text without a leading zero reads as `n`. */
  lemma DecimalUnique(n: nat, s: string)
    ensures s == Decimal(n) <==> s != "" && Digits(s) && (s[0] == '0' ==> s == "0") && Value(s) == n
  {
    DecimalReads(n);
    if n == 0 { DecimalSnoc(0); }
    if s != "" && Digits(s) && (s[0] == '0' ==> s == "0") && Value(s) == n { OnlyText(n, s); }
  }

  lemma Quotient(q: nat, r: nat)
    requires r < 10
    ensures (10 * q + r) / 10 == q && (10 * q + r) % 10 == r
  {
  }

  /** A text with a sign reads as the number behind it, negated. */
  function SignedValue(s: string): int {
    if s != "" && s[0] == '-' then -Value(s[1..]) else Value(s)
  }

  /** The text of an int: a minus sign exactly if it is negative, and the number reads back. */
  lemma IntTextReads(i: int)
    ensures IntText(i) != "" && (IntText(i)[0] == '-' <==> i < 0) && SignedValue(IntText(i)) == i
    ensures var digits := if i < 0 then IntText(i)[1..] else IntText(i);
            Digits(digits) && digits != "" && (digits[0] == '0' <==> i == 0)
  {
    DecimalReads(if i < 0 then -i else i);
    if i < 0 { assert IntText(i)[1..] == Decimal(-i); }
  }

  /** Different numbers have different texts. */
  lemma IntTextInjective(i: int, j: int)
    ensures IntText(i) == IntText(j) <==> i == j
  {
    IntTextReads(i);
    IntTextReads(j);
  }
}
