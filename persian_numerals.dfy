/**
 * `toPersianNumerals` of src/lib/utils.ts: every ASCII digit is replaced by
 * the Extended Arabic-Indic digit of the same value, everything else is
 * kept in place. A number argument is first written in decimal.
 */
module PersianNumerals {

  /** The lookup table `persianNumerals`, U+06F0 to U+06F9. */
  const Table: seq<char> := ['\U{06F0}', '\U{06F1}', '\U{06F2}', '\U{06F3}', '\U{06F4}',
                             '\U{06F5}', '\U{06F6}', '\U{06F7}', '\U{06F8}', '\U{06F9}']

  predicate IsAsciiDigit(c: char) {
    '0' <= c <= '9'
  }

  predicate IsPersianDigit(c: char) {
    '\U{06F0}' <= c <= '\U{06F9}'
  }

  /** The table holds the ten Persian digits in order. */
  lemma TableIsOffset()
    ensures |Table| == 10
    ensures forall d :: 0 <= d < 10 ==> Table[d] as int == 0x06F0 + d
  {
  }

  /** The replacement callback: a digit goes through the table, anything else stays. */
  function ConvertChar(c: char): (r: char)
    ensures IsAsciiDigit(c) ==> r as int == 0x06F0 + (c as int - '0' as int)
    ensures !IsAsciiDigit(c) ==> r == c
    ensures !IsAsciiDigit(r)
  {
    if IsAsciiDigit(c) then Table[c as int - '0' as int] else c
  }

  /** `n.replace(/[0-9]/g, …)` on a string. */
  function ToPersianNumerals(s: string): (r: string)
    ensures |r| == |s|
    ensures forall i :: 0 <= i < |s| ==> r[i] == ConvertChar(s[i])
    ensures forall i :: 0 <= i < |r| ==> !IsAsciiDigit(r[i])
  {
    if s == [] then [] else [ConvertChar(s[0])] + ToPersianNumerals(s[1..])
  }

  /** The empty string maps to itself. */
  lemma EmptyStaysEmpty()
    ensures ToPersianNumerals("") == ""
  {
  }

  /** A converted string has no ASCII digit left, so converting again changes nothing. */
  lemma Idempotent(s: string)
    ensures ToPersianNumerals(ToPersianNumerals(s)) == ToPersianNumerals(s)
  {
    var once := ToPersianNumerals(s);
    var twice := ToPersianNumerals(once);
    assert forall i :: 0 <= i < |once| ==> twice[i] == once[i];
  }

  /** `Number.prototype.toString()` of a natural number: its decimal digits. */
  function DecimalString(n: nat): (s: string)
    ensures |s| >= 1
    ensures forall i :: 0 <= i < |s| ==> IsAsciiDigit(s[i])
    ensures |s| > 1 ==> s[0] != '0'
  {
    if n < 10 then [('0' as int + n) as char]
    else DecimalString(n / 10) + [('0' as int + n % 10) as char]
  }

  /** The number a string of ASCII digits denotes. */
  function DigitsValue(s: string): nat
    requires forall i :: 0 <= i < |s| ==> IsAsciiDigit(s[i])
  {
    if s == [] then 0
    else
      assert IsAsciiDigit(s[|s| - 1]);
      DigitsValue(s[..|s| - 1]) * 10 + (s[|s| - 1] as int - '0' as int)
  }

  /** Reading the decimal digits back gives the number. */
  lemma {:induction false} DecimalStringValue(n: nat)
    ensures DigitsValue(DecimalString(n)) == n
  {
    if n >= 10 {
      DecimalStringValue(n / 10);
      var s := DecimalString(n);
      assert s[..|s| - 1] == DecimalString(n / 10);
    }
  }

  /** `toPersianNumerals` of an integer argument (non-integers are not modelled). */
  function NumberToPersian(n: int): (r: string)
    ensures |r| >= 1
    ensures n >= 0 ==> forall i :: 0 <= i < |r| ==> IsPersianDigit(r[i])
    ensures n < 0 ==> r[0] == '-' && forall i :: 1 <= i < |r| ==> IsPersianDigit(r[i])
  {
    var decimal := if n < 0 then "-" + DecimalString(-n) else DecimalString(n);
    ToPersianNumerals(decimal)
  }

  /** The value a string of Persian digits denotes. */
  function PersianValue(s: string): nat
    requires forall i :: 0 <= i < |s| ==> IsPersianDigit(s[i])
  {
    if s == [] then 0
    else
      assert IsPersianDigit(s[|s| - 1]);
      PersianValue(s[..|s| - 1]) * 10 + (s[|s| - 1] as int - 0x06F0)
  }

  /** Converting a string of ASCII digits gives a string of Persian digits. */
  lemma PersianDigitsOnly(s: string)
    requires forall i :: 0 <= i < |s| ==> IsAsciiDigit(s[i])
    ensures forall i :: 0 <= i < |s| ==> IsPersianDigit(ToPersianNumerals(s)[i])
  {
  }

  /** Converting digit by digit keeps the value, written in the other script. */
  lemma {:induction false} PersianKeepsValue(s: string)
    requires forall i :: 0 <= i < |s| ==> IsAsciiDigit(s[i])
    ensures forall i :: 0 <= i < |s| ==> IsPersianDigit(ToPersianNumerals(s)[i])
    ensures PersianValue(ToPersianNumerals(s)) == DigitsValue(s)
  {
    PersianDigitsOnly(s);
    if s != [] {
      var n := |s| - 1;
      var init := s[..n];
      PersianKeepsValue(init);
      var r := ToPersianNumerals(s);
      assert r[..n] == ToPersianNumerals(init);
      assert r[n] as int - 0x06F0 == s[n] as int - '0' as int;
      assert PersianValue(r) == PersianValue(r[..n]) * 10 + (r[n] as int - 0x06F0);
      assert DigitsValue(s) == DigitsValue(init) * 10 + (s[n] as int - '0' as int);
    }
  }

  /** The Persian rendering of a natural number reads back as that number. */
  lemma NumberToPersianValue(n: nat)
    ensures PersianValue(NumberToPersian(n)) == n
  {
    DecimalStringValue(n);
    PersianKeepsValue(DecimalString(n));
  }
}
