/** Numbers as the C library reads and prints them. */
module Numbers {

  predicate IsDigit(c: char) {
    '0' <= c <= '9'
  }

  lemma DigitsAre(c: char)
    ensures IsDigit(c) <==> c in {'0', '1', '2', '3', '4', '5', '6', '7', '8', '9'}
  {
  }

  function Digits(s: string, value: nat): nat {
    if s == "" || !IsDigit(s[0]) then value else Digits(s[1..], 10 * value + (s[0] as nat - '0' as nat))
  }

  function Decimal(n: nat): (s: string)
    ensures |s| > 0 && forall i | 0 <= i < |s| :: IsDigit(s[i])
  {
    (if n < 10 then "" else Decimal(n / 10)) + [(n % 10) as char + '0']
  }

  lemma {:induction false} DigitsMore(s: string, c: char, value: nat)
    requires forall i | 0 <= i < |s| :: IsDigit(s[i])
    requires IsDigit(c)
    ensures Digits(s + [c], value) == 10 * Digits(s, value) + (c as nat - '0' as nat)
  {
    if s == "" {
      assert (s + [c])[1..] == "";
    } else {
      assert (s + [c])[1..] == s[1..] + [c];
      DigitsMore(s[1..], c, 10 * value + (s[0] as nat - '0' as nat));
    }
  }

  lemma {:induction false} DecimalDigits(n: nat)
    ensures Digits(Decimal(n), 0) == n
  {
    var c := (n % 10) as char + '0';
    if n < 10 {
      DigitsMore("", c, 0);
      assert "" + [c] == Decimal(n);
    } else {
      DecimalDigits(n / 10);
      DigitsMore(Decimal(n / 10), c, 0);
    }
  }

  // isspace, in the C locale.
  predicate IsSpace(c: char) {
    c == ' ' || '\t' <= c <= '\r'
  }

  function SkipSpaces(s: string): (r: string)
    ensures |r| <= |s| && (r != "" ==> !IsSpace(r[0]))
  {
    if s != "" && IsSpace(s[0]) then SkipSpaces(s[1..]) else s
  }

  // strtol, in base 10 and with 64-bit results: spaces, a sign and digits; what does not
  // fit is the largest or the smallest number.
  function StrToL(s: string): int {
    var t := SkipSpaces(s);
    var signed := t != "" && (t[0] == '-' || t[0] == '+');
    var value: int := Digits(if signed then t[1..] else t, 0);
    if t != "" && t[0] == '-' then (if value > 0x8000_0000_0000_0000 then -0x8000_0000_0000_0000 else -value)
    else if value > 0x7FFF_FFFF_FFFF_FFFF then 0x7FFF_FFFF_FFFF_FFFF
    else value
  }

  // The characters that are skipped.
  lemma SpacesAre(c: char)
    ensures IsSpace(c) <==> c in {' ', '\t', '\n', '\U{0B}', '\U{0C}', '\r'}
  {
  }

  // A sign counts, and so do spaces before it.
  lemma StrToLNegative(n: nat)
    ensures StrToL("-" + Decimal(n)) == if n > 0x8000_0000_0000_0000 then -0x8000_0000_0000_0000 else -(n as int)
    ensures StrToL("+" + Decimal(n)) == StrToL(Decimal(n))
    ensures StrToL(" " + Decimal(n)) == StrToL(Decimal(n))
  {
    hide Decimal;
    DecimalDigits(n);
    var d := Decimal(n);
    assert IsDigit(d[0]);
    assert ("-" + d)[1..] == d && ("+" + d)[1..] == d && (" " + d)[1..] == d;
    assert SkipSpaces(d) == d;
  }

  // A number is printed in base ten.
  lemma DecimalIs(n: nat)
    ensures n < 10 ==> Decimal(n) == [n as char + '0']
    ensures n >= 10 ==> Decimal(n) == Decimal(n / 10) + [(n % 10) as char + '0']
  {
  }

  // A printed number is read back, as far as it fits.
  lemma StrToLDecimal(n: nat)
    ensures StrToL(Decimal(n)) == if n > 0x7FFF_FFFF_FFFF_FFFF then 0x7FFF_FFFF_FFFF_FFFF else n
  {
    DecimalDigits(n);
    assert IsDigit(Decimal(n)[0]);
  }
}
