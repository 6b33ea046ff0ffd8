/** Decimal integers as `strconv.Atoi` reads them on a 64-bit platform: an
    optional '+' or '-', then one or more ASCII digits (leading zeros allowed,
    no underscores, no spaces), and a value that fits a 64-bit `int`. */
module Decimal {
  import opened Wrappers

  const MinInt: int := -0x8000_0000_0000_0000
  const MaxInt: int := 0x7fff_ffff_ffff_ffff

  predicate IsDigit(c: char)
  {
    '0' <= c <= '9'
  }

  predicate AllDigits(s: string)
  {
    forall i :: 0 <= i < |s| ==> IsDigit(s[i])
  }

  /** The value of a string of digits, most significant first. */
  function DigitsValue(s: string): (n: nat)
    requires AllDigits(s)
  {
    if s == [] then 0 else DigitsValue(s[..|s| - 1]) * 10 + (s[|s| - 1] as int - '0' as int)
  }

  /** `strconv.Atoi`: `None` for a syntax error or a value out of range. */
  function Atoi(s: string): (r: Option<int>)
    ensures r.Some? ==> MinInt <= r.value <= MaxInt
    ensures s == [] ==> r.None?
  {
    var negative := |s| > 0 && s[0] == '-';
    var digits := if |s| > 0 && (s[0] == '+' || s[0] == '-') then s[1..] else s;
    if digits == [] || !AllDigits(digits) then None
    else
      var magnitude: int := DigitsValue(digits);
      var v := if negative then -magnitude else magnitude;
      if MinInt <= v <= MaxInt then Some(v) else None
  }

  /** The canonical decimal digits of a natural number. */
  function NatDigits(n: nat): (s: string)
    ensures s != [] && AllDigits(s)
  {
    if n < 10 then [('0' as int + n) as char]
    else NatDigits(n / 10) + [('0' as int + n % 10) as char]
  }

  /** `strconv.Itoa`: what a client writes for an integer. */
  function Itoa(n: int): string
  {
    if n < 0 then "-" + NatDigits(-n) else NatDigits(n)
  }

  lemma {:induction false} DigitsValueNatDigits(n: nat)
    ensures DigitsValue(NatDigits(n)) == n
  {
    if n >= 10 {
      var s := NatDigits(n);
      assert s[..|s| - 1] == NatDigits(n / 10);
      DigitsValueNatDigits(n / 10);
    }
  }

  /** Every 64-bit integer written in decimal, zero and negatives included, is
      read back unchanged. */
  lemma AtoiItoa(n: int)
    requires MinInt <= n <= MaxInt
    ensures Atoi(Itoa(n)) == Some(n)
  {
    var s := Itoa(n);
    if n < 0 {
      assert s[1..] == NatDigits(-n);
      DigitsValueNatDigits(-n);
    } else {
      assert !IsDigit('+') && !IsDigit('-');
      assert IsDigit(s[0]);
      DigitsValueNatDigits(n);
    }
  }

  /** The value a digit string denotes, unsigned, with '+' and with '-': its
      decimal value (negated after '-') when that fits 64 bits, and a refusal
      otherwise. */
  lemma AtoiDigits(d: string)
    requires d != [] && AllDigits(d)
    ensures Atoi(d) == if DigitsValue(d) <= MaxInt then Some(DigitsValue(d)) else None
    ensures Atoi("+" + d) == Atoi(d)
    ensures Atoi("-" + d) == if MinInt <= -(DigitsValue(d) as int) then Some(-(DigitsValue(d) as int)) else None
  {
    assert d[0] != '+' && d[0] != '-' by { assert IsDigit(d[0]); }
    assert ("+" + d)[1..] == d;
    assert ("-" + d)[1..] == d;
  }

  /** Conversely, an accepted text is a digit string, possibly after one '+'
      or '-', and its value is the decimal value of those digits, negated
      after '-'. */
  lemma AtoiAccepts(s: string)
    requires Atoi(s).Some?
    ensures s != []
    ensures AllDigits(s) ==> Atoi(s).value == DigitsValue(s)
    ensures !AllDigits(s) ==> (s[0] == '+' || s[0] == '-') && |s| > 1 && AllDigits(s[1..])
    ensures s[0] == '+' ==> Atoi(s).value == DigitsValue(s[1..])
    ensures s[0] == '-' ==> Atoi(s).value == -(DigitsValue(s[1..]) as int)
  {
    assert s[0] == '+' || s[0] == '-' ==> !AllDigits(s) by {
      assert !IsDigit('+') && !IsDigit('-');
    }
  }

  /** A text holding any character other than a sign in front and digits is
      refused. */
  lemma AtoiRejectsNonDigit(s: string, i: nat)
    requires i < |s| && !IsDigit(s[i])
    requires i > 0 || (s[0] != '+' && s[0] != '-')
    ensures Atoi(s).None?
  {
  }
}
