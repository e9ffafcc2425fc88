/** Rust's `str::parse` for signed integer types (`from_str_radix` with radix 10),
    and the decimal rendering it inverts. */
module Decimal {
  import opened Wrappers

  /** `ParseIntError`; the model does not distinguish its kinds. */
  datatype ParseIntError = ParseIntError

  predicate IsDigit(ch: char)
  {
    '0' <= ch <= '9'
  }

  predicate AllDigits(s: string)
  {
    forall k :: 0 <= k < |s| ==> IsDigit(s[k])
  }

  function DigitValue(ch: char): (d: nat)
    requires IsDigit(ch)
    ensures d < 10
  {
    ch as int - '0' as int
  }

  function DigitChar(d: nat): (ch: char)
    requires d < 10
    ensures IsDigit(ch) && DigitValue(ch) == d
  {
    ('0' as int + d) as char
  }

  /** The number a string of decimal digits denotes, most significant first. */
  function DigitsValue(s: string): nat
    requires AllDigits(s)
  {
    if |s| == 0 then 0 else DigitsValue(s[..|s| - 1]) * 10 + DigitValue(s[|s| - 1])
  }

  /** `s` without its leading sign, if it has one. */
  function Unsigned(s: string): string
  {
    if |s| >= 1 && (s[0] == '+' || s[0] == '-') then s[1..] else s
  }

  /** An optional `+` or `-` followed by one or more ASCII digits. */
  predicate WellFormed(s: string)
  {
    |Unsigned(s)| >= 1 && AllDigits(Unsigned(s))
  }

  /** The integer a well-formed string denotes. */
  function Denoted(s: string): int
    requires WellFormed(s)
  {
    if s[0] == '-' then -(DigitsValue(Unsigned(s)) as int) else DigitsValue(Unsigned(s))
  }

  /** Parses `s` as an integer of the Rust type whose range is `lo..=hi`: an
      optional `+` or `-`, then one or more ASCII digits (leading zeros allowed),
      denoting a value inside the range. Anything else is an error. */
  function Parse(s: string, lo: int, hi: int): (r: Result<int, ParseIntError>)
    ensures r.Ok? <==> WellFormed(s) && lo <= Denoted(s) <= hi
    ensures r.Ok? ==> r.value == Denoted(s)
    ensures r.Ok? ==> lo <= r.value <= hi
    ensures r.Ok? ==> |s| >= 1 && (s[0] == '-' ==> r.value <= 0) && (s[0] != '-' ==> r.value >= 0)
    ensures |s| == 0 ==> r.Err?
  {
    if |s| == 0 then Err(ParseIntError)
    else if (s[0] == '+' || s[0] == '-') && |s| == 1 then Err(ParseIntError)
    else
      var digits := if s[0] == '+' || s[0] == '-' then s[1..] else s;
      if !AllDigits(digits) then Err(ParseIntError)
      else
        var v: int := if s[0] == '-' then -(DigitsValue(digits) as int) else DigitsValue(digits);
        if v < lo || hi < v then Err(ParseIntError) else Ok(v)
  }

  /** A character that is neither a digit nor a leading sign makes the parse
      fail, whatever the range. */
  lemma ParseRejects(s: string, k: nat, lo: int, hi: int)
    requires k < |s| && !IsDigit(s[k]) && !(k == 0 && (s[0] == '+' || s[0] == '-'))
    ensures Parse(s, lo, hi).Err?
  {
  }

  /** The canonical decimal digits of `n`: no sign, no leading zero. */
  function ShowNat(n: nat): (s: string)
    ensures |s| >= 1 && AllDigits(s)
    ensures s[0] == '0' ==> n == 0
    decreases n
  {
    if n < 10 then [DigitChar(n)] else ShowNat(n / 10) + [DigitChar(n % 10)]
  }

  /** `i64::to_string` and friends: a `-` before the digits of a negative value. */
  function Show(n: int): (s: string)
    ensures |s| >= 1 && s[|s| - 1] != '-' && s[|s| - 1] != '+'
    ensures s[0] == '-' <==> n < 0
  {
    if n < 0 then "-" + ShowNat(-n) else ShowNat(n)
  }

  /** A rendered value is made of digits and at most a leading `-`, and ends in a digit. */
  lemma ShowChars(n: int)
    ensures forall k :: 0 <= k < |Show(n)| ==> IsDigit(Show(n)[k]) || Show(n)[k] == '-'
    ensures IsDigit(Show(n)[|Show(n)| - 1])
  {
    if n < 0 {
      var digits := ShowNat(-n);
      assert Show(n) == "-" + digits;
      assert forall k :: 1 <= k < |Show(n)| ==> Show(n)[k] == digits[k - 1];
    }
  }

  /** The digits `ShowNat` writes denote `n`. */
  lemma {:induction false} ShowNatValue(n: nat)
    ensures DigitsValue(ShowNat(n)) == n
    decreases n
  {
    var s := ShowNat(n);
    if n >= 10 {
      ShowNatValue(n / 10);
      assert s[..|s| - 1] == ShowNat(n / 10);
    }
  }

  /** Parsing the rendering of an in-range value gives the value back. */
  lemma ParseShow(n: int, lo: int, hi: int)
    requires lo <= n <= hi
    ensures Parse(Show(n), lo, hi) == Ok(n)
  {
    var s := Show(n);
    if n < 0 {
      assert s[1..] == ShowNat(-n);
      ShowNatValue(-n);
    } else {
      ShowNatValue(n);
    }
  }
}
