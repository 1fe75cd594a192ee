/** `std::to_string` and `std::stoll` on 64-bit integers, which carry region ids through the keys of the
    backup's files. */
module Decimal {
  import opened Options

  const INT64_MIN: int := -0x8000_0000_0000_0000
  const INT64_MAX: int := 0x7fff_ffff_ffff_ffff

  predicate IsInt64(n: int) {
    INT64_MIN <= n <= INT64_MAX
  }

  predicate IsDigit(c: char) {
    '0' <= c <= '9'
  }

  predicate AllDigits(s: string) {
    forall i :: 0 <= i < |s| ==> IsDigit(s[i])
  }

  function Digit(d: nat): (c: char)
    requires d < 10
    ensures IsDigit(c) && DigitValue(c) == d
  {
    ('0' as int + d) as char
  }

  function DigitValue(c: char): nat
    requires IsDigit(c)
  {
    c as int - '0' as int
  }

  function Digits(n: nat): (s: string)
    ensures s != [] && AllDigits(s)
  {
    if n < 10 then [Digit(n)] else Digits(n / 10) + [Digit(n % 10)]
  }

  function ToString(n: int): (s: string)
    ensures s != []
  {
    if n < 0 then ['-'] + Digits(-n) else Digits(n)
  }

  function Value(s: string): nat
    requires AllDigits(s)
  {
    if s == [] then 0 else 10 * Value(s[..|s| - 1]) + DigitValue(s[|s| - 1])
  }

  predicate IsSpace(c: char) {
    c == ' ' || '\t' <= c <= '\r'
  }

  function SkipSpace(s: string): string {
    if s != [] && IsSpace(s[0]) then SkipSpace(s[1..]) else s
  }

  /** The longest prefix that consists of digits. */
  function DigitPrefix(s: string): (p: string)
    ensures AllDigits(p) && p <= s
  {
    if s != [] && IsDigit(s[0]) then [s[0]] + DigitPrefix(s[1..]) else []
  }

  function Signed(s: string, negative: bool): Option<int> {
    var p := DigitPrefix(s);
    var n: int := if negative then -(Value(p) as int) else Value(p);
    if p == [] || !IsInt64(n) then None else Some(n)
  }

  /** `None` is one of the two exceptions: nothing to convert, or out of range. */
  function Stoll(s: string): Option<int> {
    var t := SkipSpace(s);
    if t != [] && t[0] == '-' then Signed(t[1..], true)
    else if t != [] && t[0] == '+' then Signed(t[1..], false)
    else Signed(t, false)
  }

  lemma {:induction false} ValueOfDigits(n: nat)
    ensures Value(Digits(n)) == n
  {
    var s := Digits(n);
    if n < 10 {
      assert s[..0] == [];
    } else {
      ValueOfDigits(n / 10);
      assert s[..|s| - 1] == Digits(n / 10);
    }
  }

  lemma {:induction false} PrefixOfDigits(s: string)
    requires AllDigits(s)
    ensures DigitPrefix(s) == s
  {
    if s != [] {
      PrefixOfDigits(s[1..]);
    }
  }

  lemma SignedDigits(n: nat, negative: bool)
    requires IsInt64(if negative then 0 - n else n)
    ensures Signed(Digits(n), negative) == Some(if negative then 0 - n else n)
  {
    ValueOfDigits(n);
    PrefixOfDigits(Digits(n));
  }

  /** Reading back what was printed gives the same number, for every 64-bit integer. */
  lemma RoundTrip(n: int)
    requires IsInt64(n)
    ensures Stoll(ToString(n)) == Some(n)
  {
    if n < 0 {
      SignedDigits(-n, true);
      assert ToString(n)[1..] == Digits(-n);
    } else {
      SignedDigits(n, false);
      assert IsDigit(Digits(n)[0]);
    }
  }

  /** So different ids never share a key. */
  lemma Injective(m: int, n: int)
    ensures ToString(m) == ToString(n) <==> m == n
  {
    var a, b := Digits(if m < 0 then -m else m), Digits(if n < 0 then -n else n);
    ValueOfDigits(if m < 0 then -m else m);
    ValueOfDigits(if n < 0 then -n else n);
    if ToString(m) == ToString(n) {
      assert IsDigit(a[0]) && IsDigit(b[0]);
      if m < 0 {
        assert ToString(m)[1..] == a && ToString(n)[0] == '-' && ToString(n)[1..] == b;
      }
    }
  }
}
