/** Rust's unsigned integer parsing and printing. */
module Numerals {
  import opened Text

  const U32_LIMIT := 0x1_0000_0000
  const U64_LIMIT := 0x1_0000_0000_0000_0000

  /** `char::to_digit` for radix 10 and 16. */
  function Digit(c: char, radix: nat): (d: Option<nat>)
    requires radix == 10 || radix == 16
    ensures d.Some? ==> d.value < radix
  {
    if '0' <= c <= '9' then Some(c as nat - '0' as nat)
    else if radix == 16 && 'a' <= c <= 'f' then Some(c as nat - 'a' as nat + 10)
    else if radix == 16 && 'A' <= c <= 'F' then Some(c as nat - 'A' as nat + 10)
    else None
  }

  predicate AllDigits(s: string, radix: nat)
    requires radix == 10 || radix == 16
  {
    forall c <- s :: Digit(c, radix).Some?
  }

  /** The number a digit string denotes, most significant digit first. */
  function Value(s: string, radix: nat): nat
    requires radix == 10 || radix == 16
    requires AllDigits(s, radix)
  {
    if s == "" then 0 else Value(s[..|s| - 1], radix) * radix + Digit(s[|s| - 1], radix).value
  }

  /** The digits are those of the usual tables. */
  lemma DigitsExactly(n: nat)
    requires n < 16
    ensures Digit("0123456789abcdef"[n], 16) == Some(n) && Digit("0123456789ABCDEF"[n], 16) == Some(n)
    ensures n < 10 ==> Digit("0123456789"[n], 10) == Some(n)
  {
  }

  lemma DigitIsInTable(c: char)
    ensures Digit(c, 16).Some? ==> c in "0123456789abcdefABCDEF"
    ensures Digit(c, 10).Some? ==> c in "0123456789"
  {
  }

  function Power(b: nat, e: nat): nat {
    if e == 0 then 1 else b * Power(b, e - 1)
  }

  lemma PowerAdd(b: nat, m: nat, n: nat)
    ensures Power(b, m + n) == Power(b, m) * Power(b, n)
  {
    if m > 0 {
      PowerAdd(b, m - 1, n);
      MulAssociates(b, Power(b, m - 1), Power(b, n));
    }
  }

  lemma MulAssociates(a: nat, b: nat, c: nat)
    ensures a * (b * c) == (a * b) * c
  {
  }

  lemma {:induction false} ValueAppend(a: string, b: string, radix: nat)
    requires radix == 10 || radix == 16
    requires AllDigits(a, radix) && AllDigits(b, radix)
    ensures AllDigits(a + b, radix)
    ensures Value(a + b, radix) == Value(a, radix) * Power(radix, |b|) + Value(b, radix)
    decreases |b|
  {
    if b == "" {
      assert a + b == a;
    } else {
      var b' := b[..|b| - 1];
      ValueAppend(a, b', radix);
      ValueLast(a + b', b[|b| - 1], radix);
      ValueLast(b', b[|b| - 1], radix);
      assert a + b == (a + b') + [b[|b| - 1]] && b == b' + [b[|b| - 1]];
      Distribute(Value(a, radix), Power(radix, |b'|), Value(b', radix), radix);
    }
  }

  lemma ValueLast(s: string, c: char, radix: nat)
    requires radix == 10 || radix == 16
    requires AllDigits(s, radix) && Digit(c, radix).Some?
    ensures AllDigits(s + [c], radix) && Value(s + [c], radix) == Value(s, radix) * radix + Digit(c, radix).value
  {
    assert (s + [c])[..|s + [c]| - 1] == s;
  }

  lemma Distribute(v: nat, p: nat, w: nat, radix: nat)
    ensures (v * p + w) * radix == v * (radix * p) + w * radix
  {
    MulAssociates(v, p, radix);
  }

  lemma {:induction false} ValueBound(s: string, radix: nat)
    requires radix == 10 || radix == 16
    requires AllDigits(s, radix)
    ensures Value(s, radix) < Power(radix, |s|)
  {
    if s != "" {
      ValueBound(s[..|s| - 1], radix);
    }
  }

  /** `str::parse` and `from_str_radix` for an unsigned type with values below `limit`:
      an optional plus sign, then at least one digit; overflow is an error. */
  function Parse(s: string, radix: nat, limit: nat): (n: Option<nat>)
    requires radix == 10 || radix == 16
    ensures n.Some? ==> n.value < limit
  {
    var t := if s != "" && s[0] == '+' then s[1..] else s;
    if t != "" && AllDigits(t, radix) && Value(t, radix) < limit then Some(Value(t, radix)) else None
  }

  /** A text is parsed exactly when it is a run of digits, with or without one plus sign before it, and its value is
      below the limit. */
  lemma ParseExactly(s: string, radix: nat, limit: nat, n: nat)
    requires radix == 10 || radix == 16
    ensures Parse(s, radix, limit) == Some(n) <==>
              exists t ::
                && t != "" && (s == t || s == "+" + t)
                && AllDigits(t, radix) && Value(t, radix) == n && n < limit
  {
    var t := if s != "" && s[0] == '+' then s[1..] else s;
    assert s == t || s == "+" + t;
    forall u | u != "" && (s == u || s == "+" + u) && AllDigits(u, radix) ensures u == t {
      assert u[0] in u && Digit('+', radix) == None;
      assert ("+" + u)[1..] == u;
    }
  }

  /** `to_string` of an unsigned integer. */
  function Decimal(n: nat): (s: string)
    ensures s != "" && AllDigits(s, 10)
    ensures forall c <- s :: '0' <= c <= '9'
  {
    var d := ['0' + (n % 10) as char];
    if n < 10 then d else Decimal(n / 10) + d
  }

  lemma {:induction false} ValueOfDecimal(n: nat)
    ensures Value(Decimal(n), 10) == n
  {
    var s := Decimal(n);
    if n >= 10 {
      ValueOfDecimal(n / 10);
      assert s[..|s| - 1] == Decimal(n / 10);
    }
  }

  /** Parsing what was printed gives the number back. */
  lemma ParseOfDecimal(n: nat, limit: nat)
    requires n < limit
    ensures Parse(Decimal(n), 10, limit) == Some(n)
  {
    ValueOfDecimal(n);
    assert Decimal(n)[0] in Decimal(n);
  }
}
