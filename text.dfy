/** Small string utilities shared by the renderers of the proxy and by the
    parsers that read their output back. */
module Text {
  import opened Wrappers

  /** `s` without its prefix `lit`, or None when `s` does not start with
      `lit`; compares one character at a time. */
  function Expect(lit: string, s: string): (r: Option<string>)
    ensures r.Some? ==> |r.value| <= |s|
  {
    if lit == [] then Some(s)
    else if s != [] && s[0] == lit[0] then Expect(lit[1..], s[1..])
    else None
  }

  lemma {:induction false} ExpectAt(lit: string, rest: string)
    ensures Expect(lit, lit + rest) == Some(rest)
  {
    if lit == [] {
      assert lit + rest == rest;
    } else {
      assert (lit + rest)[1..] == lit[1..] + rest;
      ExpectAt(lit[1..], rest);
    }
  }

  /** Splits `s` at its first `c` into the text before it and the text after
      it; None when `s` holds no `c`. */
  function SplitAt(s: string, c: char): (r: Option<(string, string)>)
    ensures r.Some? ==> |r.value.1| < |s|
  {
    if s == [] then None
    else if s[0] == c then Some(([], s[1..]))
    else
      match SplitAt(s[1..], c)
      case None => None
      case Some((field, rest)) => Some(([s[0]] + field, rest))
  }

  lemma {:induction false} SplitAtFirst(field: string, c: char, rest: string)
    requires c !in field
    ensures SplitAt(field + [c] + rest, c) == Some((field, rest))
  {
    var s := field + [c] + rest;
    if field == [] {
      assert s == [c] + rest;
    } else {
      assert s[0] == field[0] && s[1..] == field[1..] + [c] + rest;
      SplitAtFirst(field[1..], c, rest);
      assert [field[0]] + field[1..] == field;
    }
  }

  predicate IsDigit(c: char) { '0' <= c <= '9' }

  function DigitChar(d: nat): (c: char)
    requires d < 10
    ensures IsDigit(c)
  {
    ('0' as int + d) as char
  }

  function DigitValue(c: char): (d: nat)
    requires IsDigit(c)
    ensures d < 10 && DigitChar(d) == c
  {
    c as int - '0' as int
  }

  /** The decimal rendering of `n`, as printf's `%d` writes a non-negative int. */
  function Decimal(n: nat): (s: string)
    ensures |s| > 0
    ensures forall k :: 0 <= k < |s| ==> IsDigit(s[k])
    ensures s[0] == '0' <==> n == 0
    ensures n == 0 ==> s == "0"
  {
    if n < 10 then [DigitChar(n)] else Decimal(n / 10) + [DigitChar(n % 10)]
  }

  /** Reads a string of decimal digits back as a number. */
  function ParseDecimal(s: string): nat
    requires forall k :: 0 <= k < |s| ==> IsDigit(s[k])
  {
    if s == [] then 0 else 10 * ParseDecimal(s[..|s| - 1]) + DigitValue(s[|s| - 1])
  }

  lemma {:induction false} DecimalRoundTrip(n: nat)
    ensures ParseDecimal(Decimal(n)) == n
  {
    var s := Decimal(n);
    if n >= 10 {
      DecimalRoundTrip(n / 10);
      assert s[..|s| - 1] == Decimal(n / 10);
      assert DigitValue(s[|s| - 1]) == n % 10 by {
        assert s[|s| - 1] == DigitChar(n % 10);
      }
    } else {
      assert DigitValue(s[0]) == n by {
        assert s[0] == DigitChar(n);
      }
    }
  }
}
