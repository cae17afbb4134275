/** String helpers with the semantics of the .NET calls the client makes:
    `String.Replace`, `int.ToString()`, parsing a JSON integer token into an
    `int`, and the fixed-width integer types the source uses. */
module Text {
  import opened Common

  /** A C# `int`. */
  type Int32 = x: int | -0x8000_0000 <= x < 0x8000_0000

  /** A C# `uint`. */
  type UInt32 = x: int | 0 <= x < 0x1_0000_0000

  /** `x++` on a `uint`: unchecked arithmetic wraps at 2^32. */
  function Increment(x: UInt32): (r: UInt32)
    ensures x < 0xFFFF_FFFF ==> r == x + 1
    ensures x == 0xFFFF_FFFF ==> r == 0
  {
    (x + 1) % 0x1_0000_0000
  }

  // ---------------------------------------------------------------------
  // String.Replace

  /** `s.Replace(pattern, replacement)`: scans left to right and replaces
      every non-overlapping occurrence of `pattern`. (.NET rejects an empty
      pattern; every pattern in the client is a non-empty constant.) */
  function Replace(s: string, pattern: string, replacement: string): (r: string)
    requires |pattern| > 0
    ensures |s| < |pattern| ==> r == s
    decreases |s|
  {
    if |s| < |pattern| then s
    else if s[..|pattern|] == pattern then replacement + Replace(s[|pattern|..], pattern, replacement)
    else [s[0]] + Replace(s[1..], pattern, replacement)
  }

  /** `pattern` occurs in `s` starting at index `i`. */
  predicate OccursAt(s: string, pattern: string, i: int)
  {
    0 <= i && i + |pattern| <= |s| && s[i..i + |pattern|] == pattern
  }

  /** `pattern` occurs somewhere in `s`. */
  predicate Occurs(s: string, pattern: string)
  {
    exists i | 0 <= i <= |s| :: OccursAt(s, pattern, i)
  }

  /** Replacing a pattern that does not occur changes nothing. */
  lemma {:induction false} ReplaceAbsent(s: string, pattern: string, replacement: string)
    requires |pattern| > 0
    requires !Occurs(s, pattern)
    ensures Replace(s, pattern, replacement) == s
    decreases |s|
  {
    if |s| >= |pattern| {
      assert !OccursAt(s, pattern, 0);
      forall i | OccursAt(s[1..], pattern, i) ensures OccursAt(s, pattern, i + 1) {
        assert s[1..][i..i + |pattern|] == s[i + 1..i + 1 + |pattern|];
      }
      ReplaceAbsent(s[1..], pattern, replacement);
      assert [s[0]] + s[1..] == s;
    }
  }

  // ---------------------------------------------------------------------
  // Decimal text of integers

  predicate IsDigit(c: char) { '0' <= c <= '9' }

  predicate AllDigits(s: string) { forall i :: 0 <= i < |s| ==> IsDigit(s[i]) }

  function DigitChar(d: nat): (c: char)
    requires d < 10
    ensures IsDigit(c) && c as int - '0' as int == d
  {
    (d + '0' as int) as char
  }

  /** `n.ToString()` for a non-negative number: shortest decimal digits. */
  function NatToDecimal(n: nat): (r: string)
    decreases n
  {
    if n < 10 then [DigitChar(n)] else NatToDecimal(n / 10) + [DigitChar(n % 10)]
  }

  /** `n.ToString()` for a C# `int` under a culture whose negative sign is "-". */
  function IntToDecimal(n: int): (r: string)
  {
    if n < 0 then "-" + NatToDecimal(-n) else NatToDecimal(n)
  }

  /** The number that a string of decimal digits spells. */
  function DigitsValue(s: string): nat
    requires AllDigits(s)
    decreases |s|
  {
    if s == [] then 0 else DigitsValue(s[..|s| - 1]) * 10 + (s[|s| - 1] as int - '0' as int)
  }

  /** A JSON integer token: an optional minus sign, then "0" or digits without a leading zero. */
  predicate IsIntegerToken(raw: string)
  {
    var digits := if |raw| > 0 && raw[0] == '-' then raw[1..] else raw;
    |digits| > 0 && AllDigits(digits) && (digits[0] == '0' ==> |digits| == 1)
  }

  /** `JsonElement.GetInt32` on a number token: succeeds when the token is an
      integer without fraction or exponent whose value fits in an `int`. */
  function ParseInt32(raw: string): (r: Option<Int32>)
    ensures r.Some? ==> |raw| > 0
  {
    var negative := |raw| > 0 && raw[0] == '-';
    var digits := if negative then raw[1..] else raw;
    if |digits| == 0 || !AllDigits(digits) then None
    else
      var v: int := if negative then -(DigitsValue(digits) as int) else DigitsValue(digits);
      if -0x8000_0000 <= v < 0x8000_0000 then Some(v) else None
  }

  /** The decimal text of a natural number is all digits, has no leading zero and spells the number. */
  lemma {:induction false} NatToDecimalDigits(n: nat)
    ensures |NatToDecimal(n)| > 0 && AllDigits(NatToDecimal(n))
    ensures NatToDecimal(n)[0] == '0' ==> n == 0
    ensures DigitsValue(NatToDecimal(n)) == n
    decreases n
  {
    var s := NatToDecimal(n);
    if n >= 10 {
      NatToDecimalDigits(n / 10);
      assert s[..|s| - 1] == NatToDecimal(n / 10);
      assert s[0] == NatToDecimal(n / 10)[0];
    }
  }

  /** What `int.ToString()` writes, `GetInt32` reads back: the round trip that
      the `sdpMLineIndex` field of a candidate message goes through. */
  lemma ParseIntToDecimal(n: Int32)
    ensures IsIntegerToken(IntToDecimal(n))
    ensures ParseInt32(IntToDecimal(n)) == Some(n)
  {
    NatToDecimalDigits(if n < 0 then -(n as int) else n);
    if n < 0 {
      assert ("-" + NatToDecimal(-(n as int)))[1..] == NatToDecimal(-(n as int));
    }
  }
}
