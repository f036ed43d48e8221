/** String helpers with the meaning JavaScript gives them: prefix tests,
    substring search (String.prototype.includes), ASCII lower-casing and
    decimal digits. */
module Text {
  import opened Outcomes

  predicate StartsWith(s: string, prefix: string) {
    |prefix| <= |s| && s[..|prefix|] == prefix
  }

  /** String.prototype.includes: does sub occur somewhere in s? */
  function Includes(s: string, sub: string): bool
    decreases |s|
  {
    StartsWith(s, sub) || (|s| > 0 && Includes(s[1..], sub))
  }

  predicate OccursAt(s: string, sub: string, i: int) {
    0 <= i && i + |sub| <= |s| && s[i..i + |sub|] == sub
  }

  lemma {:induction false} IncludesHasWitness(s: string, sub: string) returns (i: int)
    requires Includes(s, sub)
    ensures OccursAt(s, sub, i)
    decreases |s|
  {
    if StartsWith(s, sub) {
      i := 0;
    } else {
      var j := IncludesHasWitness(s[1..], sub);
      assert s[j + 1..j + 1 + |sub|] == s[1..][j..j + |sub|];
      i := j + 1;
    }
  }

  lemma {:induction false} OccursAtIncludes(s: string, sub: string, i: int)
    requires OccursAt(s, sub, i)
    ensures Includes(s, sub)
    decreases |s|
  {
    if i > 0 {
      assert s[1..][i - 1..i - 1 + |sub|] == s[i..i + |sub|];
      OccursAtIncludes(s[1..], sub, i - 1);
    }
  }

  /** The search finds sub exactly when some position of s holds it. */
  lemma IncludesIff(s: string, sub: string)
    ensures Includes(s, sub) <==> exists i :: OccursAt(s, sub, i)
  {
    if Includes(s, sub) {
      var i := IncludesHasWitness(s, sub);
    }
    forall i | OccursAt(s, sub, i) ensures Includes(s, sub) {
      OccursAtIncludes(s, sub, i);
    }
  }

  /** The empty string occurs in every string. */
  lemma IncludesEmpty(s: string)
    ensures Includes(s, "")
  {
    assert StartsWith(s, "");
  }

  function LowerChar(c: char): char {
    if 'A' <= c <= 'Z' then (c as int + 32) as char else c
  }

  /** String.prototype.toLowerCase, restricted to ASCII letters. */
  function Lower(s: string): (r: string)
    ensures |r| == |s|
    ensures forall i :: 0 <= i < |s| ==> r[i] == LowerChar(s[i])
  {
    seq(|s|, i requires 0 <= i < |s| => LowerChar(s[i]))
  }

  lemma LowerIdempotent(s: string)
    ensures Lower(Lower(s)) == Lower(s)
  {
  }

  predicate IsDigit(c: char) {
    '0' <= c <= '9'
  }

  function DigitChar(n: int): (c: char)
    requires 0 <= n <= 9
    ensures IsDigit(c)
  {
    (48 + n) as char
  }

  function DigitValue(c: char): (n: int)
    requires IsDigit(c)
    ensures 0 <= n <= 9
  {
    c as int - 48
  }

  /** The decimal digits of n, without leading zeros. */
  function Digits(n: nat): (r: string)
    ensures |r| >= 1
    ensures forall i :: 0 <= i < |r| ==> IsDigit(r[i])
  {
    if n < 10 then [DigitChar(n)] else Digits(n / 10) + [DigitChar(n % 10)]
  }

  /** Number-to-string conversion of an integer, as String(n) writes it. */
  function Decimal(n: int): string {
    if n < 0 then "-" + Digits(-n) else Digits(n)
  }

  /** n written with exactly two digits. */
  function Pad2(n: int): (r: string)
    requires 0 <= n < 100
    ensures |r| == 2 && IsDigit(r[0]) && IsDigit(r[1])
  {
    [DigitChar(n / 10), DigitChar(n % 10)]
  }

  /** n written with exactly four digits. */
  function Pad4(n: int): (r: string)
    requires 0 <= n < 10000
    ensures |r| == 4 && forall i :: 0 <= i < 4 ==> IsDigit(r[i])
  {
    [DigitChar(n / 1000), DigitChar(n / 100 % 10), DigitChar(n / 10 % 10), DigitChar(n % 10)]
  }

  /** n written with at least six digits. */
  function Pad6(n: nat): string {
    if n < 1000000 then
      [DigitChar(n / 100000), DigitChar(n / 10000 % 10), DigitChar(n / 1000 % 10),
       DigitChar(n / 100 % 10), DigitChar(n / 10 % 10), DigitChar(n % 10)]
    else Digits(n)
  }

  function Parse2(s: string): int
    requires |s| == 2 && IsDigit(s[0]) && IsDigit(s[1])
  {
    10 * DigitValue(s[0]) + DigitValue(s[1])
  }

  function Parse4(s: string): int
    requires |s| == 4 && forall i :: 0 <= i < 4 ==> IsDigit(s[i])
  {
    1000 * DigitValue(s[0]) + 100 * DigitValue(s[1]) + 10 * DigitValue(s[2]) + DigitValue(s[3])
  }

  lemma Pad2RoundTrip(n: int)
    requires 0 <= n < 100
    ensures Parse2(Pad2(n)) == n
  {
  }

  lemma Parse2RoundTrip(s: string)
    requires |s| == 2 && IsDigit(s[0]) && IsDigit(s[1])
    ensures 0 <= Parse2(s) < 100 && Pad2(Parse2(s)) == s
  {
    var a, b := DigitValue(s[0]), DigitValue(s[1]);
    assert (10 * a + b) / 10 == a;
    assert (10 * a + b) % 10 == b;
  }

  lemma Pad4RoundTrip(n: int)
    requires 0 <= n < 10000
    ensures Parse4(Pad4(n)) == n
  {
    var q1 := n / 10;
    var q2 := q1 / 10;
    var q3 := q2 / 10;
    assert n == 100 * q2 + (10 * (q1 % 10) + n % 10);
    assert n / 100 == q2;
    assert n == 1000 * q3 + (100 * (q2 % 10) + 10 * (q1 % 10) + n % 10);
    assert n / 1000 == q3;
  }

  lemma Parse4RoundTrip(s: string)
    requires |s| == 4 && forall i :: 0 <= i < 4 ==> IsDigit(s[i])
    ensures 0 <= Parse4(s) < 10000 && Pad4(Parse4(s)) == s
  {
    var a, b, c, d := DigitValue(s[0]), DigitValue(s[1]), DigitValue(s[2]), DigitValue(s[3]);
    var n := 1000 * a + 100 * b + 10 * c + d;
    assert n / 1000 == a;
    assert n / 100 == 10 * a + b;
    assert n / 10 == 100 * a + 10 * b + c;
    assert n / 100 % 10 == b;
    assert n / 10 % 10 == c;
    assert n % 10 == d;
  }

  // ---------------------------------------------------------------------------
  // parseInt(s, 10)

  /** The white space parseInt skips: ECMAScript's WhiteSpace (tab, vertical
      tab, form feed, the byte order mark and every space separator of
      category Zs) and LineTerminator (line feed, carriage return, U+2028 and
      U+2029). */
  predicate IsSpace(c: char) {
    c == ' ' || c == '\t' || c == '\n' || c == '\r' || c as int == 11 || c as int == 12
    || c as int == 0xA0 || c as int == 0xFEFF || c as int == 0x1680
    || 0x2000 <= c as int <= 0x200A || c as int == 0x2028 || c as int == 0x2029
    || c as int == 0x202F || c as int == 0x205F || c as int == 0x3000
  }

  /** s without its leading white space. */
  function TrimStart(s: string): (r: string)
    ensures |r| <= |s| && r == s[|s| - |r|..]
    ensures r == [] || !IsSpace(r[0])
  {
    if s != [] && IsSpace(s[0]) then TrimStart(s[1..]) else s
  }

  /** The number of decimal digits at the start of s. */
  function LeadingDigitCount(s: string): (k: nat)
    ensures k <= |s|
    ensures forall i :: 0 <= i < k ==> IsDigit(s[i])
    ensures k < |s| ==> !IsDigit(s[k])
  {
    if s != [] && IsDigit(s[0]) then 1 + LeadingDigitCount(s[1..]) else 0
  }

  /** The value of a string of decimal digits. */
  function DigitsValue(s: string): nat
    requires forall i :: 0 <= i < |s| ==> IsDigit(s[i])
  {
    if s == [] then 0 else 10 * DigitsValue(s[..|s| - 1]) + DigitValue(s[|s| - 1])
  }

  /** The longest run of digits at the start of s, as a number; None when
      s does not start with a digit. */
  function ParseDigits(s: string): (r: Option<int>)
    ensures r.Some? ==> r.value >= 0
  {
    var k := LeadingDigitCount(s);
    if k == 0 then None else Some(DigitsValue(s[..k]))
  }

  /** An optional sign, then digits. */
  function ParseSigned(t: string): Option<int> {
    if t != [] && t[0] == '-' then
      (match ParseDigits(t[1..]) case None => None case Some(v) => Some(-v))
    else if t != [] && t[0] == '+' then ParseDigits(t[1..])
    else ParseDigits(t)
  }

  /** parseInt(s, 10): leading white space, an optional sign and the longest
      run of digits; None (NaN) when no digit follows. */
  function ParseInt(s: string): Option<int> {
    ParseSigned(TrimStart(s))
  }

  lemma {:induction false} DigitsValueOfDigits(n: nat)
    ensures DigitsValue(Digits(n)) == n
    decreases n
  {
    if n >= 10 {
      var s := Digits(n);
      assert s[..|s| - 1] == Digits(n / 10);
      DigitsValueOfDigits(n / 10);
    }
  }

  lemma {:induction false} LeadingDigitsOf(p: string, q: string)
    requires forall i :: 0 <= i < |p| ==> IsDigit(p[i])
    requires q == [] || !IsDigit(q[0])
    ensures LeadingDigitCount(p + q) == |p|
    decreases |p|
  {
    if p != [] {
      assert (p + q)[1..] == p[1..] + q;
      LeadingDigitsOf(p[1..], q);
    }
  }

  /** A digit string followed by a non-digit reads as its value. */
  lemma ParseDigitsOf(digits: string, rest: string)
    requires digits != [] && forall i :: 0 <= i < |digits| ==> IsDigit(digits[i])
    requires rest == [] || !IsDigit(rest[0])
    ensures ParseDigits(digits + rest) == Some(DigitsValue(digits))
  {
    LeadingDigitsOf(digits, rest);
    assert (digits + rest)[..|digits|] == digits;
  }

  /** Leading white space beyond ASCII is skipped too: an ideographic space
      (U+3000) before "5" reads as 5. */
  lemma ParseIntSkipsUnicodeSpace()
    ensures ParseInt([0x3000 as char] + "5") == Some(5)
  {
    var s := [0x3000 as char] + "5";
    assert IsSpace(s[0]) && s[1..] == "5";
    assert !IsSpace('5') && TrimStart("5") == "5";
    assert TrimStart(s) == "5";
    assert LeadingDigitCount("5") == 1;
    assert ParseDigits("5") == Some(5);
  }

  /** Text that starts with neither white space nor a sign is read as digits. */
  lemma ParseIntUnsigned(s: string)
    requires s != [] && IsDigit(s[0])
    ensures ParseInt(s) == ParseDigits(s)
  {
    assert TrimStart(s) == s;
  }

  /** Text that starts with a minus sign is read as negated digits. */
  lemma ParseIntNegative(u: string)
    ensures ParseDigits(u).None? ==> ParseInt(['-'] + u) == None
    ensures ParseDigits(u).Some? ==> ParseInt(['-'] + u) == Some(-ParseDigits(u).value)
  {
    var s := ['-'] + u;
    assert s[1..] == u;
    assert TrimStart(s) == s;
  }

  /** parseInt reads back what String(n) writes for an integer n, and stops at
      the first character that is not a digit. */
  lemma ParseIntDecimal(n: int, rest: string)
    requires rest == [] || !IsDigit(rest[0])
    ensures ParseInt(Decimal(n) + rest) == Some(n)
  {
    if n < 0 {
      ParseIntNegativeDecimal(n, rest);
    } else {
      ParseIntNaturalDecimal(n, rest);
    }
  }

  lemma ParseIntNegativeDecimal(n: int, rest: string)
    requires n < 0 && (rest == [] || !IsDigit(rest[0]))
    ensures ParseInt(Decimal(n) + rest) == Some(n)
  {
    var u := Digits(-n) + rest;
    assert Decimal(n) + rest == ['-'] + u;
    ParseDigitsOfDigits(-n, rest);
    assert ParseDigits(u) == Some(-n);
    ParseIntNegative(u);
  }

  lemma ParseDigitsOfDigits(m: nat, rest: string)
    requires rest == [] || !IsDigit(rest[0])
    ensures ParseDigits(Digits(m) + rest) == Some(m)
  {
    ParseDigitsOf(Digits(m), rest);
    DigitsValueOfDigits(m);
  }

  lemma ParseIntNaturalDecimal(n: nat, rest: string)
    requires rest == [] || !IsDigit(rest[0])
    ensures ParseInt(Decimal(n) + rest) == Some(n)
  {
    assert Decimal(n) == Digits(n);
    assert (Digits(n) + rest)[0] == Digits(n)[0];
    ParseIntUnsigned(Digits(n) + rest);
    ParseDigitsOfDigits(n, rest);
  }

  /** Without a digit after the white space and sign there is no number. */
  lemma ParseIntNoDigits(s: string)
    requires forall i :: 0 <= i < |s| ==> !IsDigit(s[i])
    ensures ParseInt(s) == None
  {
    var t := TrimStart(s);
    assert forall i :: 0 <= i < |t| ==> t[i] == s[|s| - |t| + i];
    if t != [] {
      assert !IsDigit(t[0]);
      assert t[1..] == [] || !IsDigit(t[1..][0]);
    }
  }
}
