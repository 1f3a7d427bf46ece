/** Strings: decimal numerals, joining, splitting and trimming. */
module Text {
  import opened Common

  // ---- decimal numerals ------------------------------------------------------------------

  function Digit(d: nat): char
    requires d < 10
  {
    ('0' as int + d) as char
  }

  predicate IsDigit(c: char) {
    '0' <= c <= '9'
  }

  function DigitValue(c: char): nat
    requires IsDigit(c)
  {
    c as int - '0' as int
  }

  /** The decimal numeral of `n`, as `%d` and template literals render it. */
  function Decimal(n: nat): string {
    if n < 10 then [Digit(n)] else Decimal(n / 10) + [Digit(n % 10)]
  }

  /** The number a string of digits denotes. */
  function DigitsValue(s: string): nat
    requires forall c :: c in s ==> IsDigit(c)
  {
    if s == [] then 0 else 10 * DigitsValue(Init(s)) + DigitValue(Last(s))
  }

  lemma {:induction false} DecimalRoundTrip(n: nat)
    ensures forall c :: c in Decimal(n) ==> IsDigit(c)
    ensures Decimal(n) != []
    ensures DigitsValue(Decimal(n)) == n
  {
    if n < 10 {
      assert Init(Decimal(n)) == [];
    } else {
      DecimalRoundTrip(n / 10);
      assert Init(Decimal(n)) == Decimal(n / 10);
    }
  }

  lemma DecimalInjective(m: nat, n: nat)
    ensures Decimal(m) == Decimal(n) ==> m == n
  {
    DecimalRoundTrip(m);
    DecimalRoundTrip(n);
  }

  // ---- concatenation ---------------------------------------------------------------------

  /** `parts.join('')`. */
  function Concat(parts: seq<string>): string {
    if parts == [] then "" else Concat(Init(parts)) + Last(parts)
  }

  // ---- splitting -------------------------------------------------------------------------

  /** `strings.Split` at a one-character separator. */
  function Split(s: string, sep: char): (r: seq<string>)
    ensures r != []
  {
    if s == [] then [[]]
    else
      var others := Split(s[1..], sep);
      if s[0] == sep then [[]] + others else [[s[0]] + others[0]] + others[1..]
  }

  function Join(parts: seq<string>, sep: char): string {
    if parts == [] then []
    else if |parts| == 1 then parts[0]
    else parts[0] + [sep] + Join(parts[1..], sep)
  }

  lemma {:induction false} SplitFirst(a: string, sep: char, b: string)
    requires sep !in a
    ensures Split(a, sep) == [a]
    ensures Split(a + [sep] + b, sep) == [a] + Split(b, sep)
  {
    if a == [] {
      assert (a + [sep] + b)[1..] == b;
    } else {
      assert a[0] in a && forall c :: c in a[1..] ==> c in a;
      SplitFirst(a[1..], sep, b);
      assert (a + [sep] + b)[1..] == a[1..] + [sep] + b;
      assert [a[0]] + a[1..] == a;
    }
  }

  /** Parts without the separator come back from their join; nothing joins to one empty part. */
  lemma {:induction false} SplitOfJoin(parts: seq<string>, sep: char)
    requires parts != [] && forall p :: p in parts ==> sep !in p
    ensures Split(Join(parts, sep), sep) == parts
  {
    assert parts[0] in parts;
    if |parts| == 1 {
      SplitFirst(parts[0], sep, []);
    } else {
      assert forall p :: p in parts[1..] ==> p in parts;
      SplitOfJoin(parts[1..], sep);
      SplitFirst(parts[0], sep, Join(parts[1..], sep));
    }
  }

  // ---- white space and numbers as JavaScript reads them ------------------------------------

  /** The characters `String.prototype.trim` removes. */
  predicate IsJsSpace(c: char) {
    || c in "\t\n\r \U{0B}\U{0C}\U{A0}\U{FEFF}\U{1680}\U{2028}\U{2029}\U{202F}\U{205F}\U{3000}"
    || '\U{2000}' <= c <= '\U{200A}'
  }

  /** The characters `strings.TrimSpace` removes. */
  predicate IsGoSpace(c: char) {
    || c in "\t\n\r \U{0B}\U{0C}\U{85}\U{A0}\U{1680}\U{2028}\U{2029}\U{202F}\U{205F}\U{3000}"
    || '\U{2000}' <= c <= '\U{200A}'
  }

  function TrimLeft(s: string, space: char -> bool): string {
    if s != [] && space(s[0]) then TrimLeft(s[1..], space) else s
  }

  function TrimRight(s: string, space: char -> bool): string {
    if s != [] && space(Last(s)) then TrimRight(Init(s), space) else s
  }

  function Trim(s: string, space: char -> bool): string {
    TrimRight(TrimLeft(s, space), space)
  }

  /** The longest prefix of digits. */
  function DigitPrefix(s: string): (d: string)
    ensures forall c :: c in d ==> IsDigit(c)
  {
    if s != [] && IsDigit(s[0]) then [s[0]] + DigitPrefix(s[1..]) else []
  }

  /** `Number.parseInt(s, 10)` on a trimmed string: an optional sign, then digits; the rest is ignored. */
  function ParseInt(s: string): Option<int> {
    var signed := s != [] && (s[0] == '-' || s[0] == '+');
    var digits := DigitPrefix(if signed then s[1..] else s);
    var value: int := DigitsValue(digits);
    if digits == [] then None
    else if signed && s[0] == '-' then Some(-value)
    else Some(value)
  }

  const MAX_SAFE_INTEGER := 0x1F_FFFF_FFFF_FFFF

  /** `Number.isSafeInteger`. */
  predicate IsSafeInteger(n: int) {
    -MAX_SAFE_INTEGER <= n <= MAX_SAFE_INTEGER
  }

  lemma {:induction false} DigitPrefixOfDigits(s: string)
    requires forall c :: c in s ==> IsDigit(c)
    ensures DigitPrefix(s) == s
  {
    if s != [] {
      assert s[0] in s;
      DigitPrefixOfDigits(s[1..]);
    }
  }

  lemma DigitsNeedNoTrim(s: string)
    requires s != [] && forall c :: c in s ==> IsDigit(c)
    ensures Trim(s, IsJsSpace) == s
  {
    assert s[0] in s && Last(s) in s;
  }

  lemma {:induction false} SpaceInFrontGoes(before: string, s: string, space: char -> bool)
    requires forall c :: c in before ==> space(c)
    requires s != [] && !space(s[0])
    ensures TrimLeft(before + s, space) == s
  {
    if before == [] {
      assert before + s == s;
    } else {
      assert before[0] in before && (before + s)[1..] == before[1..] + s;
      SpaceInFrontGoes(before[1..], s, space);
    }
  }

  lemma {:induction false} SpaceBehindGoes(s: string, after: string, space: char -> bool)
    requires forall c :: c in after ==> space(c)
    requires s != [] && !space(Last(s))
    ensures TrimRight(s + after, space) == s
  {
    if after == [] {
      assert s + after == s;
    } else {
      assert Last(after) in after && Init(s + after) == s + Init(after) && Last(s + after) == Last(after);
      SpaceBehindGoes(s, Init(after), space);
    }
  }

  lemma {:induction false} TrimmedIsPart(s: string, space: char -> bool)
    ensures forall c :: c in Trim(s, space) ==> c in s
  {
    PartOfLeft(s, space);
    PartOfRight(TrimLeft(s, space), space);
  }

  lemma {:induction false} PartOfLeft(s: string, space: char -> bool)
    ensures forall c :: c in TrimLeft(s, space) ==> c in s
  {
    if s != [] && space(s[0]) {
      PartOfLeft(s[1..], space);
    }
  }

  lemma {:induction false} PartOfRight(s: string, space: char -> bool)
    ensures forall c :: c in TrimRight(s, space) ==> c in s
  {
    if s != [] && space(Last(s)) {
      PartOfRight(Init(s), space);
    }
  }

  /** Outer space goes, and nothing else. */
  lemma OuterSpaceGoes(before: string, s: string, after: string, space: char -> bool)
    requires forall c :: c in before || c in after ==> space(c)
    requires s != [] && !space(s[0]) && !space(Last(s))
    ensures Trim(before + s + after, space) == s
  {
    assert before + s + after == before + (s + after) && (s + after)[0] == s[0];
    SpaceInFrontGoes(before, s + after, space);
    SpaceBehindGoes(s, after, space);
  }

  lemma {:induction false} DigitsThenOther(digits: string, rest: string)
    requires forall c :: c in digits ==> IsDigit(c)
    requires rest == [] || !IsDigit(rest[0])
    ensures DigitPrefix(digits + rest) == digits
  {
    if digits == [] {
      assert digits + rest == rest;
    } else {
      assert digits[0] in digits && (digits + rest)[1..] == digits[1..] + rest;
      DigitsThenOther(digits[1..], rest);
    }
  }

  function Signed(sign: string, n: nat): int {
    if sign == "-" then 0 - n else n
  }

  /** A number is read off a text that begins with it, signed or not. */
  lemma ParseIntOfPrefix(sign: string, n: nat, rest: string)
    requires sign in ["", "+", "-"] && (rest == [] || !IsDigit(rest[0]))
    ensures ParseInt(sign + Decimal(n) + rest) == Some(Signed(sign, n))
  {
    hide Decimal, DigitPrefix, DigitsValue;
    DecimalRoundTrip(n);
    DigitsThenOther(Decimal(n), rest);
    var s := sign + Decimal(n) + rest;
    assert Decimal(n)[0] in Decimal(n);
    if sign == "" {
      assert s == Decimal(n) + rest && s[0] == Decimal(n)[0];
    } else {
      assert s[1..] == Decimal(n) + rest && s[0] == sign[0];
    }
  }

  /** A decimal numeral reads back as its number. */
  lemma ParseIntOfDecimal(n: nat)
    ensures ParseInt(Trim(Decimal(n), IsJsSpace)) == Some(n)
  {
    DecimalRoundTrip(n);
    DigitsNeedNoTrim(Decimal(n));
    DigitPrefixOfDigits(Decimal(n));
    assert Decimal(n)[0] in Decimal(n);
  }
}
