/** The PHP built-ins the upload core leans on, stated as functions on
    strings: `explode`/`implode`, `strpos`, `strtolower`/`strtoupper`,
    `str_replace`, `strrchr`, `pathinfo`, `is_numeric`, the `(bool)` cast
    and the decimal rendering of an int. */
module Php {
  import opened Wrappers

  /** A PHP scalar as it reaches a setter that type-checks or casts it. */
  datatype Scalar = Null | Bool(b: bool) | Int(i: int) | Str(s: string)

  /** `(bool) $v`: null, false, 0, "" and "0" are false, everything else true. */
  function Truthy(v: Scalar): bool {
    match v
    case Null => false
    case Bool(b) => b
    case Int(i) => i != 0
    case Str(s) => s != "" && s != "0"
  }

  // ----- decimal digits

  predicate IsDigit(c: char) {
    '0' <= c <= '9'
  }

  predicate AllDigits(s: string) {
    forall i :: 0 <= i < |s| ==> IsDigit(s[i])
  }

  function DigitValue(c: char): nat
    requires IsDigit(c)
  {
    c as int - '0' as int
  }

  function DigitChar(d: nat): (c: char)
    requires d < 10
    ensures IsDigit(c) && DigitValue(c) == d
  {
    ('0' as int + d) as char
  }

  /** The value of a string of decimal digits; leading zeros are allowed. */
  function DigitsValue(s: string): nat
    requires AllDigits(s)
  {
    if s == [] then 0 else 10 * DigitsValue(s[..|s| - 1]) + DigitValue(s[|s| - 1])
  }

  /** The decimal string of a non-negative int, as PHP's `.` operator writes it. */
  function Decimal(n: nat): (s: string)
    ensures |s| > 0 && AllDigits(s)
  {
    if n < 10 then [DigitChar(n)] else Decimal(n / 10) + [DigitChar(n % 10)]
  }

  /** Reading back the decimal string of `n` gives `n`. */
  lemma {:induction false} DecimalValue(n: nat)
    ensures DigitsValue(Decimal(n)) == n
  {
    if n >= 10 {
      DecimalValue(n / 10);
      var s := Decimal(n);
      assert s[..|s| - 1] == Decimal(n / 10);
    }
  }

  /** Distinct numbers have distinct decimal strings. */
  lemma DecimalInjective(m: nat, n: nat)
    requires Decimal(m) == Decimal(n)
    ensures m == n
  {
    DecimalValue(m);
    DecimalValue(n);
  }

  /** The decimal string of any int, with a leading '-' for negatives. */
  function SignedDecimal(i: int): (s: string)
    ensures |s| > 0
  {
    if i < 0 then "-" + Decimal(-i) else Decimal(i)
  }

  /** `(string) $v`. */
  function ToString(v: Scalar): string {
    match v
    case Null => ""
    case Bool(b) => if b then "1" else ""
    case Int(i) => SignedDecimal(i)
    case Str(s) => s
  }

  // ----- numeric strings

  /** The white space PHP skips before a number: space, tab, line feed,
      carriage return, vertical tab and form feed. */
  predicate IsSpace(c: char) {
    c == ' ' || c == '\t' || c == '\n' || c == '\r' || c as int == 11 || c as int == 12
  }

  /** The digits a string starts with. */
  function LeadingDigits(s: string): (r: string)
    ensures AllDigits(r) && |r| <= |s|
    ensures |r| < |s| ==> !IsDigit(s[|r|])
    ensures AllDigits(s) ==> r == s
  {
    if s == [] || !IsDigit(s[0]) then [] else [s[0]] + LeadingDigits(s[1..])
  }

  /** Digits followed by anything that does not start with a digit: the
      digits are the leading ones. */
  lemma {:induction false} LeadingDigitsOf(a: string, t: string)
    requires AllDigits(a) && (t == [] || !IsDigit(t[0]))
    ensures LeadingDigits(a + t) == a
  {
    if a != [] {
      LeadingDigitsOf(a[1..], t);
      assert (a + t)[1..] == a[1..] + t;
    }
  }

  function Pow10(n: nat): (p: nat)
    ensures p >= 1
  {
    if n == 0 then 1 else 10 * Pow10(n - 1)
  }

  /** Ten to the power `e`, for any integer `e`. */
  function Scale(e: int): real {
    if e >= 0 then Pow10(e) as real else 1.0 / Pow10(-e) as real
  }

  /** Whether a string starts with a sign, and whether that sign is '-'. */
  function SignLength(s: string): nat {
    if |s| > 0 && (s[0] == '+' || s[0] == '-') then 1 else 0
  }

  predicate Negative(s: string) {
    |s| > 0 && s[0] == '-'
  }

  /** A decimal number written exactly: significand times ten to the
      exponent. */
  datatype Numeral = Numeral(significand: int, exponent: int) {
    function Value(): real {
      significand as real * Scale(exponent)
    }
  }

  /** The decimal mantissa a string starts with, and the length it takes:
      digits, then optionally '.' and more digits, with at least one digit
      in all; None when there is none. */
  function Mantissa(s: string): (r: Option<(Numeral, nat)>)
    ensures r.Some? ==> 0 < r.value.1 <= |s|
  {
    var a := LeadingDigits(s);
    if |a| < |s| && s[|a|] == '.' then AfterPoint(a, s[|a| + 1..])
    else if a == [] then None
    else Some((Numeral(DigitsValue(a), 0), |a|))
  }

  /** The mantissa of digits `a`, a point and then `rest`: all its digits,
      scaled down by as many places as follow the point. */
  function AfterPoint(a: string, rest: string): (r: Option<(Numeral, nat)>)
    requires AllDigits(a)
    ensures r.Some? ==> r.value.1 == |a| + 1 + |LeadingDigits(rest)|
  {
    var b := LeadingDigits(rest);
    if |a| + |b| == 0 then None
    else Some((Numeral(DigitsValue(a + b), -|b|), |a| + 1 + |b|))
  }

  /** The exponent a string starts with, and the length it takes: 'e' or
      'E', an optional sign and at least one digit; None when there is none. */
  function Exponent(s: string): (r: Option<(int, nat)>)
    ensures r.Some? ==> 0 < r.value.1 <= |s|
  {
    if |s| > 0 && (s[0] == 'e' || s[0] == 'E') then
      var k := SignLength(s[1..]);
      var d := LeadingDigits(s[1 + k..]);
      if d == [] then None
      else Some((if Negative(s[1..]) then -(DigitsValue(d) as int) else DigitsValue(d) as int, 1 + k + |d|))
    else None
  }

  /** The unsigned number a string starts with, and the length it takes: a
      mantissa and an optional exponent. */
  function Unsigned(s: string): (r: Option<(Numeral, nat)>)
    ensures r.Some? ==> 0 < r.value.1 <= |s|
  {
    match Mantissa(s)
    case None => None
    case Some((m, n)) =>
      match Exponent(s[n..])
      case None => Some((m, n))
      case Some((x, len)) => Some((Numeral(m.significand, m.exponent + x), n + len))
  }

  /** The signed number a string starts with, and the length it takes: an
      optional sign and an unsigned number. */
  function Signed(s: string): (r: Option<(Numeral, nat)>)
    ensures r.Some? ==> 0 < r.value.1 <= |s|
  {
    var k := SignLength(s);
    match Unsigned(s[k..])
    case None => None
    case Some((v, n)) =>
      Some((Numeral(if Negative(s) then -v.significand else v.significand, v.exponent), k + n))
  }

  /** The number a string starts with as PHP 7 reads one, and the length
      of the text it takes: white space, then a signed number. None when no
      number starts it. */
  function LeadingNumber(s: string): (r: Option<(Numeral, nat)>)
    ensures r.Some? ==> 0 < r.value.1 <= |s|
  {
    if s != [] && IsSpace(s[0]) then
      match LeadingNumber(s[1..])
      case None => None
      case Some((v, n)) => Some((v, n + 1))
    else Signed(s)
  }

  /** `is_numeric` on a string, with the number it stands for: the whole
      string is one number (white space may precede it, nothing follows). */
  function NumericString(s: string): Option<Numeral> {
    match LeadingNumber(s)
    case Some((v, n)) => if n == |s| then Some(v) else None
    case None => None
  }

  /** What a string stands for when PHP 7 compares it with an int: the
      number it starts with, and 0 when it starts with none. */
  function LeadingValue(s: string): real {
    match LeadingNumber(s)
    case Some((v, _)) => v.Value()
    case None => 0.0
  }

  /** The number an `is_numeric` value stands for, or None when it is not
      numeric: an int, or a numeric string. */
  function NumericValue(v: Scalar): Option<real> {
    match v
    case Int(i) => Some(i as real)
    case Str(s) => if NumericString(s).Some? then Some(NumericString(s).value.Value()) else None
    case _ => None
  }

  /** The integer a numeric value stands for, or None when it is not
      numeric or has a fractional part. */
  function IntegralValue(v: Scalar): (r: Option<int>)
    ensures r.Some? <==> NumericValue(v).Some? && NumericValue(v).value == NumericValue(v).value.Floor as real
    ensures r.Some? ==> r.value as real == NumericValue(v).value
  {
    match NumericValue(v)
    case Some(x) => if x == x.Floor as real then Some(x.Floor) else None
    case None => None
  }

  /** A string that starts with a digit or a point is read with neither
      white space nor sign. */
  lemma LeadingUnsigned(s: string)
    requires s != [] && (IsDigit(s[0]) || s[0] == '.')
    ensures LeadingNumber(s) == Unsigned(s)
  {
    assert !IsSpace(s[0]) && SignLength(s) == 0 && !Negative(s);
    assert LeadingNumber(s) == Signed(s);
    assert s[0..] == s;
    match Unsigned(s)
    case None =>
    case Some((v, n)) =>
      assert Signed(s) == Some((Numeral(v.significand, v.exponent), n));
  }

  /** A mantissa without a point is worth its digits. */
  lemma MantissaOfDigits(s: string, a: string)
    requires a != [] && LeadingDigits(s) == a && (|s| == |a| || s[|a|] != '.')
    ensures Mantissa(s) == Some((Numeral(DigitsValue(a), 0), |a|))
  {
  }

  /** A mantissa with a point is worth all its digits, scaled down by as
      many places as follow the point. */
  lemma MantissaOfPoint(s: string, a: string, b: string)
    requires LeadingDigits(s) == a && |s| > |a| && s[|a|] == '.'
    requires LeadingDigits(s[|a| + 1..]) == b && |a| + |b| > 0
    ensures Mantissa(s) == Some((Numeral(DigitsValue(a + b), -|b|), |a| + 1 + |b|))
  {
    assert Mantissa(s) == AfterPoint(a, s[|a| + 1..]);
  }

  /** A mantissa that takes the whole string is the whole unsigned number. */
  lemma UnsignedWhole(s: string, v: Numeral)
    requires Mantissa(s) == Some((v, |s|))
    ensures Unsigned(s) == Some((v, |s|))
  {
    assert s[|s|..] == [];
  }

  /** A digit string is numeric and stands for its value, both for
      `is_numeric` and when compared with an int. */
  lemma NumericDigits(s: string)
    requires |s| > 0 && AllDigits(s)
    ensures NumericString(s) == Some(Numeral(DigitsValue(s), 0))
    ensures NumericValue(Str(s)) == Some(DigitsValue(s) as real)
    ensures LeadingValue(s) == DigitsValue(s) as real
  {
    var v := Numeral(DigitsValue(s), 0);
    MantissaOfDigits(s, s);
    UnsignedWhole(s, v);
    LeadingUnsigned(s);
    assert LeadingNumber(s) == Some((v, |s|));
    assert NumericString(s) == Some(v);
    assert v.Value() == DigitsValue(s) as real by {
      assert Scale(0) == 1.0;
    }
  }

  /** A digit string with a fractional part is numeric and stands for all
      its digits scaled down by the places after the point. */
  lemma NumericFraction(a: string, b: string)
    requires AllDigits(a) && AllDigits(b) && |a| + |b| > 0
    ensures NumericString(a + "." + b) == Some(Numeral(DigitsValue(a + b), -|b|))
  {
    var s := a + "." + b;
    assert LeadingDigits(s) == a && |s| > |a| && s[|a|] == '.' && s[|a| + 1..] == b
      && (IsDigit(s[0]) || s[0] == '.') by {
      assert s == a + ("." + b);
      LeadingDigitsOf(a, "." + b);
    }
    MantissaOfPoint(s, a, b);
    UnsignedWhole(s, Numeral(DigitsValue(a + b), -|b|));
    LeadingUnsigned(s);
  }

  /** 'e', an optional '-' and digits make an exponent of the digits'
      value, negated after '-'. */
  lemma ExponentOf(d: string, negative: bool)
    requires |d| > 0 && AllDigits(d)
    ensures var e := (if negative then "e-" else "e") + d;
      Exponent(e) == Some((if negative then -(DigitsValue(d) as int) else DigitsValue(d) as int, |e|))
  {
    var e := (if negative then "e-" else "e") + d;
    var k := if negative then 1 else 0;
    assert SignLength(e[1..]) == k && Negative(e[1..]) == negative && e[1 + k..] == d by {
      assert e[1..] == (if negative then "-" else "") + d;
    }
  }

  /** Digits with an exponent are numeric and stand for the digits' value
      times a power of ten, a negative exponent dividing by it. */
  lemma NumericExponent(a: string, d: string, negative: bool)
    requires |a| > 0 && AllDigits(a) && |d| > 0 && AllDigits(d)
    ensures NumericString(a + (if negative then "e-" else "e") + d)
      == Some(Numeral(DigitsValue(a), if negative then -(DigitsValue(d) as int) else DigitsValue(d) as int))
  {
    var e := (if negative then "e-" else "e") + d;
    var s := a + e;
    assert LeadingDigits(s) == a && s[|a|..] == e && s[|a|] == 'e' && IsDigit(s[0])
      && s == a + (if negative then "e-" else "e") + d by {
      LeadingDigitsOf(a, e);
    }
    MantissaOfDigits(s, a);
    ExponentOf(d, negative);
    LeadingUnsigned(s);
  }

  /** A leading sign negates or keeps the number a string of digits stands
      for. */
  lemma NumericSigned(t: string, s: string)
    requires |s| > 0 && AllDigits(s)
    requires |t| == |s| + 1 && (t[0] == '-' || t[0] == '+') && t[1..] == s
    ensures NumericString(t) == Some(Numeral(if t[0] == '-' then -(DigitsValue(s) as int) else DigitsValue(s) as int, 0))
  {
    var v := Numeral(DigitsValue(s), 0);
    assert Unsigned(s) == Some((v, |s|)) by {
      MantissaOfDigits(s, s);
      UnsignedWhole(s, v);
    }
    assert SignLength(t) == 1 && !IsSpace(t[0]);
  }

  /** White space before a number changes neither whether it is numeric
      nor what it stands for. */
  lemma NumericAfterSpace(c: char, s: string)
    requires IsSpace(c)
    ensures NumericString([c] + s) == NumericString(s)
    ensures LeadingValue([c] + s) == LeadingValue(s)
  {
    assert ([c] + s)[1..] == s;
  }

  /** The decimal string of an int is numeric and stands for that int. */
  lemma NumericDecimal(i: int)
    ensures NumericValue(Str(SignedDecimal(i))) == Some(i as real)
    ensures IntegralValue(Str(SignedDecimal(i))) == Some(i)
  {
    assert NumericString(SignedDecimal(i)) == Some(Numeral(i, 0)) by {
      if i < 0 {
        DecimalValue(-i);
        NumericSigned(SignedDecimal(i), Decimal(-i));
      } else {
        DecimalValue(i);
        NumericDigits(Decimal(i));
      }
    }
    assert Numeral(i, 0).Value() == i as real by {
      assert Scale(0) == 1.0;
    }
  }

  // ----- explode / implode

  /** `explode($sep, $s)` for a one-character separator: the pieces between
      the separators, in order, empty pieces included. */
  function Explode(sep: char, s: string): (parts: seq<string>)
    ensures |parts| >= 1
    ensures forall i :: 0 <= i < |parts| ==> sep !in parts[i]
  {
    if s == [] then [""]
    else
      var rest := Explode(sep, s[1..]);
      if s[0] == sep then [""] + rest
      else [[s[0]] + rest[0]] + rest[1..]
  }

  /** `implode($sep, $parts)`. */
  function Implode(sep: char, parts: seq<string>): string
    requires |parts| >= 1
  {
    if |parts| == 1 then parts[0] else parts[0] + [sep] + Implode(sep, parts[1..])
  }

  /** Joining the pieces again gives back the exploded string. */
  lemma {:induction false} ImplodeExplode(sep: char, s: string)
    ensures Implode(sep, Explode(sep, s)) == s
  {
    if s != [] {
      ImplodeExplode(sep, s[1..]);
      var rest := Explode(sep, s[1..]);
      if s[0] == sep {
        assert ([""] + rest)[1..] == rest;
      } else if |rest| > 1 {
        assert ([[s[0]] + rest[0]] + rest[1..])[1..] == rest[1..];
      }
    }
  }

  /** Exploding a separator-free prefix followed by more text. */
  lemma {:induction false} ExplodePrefix(sep: char, p: string, t: string)
    requires sep !in p
    ensures Explode(sep, p + t) == [p + Explode(sep, t)[0]] + Explode(sep, t)[1..]
  {
    var e := Explode(sep, t);
    if p == [] {
      assert p + t == t && p + e[0] == e[0];
      assert e == [e[0]] + e[1..];
    } else {
      var s := p + t;
      assert s[0] == p[0] && s[0] != sep && s[1..] == p[1..] + t;
      ExplodePrefix(sep, p[1..], t);
      var rest := Explode(sep, s[1..]);
      assert rest[0] == p[1..] + e[0] && rest[1..] == e[1..];
      assert Explode(sep, s) == [[s[0]] + rest[0]] + rest[1..];
      assert [p[0]] + (p[1..] + e[0]) == p + e[0];
    }
  }

  /** Exploding joined separator-free pieces gives back the pieces. */
  lemma {:induction false} ExplodeImplode(sep: char, parts: seq<string>)
    requires |parts| >= 1
    requires forall i :: 0 <= i < |parts| ==> sep !in parts[i]
    ensures Explode(sep, Implode(sep, parts)) == parts
  {
    if |parts| == 1 {
      ExplodePrefix(sep, parts[0], "");
      assert parts[0] + "" == parts[0];
    } else {
      var tail := Implode(sep, parts[1..]);
      ExplodeImplode(sep, parts[1..]);
      ExplodePrefix(sep, parts[0], [sep] + tail);
      assert parts[0] + [sep] + tail == parts[0] + ([sep] + tail);
      assert ([sep] + tail)[1..] == tail;
      var e := Explode(sep, [sep] + tail);
      assert e == [""] + parts[1..];
      assert e[1..] == parts[1..] && parts[0] + e[0] == parts[0];
      assert parts == [parts[0]] + parts[1..];
    }
  }

  /** A character that occurs in none of the pieces and is not the
      separator does not occur in the joined string. */
  lemma {:induction false} ImplodeExcludes(sep: char, parts: seq<string>, c: char)
    requires |parts| >= 1 && c != sep
    requires forall i :: 0 <= i < |parts| ==> c !in parts[i]
    ensures c !in Implode(sep, parts)
  {
    if |parts| > 1 {
      ImplodeExcludes(sep, parts[1..], c);
    }
  }

  // ----- splitting at the first occurrence

  /** The text before and after the first `c` in `s`, or None when `c` does
      not occur. */
  function SplitFirst(c: char, s: string): (r: Option<(string, string)>)
    ensures r.None? <==> c !in s
    ensures r.Some? ==> c !in r.value.0 && s == r.value.0 + [c] + r.value.1
  {
    if s == [] then None
    else if s[0] == c then Some(([], s[1..]))
    else match SplitFirst(c, s[1..])
      case None => None
      case Some((u, v)) => Some(([s[0]] + u, v))
  }

  /** The split of `u + [c] + v` at its first `c`, when `u` has none. */
  lemma SplitFirstOf(c: char, u: string, v: string)
    requires c !in u
    ensures SplitFirst(c, u + [c] + v) == Some((u, v))
  {
    var s := u + [c] + v;
    assert s[|u|] == c;
    var (u', v') := SplitFirst(c, s).value;
    assert s[|u'|] == c;
    assert |u'| == |u|;
    assert u' == s[..|u|] == u;
    assert v' == s[|u| + 1..] == v;
  }

  // ----- PCRE anchors

  /** The part of a subject that a pattern ending in `$` must match, for
      patterns that never match a newline: PCRE's `$` matches at the very
      end and also just before one final newline. */
  function AnchoredSubject(s: string): (r: string)
    ensures r == s || s == r + "\n"
  {
    if |s| > 0 && s[|s| - 1] == '\n' then s[..|s| - 1] else s
  }

  /** A subject not ending in a newline is matched as it is, and also with
      one newline appended. */
  lemma AnchoredSubjectOf(s: string)
    requires |s| > 0 && s[|s| - 1] != '\n'
    ensures AnchoredSubject(s) == s && AnchoredSubject(s + "\n") == s
  {
    assert (s + "\n")[..|s|] == s;
  }

  // ----- strpos

  /** `strpos($haystack, $needle) !== false`: the needle occurs somewhere in
      the haystack; the empty needle occurs in every string. */
  predicate Contains(haystack: string, needle: string) {
    (|needle| <= |haystack| && haystack[..|needle|] == needle)
    || (|haystack| > 0 && Contains(haystack[1..], needle))
  }

  /** An occurrence of `needle` in `haystack` at offset `i`. */
  predicate OccursAt(haystack: string, needle: string, i: int) {
    0 <= i && i + |needle| <= |haystack| && haystack[i..i + |needle|] == needle
  }

  /** An occurrence of `needle` in `haystack` at some offset. */
  ghost predicate Occurs(haystack: string, needle: string) {
    exists i :: OccursAt(haystack, needle, i)
  }

  /** Contains is "occurs at some offset". */
  lemma {:induction false} ContainsIffOccurs(haystack: string, needle: string)
    ensures Contains(haystack, needle) <==> Occurs(haystack, needle)
  {
    if |needle| <= |haystack| && haystack[..|needle|] == needle {
      assert OccursAt(haystack, needle, 0);
    } else if |haystack| > 0 {
      ContainsIffOccurs(haystack[1..], needle);
      if Contains(haystack[1..], needle) {
        var i :| OccursAt(haystack[1..], needle, i);
        assert haystack[i + 1..i + 1 + |needle|] == haystack[1..][i..i + |needle|];
        assert OccursAt(haystack, needle, i + 1);
      }
      if i :| OccursAt(haystack, needle, i) {
        assert i != 0;
        assert haystack[1..][i - 1..i - 1 + |needle|] == haystack[i..i + |needle|];
        assert OccursAt(haystack[1..], needle, i - 1);
      }
    }
  }

  // ----- case conversion

  function LowerChar(c: char): char {
    if 'A' <= c <= 'Z' then (c as int + 32) as char else c
  }

  function UpperChar(c: char): char {
    if 'a' <= c <= 'z' then (c as int - 32) as char else c
  }

  /** `strtolower`, on ASCII letters. */
  function ToLower(s: string): string {
    seq(|s|, i requires 0 <= i < |s| => LowerChar(s[i]))
  }

  /** `strtoupper`, on ASCII letters. */
  function ToUpper(s: string): string {
    seq(|s|, i requires 0 <= i < |s| => UpperChar(s[i]))
  }

  // ----- suffixes after a character

  /** The longest suffix of `s` in which `c` does not occur. */
  function TailAfter(c: char, s: string): (r: string)
    ensures c !in r
    ensures |r| <= |s| && r == s[|s| - |r|..]
    ensures |r| < |s| ==> s[|s| - |r| - 1] == c
  {
    if s == [] || s[|s| - 1] == c then [] else TailAfter(c, s[..|s| - 1]) + [s[|s| - 1]]
  }

  /** Appending text free of `c` extends the tail after `c`. */
  lemma {:induction false} TailAfterAppend(c: char, u: string, v: string)
    requires c !in v
    ensures TailAfter(c, u + v) == TailAfter(c, u) + v
  {
    if v != [] {
      TailAfterAppend(c, u, v[..|v| - 1]);
      assert (u + v)[..|u + v| - 1] == u + v[..|v| - 1];
      assert v == v[..|v| - 1] + [v[|v| - 1]];
    } else {
      assert u + v == u;
    }
  }

  /** `substr(strrchr($s, $c), 1)`, with PHP's `false` read as "": the text
      after the last `c`, or "" when `c` does not occur. */
  function AfterLast(c: char, s: string): (r: string)
    ensures c !in r
  {
    if c in s then TailAfter(c, s) else ""
  }

  /** The text after the last `c` of `u + [c] + v` is `v`. */
  lemma AfterLastSplit(c: char, u: string, v: string)
    requires c !in v
    ensures AfterLast(c, u + [c] + v) == v
  {
    TailAfterAppend(c, u + [c], v);
    assert (u + [c] + v)[|u|] == c;
  }

  /** A path without its trailing slashes, as `basename` drops them. */
  function TrimSlashes(s: string): (r: string)
    ensures r <= s && (r == [] || r[|r| - 1] != '/')
    ensures forall i :: |r| <= i < |s| ==> s[i] == '/'
  {
    if s != [] && s[|s| - 1] == '/' then TrimSlashes(s[..|s| - 1]) else s
  }

  /** `pathinfo($path, PATHINFO_EXTENSION)`: the text after the last '.' of
      the last path segment, trailing slashes dropped, or "" when that
      segment has none. */
  function Extension(path: string): (r: string)
    ensures '.' !in r && '/' !in r
  {
    var base := TailAfter('/', TrimSlashes(path));
    var r := AfterLast('.', base);
    assert r == "" || r == base[|base| - |r|..];
    r
  }

  /** A trailing slash does not change the extension. */
  lemma ExtensionTrailingSlash(path: string)
    ensures Extension(path + "/") == Extension(path)
  {
    var s := path + "/";
    assert s[..|s| - 1] == path;
    assert TrimSlashes(s) == TrimSlashes(path);
  }

  /** The extension of a name ending in "." and dot- and slash-free text
      is that text. */
  lemma ExtensionSplit(path: string, ext: string)
    requires '.' !in ext && '/' !in ext
    ensures Extension(path + "." + ext) == ext
  {
    assert path + "." + ext == path + ("." + ext);
    TailAfterAppend('/', path, "." + ext);
    var base := TailAfter('/', path);
    assert base + ("." + ext) == base + ['.'] + ext;
    AfterLastSplit('.', base, ext);
  }

  /** A path without any '.' has no extension. */
  lemma ExtensionNone(path: string)
    requires '.' !in path
    ensures Extension(path) == ""
  {
    var base := TailAfter('/', path);
    assert base == path[|path| - |base|..];
    assert '.' !in base;
  }

  // ----- str_replace

  /** `str_replace($search, '', $s)`: every occurrence of `search`, found
      left to right without overlap, removed. */
  function RemoveAll(s: string, search: string): string
    requires |search| > 0
    decreases |s|
  {
    if |s| < |search| then s
    else if s[..|search|] == search then RemoveAll(s[|search|..], search)
    else [s[0]] + RemoveAll(s[1..], search)
  }

  /** Removing `search` from text followed by one `search`, where the text
      never starts an occurrence, strips just the final one. */
  lemma {:induction false} RemoveAllTrailing(u: string, search: string)
    requires |search| > 0 && search[0] !in u
    ensures RemoveAll(u + search, search) == u
  {
    if u == [] {
      assert (u + search)[..|search|] == search;
      assert (u + search)[|search|..] == [];
    } else {
      assert (u + search)[0] != search[0];
      assert (u + search)[..|search|] != search;
      RemoveAllTrailing(u[1..], search);
      assert (u + search)[1..] == u[1..] + search;
    }
  }
}
