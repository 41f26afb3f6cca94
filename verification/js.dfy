/**
  JavaScript value semantics that the application's rules lean on: truthiness and `||`,
  `String.prototype.toLowerCase`, `String.prototype.includes`, `Number.prototype.toString`
  on integers, `String.prototype.split('@')[0]`, `String.prototype.replace` with a string
  pattern, and the global `parseInt`.
 */
module Js {

  import opened Wrappers

  /** The JavaScript values the modelled code handles. `Num` is a finite number, held
      exactly; `NaN` is the one non-finite number that arises here (from `parseInt`). */
  datatype Value = Undefined | Null | Bool(b: bool) | Num(n: real) | NaN | Str(s: string)

  /** ECMAScript ToBoolean. */
  predicate Truthy(v: Value) {
    match v
    case Undefined => false
    case Null => false
    case Bool(b) => b
    case Num(n) => n != 0.0
    case NaN => false
    case Str(s) => s != []
  }

  /** `a || b`: the left operand when it is truthy, the right one otherwise. */
  function Or(a: Value, b: Value): Value {
    if Truthy(a) then a else b
  }

  lemma {:induction false} OrTruthy(a: Value, b: Value)
    ensures Truthy(Or(a, b)) <==> Truthy(a) || Truthy(b)
    ensures Or(a, b) == a || Or(a, b) == b
  {
    if Truthy(a) { assert Or(a, b) == a; } else { assert Or(a, b) == b; }
  }

  // ---------------------------------------------------------------------------
  // Case folding and substring search

  /** `toLowerCase` on one character, for ASCII letters and the Romanian letters with
      diacritics (both the comma-below and the cedilla forms); other characters are kept. */
  function LowerChar(c: char): char {
    if 'A' <= c <= 'Z' then (c as int + 32) as char
    else if c == 'Ă' then 'ă'
    else if c == 'Â' then 'â'
    else if c == 'Î' then 'î'
    else if c == 'Ș' then 'ș'
    else if c == 'Ț' then 'ț'
    else if c == 'Ş' then 'ş'
    else if c == 'Ţ' then 'ţ'
    else c
  }

  function Lower(s: string): (r: string)
    ensures |r| == |s|
    ensures forall i :: 0 <= i < |s| ==> r[i] == LowerChar(s[i])
  {
    if s == [] then [] else [LowerChar(s[0])] + Lower(s[1..])
  }

  lemma LowerIdempotent(s: string)
    ensures Lower(Lower(s)) == Lower(s)
  {
    var l := Lower(s);
    assert forall i :: 0 <= i < |s| ==> LowerChar(l[i]) == l[i];
  }

  /** `s.includes(sub)`: `sub` occurs in `s` at some offset. */
  predicate Contains(s: string, sub: string) {
    exists i | 0 <= i <= |s| - |sub| :: OccursAt(s, sub, i)
  }

  predicate OccursAt(s: string, sub: string, i: int) {
    0 <= i <= |s| - |sub| && s[i..i + |sub|] == sub
  }

  /** `k` is where `sub` first occurs in `s`. */
  predicate FirstOccurrence(s: string, sub: string, k: int) {
    OccursAt(s, sub, k) && forall j :: 0 <= j < k ==> !OccursAt(s, sub, j)
  }

  /** An occurrence past the first character is an occurrence in the tail. */
  lemma OccursAtTail(s: string, sub: string, j: int)
    requires s != [] && 1 <= j
    ensures OccursAt(s, sub, j) <==> OccursAt(s[1..], sub, j - 1)
  {
    if 0 <= j - 1 <= |s[1..]| - |sub| {
      assert s[1..][j - 1..j - 1 + |sub|] == s[j..j + |sub|];
    }
  }

  lemma ContainsEmpty(s: string)
    ensures Contains(s, [])
  {
    assert OccursAt(s, [], 0);
  }

  // ---------------------------------------------------------------------------
  // Integer to decimal text and back

  function DigitChar(d: nat): (c: char)
    requires d < 10
    ensures '0' <= c <= '9' && c as int - '0' as int == d
  {
    ('0' as int + d) as char
  }

  predicate IsDecimalDigit(c: char) {
    '0' <= c <= '9'
  }

  /** `n.toString()` for a non-negative integer. */
  function NatToString(n: nat): (r: string)
    ensures r != []
    ensures forall i :: 0 <= i < |r| ==> IsDecimalDigit(r[i])
    ensures n < 10 <==> |r| == 1
  {
    if n < 10 then [DigitChar(n)] else NatToString(n / 10) + [DigitChar(n % 10)]
  }

  /** `i.toString()` for an integer. */
  function IntToString(i: int): string {
    if i < 0 then "-" + NatToString(-i) else NatToString(i)
  }

  /** The value of a character as a digit in the given radix, if it is one. */
  function DigitValue(c: char, radix: nat): (r: int)
    ensures r < radix
  {
    var v :=
      if '0' <= c <= '9' then c as int - '0' as int
      else if 'a' <= c <= 'z' then c as int - 'a' as int + 10
      else if 'A' <= c <= 'Z' then c as int - 'A' as int + 10
      else -1;
    if v < radix then v else -1
  }

  /** The number of leading characters of `s` that are digits in `radix`. */
  function LeadingDigits(s: string, radix: nat): (k: nat)
    ensures k <= |s|
    ensures forall i :: 0 <= i < k ==> DigitValue(s[i], radix) >= 0
    ensures k < |s| ==> DigitValue(s[k], radix) < 0
  {
    if s == [] || DigitValue(s[0], radix) < 0 then 0 else 1 + LeadingDigits(s[1..], radix)
  }

  /** The value of a string of digits in `radix`, most significant first. */
  function DigitsValue(d: string, radix: nat): nat
    requires forall i :: 0 <= i < |d| ==> DigitValue(d[i], radix) >= 0
  {
    if d == [] then 0
    else DigitsValue(d[..|d| - 1], radix) * radix + DigitValue(d[|d| - 1], radix)
  }

  /** The characters `parseInt` skips before the number: the ECMAScript white space and
      line terminators of the Latin-1 range plus the byte-order mark. */
  predicate IsJsSpace(c: char) {
    c == ' ' || c == '\t' || c == '\n' || c == '\r' || c == '\U{000B}' || c == '\U{000C}'
    || c == '\U{00A0}' || c == '\U{FEFF}'
  }

  function TrimStart(s: string): (r: string)
    ensures |r| <= |s|
    ensures r == [] || !IsJsSpace(r[0])
  {
    if s != [] && IsJsSpace(s[0]) then TrimStart(s[1..]) else s
  }

  /** `parseInt(s)` with no radix argument: leading white space is skipped, one sign is
      read, and the digits that follow give the magnitude (see `ParseMagnitude`). */
  function ParseInt(s: string): (r: Value)
    ensures r.NaN? || (r.Num? && r.n.Floor as real == r.n)
  {
    var t := TrimStart(s);
    var negative := t != [] && t[0] == '-';
    var unsigned := if t != [] && (t[0] == '-' || t[0] == '+') then t[1..] else t;
    match ParseMagnitude(unsigned)
    case None => NaN
    case Some(m) => Num((if negative then 0 - m as int else m as int) as real)
  }

  /** The magnitude part of `parseInt`: a `0x`/`0X` prefix selects radix 16, and the
      longest run of digits that follows gives the value; no digit at all gives none. */
  function ParseMagnitude(unsigned: string): Option<nat> {
    var hex := |unsigned| >= 2 && unsigned[0] == '0' && (unsigned[1] == 'x' || unsigned[1] == 'X');
    var radix := if hex then 16 else 10;
    var body := if hex then unsigned[2..] else unsigned;
    var k := LeadingDigits(body, radix);
    if k == 0 then None else Some(DigitsValue(body[..k], radix))
  }

  lemma {:induction false} NatToStringValue(n: nat)
    ensures LeadingDigits(NatToString(n), 10) == |NatToString(n)|
    ensures DigitsValue(NatToString(n), 10) == n
  {
    var r := NatToString(n);
    assert forall i :: 0 <= i < |r| ==> DigitValue(r[i], 10) >= 0;
    LeadingDigitsAll(r, 10);
    if n >= 10 {
      NatToStringValue(n / 10);
      assert r[..|r| - 1] == NatToString(n / 10);
      assert DigitValue(r[|r| - 1], 10) == n % 10;
    }
  }

  lemma {:induction false} LeadingDigitsAll(s: string, radix: nat)
    requires forall i :: 0 <= i < |s| ==> DigitValue(s[i], radix) >= 0
    ensures LeadingDigits(s, radix) == |s|
  {
    if s != [] {
      LeadingDigitsAll(s[1..], radix);
    }
  }

  lemma MagnitudeOfNatToString(n: nat)
    ensures ParseMagnitude(NatToString(n)) == Some(n)
  {
    var digits := NatToString(n);
    NatToStringValue(n);
    assert |digits| >= 2 ==> digits[1] != 'x' && digits[1] != 'X';
    assert digits[..|digits|] == digits;
  }

  /** `parseInt` reads back every integer's decimal text. */
  lemma ParseIntOfIntToString(i: int)
    ensures ParseInt(IntToString(i)) == Num(i as real)
  {
    var m: nat := if i < 0 then -i else i;
    MagnitudeOfNatToString(m);
    if i < 0 {
      ParseIntNegative(NatToString(m), m);
    } else {
      ParseIntUnsigned(NatToString(m), m);
    }
  }

  lemma ParseIntUnsigned(digits: string, m: nat)
    requires digits != [] && IsDecimalDigit(digits[0])
    requires ParseMagnitude(digits) == Some(m)
    ensures ParseInt(digits) == Num(m as real)
  {
    assert !IsJsSpace(digits[0]) && digits[0] != '-' && digits[0] != '+';
    assert TrimStart(digits) == digits;
  }

  lemma ParseIntNegative(digits: string, m: nat)
    requires digits != [] && IsDecimalDigit(digits[0])
    requires ParseMagnitude(digits) == Some(m)
    ensures ParseInt("-" + digits) == Num((0 - m) as real)
  {
    var t := "-" + digits;
    assert TrimStart(t) == t;
    assert t[1..] == digits;
  }

  // ---------------------------------------------------------------------------
  // String helpers used by the edge functions

  /** `s.split('@')[0]`: everything before the first '@', or all of `s`. */
  function BeforeAt(s: string): (r: string)
    ensures |r| <= |s| && r == s[..|r|]
    ensures '@' !in r
    ensures |r| < |s| ==> s[|r|] == '@'
  {
    if s == [] || s[0] == '@' then [] else [s[0]] + BeforeAt(s[1..])
  }

  /** `s.replace(pattern, "")` with a string pattern: the first occurrence is removed. */
  function RemoveFirst(s: string, pattern: string): (r: string)
    requires pattern != []
    ensures r == s || |r| == |s| - |pattern|
    ensures |s| >= |pattern| && s[..|pattern|] == pattern ==> r == s[|pattern|..]
    decreases |s|
  {
    if |s| < |pattern| then s
    else if s[..|pattern|] == pattern then s[|pattern|..]
    else [s[0]] + RemoveFirst(s[1..], pattern)
  }

  /** A string that starts with the pattern loses exactly that prefix. */
  lemma RemoveFirstPrefix(pattern: string, rest: string)
    requires pattern != []
    ensures RemoveFirst(pattern + rest, pattern) == rest
  {
    assert (pattern + rest)[..|pattern|] == pattern;
    assert (pattern + rest)[|pattern|..] == rest;
  }

  /** `replace` with a string pattern removes the first occurrence of the pattern, wherever
      it is, and keeps everything before and after it; a string without the pattern is
      returned as it is. */
  lemma {:induction false} RemoveFirstRemovesFirst(s: string, pattern: string)
    requires pattern != []
    ensures !Contains(s, pattern) ==> RemoveFirst(s, pattern) == s
    ensures Contains(s, pattern) ==>
      exists k :: FirstOccurrence(s, pattern, k) && RemoveFirst(s, pattern) == s[..k] + s[k + |pattern|..]
    decreases |s|
  {
    if !Contains(s, pattern) {
      RemoveFirstAbsent(s, pattern);
    } else if OccursAt(s, pattern, 0) {
      assert FirstOccurrence(s, pattern, 0);
      assert RemoveFirst(s, pattern) == s[..0] + s[|pattern|..];
    } else {
      ContainsTail(s, pattern);
      RemoveFirstRemovesFirst(s[1..], pattern);
      var k :| FirstOccurrence(s[1..], pattern, k)
        && RemoveFirst(s[1..], pattern) == s[1..][..k] + s[1..][k + |pattern|..];
      FirstOccurrenceStep(s, pattern, k);
      RemoveFirstStep(s, pattern, k);
    }
  }

  /** When the pattern does not start a string it contains, the tail contains it. */
  lemma ContainsTail(s: string, pattern: string)
    requires Contains(s, pattern) && !OccursAt(s, pattern, 0)
    ensures s != [] && Contains(s[1..], pattern)
  {
    var i :| 0 <= i <= |s| - |pattern| && OccursAt(s, pattern, i);
    OccursAtTail(s, pattern, i);
  }

  /** The first occurrence in the tail, shifted by one, is the first in the string. */
  lemma FirstOccurrenceStep(s: string, pattern: string, k: int)
    requires s != [] && !OccursAt(s, pattern, 0) && FirstOccurrence(s[1..], pattern, k)
    ensures FirstOccurrence(s, pattern, k + 1)
  {
    OccursAtTail(s, pattern, k + 1);
    forall j | 1 <= j < k + 1
      ensures !OccursAt(s, pattern, j)
    {
      OccursAtTail(s, pattern, j);
    }
  }

  /** Removal past the first character, seen from the whole string. */
  lemma RemoveFirstStep(s: string, pattern: string, k: nat)
    requires pattern != [] && s != [] && !OccursAt(s, pattern, 0)
    requires k + 1 + |pattern| <= |s|
    requires RemoveFirst(s[1..], pattern) == s[1..][..k] + s[1..][k + |pattern|..]
    ensures RemoveFirst(s, pattern) == s[..k + 1] + s[k + 1 + |pattern|..]
  {
    var t := s[1..];
    assert s[..|pattern|] == s[0..|pattern|];
    assert RemoveFirst(s, pattern) == [s[0]] + RemoveFirst(t, pattern);
    assert [s[0]] + t[..k] == s[..k + 1];
    assert t[k + |pattern|..] == s[k + 1 + |pattern|..];
  }

  /** A string without the pattern is left as it is. */
  lemma {:induction false} RemoveFirstAbsent(s: string, pattern: string)
    requires pattern != [] && !Contains(s, pattern)
    ensures RemoveFirst(s, pattern) == s
    decreases |s|
  {
    if |s| >= |pattern| {
      if s[..|pattern|] == pattern {
        assert OccursAt(s, pattern, 0);
      }
      if Contains(s[1..], pattern) {
        var i :| 0 <= i <= |s[1..]| - |pattern| && OccursAt(s[1..], pattern, i);
        assert s[i + 1..i + 1 + |pattern|] == s[1..][i..i + |pattern|];
        assert OccursAt(s, pattern, i + 1);
      }
      RemoveFirstAbsent(s[1..], pattern);
    }
  }
}
