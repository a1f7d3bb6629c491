/** Small string and sequence vocabulary shared by the components: the
    JavaScript built-ins the components lean on (`toLowerCase`, `includes`,
    `trim`, `Math.round`, number-to-string interpolation), stated over
    Dafny's `seq<char>` and `real`. */
module Text {

  datatype Option<+T> = None | Some(value: T) {
    function GetOr(default: T): T {
      match this
      case Some(v) => v
      case None => default
    }
  }

  // ---------------------------------------------------------------------
  // Lower-casing (ASCII letters only)

  function LowerChar(c: char): (r: char)
    ensures 'A' <= c <= 'Z' ==> 'a' <= r <= 'z' && r as int - c as int == 32
    ensures !('A' <= c <= 'Z') ==> r == c
  {
    if 'A' <= c <= 'Z' then (c as int + 32) as char else c
  }

  /** `String.prototype.toLowerCase`, restricted to ASCII letters. */
  function Lower(s: string): (r: string)
    ensures |r| == |s|
    ensures forall i :: 0 <= i < |s| ==> r[i] == LowerChar(s[i])
  {
    if s == [] then [] else [LowerChar(s[0])] + Lower(s[1..])
  }

  lemma {:induction false} LowerIdempotent(s: string)
    ensures Lower(Lower(s)) == Lower(s)
  {
    var l := Lower(s);
    assert forall i :: 0 <= i < |l| ==> Lower(l)[i] == l[i];
  }

  // ---------------------------------------------------------------------
  // Substring search

  /** `s.includes(sub)`. */
  predicate Contains(s: string, sub: string)
    decreases |s|
  {
    if |sub| > |s| then false
    else s[..|sub|] == sub || Contains(s[1..], sub)
  }

  /** `sub` occurs in `s` starting at offset `i`. */
  predicate OccursAt(s: string, sub: string, i: nat) {
    i + |sub| <= |s| && s[i..i + |sub|] == sub
  }

  /** `Contains` holds exactly when `sub` occurs at some offset of `s`. */
  lemma {:induction false} ContainsIff(s: string, sub: string)
    ensures Contains(s, sub) <==> exists i: nat :: OccursAt(s, sub, i)
    decreases |s|
  {
    if |sub| <= |s| && s[..|sub|] != sub {
      ContainsIff(s[1..], sub);
      if Contains(s[1..], sub) {
        var i: nat :| OccursAt(s[1..], sub, i);
        assert s[i + 1..i + 1 + |sub|] == s[1..][i..i + |sub|];
        assert OccursAt(s, sub, i + 1);
      }
      if exists i: nat :: OccursAt(s, sub, i) {
        var i: nat :| OccursAt(s, sub, i);
        assert i != 0;
        assert s[1..][i - 1..i - 1 + |sub|] == s[i..i + |sub|];
        assert OccursAt(s[1..], sub, i - 1);
      }
    } else if |sub| <= |s| {
      assert OccursAt(s, sub, 0);
    } else {
      forall i: nat ensures !OccursAt(s, sub, i) { }
    }
  }

  /** True when some keyword of `keywords` occurs in `s` (a chain of
      `includes` joined by `||`). */
  predicate AnyContained(s: string, keywords: seq<string>) {
    AnyContainedFrom(s, keywords, 0)
  }

  predicate AnyContainedFrom(s: string, keywords: seq<string>, i: nat)
    decreases |keywords| - i
  {
    i < |keywords| && (Contains(s, keywords[i]) || AnyContainedFrom(s, keywords, i + 1))
  }

  lemma AnyContainedIff(s: string, keywords: seq<string>)
    ensures AnyContained(s, keywords) <==>
            exists k :: 0 <= k < |keywords| && Contains(s, keywords[k])
  {
    AnyContainedFromIff(s, keywords, 0);
  }

  lemma {:induction false} AnyContainedFromIff(s: string, keywords: seq<string>, i: nat)
    ensures AnyContainedFrom(s, keywords, i) <==>
            exists k :: i <= k < |keywords| && Contains(s, keywords[k])
    decreases |keywords| - i
  {
    if i < |keywords| {
      AnyContainedFromIff(s, keywords, i + 1);
    }
  }

  // ---------------------------------------------------------------------
  // First-match keyword tables: the reference meaning of an if/else-if
  // chain of `includes` tests.

  datatype Rule<T> = Rule(keywords: seq<string>, result: T)

  /** The result of the first rule one of whose keywords occurs in `s`, or
      `default` when no rule matches. */
  function FirstMatch<T>(rules: seq<Rule<T>>, s: string, default: T): T {
    FirstMatchFrom(rules, s, default, 0)
  }

  /** `FirstMatch` over the rules from index `i` on. */
  function FirstMatchFrom<T>(rules: seq<Rule<T>>, s: string, default: T, i: nat): T
    decreases |rules| - i
  {
    if i >= |rules| then default
    else if AnyContained(s, rules[i].keywords) then rules[i].result
    else FirstMatchFrom(rules, s, default, i + 1)
  }

  /** Rule `i` decides the outcome exactly when it matches and no earlier
      rule does. */
  lemma FirstMatchAt<T>(rules: seq<Rule<T>>, s: string, default: T, i: nat)
    requires i < |rules|
    requires AnyContained(s, rules[i].keywords)
    requires forall j :: 0 <= j < i ==> !AnyContained(s, rules[j].keywords)
    ensures FirstMatch(rules, s, default) == rules[i].result
  {
    FirstMatchFromAt(rules, s, default, 0, i);
  }

  lemma {:induction false} FirstMatchFromAt<T>(rules: seq<Rule<T>>, s: string, default: T, from: nat, i: nat)
    requires from <= i < |rules|
    requires AnyContained(s, rules[i].keywords)
    requires forall j :: from <= j < i ==> !AnyContained(s, rules[j].keywords)
    ensures FirstMatchFrom(rules, s, default, from) == rules[i].result
    decreases i - from
  {
    if from < i {
      FirstMatchFromAt(rules, s, default, from + 1, i);
    }
  }

  /** When no rule matches, the default is returned. */
  lemma FirstMatchNone<T>(rules: seq<Rule<T>>, s: string, default: T)
    requires forall j :: 0 <= j < |rules| ==> !AnyContained(s, rules[j].keywords)
    ensures FirstMatch(rules, s, default) == default
  {
    FirstMatchFromNone(rules, s, default, 0);
  }

  lemma {:induction false} FirstMatchFromNone<T>(rules: seq<Rule<T>>, s: string, default: T, from: nat)
    requires forall j :: from <= j < |rules| ==> !AnyContained(s, rules[j].keywords)
    ensures FirstMatchFrom(rules, s, default, from) == default
    decreases |rules| - from
  {
    if from < |rules| {
      FirstMatchFromNone(rules, s, default, from + 1);
    }
  }

  /** A table of five rules is an `if`/`else if` chain of five tests. */
  lemma FirstMatchOfFive<T>(rules: seq<Rule<T>>, s: string, default: T)
    requires |rules| == 5
    ensures FirstMatch(rules, s, default) ==
            if AnyContained(s, rules[0].keywords) then rules[0].result
            else if AnyContained(s, rules[1].keywords) then rules[1].result
            else if AnyContained(s, rules[2].keywords) then rules[2].result
            else if AnyContained(s, rules[3].keywords) then rules[3].result
            else if AnyContained(s, rules[4].keywords) then rules[4].result
            else default
  {
    var m := (i: nat) => FirstMatchFrom(rules, s, default, i);
    assert m(5) == default;
    assert m(4) == if AnyContained(s, rules[4].keywords) then rules[4].result else m(5);
    assert m(3) == if AnyContained(s, rules[3].keywords) then rules[3].result else m(4);
    assert m(2) == if AnyContained(s, rules[2].keywords) then rules[2].result else m(3);
    assert m(1) == if AnyContained(s, rules[1].keywords) then rules[1].result else m(2);
    assert m(0) == if AnyContained(s, rules[0].keywords) then rules[0].result else m(1);
  }

  // ---------------------------------------------------------------------
  // Whitespace trimming

  /** The characters `String.prototype.trim` strips: ECMAScript WhiteSpace
      (tab, vertical tab, form feed, space, no-break space, byte order mark
      and the Unicode space separators) and LineTerminator. */
  predicate IsSpace(c: char) {
    c == '\t' || c == '\n' || c == '\U{000B}' || c == '\U{000C}' || c == '\r' || c == ' ' ||
    c == '\U{00A0}' || c == '\U{1680}' || ('\U{2000}' <= c <= '\U{200A}') ||
    c == '\U{2028}' || c == '\U{2029}' || c == '\U{202F}' || c == '\U{205F}' ||
    c == '\U{3000}' || c == '\U{FEFF}'
  }

  /** Number of leading white-space characters. */
  function LeadingSpace(s: string): (i: nat)
    ensures i <= |s|
    ensures forall k :: 0 <= k < i ==> IsSpace(s[k])
    ensures i < |s| ==> !IsSpace(s[i])
  {
    if s == [] || !IsSpace(s[0]) then 0 else 1 + LeadingSpace(s[1..])
  }

  /** Length of `s` once its trailing white space is removed. */
  function TrailingCut(s: string): (j: nat)
    ensures j <= |s|
    ensures forall k :: j <= k < |s| ==> IsSpace(s[k])
    ensures j > 0 ==> !IsSpace(s[j - 1])
  {
    if s == [] || !IsSpace(s[|s| - 1]) then |s| else TrailingCut(s[..|s| - 1])
  }

  /** `s.trim()`: the slice of `s` left once white space is removed from
      both ends; it neither starts nor ends with white space. */
  function Trim(s: string): (r: string)
    ensures exists i, j :: 0 <= i <= j <= |s| && r == s[i..j] &&
                           (forall k :: 0 <= k < i ==> IsSpace(s[k])) &&
                           (forall k :: j <= k < |s| ==> IsSpace(s[k]))
    ensures r != [] ==> !IsSpace(r[0]) && !IsSpace(r[|r| - 1])
  {
    var i := LeadingSpace(s);
    var j := i + TrailingCut(s[i..]);
    assert forall k :: j <= k < |s| ==> s[k] == s[i..][k - i];
    assert j > i ==> s[j - 1] == s[i..][j - 1 - i];
    s[i..j]
  }

  /** Trimming is idempotent: a string with no white space at either end
      is its own trim. */
  lemma TrimOfTrimmed(s: string)
    requires s != [] ==> !IsSpace(s[0]) && !IsSpace(s[|s| - 1])
    ensures Trim(s) == s
  {
    assert s[0..] == s;
  }

  // ---------------------------------------------------------------------
  // Numbers as text

  /** JavaScript `Math.round`: the nearest integer, halves rounded up. */
  function Round(x: real): (n: int)
    ensures n as real - 0.5 <= x < n as real + 0.5
  {
    (x + 0.5).Floor
  }

  function DigitChar(d: nat): (c: char)
    requires d < 10
    ensures '0' <= c <= '9' && c as int - '0' as int == d
  {
    (d + '0' as int) as char
  }

  /** A numeral as JavaScript writes a natural number: one or more decimal
      digits, with no leading zero unless the numeral is "0" itself. */
  predicate CanonicalNat(s: string) {
    |s| >= 1 && (forall i :: 0 <= i < |s| ==> '0' <= s[i] <= '9') &&
    (s[0] == '0' ==> s == "0")
  }

  /** A numeral as JavaScript writes an integer: a canonical natural number,
      optionally after a minus sign, and never "-0". */
  predicate CanonicalInt(s: string) {
    if |s| > 0 && s[0] == '-' then CanonicalNat(s[1..]) && s[1..] != "0" else CanonicalNat(s)
  }

  /** Decimal digits of `n`, most significant first, without leading zeros. */
  function NatToString(n: nat): (r: string)
    ensures CanonicalNat(r)
    ensures r == "0" <==> n == 0
  {
    if n < 10 then [DigitChar(n)] else NatToString(n / 10) + [DigitChar(n % 10)]
  }

  /** Interpolating an integer into a template literal: `${n}`. */
  function IntToString(n: int): (r: string)
    ensures CanonicalInt(r)
    ensures r[0] == '-' <==> n < 0
  {
    if n < 0 then
      var digits := NatToString(-n);
      assert ("-" + digits)[1..] == digits;
      "-" + digits
    else NatToString(n)
  }

  /** The value denoted by a string of decimal digits. */
  function DigitsValue(s: string): int {
    if s == [] then 0 else DigitsValue(s[..|s| - 1]) * 10 + (s[|s| - 1] as int - '0' as int)
  }

  /** Reads back what `IntToString` writes. */
  function ParseInt(s: string): int {
    if |s| > 0 && s[0] == '-' then - DigitsValue(s[1..]) else DigitsValue(s)
  }

  lemma {:induction false} NatToStringRoundTrip(n: nat)
    ensures DigitsValue(NatToString(n)) == n
  {
    if n >= 10 {
      NatToStringRoundTrip(n / 10);
      var s := NatToString(n / 10) + [DigitChar(n % 10)];
      assert s[..|s| - 1] == NatToString(n / 10);
    }
  }

  /** Every integer can be read back from its decimal text, so two
      different integers never print alike. */
  lemma IntToStringRoundTrip(n: int)
    ensures ParseInt(IntToString(n)) == n
  {
    if n < 0 {
      NatToStringRoundTrip(-n);
      assert IntToString(n)[1..] == NatToString(-n);
    } else {
      NatToStringRoundTrip(n);
    }
  }

  /** Decimal digits with a leading non-zero digit denote a positive value. */
  lemma {:induction false} LeadingDigitPositive(s: string)
    requires CanonicalNat(s) && s[0] != '0'
    ensures DigitsValue(s) >= 1
  {
    if |s| > 1 {
      var p := s[..|s| - 1];
      assert p[0] == s[0];
      LeadingDigitPositive(p);
    }
  }

  /** A canonical natural numeral is the one `NatToString` writes for its
      value. */
  lemma {:induction false} CanonicalNatIsNatToString(s: string)
    requires CanonicalNat(s)
    ensures DigitsValue(s) >= 0 && s == NatToString(DigitsValue(s))
  {
    var d := s[|s| - 1] as int - '0' as int;
    if |s| == 1 {
      assert s == [DigitChar(d)];
    } else {
      var p := s[..|s| - 1];
      assert p[0] == s[0];
      CanonicalNatIsNatToString(p);
      LeadingDigitPositive(p);
      var v := DigitsValue(p);
      assert DigitsValue(s) == v * 10 + d;
      assert NatToString(v * 10 + d) == NatToString(v) + [DigitChar(d)];
      assert s == p + [s[|s| - 1]];
    }
  }

  /** Canonical numerals are exactly what `IntToString` writes: no two
      canonical numerals have the same value, so the value fixes the text. */
  lemma CanonicalIsIntToString(s: string)
    requires CanonicalInt(s)
    ensures s == IntToString(ParseInt(s))
  {
    if s[0] == '-' {
      var t := s[1..];
      CanonicalNatIsNatToString(t);
      LeadingDigitPositive(t);
      assert s == "-" + t;
    } else {
      CanonicalNatIsNatToString(s);
    }
  }

  /** A template literal `${n}<suffix>`: the integer's decimal text
      followed by the suffix, from which the integer reads back. */
  function WithSuffix(n: int, suffix: string): (r: string)
    ensures |r| > |suffix|
    ensures r[|r| - |suffix|..] == suffix
    ensures CanonicalInt(r[..|r| - |suffix|])
    ensures ParseInt(r[..|r| - |suffix|]) == n
  {
    var digits := IntToString(n);
    IntToStringRoundTrip(n);
    assert (digits + suffix)[..|digits|] == digits;
    digits + suffix
  }

  // ---------------------------------------------------------------------
  // Sequences

  /** `r` is `s` with some elements dropped and the rest kept in order. */
  predicate IsSubsequence<T(==)>(r: seq<T>, s: seq<T>)
    decreases |s|
  {
    if r == [] then true
    else if s == [] then false
    else (r[|r| - 1] == s[|s| - 1] && IsSubsequence(r[..|r| - 1], s[..|s| - 1]))
         || IsSubsequence(r, s[..|s| - 1])
  }

  /** `Array.prototype.slice(0, n)`. */
  function Take<T>(s: seq<T>, n: nat): (r: seq<T>)
    ensures |r| == if |s| <= n then |s| else n
    ensures r == s[..|r|]
  {
    if |s| <= n then s else s[..n]
  }
}
