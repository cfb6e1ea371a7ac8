/**
 * ASCII string helpers shared by the components: JavaScript's `includes`,
 * `indexOf(p) === 0`, `toLowerCase`, `split` on one character, leading-space
 * stripping, and decimal digit strings.
 */
module Strings {
  import opened Wrappers

  // ----- prefixes and substrings -----

  /** `s.indexOf(p) === 0`: `p` is a prefix of `s`. */
  predicate IsPrefix(p: string, s: string) {
    |p| <= |s| && s[..|p|] == p
  }

  /** `sub` occurs in `s` starting at offset `i`. */
  predicate MatchAt(s: string, sub: string, i: nat) {
    i + |sub| <= |s| && s[i..i + |sub|] == sub
  }

  /** `s.includes(sub)`: `sub` occurs in `s` at some offset. */
  predicate Contains(s: string, sub: string) {
    exists i: nat :: i <= |s| && MatchAt(s, sub, i)
  }

  /** An occurrence at a known offset is enough for `includes`. */
  lemma MatchContains(s: string, sub: string, k: nat)
    requires MatchAt(s, sub, k)
    ensures Contains(s, sub)
  {
  }

  /** An offset where a contained string occurs. */
  lemma ContainsWitness(s: string, sub: string) returns (k: nat)
    requires Contains(s, sub)
    ensures MatchAt(s, sub, k)
  {
    k :| MatchAt(s, sub, k);
  }

  /** A needle with a character the haystack lacks is not contained in it. */
  lemma MissingCharNotContains(s: string, sub: string, c: char)
    requires c in sub && c !in s
    ensures !Contains(s, sub)
  {
    if Contains(s, sub) {
      var k := ContainsWitness(s, sub);
    }
  }

  /** A needle with two adjacent characters that never sit side by side in the haystack is not contained in it. */
  lemma MissingPairNotContains(s: string, sub: string, i: nat)
    requires i + 1 < |sub|
    requires forall j :: 0 <= j < |s| - 1 ==> !(s[j] == sub[i] && s[j + 1] == sub[i + 1])
    ensures !Contains(s, sub)
  {
    if Contains(s, sub) {
      var k := ContainsWitness(s, sub);
      PairAt(s, sub, k, i);
    }
  }

  /** An occurrence at `k` puts the needle's adjacent characters `i`, `i + 1` at `k + i`, `k + i + 1`. */
  lemma PairAt(s: string, sub: string, k: nat, i: nat)
    requires MatchAt(s, sub, k) && i + 1 < |sub|
    ensures k + i + 1 < |s| && s[k + i] == sub[i] && s[k + i + 1] == sub[i + 1]
  {
    assert s[k..k + |sub|][i] == sub[i] && s[k..k + |sub|][i + 1] == sub[i + 1];
  }

  /** Containment is transitive: a string containing `a` contains every substring of `a`. */
  lemma ContainsTransitive(s: string, a: string, b: string)
    requires Contains(s, a) && Contains(a, b)
    ensures Contains(s, b)
  {
    var i := ContainsWitness(s, a);
    var j := ContainsWitness(a, b);
    forall m | 0 <= m < |b|
      ensures s[i + j + m] == b[m]
    {
      assert a[j + m] == b[m];
      assert s[i..i + |a|][j + m] == a[j + m];
    }
    assert s[i + j..i + j + |b|] == b;
    MatchContains(s, b, i + j);
  }

  /** A string contains each of its prefixes. */
  lemma PrefixContained(p: string, s: string)
    requires IsPrefix(p, s)
    ensures Contains(s, p)
  {
    MatchContains(s, p, 0);
  }

  /** A `string | null` value is truthy when present and non-empty. */
  predicate Truthy(s: Option<string>) {
    s.Some? && s.value != ""
  }

  // ----- ASCII case -----

  /** ASCII `toLowerCase` of one character. */
  function Lower(c: char): char {
    if 'A' <= c <= 'Z' then (c as int + 32) as char else c
  }

  /** ASCII `toLowerCase`: upper-case letters lowered, every other character kept. */
  function ToLower(s: string): (r: string)
    ensures |r| == |s|
    ensures forall i :: 0 <= i < |s| ==> r[i] == Lower(s[i])
  {
    seq(|s|, i requires 0 <= i < |s| => Lower(s[i]))
  }

  /** Lowering twice is lowering once. */
  lemma ToLowerIdempotent(s: string)
    ensures ToLower(ToLower(s)) == ToLower(s)
  {
  }

  // ----- one-character split and join -----

  /** `s.indexOf(c)` as an optional position: the first occurrence of `c`. */
  function IndexOfChar(s: string, c: char): (r: Option<nat>)
    ensures r.Some? ==> r.value < |s| && s[r.value] == c && c !in s[..r.value]
    ensures r.None? <==> c !in s
    decreases |s|
  {
    if |s| == 0 then None
    else if s[0] == c then Some(0)
    else
      match IndexOfChar(s[1..], c)
      case None => None
      case Some(i) =>
        assert s[..i + 1] == [s[0]] + s[1..][..i];
        Some(i + 1)
  }

  /** The first occurrence of `c` is the only position before which `c` is absent. */
  lemma IndexOfCharAt(s: string, c: char, k: nat)
    requires k < |s| && s[k] == c && c !in s[..k]
    ensures IndexOfChar(s, c) == Some(k)
  {
    assert s[k] == c;
  }

  /** `s.split(sep)` for a one-character separator: never empty, no part holds `sep`. */
  function Split(s: string, sep: char): (parts: seq<string>)
    ensures |parts| >= 1
    ensures forall i :: 0 <= i < |parts| ==> sep !in parts[i]
    decreases |s|
  {
    match IndexOfChar(s, sep)
    case None => [s]
    case Some(i) => [s[..i]] + Split(s[i + 1..], sep)
  }

  /** `parts.join(sep)`. */
  function Join(parts: seq<string>, sep: char): string
    decreases |parts|
  {
    if |parts| == 0 then ""
    else if |parts| == 1 then parts[0]
    else parts[0] + [sep] + Join(parts[1..], sep)
  }

  /** Splitting off the text before the first separator. */
  lemma SplitFirst(a: string, sep: char, b: string)
    requires sep !in a
    ensures Split(a + [sep] + b, sep) == [a] + Split(b, sep)
  {
    var s := a + [sep] + b;
    assert s[..|a|] == a;
    IndexOfCharAt(s, sep, |a|);
    assert s[|a| + 1..] == b;
  }

  /** Joining the parts of a split gives the string back. */
  lemma {:induction false} JoinSplit(s: string, sep: char)
    ensures Join(Split(s, sep), sep) == s
    decreases |s|
  {
    match IndexOfChar(s, sep)
    case None =>
    case Some(i) =>
      var rest := Split(s[i + 1..], sep);
      JoinSplit(s[i + 1..], sep);
      assert ([s[..i]] + rest)[1..] == rest;
      assert Join([s[..i]] + rest, sep) == s[..i] + [sep] + Join(rest, sep);
      assert s == s[..i] + [sep] + s[i + 1..];
  }

  /** Splitting a join of separator-free parts gives the parts back. */
  lemma {:induction false} SplitJoin(parts: seq<string>, sep: char)
    requires |parts| >= 1
    requires forall i :: 0 <= i < |parts| ==> sep !in parts[i]
    ensures Split(Join(parts, sep), sep) == parts
    decreases |parts|
  {
    if |parts| == 1 {
      assert IndexOfChar(parts[0], sep).None?;
    } else {
      SplitJoin(parts[1..], sep);
      SplitFirst(parts[0], sep, Join(parts[1..], sep));
    }
  }

  // ----- leading spaces -----

  /** Drops leading `' '` characters only (the `while (c.charAt(0) === ' ')` loop). */
  function TrimLeadingSpaces(s: string): (r: string)
    ensures |r| <= |s| && r == s[|s| - |r|..]
    ensures forall i :: 0 <= i < |s| - |r| ==> s[i] == ' '
    ensures |r| > 0 ==> r[0] != ' '
    decreases |s|
  {
    if |s| > 0 && s[0] == ' ' then TrimLeadingSpaces(s[1..]) else s
  }

  // ----- decimal digits -----

  predicate IsDigit(c: char) {
    '0' <= c <= '9'
  }

  predicate AllDigits(s: string) {
    forall i :: 0 <= i < |s| ==> IsDigit(s[i])
  }

  function DigitValue(c: char): nat
    requires IsDigit(c)
  {
    c as int - '0' as int
  }

  function DigitChar(d: nat): char
    requires d < 10
  {
    ('0' as int + d) as char
  }

  /** Value of a decimal digit string, most significant digit first. */
  function DigitsValue(s: string): nat
    requires AllDigits(s)
    decreases |s|
  {
    if |s| == 0 then 0 else DigitsValue(s[..|s| - 1]) * 10 + DigitValue(s[|s| - 1])
  }

  /** The form `Number#toString` gives a natural number: digits, no leading zero except `"0"`. */
  predicate IsCanonical(s: string) {
    |s| >= 1 && AllDigits(s) && (s[0] == '0' ==> |s| == 1)
  }

  /** Decimal text of a natural number. */
  function NatToString(n: nat): (s: string)
    ensures IsCanonical(s)
    ensures DigitsValue(s) == n
    decreases n
  {
    if n < 10 then [DigitChar(n)]
    else
      var p := NatToString(n / 10);
      var s := p + [DigitChar(n % 10)];
      assert s[..|s| - 1] == p;
      s
  }

  lemma {:induction false} LeadingDigitPositive(s: string)
    requires |s| >= 1 && AllDigits(s) && s[0] != '0'
    ensures DigitsValue(s) >= 1
    decreases |s|
  {
    if |s| > 1 {
      LeadingDigitPositive(s[..|s| - 1]);
    }
  }

  /** Every canonical digit string is the text of its own value. */
  lemma {:induction false} CanonicalIsNatToString(s: string)
    requires IsCanonical(s)
    ensures NatToString(DigitsValue(s)) == s
    decreases |s|
  {
    if |s| == 1 {
      assert [DigitChar(DigitValue(s[0]))] == s;
    } else {
      var p := s[..|s| - 1];
      LeadingDigitPositive(p);
      CanonicalIsNatToString(p);
      var v := DigitsValue(s);
      assert v / 10 == DigitsValue(p) && v % 10 == DigitValue(s[|s| - 1]);
      assert s == p + [s[|s| - 1]];
    }
  }
}
