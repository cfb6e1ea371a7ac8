/**
 * Ordered first-match substring classification, the shape shared by the
 * weather icon, the report-category icon and the hazard status colours:
 * a list of rules, each a set of keywords and a result, where the first
 * rule with a keyword contained in the input decides, and a default
 * applies when none does. The components write this as a chain of `if`s;
 * each is proved equal to this table-driven reference.
 */
module Classifiers {
  import opened Wrappers
  import opened Strings

  datatype Rule<T> = Rule(keywords: seq<string>, result: T)

  /** Some keyword of the rule occurs in `s`. */
  predicate MatchesAny(s: string, keywords: seq<string>) {
    exists k :: 0 <= k < |keywords| && Contains(s, keywords[k])
  }

  /** A keyword found at a known position of the keyword list makes the rule match. */
  lemma KeywordMatches(s: string, keywords: seq<string>, k: nat)
    requires k < |keywords| && Contains(s, keywords[k])
    ensures MatchesAny(s, keywords)
  {
  }

  /** A two-keyword rule matches exactly when either keyword occurs. */
  lemma PairMatches(s: string, a: string, b: string)
    ensures MatchesAny(s, [a, b]) <==> Contains(s, a) || Contains(s, b)
  {
    if Contains(s, a) {
      KeywordMatches(s, [a, b], 0);
    } else if Contains(s, b) {
      KeywordMatches(s, [a, b], 1);
    }
  }

  /** A one-keyword rule matches exactly when its keyword occurs. */
  lemma SingleMatches(s: string, a: string)
    ensures MatchesAny(s, [a]) <==> Contains(s, a)
  {
    if Contains(s, a) {
      KeywordMatches(s, [a], 0);
    }
  }

  /** Index of the first rule that matches `s`, if any. */
  function FirstRule<T>(rules: seq<Rule<T>>, s: string): (r: Option<nat>)
    ensures r.Some? ==> r.value < |rules| && MatchesAny(s, rules[r.value].keywords)
    ensures r.Some? ==> forall j :: 0 <= j < r.value ==> !MatchesAny(s, rules[j].keywords)
    ensures r.None? <==> forall j :: 0 <= j < |rules| ==> !MatchesAny(s, rules[j].keywords)
    decreases |rules|
  {
    if |rules| == 0 then None
    else if MatchesAny(s, rules[0].keywords) then Some(0)
    else
      match FirstRule(rules[1..], s)
      case None => None
      case Some(i) => Some(i + 1)
  }

  /** The result of the first matching rule, or `default`. */
  function Classify<T>(rules: seq<Rule<T>>, s: string, default: T): T {
    match FirstRule(rules, s)
    case None => default
    case Some(i) => rules[i].result
  }

  /** A rule that matches, after rules that do not, decides the result. */
  lemma ClassifyAt<T>(rules: seq<Rule<T>>, s: string, default: T, i: nat)
    requires i < |rules| && MatchesAny(s, rules[i].keywords)
    requires forall j :: 0 <= j < i ==> !MatchesAny(s, rules[j].keywords)
    ensures Classify(rules, s, default) == rules[i].result
  {
    assert FirstRule(rules, s).Some?;
  }

  /** With no matching rule the default applies. */
  lemma ClassifyDefault<T>(rules: seq<Rule<T>>, s: string, default: T)
    requires forall j :: 0 <= j < |rules| ==> !MatchesAny(s, rules[j].keywords)
    ensures Classify(rules, s, default) == default
  {
  }
}
