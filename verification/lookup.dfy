/**
 * A Ruby `case` over regular expressions as data: an ordered table of
 * `when` clauses, each with alternative patterns, where the first clause
 * with a pattern occurring in the subject wins.
 */
module Lookup {
  import opened Wrappers
  import opened Text

  /** One `when` clause: its alternative patterns and the value it yields. */
  datatype Rule = Rule(patterns: seq<string>, result: string)

  /** Some pattern of `rule` occurs in `s`. */
  predicate Matches(rule: Rule, s: string) {
    exists p | p in rule.patterns :: Contains(s, p)
  }

  /** The index of the first rule at or after `from` that matches `s`. */
  function FirstMatchFrom(rules: seq<Rule>, s: string, from: nat): (r: Option<nat>)
    requires from <= |rules|
    ensures r.Some? ==> from <= r.value < |rules|
    decreases |rules| - from
  {
    if from == |rules| then None
    else if Matches(rules[from], s) then Some(from)
    else FirstMatchFrom(rules, s, from + 1)
  }

  /** The rule found matches, every rule scanned before it does not, and `None` means none matches. */
  lemma {:induction false} FirstMatchFromCorrect(rules: seq<Rule>, s: string, from: nat)
    requires from <= |rules|
    ensures var r := FirstMatchFrom(rules, s, from);
      && (r.Some? ==> Matches(rules[r.value], s))
      && (r.Some? ==> forall j :: from <= j < r.value ==> !Matches(rules[j], s))
      && (r.None? <==> forall j :: from <= j < |rules| ==> !Matches(rules[j], s))
    decreases |rules| - from
  {
    if from < |rules| && !Matches(rules[from], s) {
      FirstMatchFromCorrect(rules, s, from + 1);
    }
  }

  /** The index of the first rule of the table that matches `s`, if any. */
  function FirstMatch(rules: seq<Rule>, s: string): Option<nat> {
    FirstMatchFrom(rules, s, 0)
  }

  /** Rule `k` matches `s` and no rule before it does. */
  predicate IsFirstMatch(rules: seq<Rule>, s: string, k: nat) {
    k < |rules| && Matches(rules[k], s) && forall j :: 0 <= j < k ==> !Matches(rules[j], s)
  }

  /** The first matching rule is unique: the least index that matches. */
  lemma FirstMatchIsLeast(rules: seq<Rule>, s: string, k: nat)
    requires k < |rules|
    ensures FirstMatch(rules, s) == Some(k) <==> IsFirstMatch(rules, s, k)
  {
    FirstMatchFromCorrect(rules, s, 0);
  }

  /**
   * A rule does not match `s` when each of its patterns is longer than `s`
   * or holds the character `c` that `s` lacks.
   */
  lemma MissRule(rule: Rule, s: string, c: char)
    requires c !in s
    requires forall p :: p in rule.patterns ==> |p| > |s| || c in p
    ensures !Matches(rule, s)
  {
    forall p | p in rule.patterns ensures !Contains(s, p) {
      if |p| <= |s| {
        NotContainsByChar(s, p, c);
      }
    }
  }

  /** A rule one of whose patterns is the whole of `s` matches `s`. */
  lemma HitRule(rule: Rule, s: string)
    requires s in rule.patterns
    ensures Matches(rule, s)
  {
    ContainsSelf(s);
  }
}
