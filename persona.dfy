/**
  The persona-text normaliser `_standardize`: lower-case the text, strip
  trailing `.`, `!` and `?`, then apply a fixed, ordered table of literal
  replace-all rules (contraction expansions, then `" s"` to `"'s"`).
 */
module Persona {
  import opened PyStr

  /** One row of the table: every literal occurrence of `pattern` becomes `replacement`. */
  datatype Rule = Rule(pattern: string, replacement: string)

  /** The characters `rstrip` removes from the end. */
  const TrailingPunctuation: set<char> := {'.', '!', '?'}

  /** The replacement table, in the order a Python dict literal iterates it. */
  const Rules: seq<Rule> := [
    Rule("i've", "i have"),
    Rule("i ve", "i have"),
    Rule("ive", "i have"),
    Rule("i'm", "i am"),
    Rule("i m", "i am"),
    Rule("im", "i am"),
    Rule("i'll", "i will"),
    Rule("i ll", "i will"),
    Rule("don't", "do not"),
    Rule("don t", "do not"),
    Rule("dont", "do not"),
    Rule("can't", "cannot"),
    Rule("can t", "cannot"),
    Rule("cant", "cannot"),
    Rule(" s", "'s")
  ]

  /** Text in normal form: no upper-case letter and no trailing `.`, `!` or `?`. */
  predicate Normal(s: string) {
    NoUpper(s) && EndsOutside(s, TrailingPunctuation)
  }

  /** A rule whose replacement is itself in normal form and non-empty. */
  predicate KeepsNormal(rule: Rule) {
    rule.replacement != [] && Normal(rule.replacement)
  }

  /** Applies `rules` one after the other, each as a replace-all over the whole text. */
  function ApplyRules(s: string, rules: seq<Rule>): string
    decreases |rules|
  {
    if rules == [] then s
    else ApplyRules(ReplaceAll(s, rules[0].pattern, rules[0].replacement), rules[1..])
  }

  /** What `_standardize(orig)` returns. */
  function Standardized(orig: string): string {
    ApplyRules(RStrip(Lower(orig), TrailingPunctuation), Rules)
  }

  /** `_standardize`: the loop reassigns the text once per table row, in order. */
  method Standardize(orig: string) returns (r: string)
    ensures r == Standardized(orig)
    ensures NoUpper(r)
    ensures EndsOutside(r, TrailingPunctuation)
    ensures !Contains(r, " s")
  {
    r := RStrip(Lower(orig), TrailingPunctuation);
    for i := 0 to |Rules|
      invariant ApplyRules(r, Rules[i..]) == Standardized(orig)
    {
      assert Rules[i..][1..] == Rules[i + 1..];
      r := ReplaceAll(r, Rules[i].pattern, Rules[i].replacement);
    }
    assert Rules[|Rules|..] == [];
    StandardizedNormal(orig);
    StandardizedNoSpaceS(orig);
  }

  /** Every replacement in the table is non-empty, lower-case and ends in a letter. */
  lemma RulesKeepNormal()
    ensures forall i :: 0 <= i < |Rules| ==> KeepsNormal(Rules[i])
  {
    forall i | 0 <= i < |Rules|
      ensures KeepsNormal(Rules[i])
    {
      var rep := Rules[i].replacement;
      assert rep in {"i have", "i am", "i will", "do not", "cannot", "'s"};
    }
  }

  /** One replace-all with a normal replacement keeps text normal. */
  lemma ReplaceKeepsNormal(s: string, rule: Rule)
    requires Normal(s) && KeepsNormal(rule)
    ensures Normal(ReplaceAll(s, rule.pattern, rule.replacement))
  {
    ReplaceEndsOutside(s, rule.pattern, rule.replacement, TrailingPunctuation);
  }

  /** A sequence of such replace-alls keeps text normal. */
  lemma {:induction false} ApplyRulesKeepNormal(s: string, rules: seq<Rule>)
    requires Normal(s)
    requires forall i :: 0 <= i < |rules| ==> KeepsNormal(rules[i])
    ensures Normal(ApplyRules(s, rules))
    decreases |rules|
  {
    if rules != [] {
      ReplaceKeepsNormal(s, rules[0]);
      ApplyRulesKeepNormal(ReplaceAll(s, rules[0].pattern, rules[0].replacement), rules[1..]);
    }
  }

  /** The result of `_standardize` has no upper-case letter and does not end
      in `.`, `!` or `?`. */
  lemma StandardizedNormal(orig: string)
    ensures NoUpper(Standardized(orig))
    ensures EndsOutside(Standardized(orig), TrailingPunctuation)
  {
    var stripped := RStrip(Lower(orig), TrailingPunctuation);
    assert stripped <= Lower(orig);
    RulesKeepNormal();
    ApplyRulesKeepNormal(stripped, Rules);
  }

  /** Applying rules and then one more is applying the extended table. */
  lemma {:induction false} ApplyRulesSnoc(s: string, rules: seq<Rule>, last: Rule)
    ensures ApplyRules(s, rules + [last]) == ReplaceAll(ApplyRules(s, rules), last.pattern, last.replacement)
    decreases |rules|
  {
    if rules != [] {
      assert (rules + [last])[1..] == rules[1..] + [last];
      ApplyRulesSnoc(ReplaceAll(s, rules[0].pattern, rules[0].replacement), rules[1..], last);
    }
  }

  /** `" s"` cannot survive, or be recreated by, its own rewrite to `"'s"`. */
  lemma SpaceSNonInterfering()
    ensures NonInterfering(" s", "'s")
  {
    forall d | 1 <= d < |" s"|
      ensures !(" s"[d..] <= "'s") && !("'s" <= " s"[d..])
    {
      assert " s"[d..] == "s";
      assert "'s"[0] != "s"[0];
    }
  }

  /** The result of `_standardize` never contains `" s"`: that rule runs last. */
  lemma StandardizedNoSpaceS(orig: string)
    ensures !Contains(Standardized(orig), " s")
  {
    var stripped := RStrip(Lower(orig), TrailingPunctuation);
    assert Rules == Rules[..14] + [Rule(" s", "'s")];
    ApplyRulesSnoc(stripped, Rules[..14], Rule(" s", "'s"));
    SpaceSNonInterfering();
    ReplaceLeavesNoMatch(ApplyRules(stripped, Rules[..14]), " s", "'s");
  }
}
