/** The fluent rule builder behind `Rule::zaphone()`: it renders the rule
    string `zaphone` or `zaphone:<format>`. */
module ZAPhoneRule {
  import opened Results

  /** The builder's single field: the required format, if any. */
  datatype Rule = Rule(format: Option<string>)

  /** A new builder has no format. */
  const Fresh: Rule := Rule(None)

  /** The format `format()` sets when called without an argument. */
  const DefaultFormat: string := "national"

  /** The name of the validation rule. */
  const RuleName: string := "zaphone"

  /** `format($format)`: the builder's state after the call, which the
      source returns as the same builder. It renders as `zaphone:f` after
      `format(f)` and as the bare name after `format(null)`, whatever was
      set before. */
  function SetFormat(rule: Rule, format: Option<string>): (r: Rule)
    ensures format.Some? ==> ToString(r) == "zaphone:" + format.value
    ensures format.None? ==> ToString(r) == ToString(Fresh)
  {
    Rule(format)
  }

  /** `format()` with its default argument, which asks for the national
      format. */
  function SetDefaultFormat(rule: Rule): (r: Rule)
    ensures ToString(r) == "zaphone:national"
  {
    SetFormat(rule, Some(DefaultFormat))
  }

  /** `__toString`. */
  function ToString(rule: Rule): (s: string)
    ensures |s| >= |RuleName| && s[..|RuleName|] == RuleName
    ensures s == RuleName <==> rule.format.None?
  {
    match rule.format
    case None => RuleName
    case Some(f) => RuleName + ":" + f
  }

  /** Reads a rendered rule string back: the inverse of `ToString`. */
  function Parse(s: string): Option<Rule> {
    if s == RuleName then Some(Rule(None))
    else if |s| > |RuleName| && s[..|RuleName| + 1] == RuleName + ":" then Some(Rule(Some(s[|RuleName| + 1..])))
    else None
  }

  /** The rendered string determines the builder's state. */
  lemma ParseToString(rule: Rule)
    ensures Parse(ToString(rule)) == Some(rule)
  {
    match rule.format
    case None =>
    case Some(f) =>
      var s := RuleName + ":" + f;
      assert s[..|RuleName| + 1] == RuleName + ":";
      assert s[|RuleName| + 1..] == f;
  }

  /** Distinct states render differently. */
  lemma ToStringInjective(a: Rule, b: Rule)
    requires ToString(a) == ToString(b)
    ensures a == b
  {
    ParseToString(a);
    ParseToString(b);
  }

  /** A fresh rule renders as the bare rule name. */
  lemma FreshRendersBare()
    ensures ToString(Fresh) == "zaphone"
  {
  }

  /** Only the last `format` call counts. */
  lemma LastFormatWins(rule: Rule, first: Option<string>, second: Option<string>)
    ensures SetFormat(SetFormat(rule, first), second) == SetFormat(Fresh, second)
  {
  }
}
