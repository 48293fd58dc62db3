/** The validation rule check: a rule (selector, expected text) is "found"
    when the stored DOM text contains the selector string and contains the
    expected text, anywhere and independently of each other. No selector is
    matched against elements. */
module Validation {
  import opened Wrappers
  import opened Json
  import Text
  import opened Database

  /** One entry of a validation result: `{selector, expectedText, found}`. */
  datatype RuleResult = RuleResult(selector: string, expectedText: string, found: bool)

  /** The entry as the object literal `{selector, expectedText, found}`. */
  function RuleJson(r: RuleResult): Json {
    JObj([("selector", JStr(r.selector)), ("expectedText", JStr(r.expectedText)), ("found", JBool(r.found))])
  }

  /** `dom.includes(needle)` on the stored `dom` cell; only text has `includes`. */
  function DomIncludes(dom: Value, needle: string): (r: Result<bool>)
    ensures r.Ok? <==> dom.SqlText?
    ensures r.Ok? ==> (r.value <==> Text.Occurs(dom.s, needle))
  {
    match dom
    case SqlText(s) => Ok(Text.Includes(s, needle))
    case SqlNull => Err("Cannot read properties of null (reading 'includes')")
    case _ => Err("dom.includes is not a function")
  }

  /** `found = dom.includes(selector) && dom.includes(expectedText)`. */
  function CheckRule(dom: Value, selector: string, expectedText: string): (r: Result<RuleResult>)
    ensures r.Ok? <==> dom.SqlText?
    ensures r.Ok? ==> r.value.selector == selector && r.value.expectedText == expectedText
    ensures r.Ok? ==> (r.value.found <==> Text.Occurs(dom.s, selector) && Text.Occurs(dom.s, expectedText))
  {
    match DomIncludes(dom, selector)
    case Err(e) => Err(e)
    case Ok(hasSelector) =>
      if !hasSelector then Ok(RuleResult(selector, expectedText, false))
      else
        match DomIncludes(dom, expectedText)
        case Err(e) => Err(e)
        case Ok(hasText) => Ok(RuleResult(selector, expectedText, hasText))
  }

  /** One pass of the rule loop: `String(rule.selector)`, `String(rule.text)`,
      then the check; a null rule throws on the property read. */
  function EvaluateRule(dom: Value, rule: Json): (r: Result<RuleResult>)
    ensures r.Ok? <==> dom.SqlText? && !rule.JNull?
    ensures r.Ok? ==>
      && r.value.selector == ToJsString(Get(rule, "selector"))
      && r.value.expectedText == ToJsString(Get(rule, "text"))
      && (r.value.found <==> Text.Occurs(dom.s, r.value.selector) && Text.Occurs(dom.s, r.value.expectedText))
  {
    match Read(rule, "selector")
    case Err(e) => Err(e)
    case Ok(selector) =>
      match Read(rule, "text")
      case Err(e) => Err(e)
      case Ok(text) => CheckRule(dom, ToJsString(selector), ToJsString(text))
  }

  /** The loop over all rules: the results in rule order, or the first
      exception, which abandons the rest. */
  function EvaluateRules(dom: Value, rules: seq<Json>): Result<seq<RuleResult>>
    decreases |rules|
  {
    if rules == [] then Ok([])
    else
      match EvaluateRules(dom, rules[..|rules| - 1])
      case Err(e) => Err(e)
      case Ok(results) =>
        match EvaluateRule(dom, rules[|rules| - 1])
        case Err(e) => Err(e)
        case Ok(result) => Ok(results + [result])
  }

  /** The rule loop succeeds iff there are no rules, or the DOM is text and
      no rule is null. */
  lemma EvaluateRulesSucceeds(dom: Value, rules: seq<Json>)
    ensures EvaluateRules(dom, rules).Ok? <==>
      rules == [] || (dom.SqlText? && forall i :: 0 <= i < |rules| ==> !rules[i].JNull?)
  {
    if EvaluateRules(dom, rules).Ok? {
      EvaluateRulesOkOnly(dom, rules);
    }
    if rules == [] || (dom.SqlText? && forall i :: 0 <= i < |rules| ==> !rules[i].JNull?) {
      EvaluateRulesOk(dom, rules);
    }
  }

  /** Text DOM and no null rule: no exception. */
  lemma {:induction false} EvaluateRulesOk(dom: Value, rules: seq<Json>)
    requires rules == [] || (dom.SqlText? && forall i :: 0 <= i < |rules| ==> !rules[i].JNull?)
    ensures EvaluateRules(dom, rules).Ok?
  {
    if rules != [] {
      var front := rules[..|rules| - 1];
      assert forall i :: 0 <= i < |front| ==> front[i] == rules[i];
      EvaluateRulesOk(dom, front);
      EvaluateRulesLast(dom, rules);
    }
  }

  /** No exception: the DOM is text and no rule is null, unless there are no rules. */
  lemma {:induction false} EvaluateRulesOkOnly(dom: Value, rules: seq<Json>)
    requires EvaluateRules(dom, rules).Ok?
    ensures rules == [] || (dom.SqlText? && forall i :: 0 <= i < |rules| ==> !rules[i].JNull?)
  {
    if rules != [] {
      var front := rules[..|rules| - 1];
      EvaluateRulesLast(dom, rules);
      EvaluateRulesOkOnly(dom, front);
      assert forall i :: 0 <= i < |front| ==> front[i] == rules[i];
    }
  }

  /** The loop succeeds on a non-empty list iff it succeeds on all rules but
      the last and the last one is evaluated without an exception. */
  lemma EvaluateRulesLast(dom: Value, rules: seq<Json>)
    requires rules != []
    ensures EvaluateRules(dom, rules).Ok? <==>
      EvaluateRules(dom, rules[..|rules| - 1]).Ok? && dom.SqlText? && !rules[|rules| - 1].JNull?
  {
  }

  /** A successful loop yields one result per rule, in rule order, each with
      the rule's selector and text as strings and `found` true iff the DOM
      contains both. */
  lemma {:induction false} EvaluateRulesResults(dom: Value, rules: seq<Json>)
    requires EvaluateRules(dom, rules).Ok?
    ensures var results := EvaluateRules(dom, rules).value;
      && |results| == |rules|
      && forall i :: 0 <= i < |rules| ==>
           && !rules[i].JNull?
           && results[i].selector == ToJsString(Get(rules[i], "selector"))
           && results[i].expectedText == ToJsString(Get(rules[i], "text"))
           && (results[i].found <==>
                 Text.Occurs(dom.s, results[i].selector) && Text.Occurs(dom.s, results[i].expectedText))
  {
    if rules != [] {
      var front := rules[..|rules| - 1];
      EvaluateRulesAppend(dom, rules);
      EvaluateRulesResults(dom, front);
      assert forall i :: 0 <= i < |front| ==> front[i] == rules[i];
    }
  }

  /** A successful loop's results are those of all rules but the last,
      followed by the last rule's result. */
  lemma EvaluateRulesAppend(dom: Value, rules: seq<Json>)
    requires rules != [] && EvaluateRules(dom, rules).Ok?
    ensures var front := rules[..|rules| - 1];
      var last := EvaluateRule(dom, rules[|rules| - 1]);
      && EvaluateRules(dom, front).Ok? && last.Ok?
      && EvaluateRules(dom, rules).value == EvaluateRules(dom, front).value + [last.value]
  {
  }

  /** An exception on a prefix of the rules is the exception of the whole loop. */
  lemma {:induction false} EvaluateRulesFailsEarly(dom: Value, rules: seq<Json>, n: nat)
    requires n <= |rules| && EvaluateRules(dom, rules[..n]).Err?
    ensures EvaluateRules(dom, rules) == EvaluateRules(dom, rules[..n])
    decreases |rules| - n
  {
    if n < |rules| {
      assert rules[..n + 1][..n] == rules[..n];
      EvaluateRulesFailsEarly(dom, rules, n + 1);
    } else {
      assert rules[..n] == rules;
    }
  }

  /** The `for (const rule of rules)` loop that pushes onto `results`. */
  method RunRules(dom: Value, rules: seq<Json>) returns (r: Result<seq<RuleResult>>)
    ensures r == EvaluateRules(dom, rules)
  {
    var results: seq<RuleResult> := [];
    for i := 0 to |rules|
      invariant EvaluateRules(dom, rules[..i]) == Ok(results)
    {
      assert rules[..i + 1][..i] == rules[..i];
      var rule := rules[i];
      var selector := Read(rule, "selector");
      if selector.Err? {
        EvaluateRulesFailsEarly(dom, rules, i + 1);
        return Err(selector.error);
      }
      var text := Read(rule, "text");
      var checked := CheckRule(dom, ToJsString(selector.value), ToJsString(text.value));
      if checked.Err? {
        EvaluateRulesFailsEarly(dom, rules, i + 1);
        return Err(checked.error);
      }
      results := results + [checked.value];
    }
    assert rules[..|rules|] == rules;
    r := Ok(results);
  }
}
