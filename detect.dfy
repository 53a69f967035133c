/** Keyword classification of the normalized message: which drone model it
    names and which intent it expresses. Both are first-match-wins cascades;
    each is written as the source writes it (an if/else chain) and proved
    equal to an ordered table of rules evaluated by `FirstRule`. */
module Detect {
  import opened Wrappers
  import opened Text

  datatype Model = T25P | T50 | T70P | T100 | Mavic3M

  datatype Intent = Price | Demo | Performance | Financing | General

  /** The string the handler reports for a model. */
  function ModelName(m: Model): string {
    match m
    case T25P => "T25P"
    case T50 => "T50"
    case T70P => "T70P"
    case T100 => "T100"
    case Mavic3M => "Mavic3M"
  }

  /** The string the handler reports for an intent. */
  function IntentName(i: Intent): string {
    match i
    case Price => "price"
    case Demo => "demo"
    case Performance => "performance"
    case Financing => "financing"
    case General => "general"
  }

  /** The reported strings identify what they report: no two models and no
      two intents share a name. */
  lemma NamesIdentify(a: Model, b: Model, x: Intent, y: Intent)
    ensures ModelName(a) == ModelName(b) ==> a == b
    ensures IntentName(x) == IntentName(y) ==> x == y
  {
  }

  /** A rule fires when the text contains any of its keywords. */
  datatype Rule<T> = Rule(keywords: seq<string>, result: T)

  predicate Fires<T>(text: string, rule: Rule<T>) {
    exists w :: w in rule.keywords && Contains(text, w)
  }

  /** The result of the first rule in `rules` that fires on `text`. */
  function FirstRule<T(==)>(text: string, rules: seq<Rule<T>>): (r: Option<T>)
    ensures r.None? <==> forall n :: 0 <= n < |rules| ==> !Fires(text, rules[n])
    ensures r.Some? ==> exists n :: (0 <= n < |rules| && Fires(text, rules[n]) && r.value == rules[n].result
                                     && forall m :: 0 <= m < n ==> !Fires(text, rules[m]))
  {
    if rules == [] then None
    else if Fires(text, rules[0]) then Some(rules[0].result)
    else
      var r := FirstRule(text, rules[1..]);
      assert forall n :: 1 <= n < |rules| ==> rules[n] == rules[1..][n - 1];
      if r.Some? then
        var n :| 0 <= n < |rules| - 1 && Fires(text, rules[1..][n]) && r.value == rules[1..][n].result
          && forall m :: 0 <= m < n ==> !Fires(text, rules[1..][m]);
        assert forall m :: 0 <= m < n + 1 ==> !Fires(text, rules[m]) by {
          forall m | 0 <= m < n + 1 ensures !Fires(text, rules[m]) {
            if m > 0 { assert rules[m] == rules[1..][m - 1]; }
          }
        }
        r
      else
        r
  }

  /** The model keywords in the order the handler tests them. */
  const ModelRules: seq<Rule<Model>> := [
    Rule(["t25"], T25P),
    Rule(["t50"], T50),
    Rule(["t70"], T70P),
    Rule(["t100"], T100),
    Rule(["mavic"], Mavic3M)
  ]

  /** The intent keyword groups in the order the handler tests them. */
  const IntentRules: seq<Rule<Intent>> := [
    Rule(["precio", "costo", "cuanto"], Price),
    Rule(["demo", "prueba"], Demo),
    Rule(["rinde", "rendimiento", "especificacion"], Performance),
    Rule(["financ"], Financing)
  ]

  /** Model detection on the normalized message; `None` leaves the session's
      model as it was. */
  function DetectModel(lower: string): Option<Model>
  {
    if Contains(lower, "t25") then Some(T25P)
    else if Contains(lower, "t50") then Some(T50)
    else if Contains(lower, "t70") then Some(T70P)
    else if Contains(lower, "t100") then Some(T100)
    else if Contains(lower, "mavic") then Some(Mavic3M)
    else None
  }

  /** Intent detection on the normalized message. */
  function DetectIntent(lower: string): Intent
  {
    if Contains(lower, "precio") || Contains(lower, "costo") || Contains(lower, "cuanto") then Price
    else if Contains(lower, "demo") || Contains(lower, "prueba") then Demo
    else if Contains(lower, "rinde") || Contains(lower, "rendimiento") || Contains(lower, "especificacion") then Performance
    else if Contains(lower, "financ") then Financing
    else General
  }

  /** Evaluating a table of rules: the head rule if it fires, else the rest. */
  lemma FirstRuleStep<T>(text: string, rules: seq<Rule<T>>)
    requires rules != []
    ensures FirstRule(text, rules) == if Fires(text, rules[0]) then Some(rules[0].result) else FirstRule(text, rules[1..])
  {
  }

  /** A table of four rules, evaluated as a cascade. */
  lemma FirstRuleOfFour<T>(text: string, rules: seq<Rule<T>>)
    requires |rules| == 4
    ensures FirstRule(text, rules) ==
      if Fires(text, rules[0]) then Some(rules[0].result)
      else if Fires(text, rules[1]) then Some(rules[1].result)
      else if Fires(text, rules[2]) then Some(rules[2].result)
      else if Fires(text, rules[3]) then Some(rules[3].result)
      else None
  {
    FirstRuleStep(text, rules);
    FirstRuleStep(text, rules[1..]);
    assert rules[1..][1..] == rules[2..];
    FirstRuleStep(text, rules[2..]);
    assert rules[2..][1..] == rules[3..];
    FirstRuleStep(text, rules[3..]);
    assert rules[3..][1..] == [];
  }

  lemma FiresOn<T>(text: string, keywords: seq<string>, result: T)
    ensures Fires(text, Rule(keywords, result)) <==> exists n :: 0 <= n < |keywords| && Contains(text, keywords[n])
  {
    if exists n :: 0 <= n < |keywords| && Contains(text, keywords[n]) {
      var n :| 0 <= n < |keywords| && Contains(text, keywords[n]);
      assert keywords[n] in keywords;
    }
  }

  /** The model cascade is the first-match evaluation of `ModelRules`. */
  lemma DetectModelFollowsRules(lower: string)
    ensures DetectModel(lower) == FirstRule(lower, ModelRules)
  {
    var rules := ModelRules;
    assert Fires(lower, rules[0]) == Contains(lower, "t25") by { FiresOn(lower, ["t25"], T25P); }
    assert Fires(lower, rules[1]) == Contains(lower, "t50") by { FiresOn(lower, ["t50"], T50); }
    assert Fires(lower, rules[2]) == Contains(lower, "t70") by { FiresOn(lower, ["t70"], T70P); }
    assert Fires(lower, rules[3]) == Contains(lower, "t100") by { FiresOn(lower, ["t100"], T100); }
    assert Fires(lower, rules[4]) == Contains(lower, "mavic") by { FiresOn(lower, ["mavic"], Mavic3M); }
    FirstRuleStep(lower, rules);
    assert |rules[1..]| == 4;
    FirstRuleOfFour(lower, rules[1..]);
  }

  /** The intent cascade is the first-match evaluation of `IntentRules`,
      with `General` when no group fires. */
  lemma DetectIntentFollowsRules(lower: string)
    ensures DetectIntent(lower) == FirstRule(lower, IntentRules).GetOr(General)
  {
    var rules := IntentRules;
    var price := Contains(lower, "precio") || Contains(lower, "costo") || Contains(lower, "cuanto");
    var demo := Contains(lower, "demo") || Contains(lower, "prueba");
    var performance := Contains(lower, "rinde") || Contains(lower, "rendimiento") || Contains(lower, "especificacion");
    var financing := Contains(lower, "financ");
    assert Fires(lower, rules[0]) == price by { FiresOn(lower, ["precio", "costo", "cuanto"], Price); }
    assert Fires(lower, rules[1]) == demo by { FiresOn(lower, ["demo", "prueba"], Demo); }
    assert Fires(lower, rules[2]) == performance by {
      FiresOn(lower, ["rinde", "rendimiento", "especificacion"], Performance);
    }
    assert Fires(lower, rules[3]) == financing by { FiresOn(lower, ["financ"], Financing); }
    FirstRuleOfFour(lower, rules);
  }

  /** A price keyword decides the intent whatever else the message says, and
      the default is `General` exactly when no keyword group fires. */
  lemma IntentPriority(lower: string)
    ensures Fires(lower, IntentRules[0]) ==> DetectIntent(lower) == Price
    ensures !Fires(lower, IntentRules[0]) && Fires(lower, IntentRules[1]) ==> DetectIntent(lower) == Demo
    ensures DetectIntent(lower) == General <==> forall n :: 0 <= n < |IntentRules| ==> !Fires(lower, IntentRules[n])
  {
    DetectIntentFollowsRules(lower);
    var r := FirstRule(lower, IntentRules);
    if r.Some? {
      var n :| 0 <= n < |IntentRules| && Fires(lower, IntentRules[n]) && r.value == IntentRules[n].result
        && forall m :: 0 <= m < n ==> !Fires(lower, IntentRules[m]);
      assert IntentRules[n].result != General;
    }
  }
}
