/**
 * Grammar configurations (`utils/config_loader.py`): the record a JSON file
 * is parsed into, its list of terminals, the parsing of an already decoded
 * JSON object and the structural validation of a configuration.
 */
module Config {
  import opened Wrappers

  /** `TestCase`. */
  datatype TestCase = TestCase(input: string, expected: string, description: string)

  /** `GrammarConfig`; each lexical rule is a `(pattern, token)` pair. */
  datatype GrammarConfig = GrammarConfig(name: string, description: string, lexicalRules: seq<(string, string)>,
                                         grammarRules: seq<string>, testCases: seq<TestCase>)

  /** `terminals`: the token of every lexical rule, in rule order, repeated tokens kept. */
  function Terminals(c: GrammarConfig): (r: seq<string>)
    ensures |r| == |c.lexicalRules| && forall i :: 0 <= i < |r| ==> r[i] == c.lexicalRules[i].1
  {
    Tokens(c.lexicalRules)
  }

  function Tokens(rules: seq<(string, string)>): (r: seq<string>)
    ensures |r| == |rules| && forall i :: 0 <= i < |r| ==> r[i] == rules[i].1
  {
    if rules == [] then [] else Tokens(rules[..|rules| - 1]) + [rules[|rules| - 1].1]
  }

  /**
   * A decoded JSON configuration object: each top-level key is None when
   * absent, and each lexical rule and test case is an object with text
   * values.
   */
  datatype ConfigData = ConfigData(name: Option<string>, description: Option<string>,
                                   lexicalRules: Option<seq<map<string, string>>>,
                                   grammarRules: Option<seq<string>>,
                                   testCases: Option<seq<map<string, string>>>)

  /** Why parsing stops: a lexical rule or test case without one of its required keys (Python's `KeyError`). */
  datatype ParseError = MissingKey(key: string)

  predicate IsRule(rule: map<string, string>)
  {
    "pattern" in rule && "token" in rule
  }

  predicate IsTest(test: map<string, string>)
  {
    "input" in test && "expected" in test
  }

  /**
   * `_parse_config`. Every lexical rule becomes its `(pattern, token)` pair
   * and every test case its record, in input order; a missing name is
   * `Unknown`, a missing description (of the configuration or a test case)
   * is empty, and missing lists are empty. A rule or test case without a
   * required key stops the parse.
   */
  method ParseConfig(data: ConfigData) returns (r: Result<GrammarConfig, ParseError>)
    ensures r.Err? <==> ((exists i :: 0 <= i < |data.lexicalRules.GetOr([])| && !IsRule(data.lexicalRules.GetOr([])[i]))
                         || (exists i :: 0 <= i < |data.testCases.GetOr([])| && !IsTest(data.testCases.GetOr([])[i])))
    ensures r.Ok? ==>
              && r.value.name == data.name.GetOr("Unknown")
              && r.value.description == data.description.GetOr("")
              && r.value.grammarRules == data.grammarRules.GetOr([])
    ensures r.Ok? ==>
              var rules := data.lexicalRules.GetOr([]);
              && |r.value.lexicalRules| == |rules|
              && (forall i :: 0 <= i < |rules| ==> r.value.lexicalRules[i] == (rules[i]["pattern"], rules[i]["token"]))
              && |Terminals(r.value)| == |rules|
              && forall i :: 0 <= i < |rules| ==> Terminals(r.value)[i] == rules[i]["token"]
    ensures r.Ok? ==>
              var tests := data.testCases.GetOr([]);
              && |r.value.testCases| == |tests|
              && forall i :: 0 <= i < |tests| ==>
                   r.value.testCases[i]
                   == TestCase(tests[i]["input"], tests[i]["expected"],
                               if "description" in tests[i] then tests[i]["description"] else "")
  {
    var rawRules := data.lexicalRules.GetOr([]);
    var lexicalRules: seq<(string, string)> := [];
    var i := 0;
    while i < |rawRules|
      invariant 0 <= i <= |rawRules| && |lexicalRules| == i
      invariant forall k :: 0 <= k < i ==> IsRule(rawRules[k])
      invariant forall k :: 0 <= k < i ==> lexicalRules[k] == (rawRules[k]["pattern"], rawRules[k]["token"])
    {
      var rule := rawRules[i];
      if "pattern" !in rule {
        return Err(MissingKey("pattern"));
      }
      if "token" !in rule {
        return Err(MissingKey("token"));
      }
      lexicalRules := lexicalRules + [(rule["pattern"], rule["token"])];
      i := i + 1;
    }

    var grammarRules := data.grammarRules.GetOr([]);

    var rawTests := data.testCases.GetOr([]);
    var testCases: seq<TestCase> := [];
    var j := 0;
    while j < |rawTests|
      invariant 0 <= j <= |rawTests| && |testCases| == j
      invariant forall k :: 0 <= k < j ==> IsTest(rawTests[k])
      invariant forall k :: 0 <= k < j ==>
                  testCases[k] == TestCase(rawTests[k]["input"], rawTests[k]["expected"],
                                           if "description" in rawTests[k] then rawTests[k]["description"] else "")
    {
      var test := rawTests[j];
      if "input" !in test {
        return Err(MissingKey("input"));
      }
      if "expected" !in test {
        return Err(MissingKey("expected"));
      }
      var description := if "description" in test then test["description"] else "";
      testCases := testCases + [TestCase(test["input"], test["expected"], description)];
      j := j + 1;
    }

    return Ok(GrammarConfig(data.name.GetOr("Unknown"), data.description.GetOr(""), lexicalRules, grammarRules, testCases));
  }

  /** `s` occurs in `text` starting at position `k`. */
  ghost predicate OccursAt(text: string, s: string, k: int)
  {
    0 <= k && k + |s| <= |text| && text[k..k + |s|] == s
  }

  /** Python's `s in text` on strings: some suffix of `text` starts with `s`. */
  function Contains(text: string, s: string): (r: bool)
    ensures r <==> exists k :: OccursAt(text, s, k)
  {
    if |text| < |s| then
      assert forall k :: !OccursAt(text, s, k);
      false
    else if text[..|s|] == s then
      assert OccursAt(text, s, 0);
      true
    else
      var rest := Contains(text[1..], s);
      ShiftedOccurrence(text, s);
      rest
  }

  /** An occurrence in `text` not at its start is an occurrence in `text[1..]`, one position earlier, and back. */
  lemma ShiftedOccurrence(text: string, s: string)
    requires |text| >= |s| && text[..|s|] != s
    ensures (exists k :: OccursAt(text, s, k)) <==> (exists k :: OccursAt(text[1..], s, k))
  {
    forall k | OccursAt(text, s, k) ensures OccursAt(text[1..], s, k - 1) {
      assert k != 0;
      assert text[1..][k - 1..k - 1 + |s|] == text[k..k + |s|];
    }
    forall k | OccursAt(text[1..], s, k) ensures OccursAt(text, s, k + 1) {
      assert text[1..][k..k + |s|] == text[k + 1..k + 1 + |s|];
    }
  }

  /** A grammar rule has the arrow that separates its two sides somewhere in it. */
  ghost predicate HasArrow(rule: string)
  {
    exists k :: OccursAt(rule, "->", k)
  }

  /**
   * `validate`: a configuration is accepted exactly when it has a name, at
   * least one lexical rule, at least one grammar rule, and every grammar
   * rule contains `->`. The checks run in that order.
   */
  method Validate(config: GrammarConfig) returns (ok: bool)
    ensures ok <==> && config.name != "" && config.lexicalRules != [] && config.grammarRules != []
                    && forall i :: 0 <= i < |config.grammarRules| ==> HasArrow(config.grammarRules[i])
  {
    if config.name == "" {
      return false;
    }
    if config.lexicalRules == [] {
      return false;
    }
    if config.grammarRules == [] {
      return false;
    }
    var i := 0;
    while i < |config.grammarRules|
      invariant 0 <= i <= |config.grammarRules|
      invariant forall k :: 0 <= k < i ==> Contains(config.grammarRules[k], "->")
    {
      if !Contains(config.grammarRules[i], "->") {
        return false;
      }
      i := i + 1;
    }
    forall k | 0 <= k < |config.grammarRules| ensures HasArrow(config.grammarRules[k]) {
      assert Contains(config.grammarRules[k], "->");
    }
    return true;
  }
}
