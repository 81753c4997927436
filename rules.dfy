/**
  Ordered keyword rules evaluated first-match-wins. The classifier of app.py
  writes its two rule lists as `if/elif` chains; this module states the same
  rule lists as data, so that their precedence can be proved against the
  chains.
 */
module Rules {
  import opened Text

  /** A rule fires when the text contains any of its keywords. */
  datatype Rule<T> = Rule(keywords: seq<string>, output: T)

  /** The text contains at least one of the keywords (`a in t or b in t`). */
  function AnyContained(text: string, keywords: seq<string>): (r: bool)
    ensures r <==> exists k :: 0 <= k < |keywords| && Contains(text, keywords[k])
  {
    if keywords == [] then false
    else Contains(text, keywords[0]) || AnyContained(text, keywords[1..])
  }

  predicate Fires<T>(text: string, rule: Rule<T>) {
    AnyContained(text, rule.keywords)
  }

  /** The output of the first rule that fires, or `default` if none does. */
  function FirstMatch<T>(rules: seq<Rule<T>>, text: string, default: T): (r: T)
    ensures (forall i :: 0 <= i < |rules| ==> !Fires(text, rules[i])) ==> r == default
    ensures forall i :: 0 <= i < |rules| && Fires(text, rules[i])
                        && (forall j :: 0 <= j < i ==> !Fires(text, rules[j]))
                        ==> r == rules[i].output
    ensures r == default || exists i :: 0 <= i < |rules| && r == rules[i].output
  {
    if rules == [] then default
    else if Fires(text, rules[0]) then rules[0].output
    else
      var r := FirstMatch(rules[1..], text, default);
      assert forall i :: 1 <= i < |rules| ==> rules[i] == rules[1..][i - 1];
      r
  }
}
