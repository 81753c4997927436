/**
  `ai_reason` and `render_pipeline` of app.py: free text is classified into
  a shape and a colour by two independent keyword chains over the
  lower-cased text, an explanation is obtained from a text generator, and
  the descriptor is spliced into the bridge script for the host page.

  The text generator (a GPT-2 pipeline in app.py) is a parameter
  `generate`: the model says which prompt it is given and that its answer
  is passed through unchanged, and nothing about the answer itself.
 */
module App {
  import opened Text
  import opened Rules
  import opened Scene
  import opened Wrappers
  import opened Bridge

  /** The explanation returned for blank input. */
  const Guidance: string := "Please describe an object."

  /** The prompt text put before the user's own words. */
  const PromptPrefix: string := "Explain what this object is used for in simple terms: "

  /** The prompt handed to the generator: the original text, not the
      lower-cased one. */
  function Prompt(userText: string): (r: string)
    ensures |r| == |PromptPrefix| + |userText|
    ensures r[..|PromptPrefix|] == PromptPrefix
    ensures r[|PromptPrefix|..] == userText
  {
    PromptPrefix + userText
  }

  // ---------------------------------------------------------------------
  // The two keyword chains, as app.py writes them
  // ---------------------------------------------------------------------

  /** Shape detection: `if "sphere" in text or "ball" in text` / `elif
      "cone" in text` / default "box". */
  function DetectShape(text: string): (r: Shape)
    ensures r == Sphere <==> Contains(text, "sphere") || Contains(text, "ball")
    ensures r == Cone <==> !Contains(text, "sphere") && !Contains(text, "ball") && Contains(text, "cone")
    ensures r == Box <==> !Contains(text, "sphere") && !Contains(text, "ball") && !Contains(text, "cone")
  {
    if Contains(text, "sphere") || Contains(text, "ball") then Sphere
    else if Contains(text, "cone") then Cone
    else Box
  }

  /** Colour detection: red, then blue, then yellow, default green. */
  function DetectColor(text: string): (r: Color)
    ensures r == Red <==> Contains(text, "red")
    ensures r == Blue <==> !Contains(text, "red") && Contains(text, "blue")
    ensures r == Yellow <==> !Contains(text, "red") && !Contains(text, "blue") && Contains(text, "yellow")
    ensures r == Green <==> !Contains(text, "red") && !Contains(text, "blue") && !Contains(text, "yellow")
  {
    if Contains(text, "red") then Red
    else if Contains(text, "blue") then Blue
    else if Contains(text, "yellow") then Yellow
    else Green
  }

  // ---------------------------------------------------------------------
  // The same precedence as explicit rule tables
  // ---------------------------------------------------------------------

  const ShapeRules: seq<Rule<Shape>> := [Rule(["sphere", "ball"], Sphere), Rule(["cone"], Cone)]

  const ColorRules: seq<Rule<Color>> := [Rule(["red"], Red), Rule(["blue"], Blue), Rule(["yellow"], Yellow)]

  /** The shape chain is the first-match-wins reading of its table. */
  lemma ShapeChainIsRuleTable(text: string)
    ensures DetectShape(text) == FirstMatch(ShapeRules, text, Box)
  {
    assert AnyContained(text, ShapeRules[0].keywords)
       == (Contains(text, "sphere") || Contains(text, "ball"));
    assert AnyContained(text, ShapeRules[1].keywords) == Contains(text, "cone");
  }

  /** The colour chain is the first-match-wins reading of its table. */
  lemma ColorChainIsRuleTable(text: string)
    ensures DetectColor(text) == FirstMatch(ColorRules, text, Green)
  {
    assert AnyContained(text, ColorRules[0].keywords) == Contains(text, "red");
    assert AnyContained(text, ColorRules[1].keywords) == Contains(text, "blue");
    assert AnyContained(text, ColorRules[2].keywords) == Contains(text, "yellow");
  }

  /** Blank text, lower-cased, contains none of the keywords (they all
      start with a letter), so both chains give their defaults. */
  lemma BlankGivesDefaults(userText: string)
    requires IsBlank(userText)
    ensures DetectShape(Lower(userText)) == Box
    ensures DetectColor(Lower(userText)) == Green
  {
    var text := Lower(userText);
    LowerKeepsBlank(userText);
    WhitespaceHasNoWord(text, "sphere", 0);
    WhitespaceHasNoWord(text, "ball", 0);
    WhitespaceHasNoWord(text, "cone", 0);
    WhitespaceHasNoWord(text, "red", 0);
    WhitespaceHasNoWord(text, "blue", 0);
    WhitespaceHasNoWord(text, "yellow", 0);
  }

  // ---------------------------------------------------------------------
  // ai_reason and render_pipeline
  // ---------------------------------------------------------------------

  /** What `ai_reason` returns: the shape tag is `Tag(shape)`, the colour
      string `Literal(color)`. */
  datatype Reasoning = Reasoning(shape: Shape, color: Color, explanation: string)

  /** `ai_reason(user_text)`. Blank text short-circuits to the default
      descriptor and the guidance sentence without consulting the
      generator; otherwise both chains run over the lower-cased text and the
      generator's answer to the prompt is the explanation. Either way the
      descriptor is what the rule tables give for the lower-cased text. */
  function AiReason(userText: string, generate: string -> string): (r: Reasoning)
    ensures IsBlank(userText) ==> r == Reasoning(Box, Green, Guidance)
    ensures !IsBlank(userText) ==> r.explanation == generate(Prompt(userText))
    ensures r.shape == FirstMatch(ShapeRules, Lower(userText), Box)
    ensures r.color == FirstMatch(ColorRules, Lower(userText), Green)
  {
    var text := Lower(userText);
    ShapeChainIsRuleTable(text);
    ColorChainIsRuleTable(text);
    if IsBlank(userText) then
      BlankGivesDefaults(userText);
      Reasoning(Box, Green, Guidance)
    else
      Reasoning(DetectShape(text), DetectColor(text), generate(Prompt(userText)))
  }

  /** `render_pipeline(user_text)`: the explanation, unchanged, and the
      bridge script, which `DecodeBridge` reads back as exactly the descriptor
      `ai_reason` chose. */
  function RenderPipeline(userText: string, generate: string -> string): (r: (string, string))
    ensures r.0 == AiReason(userText, generate).explanation
    ensures DecodeBridge(r.1) == Some((AiReason(userText, generate).shape, AiReason(userText, generate).color))
  {
    var reasoning := AiReason(userText, generate);
    (reasoning.explanation, BridgeScript(reasoning.shape, reasoning.color))
  }
}
