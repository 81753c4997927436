# Text-to-scene classifier and renderer bridge, in Dafny

This project models the core of the NexEra "AI → 3D asset" prototype (`app.py`).
The prototype turns a free-text description of an object into two things:

- a scene descriptor. This is a shape tag (`"box"`, `"sphere"`, `"cone"`) and a
  colour literal (`"0x00ff00"`, `"0xff0000"`, `"0x0000ff"`, `"0xffff00"`). Two
  independent keyword chains choose them, first match wins, over the lower-cased
  text;
- an explanation, taken from a text generator.

It then splices the descriptor into a fixed `<script>` snippet that calls the host
page's `renderFromAI("<shape>", <color>)`.

Everything in the core is a pure function, so the model uses functions and lemmas:

- `text.dfy` (module `Text`) has Python's `str.lower()` restricted to ASCII,
  `str.strip()` with the exact `str.isspace()` character set, the blank-input
  guard `not s or not s.strip()`, and the substring test `w in s`.
- `rules.dfy` (module `Rules`) has ordered keyword rule tables read first-match-wins.
  It is an independent reference that the `if/elif` chains are proved against.
- `scene.dfy` (module `Scene`) has the shape and colour enumerations and the exact
  literals app.py uses. It also has the colours' 24-bit values, lower-case hex
  numerals with both round trips, and decoders from the literals back to the
  enumerations.
- `bridge.dfy` (module `Bridge`) has the script template of `render_pipeline`. It
  also has `DecodeBridge`, a strict reading of the call the host receives: the
  tag up to the first double quote, then the separator, then the colour literal.
  The decoder is the inverse the template is proved against. It is not code of the
  repository.
- `app.dfy` (module `App`) has `ai_reason` as `AiReason` and `render_pipeline` as
  `RenderPipeline`. It also has the two chains as written (`DetectShape`,
  `DetectColor`) and the rule tables `ShapeRules` and `ColorRules`.
- `properties.dfy` (module `AppProperties`) holds the all-input properties and the
  end-to-end scenarios.

The GPT-2 text generator is a parameter `generate: string -> string`. The model
states which prompt it receives and that its answer passes through unchanged. It
states nothing about the answer itself. `AiReason` returns a `Reasoning` value. Its
shape tag string is `Tag(shape)` and its colour string is `Literal(color)`.

Behaviour of app.py the model keeps:

- The blank-input explanation is `"Please describe an object."` (app.py:24).
- app.py has no fallback explanation: an exception from the generator propagates
  (app.py:46-47), so the model has no failure path there.
- The bridge payload is built by string interpolation (app.py:59-65). The model
  proves that this interpolation cannot be broken out of for any descriptor.

## Model

| member | source | states |
|---|---|---|
| `Text.Lower` | app.py:26 | lower-casing keeps the length and maps each character on its own: upper-case ASCII letters to lower case, everything else unchanged |
| `Text.LowerIdempotent` | app.py:26 | lower-casing an already lower-cased text changes nothing |
| `Text.LowerKeepsOccurrence` | app.py:26-33 | a keyword written in any case in the input still occurs, in lower case, in the text the chains test |
| `Text.TrimStart` | app.py:23 | what is dropped is all whitespace, and what is left is a suffix that starts with a non-whitespace character or is empty |
| `Text.TrimEnd` | app.py:23 | what is dropped is all whitespace, and what is left is a prefix that ends with a non-whitespace character or is empty |
| `Text.Strip` | app.py:23 | `strip()` gives a slice of the text with only whitespace before and after it, and the slice neither starts nor ends with whitespace |
| `Text.StripEmptyIff` | app.py:23 | `strip()` gives the empty string exactly when every character is whitespace |
| `Text.IsBlank` | app.py:23 | the guard `not user_text or not user_text.strip()` holds exactly for empty or whitespace-only text |
| `Text.LowerKeepsBlank` | app.py:23-26 | lower-casing does not change whether a text is blank |
| `Text.WhitespaceHasNoWord` | app.py:23-42 | whitespace-only text contains no keyword that has a non-whitespace character |
| `Text.Contains` | app.py:30-42 | `w in text`: the empty word occurs in every text, and no word occurs in a shorter text |
| `Text.ContainsIffSplit` | app.py:30-42 | `w in text` holds exactly when the text is some text, then `w`, then some text |
| `Text.MissingCharRulesOut` | app.py:30-42 | a text lacking one of a keyword's characters does not contain the keyword |
| `Rules.AnyContained` | app.py:30 | `a in t or b in t` holds exactly when some keyword of the rule occurs in the text |
| `Rules.FirstMatch` | app.py:29-42 | the result is the output of the first rule that fires, given that no earlier rule fires; it is the default when no rule fires; it is always the default or some rule's output |
| `App.Prompt` | app.py:45 | the prompt is the fixed prefix followed by the user's original, un-lowered text, character for character |
| `App.DetectShape` | app.py:28-33 | the shape is sphere iff "sphere" or "ball" occurs, cone iff "cone" occurs and neither of those does, box iff none of the three occurs |
| `App.DetectColor` | app.py:35-42 | the colour is red iff "red" occurs, blue iff "blue" occurs and "red" does not, yellow iff only "yellow" of the three occurs, green iff none occurs |
| `App.ShapeChainIsRuleTable` | app.py:29-33 | the shape `if/elif` chain equals the first-match reading of the table [sphere/ball → sphere, cone → cone], default box |
| `App.ColorChainIsRuleTable` | app.py:36-42 | the colour chain equals the first-match reading of [red, blue, yellow], default green |
| `App.BlankGivesDefaults` | app.py:23-42 | on blank input both chains would give their defaults, so the short-circuit agrees with them on the descriptor |
| `App.AiReason` | app.py:22-49 | blank input gives (box, green, "Please describe an object."); any other input's explanation is the generator's answer to the prompt with the original text; in every case the descriptor is the first-match result of the rule tables on the lower-cased text |
| `App.RenderPipeline` | app.py:55-67 | the first component is `ai_reason`'s explanation unchanged; the second is a script `DecodeBridge` reads as exactly `ai_reason`'s shape and colour |
| `Scene.Tag` | app.py:29-33 | every shape tag is 3 to 6 lower-case letters, so it holds no quote or backslash |
| `Scene.TagRoundTrip` | app.py:62 | tags and shapes correspond one to one in both directions |
| `Scene.Literal` | app.py:36-42 | every colour string is "0x" followed by six lower-case hexadecimal digits |
| `Scene.Value` | app.py:36-42 | every colour value fits in 24 bits |
| `Scene.HexDigit` | app.py:62 | a digit value below 16 is written as a lower-case hexadecimal digit |
| `Scene.DigitValue` | app.py:62 | reading a hexadecimal digit gives a value below 16 that writes back as the same digit |
| `Scene.HexDigits` | app.py:62 | a number written with w digits gives exactly w lower-case hexadecimal digits |
| `Scene.ParseHex` | app.py:62 | the value of a numeral of w digits is below 16^w |
| `Scene.ParseHexDigits` | app.py:62 | a number below 16^w written with w digits and read back gives the number |
| `Scene.HexDigitsParse` | app.py:62 | a numeral read and written back with as many digits gives the same numeral, leading zeros included |
| `Scene.ParseHexSix` | app.py:62 | the value of a six-digit numeral, digit by digit |
| `Scene.LiteralSpellsValue` | app.py:36-42 | each colour literal is "0x" and the colour's 24-bit value written as six hexadecimal digits, and its digits read back as that value |
| `Scene.ColorOfValueIff` | app.py:36-42 | the four palette values are distinct, so a value names at most one colour |
| `Scene.ColorLiteralRoundTrip` | app.py:62 | colour literals and colours correspond one to one in both directions |
| `Bridge.IndexOf` | app.py:62 | the result is the first index of the character, or there is none |
| `Bridge.CallArgumentsIff` | app.py:59-65 | the decoder takes off the template's fixed head and tail exactly when the script is head + arguments + tail |
| `Bridge.IndexOfAfter` | app.py:62 | in a tag followed by the closing quote, the first quote is the closing one |
| `Bridge.SplitArguments` | app.py:62 | encoded arguments split back at the closing quote into the tag and the rest |
| `Bridge.ArgumentsRoundTrip` | app.py:62 | the argument text of a descriptor decodes to that descriptor |
| `Bridge.ArgumentsExact` | app.py:62 | argument text that decodes to a descriptor is exactly that descriptor's argument text |
| `Bridge.BridgeScript` | app.py:59-65 | the script for any descriptor decodes to exactly that descriptor: the quoted tag cannot be broken out of |
| `Bridge.DecodeBridgeExact` | app.py:59-65 | every script that decodes to a descriptor is, character for character, the template filled with that descriptor |
| `AppProperties.BlankInput` | app.py:23-24 | empty or whitespace-only input gives exactly ("box", "0x00ff00", "Please describe an object."), the same for every generator, so the generator is not used |
| `AppProperties.ExplanationFromGenerator` | app.py:45-47 | for any other input the explanation is the generator's answer to "Explain what this object is used for in simple terms: " + the original text |
| `AppProperties.IgnoresCase` | app.py:26 | a text and its lower-cased form get the same shape and colour |
| `AppProperties.UpperCaseConeMatches` | app.py:26-33 | "CONE" anywhere in a text without a sphere keyword selects the cone |
| `AppProperties.LowerCone` | app.py:26 | "CONE" lowers to "cone" |
| `AppProperties.ShapePrecedence` | app.py:29-33 | the shape is sphere iff "sphere" or "ball" occurs (so it wins over "cone"), cone iff "cone" occurs and neither of those does, and box iff none occurs |
| `AppProperties.ColorPrecedence` | app.py:36-42 | the colour is red iff "red" occurs, blue iff "blue" occurs and "red" does not, yellow iff only "yellow" of the three occurs, and green iff none occurs, whatever the positions |
| `AppProperties.ShapeOnlyFromShapeKeywords` | app.py:28-33 | two texts that agree on "sphere", "ball" and "cone" get the same shape, whatever else they say |
| `AppProperties.ColorOnlyFromColorKeywords` | app.py:35-42 | two texts that agree on "red", "blue" and "yellow" get the same colour, whatever else they say |
| `AppProperties.OutputRange` | app.py:24-42 | the shape tag is one of the three literals; the colour is one of the four literals, a well-formed hex literal whose digits read back as its value below 2^24 |
| `AppProperties.PayloadIsTemplate` | app.py:55-67 | the returned script is the template filled with the chosen descriptor, whatever the rest of the text |
| `AppProperties.PayloadOnlyFromDescriptor` | app.py:55-67 | texts with the same descriptor get the same script, whatever the generator says, so no user text reaches the payload |
| `AppProperties.LoweredTextDecides` | app.py:26-42 | for text already in lower case, the chains decide on the text itself |
| `AppProperties.YellowHardHatKeywords` | app.py:29-42 | among the keywords, "a yellow hard hat" contains only "yellow" |
| `AppProperties.YellowHardHat` | app.py:29-42 | "a yellow hard hat" gives (box, 0xffff00) |
| `AppProperties.BlueSphereKeywords` | app.py:29-42 | "a blue sphere" contains "sphere" and "blue" but not "red" |
| `AppProperties.BlueSphere` | app.py:29-42 | "a blue sphere" gives (sphere, 0x0000ff) |
| `AppProperties.RedConeKeywords` | app.py:29-42 | "a red cone" contains "cone" and "red" but no sphere keyword |
| `AppProperties.RedCone` | app.py:28-42 | "a red cone" gives (cone, 0xff0000): the two chains do not interfere |
| `AppProperties.RedBeatsEarlierBlue` | app.py:37-40 | "blue and red" gives red, though "blue" comes first in the text |
| `AppProperties.BallBeatsEarlierCone` | app.py:30-33 | "a cone-shaped ball" gives sphere, though "cone" comes first in the text |
| `AppProperties.BoredSconeKeywords` | app.py:29-42 | "a bored scone" contains "cone" and "red" inside longer words |
| `AppProperties.InsideLongerWords` | app.py:29-42 | "a bored scone" gives (cone, 0xff0000): matching is by substring, not by word |
| `AppProperties.EmptyInput` | app.py:23-24 | "" gives (box, green, "Please describe an object."), and its script asks for a green box |
| `AppProperties.UpperCaseCone` | app.py:26-42 | "CONE" gives (cone, 0x00ff00) |

## Left out

- The GPT-2 pipeline (app.py:7, 16, 45-47) is a foreign model. It appears only as the parameter `generate`, applied to the prompt. The model does not cover `max_length`, `num_return_sequences`, the `[0]["generated_text"]` indexing or what the model writes.
- An exception raised by the generator is not modelled. app.py does not catch it, so the request fails. A total function cannot express that.
- The Gradio interface and `demo.launch()` (app.py:6, 73-112) are UI and server plumbing.
- test-1-3d/main.js is not part of this model. It holds the Three.js scene, the animation loop with floating-point rotation, and the DOM handling. Its `createGeometry` only wraps library constructors. It exports `window.loadObjectFromAI`, while app.py calls `renderFromAI`. index.html, which connects the two, is not part of this model, so `DecodeBridge` stands in for the receiving end. It is stricter than a JavaScript engine, which would also take `0x00FF00`, `65280` or other spacing.
- `Text.Lower` lowers ASCII letters only. Python's `str.lower()` also maps non-ASCII characters. Two of these lower to ASCII letters: the Kelvin sign to "k", and U+0130 to "i" plus a combining dot. Neither "k" nor "i" appears in any keyword, so the keyword tests are unaffected. The model does not prove this.
- Whitespace is Python's `str.isspace()` set, listed character by character in `Text.IsWhitespace`.
- Concurrency and latency (the generator call blocking the request) are not modelled. The model is a single synchronous evaluation.
