/**
  What app.py's classifier and bridge promise, stated over every input:
  the blank short-circuit, case-insensitivity, the precedence of each
  keyword chain, the independence of the two chains, the range of the
  outputs, and the payload's independence from the user's text; then
  concrete end-to-end scenarios.
 */
module AppProperties {
  import opened Text
  import opened Rules
  import opened Scene
  import opened Wrappers
  import opened Bridge
  import opened App

  // ---------------------------------------------------------------------
  // Blank input
  // ---------------------------------------------------------------------

  /** Empty or whitespace-only input gives ("box", "0x00ff00", "Please
      describe an object.") whatever the generator would answer: the
      generator is not consulted. */
  lemma BlankInput(userText: string, g1: string -> string, g2: string -> string)
    requires AllWhitespace(userText)
    ensures AiReason(userText, g1) == AiReason(userText, g2)
    ensures Tag(AiReason(userText, g1).shape) == "box"
    ensures Literal(AiReason(userText, g1).color) == "0x00ff00"
    ensures AiReason(userText, g1).explanation == "Please describe an object."
  {
  }

  /** Any other input is explained by the generator's answer to the prompt
      built from the original, un-lowered text. */
  lemma ExplanationFromGenerator(userText: string, generate: string -> string)
    requires !AllWhitespace(userText)
    ensures AiReason(userText, generate).explanation
         == generate("Explain what this object is used for in simple terms: " + userText)
  {
  }

  // ---------------------------------------------------------------------
  // Case and precedence
  // ---------------------------------------------------------------------

  /** Matching ignores case: the text and its lower-cased form get the same
      descriptor. */
  lemma IgnoresCase(userText: string, generate: string -> string)
    ensures AiReason(Lower(userText), generate).shape == AiReason(userText, generate).shape
    ensures AiReason(Lower(userText), generate).color == AiReason(userText, generate).color
  {
    LowerIdempotent(userText);
  }

  /** A keyword written in any case counts: upper-case "CONE" in a text
      with no sphere keyword selects the cone. */
  lemma UpperCaseConeMatches(userText: string, generate: string -> string)
    requires Contains(userText, "CONE")
    requires !Contains(Lower(userText), "sphere") && !Contains(Lower(userText), "ball")
    ensures AiReason(userText, generate).shape == Cone
  {
    LowerKeepsOccurrence(userText, "CONE");
    LowerCone();
    ShapeChainIsRuleTable(Lower(userText));
  }

  lemma LowerCone()
    ensures Lower("CONE") == "cone"
  {
    var l := Lower("CONE");
    assert l[0] == 'c' && l[1] == 'o' && l[2] == 'n' && l[3] == 'e';
  }

  /** The shape chain: a sphere keyword wins even over "cone"; "cone" wins
      exactly when no sphere keyword is present; otherwise the box. */
  lemma ShapePrecedence(userText: string, generate: string -> string)
    ensures var text := Lower(userText);
            && (AiReason(userText, generate).shape == Sphere
                <==> Contains(text, "sphere") || Contains(text, "ball"))
            && (AiReason(userText, generate).shape == Cone
                <==> !Contains(text, "sphere") && !Contains(text, "ball") && Contains(text, "cone"))
            && (AiReason(userText, generate).shape == Box
                <==> !Contains(text, "sphere") && !Contains(text, "ball") && !Contains(text, "cone"))
  {
    ShapeChainIsRuleTable(Lower(userText));
  }

  /** The colour chain: red before blue before yellow, green otherwise,
      wherever the keywords stand in the text. */
  lemma ColorPrecedence(userText: string, generate: string -> string)
    ensures var text := Lower(userText);
            && (AiReason(userText, generate).color == Red <==> Contains(text, "red"))
            && (AiReason(userText, generate).color == Blue
                <==> !Contains(text, "red") && Contains(text, "blue"))
            && (AiReason(userText, generate).color == Yellow
                <==> !Contains(text, "red") && !Contains(text, "blue") && Contains(text, "yellow"))
            && (AiReason(userText, generate).color == Green
                <==> !Contains(text, "red") && !Contains(text, "blue") && !Contains(text, "yellow"))
  {
    ColorChainIsRuleTable(Lower(userText));
  }

  // ---------------------------------------------------------------------
  // Independence of the two chains
  // ---------------------------------------------------------------------

  /** The shape depends on the shape keywords alone: two texts that agree
      on "sphere", "ball" and "cone" get the same shape, whatever their
      colours and explanations. */
  lemma ShapeOnlyFromShapeKeywords(t1: string, t2: string, g1: string -> string, g2: string -> string)
    requires Contains(Lower(t1), "sphere") == Contains(Lower(t2), "sphere")
    requires Contains(Lower(t1), "ball") == Contains(Lower(t2), "ball")
    requires Contains(Lower(t1), "cone") == Contains(Lower(t2), "cone")
    ensures AiReason(t1, g1).shape == AiReason(t2, g2).shape
  {
    ShapeChainIsRuleTable(Lower(t1));
    ShapeChainIsRuleTable(Lower(t2));
  }

  /** The colour depends on the colour keywords alone. */
  lemma ColorOnlyFromColorKeywords(t1: string, t2: string, g1: string -> string, g2: string -> string)
    requires Contains(Lower(t1), "red") == Contains(Lower(t2), "red")
    requires Contains(Lower(t1), "blue") == Contains(Lower(t2), "blue")
    requires Contains(Lower(t1), "yellow") == Contains(Lower(t2), "yellow")
    ensures AiReason(t1, g1).color == AiReason(t2, g2).color
  {
    ColorChainIsRuleTable(Lower(t1));
    ColorChainIsRuleTable(Lower(t2));
  }

  // ---------------------------------------------------------------------
  // Output range and the payload
  // ---------------------------------------------------------------------

  /** The shape tag is one of three literals; the colour one of four, each
      "0x" and six lower-case hexadecimal digits spelling a 24-bit value. */
  lemma OutputRange(userText: string, generate: string -> string)
    ensures Tag(AiReason(userText, generate).shape) in {"box", "sphere", "cone"}
    ensures Literal(AiReason(userText, generate).color) in {"0x00ff00", "0xff0000", "0x0000ff", "0xffff00"}
    ensures IsHexLiteral(Literal(AiReason(userText, generate).color))
    ensures ParseHex(Literal(AiReason(userText, generate).color)[2..])
         == Value(AiReason(userText, generate).color) < 0x100_0000
  {
    LiteralSpellsValue(AiReason(userText, generate).color);
  }

  /** The script `render_pipeline` returns is the fixed template around the
      chosen descriptor, whatever else the text says: the user's text never
      reaches the payload. */
  lemma PayloadIsTemplate(userText: string, generate: string -> string)
    ensures RenderPipeline(userText, generate).1
         == BridgeScript(AiReason(userText, generate).shape, AiReason(userText, generate).color)
  {
  }

  /** Two texts with the same descriptor get the same script, whatever the
      rest of their wording and whatever the generator says. */
  lemma PayloadOnlyFromDescriptor(t1: string, t2: string, g1: string -> string, g2: string -> string)
    requires AiReason(t1, g1).shape == AiReason(t2, g2).shape
    requires AiReason(t1, g1).color == AiReason(t2, g2).color
    ensures RenderPipeline(t1, g1).1 == RenderPipeline(t2, g2).1
  {
    PayloadIsTemplate(t1, g1);
    PayloadIsTemplate(t2, g2);
  }

  // ---------------------------------------------------------------------
  // Scenarios
  // ---------------------------------------------------------------------

  /** For text already in lower case the chains decide on the text
      itself. */
  lemma LoweredTextDecides(userText: string, generate: string -> string)
    requires IsLowered(userText)
    ensures AiReason(userText, generate).shape == DetectShape(userText)
    ensures AiReason(userText, generate).color == DetectColor(userText)
  {
    LowerIsLowered(userText);
    ShapeChainIsRuleTable(userText);
    ColorChainIsRuleTable(userText);
  }

  /** The keywords of "a yellow hard hat": only "yellow" ("hard" holds no
      "red"). */
  lemma YellowHardHatKeywords()
    ensures DetectShape("a yellow hard hat") == Box
    ensures DetectColor("a yellow hard hat") == Yellow
  {
    var t := "a yellow hard hat";
    MissingCharRulesOut(t, "sphere", 0);
    MissingCharRulesOut(t, "ball", 0);
    MissingCharRulesOut(t, "cone", 0);
    forall i | 0 <= i <= |t| - 3 ensures !OccursAt(t, "red", i) {
      assert t[i..i + 3][0] == t[i] && t[i..i + 3][1] == t[i + 1];
    }
    MissingCharRulesOut(t, "blue", 0);
    assert OccursAt(t, "yellow", 2);
  }

  /** "a yellow hard hat": the box, in yellow. */
  lemma YellowHardHat(generate: string -> string)
    ensures AiReason("a yellow hard hat", generate).shape == Box
    ensures AiReason("a yellow hard hat", generate).color == Yellow
  {
    assert IsLowered("a yellow hard hat");
    LoweredTextDecides("a yellow hard hat", generate);
    YellowHardHatKeywords();
  }

  lemma BlueSphereKeywords()
    ensures DetectShape("a blue sphere") == Sphere
    ensures DetectColor("a blue sphere") == Blue
  {
    var t := "a blue sphere";
    assert OccursAt(t, "sphere", 7);
    MissingCharRulesOut(t, "red", 2);
    assert OccursAt(t, "blue", 2);
  }

  /** "a blue sphere": the sphere, in blue. */
  lemma BlueSphere(generate: string -> string)
    ensures AiReason("a blue sphere", generate).shape == Sphere
    ensures AiReason("a blue sphere", generate).color == Blue
  {
    assert IsLowered("a blue sphere");
    LoweredTextDecides("a blue sphere", generate);
    BlueSphereKeywords();
  }

  lemma RedConeKeywords()
    ensures DetectShape("a red cone") == Cone
    ensures DetectColor("a red cone") == Red
  {
    var t := "a red cone";
    MissingCharRulesOut(t, "sphere", 0);
    MissingCharRulesOut(t, "ball", 0);
    assert OccursAt(t, "cone", 6);
    assert OccursAt(t, "red", 2);
  }

  /** "a red cone": the cone, in red; the chains do not interfere. */
  lemma RedCone(generate: string -> string)
    ensures AiReason("a red cone", generate).shape == Cone
    ensures AiReason("a red cone", generate).color == Red
  {
    assert IsLowered("a red cone");
    LoweredTextDecides("a red cone", generate);
    RedConeKeywords();
  }

  /** "blue and red": red wins, though blue comes first in the text. */
  lemma RedBeatsEarlierBlue(generate: string -> string)
    ensures AiReason("blue and red", generate).color == Red
  {
    assert DetectColor("blue and red") == Red by {
      assert OccursAt("blue and red", "red", 9);
    }
    assert IsLowered("blue and red");
    LoweredTextDecides("blue and red", generate);
  }

  /** "a cone-shaped ball": the sphere, though "cone" comes first. */
  lemma BallBeatsEarlierCone(generate: string -> string)
    ensures AiReason("a cone-shaped ball", generate).shape == Sphere
  {
    assert DetectShape("a cone-shaped ball") == Sphere by {
      assert OccursAt("a cone-shaped ball", "ball", 14);
    }
    assert IsLowered("a cone-shaped ball");
    LoweredTextDecides("a cone-shaped ball", generate);
  }

  lemma BoredSconeKeywords()
    ensures DetectShape("a bored scone") == Cone
    ensures DetectColor("a bored scone") == Red
  {
    var t := "a bored scone";
    MissingCharRulesOut(t, "sphere", 1);
    MissingCharRulesOut(t, "ball", 2);
    assert OccursAt(t, "cone", 9);
    assert OccursAt(t, "red", 4);
  }

  /** "a bored scone": keywords match inside longer words, so this is a red
      cone. */
  lemma InsideLongerWords(generate: string -> string)
    ensures AiReason("a bored scone", generate).shape == Cone
    ensures AiReason("a bored scone", generate).color == Red
  {
    assert IsLowered("a bored scone");
    LoweredTextDecides("a bored scone", generate);
    BoredSconeKeywords();
  }

  /** "": the default descriptor and the guidance sentence; the bridge
      script asks for a green box. */
  lemma EmptyInput(generate: string -> string)
    ensures AiReason("", generate) == Reasoning(Box, Green, "Please describe an object.")
    ensures RenderPipeline("", generate).0 == "Please describe an object."
    ensures DecodeBridge(RenderPipeline("", generate).1) == Some((Box, Green))
  {
  }

  /** "CONE": the cone, in the default green. */
  lemma UpperCaseCone(generate: string -> string)
    ensures AiReason("CONE", generate).shape == Cone
    ensures AiReason("CONE", generate).color == Green
  {
    LowerCone();
    var l := "cone";
    MissingCharRulesOut(l, "sphere", 0);
    MissingCharRulesOut(l, "ball", 0);
    assert OccursAt(l, "cone", 0);
    MissingCharRulesOut(l, "red", 0);
    MissingCharRulesOut(l, "blue", 0);
    MissingCharRulesOut(l, "yellow", 0);
    ShapeChainIsRuleTable(l);
    ColorChainIsRuleTable(l);
  }
}
