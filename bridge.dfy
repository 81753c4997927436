/**
  The bridge script of `render_pipeline` in app.py: an HTML `<script>`
  element that calls the host page's `renderFromAI` with the shape tag as a
  quoted JavaScript string and the colour as an unquoted hexadecimal
  integer literal. `DecodeBridge` is a strict reading of the call the host
  receives; it is the inverse the encoder is proved against.
 */
module Bridge {
  import opened Wrappers
  import opened Scene

  /** The template text before the shape tag (the f-string's `{{` is a
      single brace). */
  const ScriptHead: string :=
    "\n    <script>\n        if (typeof renderFromAI === \"function\") {\n            renderFromAI(\""

  /** Closes the quoted shape tag and separates the two arguments. */
  const ArgSeparator: string := "\", "

  /** The template text after the colour literal. */
  const ScriptTail: string := ");\n        }\n    </script>\n    "

  /** The text between the call's parentheses: `"<shape>", <color>`
      without the opening quote, which ends `ScriptHead`. */
  function Arguments(shape: Shape, color: Color): string {
    Tag(shape) + ArgSeparator + Literal(color)
  }

  /** The `js_call` string `render_pipeline` builds for a descriptor. The
      quoted shape argument cannot be broken out of: a tag holds no double
      quote, so the script reads back as exactly the descriptor that was
      encoded. */
  function BridgeScript(shape: Shape, color: Color): (r: string)
    ensures DecodeBridge(r) == Some((shape, color))
  {
    var args := Arguments(shape, color);
    CallArgumentsIff(ScriptHead + args + ScriptTail, args);
    ArgumentsRoundTrip(shape, color);
    ScriptHead + args + ScriptTail
  }

  /** The first index of `c` in `s`. */
  function IndexOf(s: string, c: char): (r: Option<nat>)
    ensures r.None? ==> c !in s
    ensures r.Some? ==> r.value < |s| && s[r.value] == c && c !in s[..r.value]
  {
    if s == [] then None
    else if s[0] == c then Some(0)
    else
      match IndexOf(s[1..], c)
      case None => None
      case Some(k) =>
        assert s[..k + 1] == [s[0]] + s[1..][..k];
        Some(k + 1)
  }

  /** The call arguments between the fixed head and tail, if the script has
      that head and tail. */
  function CallArguments(p: string): Option<string> {
    if |p| < |ScriptHead| + |ScriptTail| then None
    else if p[..|ScriptHead|] != ScriptHead || p[|p| - |ScriptTail|..] != ScriptTail then None
    else Some(p[|ScriptHead|..|p| - |ScriptTail|])
  }

  /** Reads the two call arguments: the shape tag runs up to the first
      double quote, then comes the separator, then the colour literal. */
  function DecodeArguments(args: string): Option<(Shape, Color)> {
    match IndexOf(args, '"')
    case None => None
    case Some(k) =>
      var rest := args[k..];
      if |rest| < |ArgSeparator| || rest[..|ArgSeparator|] != ArgSeparator then None
      else
        match (ShapeFromTag(args[..k]), ColorFromLiteral(rest[|ArgSeparator|..]))
        case (Some(shape), Some(color)) => Some((shape, color))
        case _ => None
  }

  /** Reads the descriptor back out of a bridge script, strictly. Any script other than the template around two readable
      arguments is rejected. */
  function DecodeBridge(p: string): Option<(Shape, Color)> {
    match CallArguments(p)
    case None => None
    case Some(args) => DecodeArguments(args)
  }

  /** The three parts of a concatenation are found again by slicing. */
  lemma SliceThree(a: string, b: string, c: string)
    ensures (a + b + c)[..|a|] == a
    ensures (a + b + c)[|a| + |b|..] == c
    ensures (a + b + c)[|a|..|a| + |b|] == b
  {
  }

  /** The head and tail around some arguments are recognised, and only
      those. */
  lemma CallArgumentsIff(p: string, args: string)
    ensures CallArguments(p) == Some(args) <==> p == ScriptHead + args + ScriptTail
  {
    if p == ScriptHead + args + ScriptTail {
      SliceThree(ScriptHead, args, ScriptTail);
    }
    if CallArguments(p) == Some(args) {
      assert p == p[..|ScriptHead|] + p[|ScriptHead|..|p| - |ScriptTail|] + p[|p| - |ScriptTail|..];
    }
  }

  /** In a text that starts with `t` followed by `c`, where `t` holds no
      `c`, the first `c` is right after `t`. */
  lemma {:induction false} IndexOfAfter(t: string, rest: string, c: char)
    requires c !in t && rest != [] && rest[0] == c
    ensures IndexOf(t + rest, c) == Some(|t|)
  {
    if t != [] {
      assert (t + rest)[1..] == t[1..] + rest;
      IndexOfAfter(t[1..], rest, c);
    }
  }

  /** The argument text of an encoded descriptor splits back at the first
      double quote, since a tag holds none. */
  lemma SplitArguments(t: string, l: string)
    requires '"' !in t
    ensures IndexOf(t + ArgSeparator + l, '"') == Some(|t|)
    ensures (t + ArgSeparator + l)[..|t|] == t
    ensures (t + ArgSeparator + l)[|t|..] == ArgSeparator + l
  {
    assert t + ArgSeparator + l == t + (ArgSeparator + l);
    IndexOfAfter(t, ArgSeparator + l, '"');
  }

  /** The arguments of an encoded descriptor read back as that
      descriptor. */
  lemma ArgumentsRoundTrip(shape: Shape, color: Color)
    ensures DecodeArguments(Arguments(shape, color)) == Some((shape, color))
  {
    var t, l := Tag(shape), Literal(color);
    SplitArguments(t, l);
    var rest := ArgSeparator + l;
    assert rest[..|ArgSeparator|] == ArgSeparator && rest[|ArgSeparator|..] == l;
    TagRoundTrip(shape, t);
    ColorLiteralRoundTrip(color, l);
  }

  /** The arguments that read back as a descriptor are exactly that
      descriptor's tag and literal. */
  lemma ArgumentsExact(args: string, shape: Shape, color: Color)
    requires DecodeArguments(args) == Some((shape, color))
    ensures args == Arguments(shape, color)
  {
    var k := IndexOf(args, '"').value;
    var tag, rest := args[..k], args[k..];
    var sep, lit := rest[..|ArgSeparator|], rest[|ArgSeparator|..];
    assert sep == ArgSeparator;
    assert ShapeFromTag(tag) == Some(shape) && ColorFromLiteral(lit) == Some(color);
    TagRoundTrip(shape, tag);
    ColorLiteralRoundTrip(color, lit);
    Rejoin(args, k, |ArgSeparator|);
  }

  /** A text cut in three pieces is their concatenation. */
  lemma Rejoin(s: string, i: nat, j: nat)
    requires i + j <= |s|
    ensures s == s[..i] + s[i..][..j] + s[i..][j..]
  {
    assert s[i..] == s[i..][..j] + s[i..][j..];
    assert s == s[..i] + s[i..];
  }

  /** Every script `DecodeBridge` accepts is one of the twelve the encoder
      can produce, character for character. */
  lemma DecodeBridgeExact(p: string, shape: Shape, color: Color)
    requires DecodeBridge(p) == Some((shape, color))
    ensures p == BridgeScript(shape, color)
  {
    var args := CallArguments(p).value;
    ArgumentsExact(args, shape, color);
    CallArgumentsIff(p, args);
  }
}
