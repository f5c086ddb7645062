/**
 * The text prompt sent to the image service: the user's prompt, the
 * enhancer phrases of the ticked checkboxes, and the keyword phrase of the
 * chosen visual style.
 */
module Prompt {

  datatype Option<T> = None | Some(value: T)

  /** Appended when "Add Energy" is ticked. */
  const EnergySuffix: string := ", high energy vibrant dynamic"

  /** Appended when "Professional" is ticked. */
  const ProfessionalSuffix: string := ", professional clean elegant"

  /** Appended when "Fun & Playful" is ticked. */
  const FunSuffix: string := ", fun playful cheerful"

  /** Separates the prompt from the style keywords. */
  const StyleSeparator: string := ", "

  /** The keyword phrase of each visual style offered by the form. */
  const StyleMap: map<string, string> := map[
    "Modern Minimal" := "minimalist modern design clean aesthetic",
    "Bold & Colorful" := "vibrant bold colors energetic eye-catching",
    "Professional" := "professional clean corporate elegant",
    "Vintage Retro" := "vintage retro nostalgic 80s style",
    "Cyberpunk" := "cyberpunk neon futuristic sci-fi",
    "Anime" := "anime manga japanese animation style",
    "Cartoon" := "cartoon illustrated playful fun",
    "3D Render" := "3d rendered glossy modern cgi",
    "Realistic Photo" := "photorealistic detailed professional photography"
  ]

  /** The suffix when the flag is set, else nothing. */
  function When(flag: bool, suffix: string): string
  {
    if flag then suffix else ""
  }

  /** The prompt followed by the enhancer phrases of the set flags, in checkbox order. */
  function Enhanced(prompt: string, energy: bool, professional: bool, fun: bool): (r: string)
    ensures |prompt| <= |r| && r[..|prompt|] == prompt
  {
    prompt + (When(energy, EnergySuffix) + When(professional, ProfessionalSuffix) + When(fun, FunSuffix))
  }

  /**
   * Builds the enhanced prompt as the form handler does, one `+=` per ticked
   * checkbox.
   */
  method EnhancePrompt(prompt: string, energy: bool, professional: bool, fun: bool)
    returns (enhanced: string)
    ensures enhanced == Enhanced(prompt, energy, professional, fun)
    ensures |prompt| <= |enhanced| && enhanced[..|prompt|] == prompt
  {
    enhanced := prompt;
    if energy {
      enhanced := enhanced + EnergySuffix;
    }
    ghost var e := When(energy, EnergySuffix);
    assert enhanced == prompt + e;
    if professional {
      enhanced := enhanced + ProfessionalSuffix;
    }
    ghost var p := When(professional, ProfessionalSuffix);
    AppendAssoc(prompt, e, p);
    assert enhanced == prompt + (e + p);
    if fun {
      enhanced := enhanced + FunSuffix;
    }
    ghost var f := When(fun, FunSuffix);
    AppendAssoc(prompt, e + p, f);
    assert enhanced == prompt + (e + p + f);
  }

  lemma AppendAssoc(a: string, b: string, c: string)
    ensures a + b + c == a + (b + c)
  {
  }

  /**
   * The enhanced prompt starts with the user's prompt, equals it when no flag
   * is set, and grows by 29, 28 and 22 characters for the three flags.
   */
  lemma EnhancedShape(prompt: string, energy: bool, professional: bool, fun: bool)
    ensures var r := Enhanced(prompt, energy, professional, fun);
            r[..|prompt|] == prompt
            && |r| == |prompt| + (if energy then 29 else 0) + (if professional then 28 else 0) + (if fun then 22 else 0)
            && (!energy && !professional && !fun ==> r == prompt)
  {
  }

  /**
   * The checkboxes can be read back from the enhanced prompt: two different
   * choices of flags never give the same prompt.
   */
  lemma EnhancedInjective(prompt: string, e1: bool, p1: bool, f1: bool, e2: bool, p2: bool, f2: bool)
    requires Enhanced(prompt, e1, p1, f1) == Enhanced(prompt, e2, p2, f2)
    ensures e1 == e2 && p1 == p2 && f1 == f2
  {
    EnhancedShape(prompt, e1, p1, f1);
    EnhancedShape(prompt, e2, p2, f2);
  }

  /** The style's keyword phrase, or the empty string for a style with none. */
  function StyleKeyword(style: string): (k: string)
    ensures k != "" <==> style in StyleMap
  {
    if style in StyleMap then StyleMap[style] else ""
  }

  /** Different styles of the table have different keyword phrases. */
  lemma StyleKeywordsDistinct(s: string, t: string)
    requires s in StyleMap && t in StyleMap && s != t
    ensures StyleKeyword(s) != StyleKeyword(t)
  {
    // No two phrases of the table agree in both length and first letter.
    var k, l := StyleKeyword(s), StyleKeyword(t);
    assert |k| != |l| || k[0] != l[0];
  }

  /** The prompt sent to the image service: the prompt, a comma, and the style's keywords. */
  function FullPrompt(prompt: string, style: string): (r: string)
    ensures |r| == |prompt| + |StyleSeparator| + |StyleKeyword(style)|
    ensures r[..|prompt|] == prompt && r[|prompt| + |StyleSeparator|..] == StyleKeyword(style)
  {
    prompt + (StyleSeparator + StyleKeyword(style))
  }

  /**
   * The full prompt splits into the given prompt, the separator and the style's
   * keyword phrase; a style outside the table leaves a dangling ", ".
   */
  lemma FullPromptParts(prompt: string, style: string)
    ensures var r := FullPrompt(prompt, style);
            |r| == |prompt| + 2 + |StyleKeyword(style)|
            && r[..|prompt|] == prompt
            && r[|prompt|..|prompt| + 2] == ", "
            && r[|prompt| + 2..] == StyleKeyword(style)
            && (style !in StyleMap ==> r == prompt + ", ")
  {
  }

  /** For one prompt, the full prompt determines the style among those of the table. */
  lemma FullPromptDeterminesStyle(prompt: string, s: string, t: string)
    requires s in StyleMap && t in StyleMap
    requires FullPrompt(prompt, s) == FullPrompt(prompt, t)
    ensures s == t
  {
    FullPromptParts(prompt, s);
    FullPromptParts(prompt, t);
    if s != t {
      StyleKeywordsDistinct(s, t);
    }
  }

  /**
   * The prompt a submission sends: none unless the generate button was pressed
   * with a non-empty prompt; otherwise the enhanced prompt with the style's
   * keywords.
   */
  function RequestPrompt(generate: bool, prompt: string, energy: bool, professional: bool, fun: bool,
                         style: string): (r: Option<string>)
    ensures r.Some? <==> generate && prompt != ""
    ensures r.Some? ==> |r.value| >= |prompt| + 2 + |StyleKeyword(style)| && r.value[..|prompt|] == prompt
    ensures r.Some? ==> r.value[|r.value| - |StyleKeyword(style)|..] == StyleKeyword(style)
    ensures r.Some? ==> r.value == Enhanced(prompt, energy, professional, fun) + StyleSeparator + StyleKeyword(style)
  {
    if generate && prompt != "" then
      var enhanced := Enhanced(prompt, energy, professional, fun);
      var full := FullPrompt(enhanced, style);
      AppendAssoc(enhanced, StyleSeparator, StyleKeyword(style));
      assert full[..|prompt|] == full[..|enhanced|][..|prompt|];
      Some(full)
    else None
  }
}
