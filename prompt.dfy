/** `build_gemini_prompt`: the level-gated instruction text for the language
    model. The prompt is a header (brand and topic), a strategy block from
    level 2 on, a creative block at level 3 exactly (with optional cultural
    context and palette lines), and the JSON-format instructions last.
    The `/generate` handler does not call this builder; it is modelled on its own. */
module GeminiPrompt {
  import opened Wrappers
  import opened PyText

  /** The `/generate` request body after validation: the two required
      strings, the optional fields (`None` when sent as null) and the level. */
  datatype GenerateRequest = GenerateRequest(
    brandName: string,
    topic: string,
    objective: Option<string>,
    targetAudience: Option<string>,
    platform: Option<string>,
    tone: Option<string>,
    artStyle: Option<string>,
    indianContext: Option<string>,
    colorPalette: Option<string>,
    textStructure: Option<string>,
    level: int)

  /** The request a body with only the required fields gets: the model's declared defaults. */
  function DefaultRequest(brandName: string, topic: string): GenerateRequest {
    GenerateRequest(brandName, topic, Some("Engagement"), Some("General"), Some("Instagram"), Some("Modern"),
                    Some("Photorealistic"), None, None, Some("Short Caption"), 1)
  }

  /** The pieces of a prompt, in the order the builder appends them. */
  datatype Section = Header | Strategy | Creative | CulturalContext | Palette | Format

  function Rank(s: Section): nat {
    match s
    case Header => 0
    case Strategy => 1
    case Creative => 2
    case CulturalContext => 3
    case Palette => 4
    case Format => 5
  }

  /** Each section kind at most once, in builder order. */
  predicate InBuilderOrder(secs: seq<Section>) {
    forall i, j :: 0 <= i < j < |secs| ==> Rank(secs[i]) < Rank(secs[j])
  }

  /** Every section kind in the order the builder considers them. */
  const BuilderOrder: seq<Section> := [Header, Strategy, Creative, CulturalContext, Palette, Format]

  /** Whether the builder appends section `s` for a request. */
  predicate Selected(req: GenerateRequest, s: Section) {
    match s
    case Header => true
    case Strategy => req.level >= 2
    case Creative => req.level == 3
    case CulturalContext => req.level == 3 && Truthy(req.indianContext)
    case Palette => req.level == 3 && Truthy(req.colorPalette)
    case Format => true
  }

  /** The sections of `secs` the request selects, in their order in `secs`. */
  function Filter(req: GenerateRequest, secs: seq<Section>): seq<Section>
    decreases |secs|
  {
    if secs == [] then []
    else if Selected(req, secs[0]) then [secs[0]] + Filter(req, secs[1..])
    else Filter(req, secs[1..])
  }

  /** A section is kept exactly when it is listed and selected. */
  lemma {:induction false} FilterKeeps(req: GenerateRequest, secs: seq<Section>, x: Section)
    ensures x in Filter(req, secs) <==> x in secs && Selected(req, x)
    decreases |secs|
  {
    if secs != [] {
      FilterKeeps(req, secs[1..], x);
      assert secs == [secs[0]] + secs[1..];
    }
  }

  /** Filtering keeps the builder order. */
  lemma {:induction false} FilterOrdered(req: GenerateRequest, secs: seq<Section>)
    requires InBuilderOrder(secs)
    ensures InBuilderOrder(Filter(req, secs))
    decreases |secs|
  {
    if secs != [] {
      var rest := Filter(req, secs[1..]);
      FilterOrdered(req, secs[1..]);
      if Selected(req, secs[0]) {
        forall k | 0 <= k < |rest|
          ensures Rank(secs[0]) < Rank(rest[k])
        {
          FilterKeeps(req, secs[1..], rest[k]);
          var m :| 0 <= m < |secs[1..]| && secs[1..][m] == rest[k];
          assert secs[1 + m] == rest[k];
        }
        var f := [secs[0]] + rest;
        forall i, j | 0 <= i < j < |f|
          ensures Rank(f[i]) < Rank(f[j])
        {
          if i > 0 {
            assert f[i] == rest[i - 1] && f[j] == rest[j - 1];
          } else {
            assert f[j] == rest[j - 1];
          }
        }
      }
    }
  }

  /** A selected last section stays last. */
  lemma {:induction false} FilterLast(req: GenerateRequest, secs: seq<Section>)
    requires secs != [] && Selected(req, secs[|secs| - 1])
    ensures var f := Filter(req, secs); f != [] && f[|f| - 1] == secs[|secs| - 1]
    decreases |secs|
  {
    if |secs| > 1 {
      FilterLast(req, secs[1..]);
    }
  }

  /** The builder order lists each section at the position of its rank. */
  lemma BuilderOrderRanked()
    ensures InBuilderOrder(BuilderOrder)
  {
    forall k | 0 <= k < |BuilderOrder|
      ensures Rank(BuilderOrder[k]) == k
    {
    }
  }

  /** Which sections the builder appends for a request: the selected ones,
      in builder order. */
  function Sections(req: GenerateRequest): seq<Section> {
    Filter(req, BuilderOrder)
  }

  /** The prompt opens with the header and closes with the format
      instructions, and its sections come in builder order, each kind once. */
  lemma SectionsOrdered(req: GenerateRequest)
    ensures var r := Sections(req);
      && |r| >= 2 && r[0] == Header && r[|r| - 1] == Format
      && InBuilderOrder(r)
  {
    BuilderOrderRanked();
    FilterOrdered(req, BuilderOrder);
    FilterLast(req, BuilderOrder);
    var rest := Filter(req, BuilderOrder[1..]);
    assert Sections(req) == [Header] + rest;
    FilterLast(req, BuilderOrder[1..]);
  }

  /** A request with only the required fields gets the header and the
      format instructions and nothing in between. */
  lemma DefaultRequestSections(brandName: string, topic: string)
    ensures Sections(DefaultRequest(brandName, topic)) == [Header, Format]
  {
    var req := DefaultRequest(brandName, topic);
    assert BuilderOrder[1..] == [Strategy, Creative, CulturalContext, Palette, Format];
    assert Filter(req, [Format]) == [Format];
    assert Filter(req, [Palette, Format]) == [Format];
    assert Filter(req, [CulturalContext, Palette, Format]) == [Format];
    assert Filter(req, [Creative, CulturalContext, Palette, Format]) == [Format];
  }

  /** The strategy block from level 2 on, the creative block at level 3
      only, and the two optional lines at level 3 when their field is truthy. */
  lemma SectionsSelected(req: GenerateRequest)
    ensures var r := Sections(req);
      && (Strategy in r <==> req.level >= 2)
      && (Creative in r <==> req.level == 3)
      && (CulturalContext in r <==> req.level == 3 && Truthy(req.indianContext))
      && (Palette in r <==> req.level == 3 && Truthy(req.colorPalette))
  {
    assert BuilderOrder[1] == Strategy && BuilderOrder[2] == Creative;
    assert BuilderOrder[3] == CulturalContext && BuilderOrder[4] == Palette;
    FilterKeeps(req, BuilderOrder, Strategy);
    FilterKeeps(req, BuilderOrder, Creative);
    FilterKeeps(req, BuilderOrder, CulturalContext);
    FilterKeeps(req, BuilderOrder, Palette);
  }

  function HeaderText(req: GenerateRequest): string {
    "\n    Act as a senior social media manager and creative director for the Indian market.\n"
    + "    create marketing content for:\n"
    + "    Brand: " + req.brandName + "\n"
    + "    Topic/Context: " + req.topic + "\n    "
  }

  function StrategyText(req: GenerateRequest): string {
    "\n        Objective: " + PyStr(req.objective) + "\n"
    + "        Target Audience: " + PyStr(req.targetAudience) + "\n"
    + "        Platform: " + PyStr(req.platform) + "\n"
    + "        Tone: " + PyStr(req.tone) + "\n        "
  }

  function CreativeText(req: GenerateRequest): string {
    "\n        Visual Art Style: " + PyStr(req.artStyle) + "\n"
    + "        Text Structure: " + PyStr(req.textStructure) + "\n        "
  }

  function CulturalContextText(req: GenerateRequest): string {
    "Specific Cultural Context: " + PyStr(req.indianContext) + "\n"
  }

  function PaletteText(req: GenerateRequest): string {
    "Color Palette: " + PyStr(req.colorPalette) + "\n"
  }

  const FormatInstructions: string :=
    "\n    \n    Please output the response in the following JSON format ONLY:\n"
    + "    {\n"
    + "        \"script\": \"The text content/caption for the post. Make it engaging and relevant to the platform.\",\n"
    + "        \"image_prompt\": \"A highly detailed, creative prompt to generate an image/illustration for this post. describe shapes, colors, and composition.\"\n"
    + "    }\n    \n"
    + "    IMPORTANT: \n"
    + "    - Ensure the content is culturally relevant to India where appropriate. \n"
    + "    - The 'script' should be in English (unless Hinglish is specifically requested in tone).\n"
    + "    - The 'image_prompt' should be descriptive and artistic.\n"
    + "    - Do NOT include markdown formatting (```json) in the response if possible, just the raw JSON string.\n    "

  /** `text` when `cond` holds, the empty string otherwise. */
  function GateText(cond: bool, text: string): string {
    if cond then text else ""
  }

  /** The six section texts put together in builder order, each gated by
      whether its section is listed. */
  function Assemble(secs: seq<Section>, header: string, strategy: string, creative: string,
                    cultural: string, palette: string, format: string): string {
    header
    + GateText(Strategy in secs, strategy)
    + GateText(Creative in secs, creative)
    + GateText(CulturalContext in secs, cultural)
    + GateText(Palette in secs, palette)
    + format
  }

  /** The prompt made of exactly the listed sections, each written once and
      in builder order. */
  function Render(req: GenerateRequest, secs: seq<Section>): string {
    Assemble(secs, HeaderText(req), StrategyText(req), CreativeText(req),
             CulturalContextText(req), PaletteText(req), FormatInstructions)
  }

  predicate EndsWith(s: string, t: string) {
    |t| <= |s| && s[|s| - |t|..] == t
  }

  /** Appending keeps a prefix. */
  lemma PrefixKept(head: string, p: string, x: string)
    requires head <= p
    ensures head <= p + x
  {
    assert (p + x)[..|p|] == p;
  }

  lemma EndsWithAppended(p: string, x: string)
    ensures EndsWith(p + x, x)
  {
    assert (p + x)[|p + x| - |x|..] == x;
  }

  /** Whatever sections are listed, an assembled prompt starts with the
      header text and ends with the format text; so every `Render`ed prompt
      opens with the brand/topic header and closes with the JSON-format
      instructions. */
  lemma AssembleEnds(secs: seq<Section>, header: string, strategy: string, creative: string,
                     cultural: string, palette: string, format: string)
    ensures var p := Assemble(secs, header, strategy, creative, cultural, palette, format);
      header <= p && EndsWith(p, format)
  {
    var p1 := header + GateText(Strategy in secs, strategy);
    var p2 := p1 + GateText(Creative in secs, creative);
    var p3 := p2 + GateText(CulturalContext in secs, cultural);
    var p4 := p3 + GateText(Palette in secs, palette);
    PrefixKept(header, header, GateText(Strategy in secs, strategy));
    PrefixKept(header, p1, GateText(Creative in secs, creative));
    PrefixKept(header, p2, GateText(CulturalContext in secs, cultural));
    PrefixKept(header, p3, GateText(Palette in secs, palette));
    PrefixKept(header, p4, format);
    EndsWithAppended(p4, format);
  }

  /** Appending a gated text appends the text when the gate is open and
      leaves the string as it is otherwise. */
  lemma AppendGate(p: string, cond: bool, text: string)
    ensures p + GateText(cond, text) == if cond then p + text else p
  {
    if !cond {
      assert p + "" == p;
    }
  }

  /** For the sections a request selects, each gate of `Assemble` is open
      exactly when the builder's own condition for that block holds. */
  lemma AssembleSelected(req: GenerateRequest, header: string, strategy: string, creative: string,
                         cultural: string, palette: string, format: string)
    ensures Assemble(Sections(req), header, strategy, creative, cultural, palette, format) ==
      header
      + GateText(req.level >= 2, strategy)
      + GateText(req.level == 3, creative)
      + GateText(req.level == 3 && Truthy(req.indianContext), cultural)
      + GateText(req.level == 3 && Truthy(req.colorPalette), palette)
      + format
  {
    SectionsSelected(req);
  }

  /** `build_gemini_prompt`: appends the header, then each gated block in
      turn, then the format instructions. The result is the prompt of the
      sections `Sections(req)` selects. */
  method BuildGeminiPrompt(req: GenerateRequest) returns (prompt: string)
    ensures prompt == Render(req, Sections(req))
  {
    prompt := HeaderText(req);
    if req.level >= 2 {
      prompt := prompt + StrategyText(req);
    }
    if req.level == 3 {
      prompt := prompt + CreativeText(req);
      if Truthy(req.indianContext) {
        prompt := prompt + CulturalContextText(req);
      }
      if Truthy(req.colorPalette) {
        prompt := prompt + PaletteText(req);
      }
    }
    prompt := prompt + FormatInstructions;
    AssembleSelected(req, HeaderText(req), StrategyText(req), CreativeText(req),
                     CulturalContextText(req), PaletteText(req), FormatInstructions);
    ghost var c3 := req.level == 3;
    ghost var p0 := HeaderText(req);
    ghost var p1 := p0 + GateText(req.level >= 2, StrategyText(req));
    ghost var p2 := p1 + GateText(c3, CreativeText(req));
    ghost var p3 := p2 + GateText(c3 && Truthy(req.indianContext), CulturalContextText(req));
    AppendGate(p0, req.level >= 2, StrategyText(req));
    AppendGate(p1, c3, CreativeText(req));
    AppendGate(p2, c3 && Truthy(req.indianContext), CulturalContextText(req));
    AppendGate(p3, c3 && Truthy(req.colorPalette), PaletteText(req));
  }
}
