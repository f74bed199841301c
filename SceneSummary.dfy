/** `Gemini_Description/Gemini.py`: the prompt sent to the language model
    for one scene (a sentinel for the first scene, one line per visual, and
    the three-placeholder template), and the summary it yields. The model is
    a function parameter from prompt to reply (`None` where `invoke` raises). */
module SceneSummary {
  import opened Base
  import opened Text
  import opened Numerals
  import opened Records

  /** What stands in for the previous summary of the first scene. */
  const FIRST_SCENE: string := "This is the first scene."

  /** The three placeholders of `PROMPT_TEMPLATE`. */
  datatype Slot = PreviousDescription | TranscriptText | FormattedVisuals

  /** A template is literal text and placeholders. */
  datatype Piece = Lit(text: string) | Field(slot: Slot)

  /** The values `str.format` substitutes, by placeholder. */
  datatype FieldValues = FieldValues(previousDescription: string, transcriptText: string,
                                     formattedVisuals: string)

  const PROMPT_HEAD: string :=
    "\nYou are an expert video summarizer creating a continuous, scene-by-scene description.\n\n"
    + "Your task is to synthesize the transcript and frame descriptions for the CURRENT scene into a single, cohesive summary sentence.\n\n"
    + "You MUST also consider the summary of the PREVIOUS scene to ensure continuity and avoid repetition.\n\n"
    + "## PREVIOUS SCENE SUMMARY ##\n"
  const PROMPT_TRANSCRIPT: string := "\n\n## CURRENT SCENE DATA ##\nTranscript: "
  const PROMPT_VISUALS: string := "\nVisuals:\n"
  const PROMPT_TAIL: string :=
    "\n\n**Instructions:**\n"
    + "- Combine the transcript and visuals into one fluid sentence describing the main action and dialogue of the CURRENT scene.\n"
    + "- Use the previous summary for context ONLY. Do not repeat information from it.\n"
    + "- Be concise. Output *only* the single summary sentence for the current scene.\n"

  /** `PROMPT_TEMPLATE` (Gemini.py lines 12-31). */
  const PROMPT_TEMPLATE: seq<Piece> := [
    Lit(PROMPT_HEAD), Field(PreviousDescription),
    Lit(PROMPT_TRANSCRIPT), Field(TranscriptText),
    Lit(PROMPT_VISUALS), Field(FormattedVisuals),
    Lit(PROMPT_TAIL)]

  function ValueOfSlot(slot: Slot, values: FieldValues): string
  {
    match slot
    case PreviousDescription => values.previousDescription
    case TranscriptText => values.transcriptText
    case FormattedVisuals => values.formattedVisuals
  }

  /** `template.format(**values)`: each placeholder replaced by its value,
      once; substituted text is not itself formatted again. */
  function Format(template: seq<Piece>, values: FieldValues): string
    decreases |template|
  {
    if template == [] then ""
    else
      (match template[0]
       case Lit(t) => t
       case Field(slot) => ValueOfSlot(slot, values))
      + Format(template[1..], values)
  }

  /** Formatting a template of three placeholders between four texts. */
  lemma FormatThreeSlots(a: string, s1: Slot, b: string, s2: Slot, c: string, s3: Slot, d: string,
                         values: FieldValues)
    ensures Format([Lit(a), Field(s1), Lit(b), Field(s2), Lit(c), Field(s3), Lit(d)], values)
            == a + (ValueOfSlot(s1, values) + (b + (ValueOfSlot(s2, values) + (c + (ValueOfSlot(s3, values) + d)))))
  {
    var t6 := [Lit(d)];
    var t5 := [Field(s3)] + t6;
    var t4 := [Lit(c)] + t5;
    var t3 := [Field(s2)] + t4;
    var t2 := [Lit(b)] + t3;
    var t1 := [Field(s1)] + t2;
    var t0 := [Lit(a)] + t1;
    assert t6[1..] == [] && t5[1..] == t6 && t4[1..] == t5 && t3[1..] == t4;
    assert t2[1..] == t3 && t1[1..] == t2 && t0[1..] == t1;
    var v1, v2, v3 := ValueOfSlot(s1, values), ValueOfSlot(s2, values), ValueOfSlot(s3, values);
    assert Format(t6, values) == d + Format([], values);
    assert d + "" == d;
    assert Format(t5, values) == v3 + d;
    assert Format(t4, values) == c + (v3 + d);
    assert Format(t3, values) == v2 + (c + (v3 + d));
    assert Format(t2, values) == b + (v2 + (c + (v3 + d)));
    assert Format(t1, values) == v1 + (b + (v2 + (c + (v3 + d))));
    assert t0 == [Lit(a), Field(s1), Lit(b), Field(s2), Lit(c), Field(s3), Lit(d)];
  }

  /** The prompt is the template's text with the previous summary, the
      transcript and the formatted visuals in the three places, in that order. */
  lemma PromptLayout(values: FieldValues)
    ensures Format(PROMPT_TEMPLATE, values)
            == PROMPT_HEAD + (values.previousDescription + (PROMPT_TRANSCRIPT + (values.transcriptText
               + (PROMPT_VISUALS + (values.formattedVisuals + PROMPT_TAIL)))))
  {
    FormatThreeSlots(PROMPT_HEAD, PreviousDescription, PROMPT_TRANSCRIPT, TranscriptText,
                     PROMPT_VISUALS, FormattedVisuals, PROMPT_TAIL, values);
  }

  /** `f"- At {v['timestamp']}s: {v['description']}"`. */
  function VisualLine(v: Visual): string
  {
    "- At " + (Repr(v.timestampMs) + ("s: " + v.description))
  }

  function VisualLines(visuals: seq<Visual>): (lines: seq<string>)
    ensures |lines| == |visuals|
    ensures forall k :: 0 <= k < |visuals| ==> lines[k] == VisualLine(visuals[k])
  {
    seq(|visuals|, k requires 0 <= k < |visuals| => VisualLine(visuals[k]))
  }

  /** `"\n".join(...)` of the visual lines, in input order. */
  function FormatVisuals(visuals: seq<Visual>): string
  {
    Join(VisualLines(visuals), "\n")
  }

  /** Reading one visual line back: the time up to the first `s`, then the
      description after `s: `. */
  function ParseVisualLine(line: string): Option<Visual>
  {
    if !StartsWith(line, "- At ") then None
    else
      var rest := line[5..];
      var k := IndexOf(rest, 's');
      if k + 3 <= |rest| && rest[k..k + 3] == "s: " then
        match ParseSeconds(rest[..k])
        case Some(ts) => Some(Visual(ts, rest[k + 3..]))
        case None => None
      else None
  }

  function ParseVisualLines(lines: seq<string>): Option<seq<Visual>>
    decreases |lines|
  {
    if lines == [] then Some([])
    else
      match (ParseVisualLine(lines[0]), ParseVisualLines(lines[1..]))
      case (Some(v), Some(vs)) => Some([v] + vs)
      case _ => None
  }

  /** Reading the formatted block back: no lines for the empty text. */
  function ParseVisuals(text: string): Option<seq<Visual>>
  {
    if text == "" then Some([]) else ParseVisualLines(Split(text, '\n'))
  }

  lemma VisualLineNoNewline(v: Visual)
    requires '\n' !in v.description
    ensures '\n' !in VisualLine(v)
  {
    ReprShape(v.timestampMs);
    assert '\n' !in "- At " && '\n' !in "s: ";
  }

  lemma VisualLineRoundTrip(v: Visual)
    ensures ParseVisualLine(VisualLine(v)) == Some(v)
  {
    ReprChars(v.timestampMs);
    ParseRepr(v.timestampMs);
    VisualLineParts(Repr(v.timestampMs), v.description, v.timestampMs);
  }

  /** A line `- At <r>s: <d>` whose time text has no `s` reads back as its parts. */
  lemma VisualLineParts(r: string, d: string, ts: int)
    requires 's' !in r && ParseSeconds(r) == Some(ts)
    ensures ParseVisualLine("- At " + (r + ("s: " + d))) == Some(Visual(ts, d))
  {
    StartsWithAppend("- At ", r + ("s: " + d));
    VisualRestParts(r, "s: " + d, d, ts);
  }

  lemma VisualRestParts(r: string, tail: string, d: string, ts: int)
    requires 's' !in r && ParseSeconds(r) == Some(ts) && tail == "s: " + d
    ensures var rest := r + tail;
      var k := IndexOf(rest, 's');
      k + 3 <= |rest| && rest[k..k + 3] == "s: " && rest[..k] == r && rest[k + 3..] == d
  {
    assert tail[0] == 's';
    IndexOfAppend(r, tail, 's');
    var rest := r + tail;
    assert rest[|r|..|r| + 3] == tail[..3];
    assert rest[..|r|] == r;
    assert rest[|r| + 3..] == d;
  }

  /** `str(x)` is made of a sign, digits and a point only. */
  lemma {:induction false} ParseVisualLinesEach(lines: seq<string>, visuals: seq<Visual>)
    requires |lines| == |visuals|
    requires forall k :: 0 <= k < |lines| ==> ParseVisualLine(lines[k]) == Some(visuals[k])
    ensures ParseVisualLines(lines) == Some(visuals)
    decreases |lines|
  {
    if lines != [] {
      ParseVisualLinesEach(lines[1..], visuals[1..]);
      assert [visuals[0]] + visuals[1..] == visuals;
    }
  }

  lemma ParseVisualLinesRoundTrip(visuals: seq<Visual>)
    ensures ParseVisualLines(VisualLines(visuals)) == Some(visuals)
  {
    var lines := VisualLines(visuals);
    forall k | 0 <= k < |lines| ensures ParseVisualLine(lines[k]) == Some(visuals[k]) {
      VisualLineRoundTrip(visuals[k]);
    }
    ParseVisualLinesEach(lines, visuals);
  }

  /** Round trip: when no description contains a newline, the formatted
      block determines the visuals, in order; in particular, the empty list
      gives `""` and nothing else does. */
  lemma FormatVisualsRoundTrip(visuals: seq<Visual>)
    requires forall k :: 0 <= k < |visuals| ==> '\n' !in visuals[k].description
    ensures FormatVisuals(visuals) == "" <==> visuals == []
    ensures ParseVisuals(FormatVisuals(visuals)) == Some(visuals)
  {
    var lines := VisualLines(visuals);
    if visuals != [] {
      forall k | 0 <= k < |lines| ensures '\n' !in lines[k] {
        VisualLineNoNewline(visuals[k]);
      }
      SplitJoin(lines, '\n');
      JoinNonEmpty(lines, "\n");
      ParseVisualLinesRoundTrip(visuals);
    }
  }

  lemma JoinNonEmpty(parts: seq<string>, sep: string)
    requires |parts| >= 1 && parts[0] != []
    ensures Join(parts, sep) != []
  {
  }

  /** The text put in for the previous summary. */
  function PreviousText(previous: Option<string>): string
  {
    if previous.None? then FIRST_SCENE else previous.value
  }

  /** The full prompt for a scene. */
  function ScenePrompt(transcript: string, visuals: seq<Visual>, previous: Option<string>): string
  {
    Format(PROMPT_TEMPLATE, FieldValues(PreviousText(previous), transcript, FormatVisuals(visuals)))
  }

  /** What `generate_scene_summary` sends (`prompt`, `None` when nothing is
      sent) and returns (`summary`, `None` for Python's `None`). */
  datatype SummaryCall = SummaryCall(prompt: Option<string>, summary: Option<string>)

  /** `generate_scene_summary(transcript, visuals, model, previous_summary)`:
      `hasModel` is the truthiness of `model`, `invoke` its reply. */
  function GenerateSceneSummary(transcript: string, visuals: seq<Visual>, hasModel: bool,
                                previous: Option<string>, invoke: string -> Option<string>): SummaryCall
  {
    if !hasModel then SummaryCall(None, None)
    else
      var prompt := ScenePrompt(transcript, visuals, previous);
      match invoke(prompt)
      case None => SummaryCall(Some(prompt), None)
      case Some(content) => SummaryCall(Some(prompt), Some(Strip(content)))
  }

  /** Without a model nothing is sent and `None` is returned. With one, the
      prompt is sent exactly once; a raised error gives `None`, a reply its
      text without surrounding whitespace, which stripping again leaves as
      it is. */
  lemma GenerateSceneSummaryContract(transcript: string, visuals: seq<Visual>, hasModel: bool,
                                     previous: Option<string>, invoke: string -> Option<string>)
    ensures var call := GenerateSceneSummary(transcript, visuals, hasModel, previous, invoke);
      (!hasModel ==> call.prompt.None? && call.summary.None?)
      && (hasModel ==> call.prompt == Some(ScenePrompt(transcript, visuals, previous))
                       && (call.summary.Some? <==> invoke(call.prompt.value).Some?)
                       && (call.summary.Some? ==>
                             call.summary.value == Strip(invoke(call.prompt.value).value)
                             && Strip(call.summary.value) == call.summary.value))
  {
    var call := GenerateSceneSummary(transcript, visuals, hasModel, previous, invoke);
    if call.summary.Some? {
      StripNoOp(call.summary.value);
    }
  }

  /** A missing previous summary is the same as the sentinel sentence, and
      the prompt then carries it where the previous summary goes. */
  lemma FirstScenePrompt(transcript: string, visuals: seq<Visual>)
    ensures ScenePrompt(transcript, visuals, None) == ScenePrompt(transcript, visuals, Some(FIRST_SCENE))
    ensures ScenePrompt(transcript, visuals, None)
            == PROMPT_HEAD + (FIRST_SCENE + (PROMPT_TRANSCRIPT + (transcript
               + (PROMPT_VISUALS + (FormatVisuals(visuals) + PROMPT_TAIL)))))
  {
    var values := FieldValues(FIRST_SCENE, transcript, FormatVisuals(visuals));
    assert PreviousText(None) == FIRST_SCENE == PreviousText(Some(FIRST_SCENE));
    assert ScenePrompt(transcript, visuals, None) == Format(PROMPT_TEMPLATE, values);
    PromptLayout(values);
  }
}
