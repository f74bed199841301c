/** `JSON_Embed.py`: turning a scene document into the one line of text that
    is embedded, and the guards around the embedding model. A loaded JSON
    document is a record whose fields may be missing; the model is an
    optional encoder. */
module SceneEmbedding {
  import opened Base
  import opened Text
  import opened Numerals
  import opened Records

  /** The fields `serialize_scene_to_text` reads from a scene document,
      `None` where the key is missing (or, for the previous description,
      `null`). */
  datatype SceneRecord = SceneRecord(
    previousDescription: Option<string>,
    startMs: Option<int>,
    endMs: Option<int>,
    sceneSummary: Option<string>,
    transcript: Option<string>)

  /** `dict.get(key, default)`. */
  function GetOr<T>(field: Option<T>, default: T): T
  {
    if field.Some? then field.value else default
  }

  const FIRST_SCENE_CONTEXT := "This is the first scene."
  const PREVIOUSLY := "Previously: "
  const SCENE_FROM := " In this scene from "
  const DIALOGUE := " The dialogue includes: \""

  /** The opening sentence: the first-scene sentence when there is no
      previous description, otherwise the previous description after
      `Previously: `. */
  function ContextText(previous: Option<string>): string
  {
    match previous
    case None => FIRST_SCENE_CONTEXT
    case Some(p) => PREVIOUSLY + p
  }

  /** The f-string, before `strip()`: the opening sentence, the times and
      summary, and the quoted dialogue. Times missing from the document are
      `0.0`, missing texts are empty. */
  function SceneText(scene: SceneRecord): string
  {
    ContextText(scene.previousDescription) + SceneBody(scene) + "\""
  }

  function SceneBody(scene: SceneRecord): string
  {
    SCENE_FROM + (Repr(GetOr(scene.startMs, 0)) + ("s to " + (Repr(GetOr(scene.endMs, 0)) + ("s, "
    + (GetOr(scene.sceneSummary, "") + (DIALOGUE + GetOr(scene.transcript, "")))))))
  }

  /** `serialize_scene_to_text`. */
  function SerializeScene(scene: SceneRecord): string
  {
    Strip(SceneText(scene))
  }

  lemma StripQuoted(c: string, body: string)
    requires c != [] && (c[0] == 'T' || c[0] == 'P')
    ensures Strip(c + body + "\"") == c + body + "\""
  {
    var t := c + body + "\"";
    assert t[0] == c[0];
    assert t[|t| - 1] == '"';
    StripNoOp(t);
  }

  /** The final `strip()` never changes the text: it opens with `T` or `P`
      and closes with a quote. */
  lemma SerializeStripIsNoOp(scene: SceneRecord)
    ensures SerializeScene(scene) == SceneText(scene)
  {
    var c := ContextText(scene.previousDescription);
    assert c[0] == 'T' || c[0] == 'P';
    StripQuoted(c, SceneBody(scene));
  }

  lemma StartsWithPieces(c: string, p: string, x: string, q: string, other: string)
    requires c != [] && other != [] && c[0] != other[0]
    ensures StartsWith(c + (p + x) + q, c + p)
    ensures !StartsWith(c + (p + x) + q, other)
  {
    assert c + (p + x) + q == (c + p) + (x + q);
    assert (c + (p + x) + q)[0] == c[0];
  }

  /** A document without a previous description serializes as the first
      scene. */
  lemma SerializeFirstScene(scene: SceneRecord)
    requires scene.previousDescription.None?
    ensures StartsWith(SerializeScene(scene), FIRST_SCENE_CONTEXT + SCENE_FROM)
  {
    SerializeStripIsNoOp(scene);
    SceneTextOpening(scene);
  }

  /** Otherwise the text opens with `Previously: <description>` and not
      with the first-scene sentence, so the two cases are told apart by the
      text alone. */
  lemma SerializeLaterScene(scene: SceneRecord)
    requires scene.previousDescription.Some?
    ensures StartsWith(SerializeScene(scene), PREVIOUSLY + scene.previousDescription.value + SCENE_FROM)
  {
    SerializeStripIsNoOp(scene);
    SceneTextOpening(scene);
  }

  lemma SerializeLaterSceneIsNotFirst(scene: SceneRecord)
    requires scene.previousDescription.Some?
    ensures !StartsWith(SerializeScene(scene), FIRST_SCENE_CONTEXT + SCENE_FROM)
  {
    SerializeStripIsNoOp(scene);
    SceneTextOpening(scene);
  }

  lemma SceneTextOpening(scene: SceneRecord)
    ensures scene.previousDescription.None? ==>
              StartsWith(SceneText(scene), FIRST_SCENE_CONTEXT + SCENE_FROM)
    ensures scene.previousDescription.Some? ==>
              !StartsWith(SceneText(scene), FIRST_SCENE_CONTEXT + SCENE_FROM)
    ensures scene.previousDescription.Some? ==>
              StartsWith(SceneText(scene), PREVIOUSLY + scene.previousDescription.value + SCENE_FROM)
  {
    var c := ContextText(scene.previousDescription);
    var x := Repr(GetOr(scene.startMs, 0)) + ("s to " + (Repr(GetOr(scene.endMs, 0)) + ("s, "
      + (GetOr(scene.sceneSummary, "") + (DIALOGUE + GetOr(scene.transcript, ""))))));
    assert SceneBody(scene) == SCENE_FROM + x;
    FirstSceneInitial();
    if scene.previousDescription.Some? {
      assert c[0] == 'P';
    } else {
      assert c[0] == 'T';
    }
    if scene.previousDescription.Some? {
      StartsWithPieces(c, SCENE_FROM, x, "\"", FIRST_SCENE_CONTEXT + SCENE_FROM);
    } else {
      StartsWithPieces(c, SCENE_FROM, x, "\"", "P");
    }
  }

  lemma FirstSceneInitial()
    ensures (FIRST_SCENE_CONTEXT + SCENE_FROM)[0] == 'T'
  {
    assert FIRST_SCENE_CONTEXT[0] == 'T';
  }

  /** A document with every field missing reads as the first scene from
      `0.0s` to `0.0s` with an empty summary and an empty dialogue. */
  lemma SerializeEmptyScene()
    ensures SerializeScene(SceneRecord(None, None, None, None, None))
            == FIRST_SCENE_CONTEXT + SCENE_FROM + "0.0s to 0.0s, " + DIALOGUE + "\""
  {
    var scene := SceneRecord(None, None, None, None, None);
    SerializeStripIsNoOp(scene);
    EmptySceneText();
  }

  lemma EmptySceneText()
    ensures SceneText(SceneRecord(None, None, None, None, None))
            == FIRST_SCENE_CONTEXT + SCENE_FROM + "0.0s to 0.0s, " + DIALOGUE + "\""
  {
    EmptySceneBody();
  }

  lemma EmptySceneBody()
    ensures SceneBody(SceneRecord(None, None, None, None, None)) == SCENE_FROM + "0.0s to 0.0s, " + DIALOGUE
  {
    ReprZero();
    var scene := SceneRecord(None, None, None, None, None);
    var times := "0.0" + ("s to " + ("0.0" + "s, "));
    assert times == "0.0s to 0.0s, ";
    assert SceneBody(scene) == SCENE_FROM + ("0.0" + ("s to " + ("0.0" + ("s, " + ("" + (DIALOGUE + ""))))));
  }

  lemma ReprZero()
    ensures Repr(0) == "0.0"
  {
    assert Decimal(0) == "0";
    assert FractionRepr(0) == "0";
  }

  /** Reads the two times back out of a serialized scene whose opening
      sentence is `contextLength` characters long. */
  function ReadSceneTimes(text: string, contextLength: nat): Option<(int, int)>
  {
    var k := contextLength + |SCENE_FROM|;
    if k > |text| || text[contextLength..k] != SCENE_FROM then None
    else
      var rest := text[k..];
      var start := Before(rest, 's');
      if !StartsWith(rest[|start|..], "s to ") then None
      else
        var rest2 := rest[|start| + 5..];
        var end := Before(rest2, 's');
        match (ParseSeconds(start), ParseSeconds(end))
        case (Some(a), Some(b)) => Some((a, b))
        case _ => None
  }

  lemma ReprHasNoS(ms: int)
    ensures 's' !in Repr(ms)
  {
    ReprChars(ms);
  }

  lemma BeforeAppend(a: string, b: string, c: char)
    requires c !in a && b != [] && b[0] == c
    ensures Before(a + b, c) == a
  {
    IndexOfAppend(a, b, c);
    IndexOfFirst(b, c);
    assert (a + b)[..|a|] == a;
  }

  /** The start and end times of a serialized scene can be read back from
      it, whatever the summary and transcript hold. */
  lemma SceneTimesRoundTrip(scene: SceneRecord)
    ensures ReadSceneTimes(SerializeScene(scene), |ContextText(scene.previousDescription)|)
            == Some((GetOr(scene.startMs, 0), GetOr(scene.endMs, 0)))
  {
    SerializeStripIsNoOp(scene);
    SceneTextTimes(scene);
  }

  lemma SceneTextTimes(scene: SceneRecord)
    ensures ReadSceneTimes(SceneText(scene), |ContextText(scene.previousDescription)|)
            == Some((GetOr(scene.startMs, 0), GetOr(scene.endMs, 0)))
  {
    var sMs, eMs := GetOr(scene.startMs, 0), GetOr(scene.endMs, 0);
    var c := ContextText(scene.previousDescription);
    var a, b := Repr(sMs), Repr(eMs);
    var tail := GetOr(scene.sceneSummary, "") + (DIALOGUE + GetOr(scene.transcript, ""));
    assert SceneText(scene) == c + (SCENE_FROM + (a + ("s to " + (b + ("s, " + (tail + "\""))))));
    ReprHasNoS(sMs);
    ReprHasNoS(eMs);
    ReadTimesPieces(c, a, b, tail + "\"");
    ParseRepr(sMs);
    ParseRepr(eMs);
  }

  lemma ReadTimesPieces(c: string, a: string, b: string, tail: string)
    requires 's' !in a && 's' !in b
    ensures ReadSceneTimes(c + (SCENE_FROM + (a + ("s to " + (b + ("s, " + tail))))), |c|)
            == match (ParseSeconds(a), ParseSeconds(b))
               case (Some(x), Some(y)) => Some((x, y))
               case _ => None
  {
    var rest := a + ("s to " + (b + ("s, " + tail)));
    var t := c + (SCENE_FROM + rest);
    var k := |c| + |SCENE_FROM|;
    assert t[|c|..k] == SCENE_FROM;
    assert t[k..] == rest;
    BeforeAppend(a, "s to " + (b + ("s, " + tail)), 's');
    assert rest[|a|..] == "s to " + (b + ("s, " + tail));
    assert rest[|a| + 5..] == b + ("s, " + tail);
    BeforeAppend(b, "s, " + tail, 's');
  }

  /** The scene document `summary_data.json` holds: every field present. */
  function SceneOf(doc: SummaryDoc): (scene: SceneRecord)
    ensures scene.previousDescription == doc.previousDescription
    ensures GetOr(scene.startMs, 0) == doc.startMs && GetOr(scene.endMs, 0) == doc.endMs
    ensures GetOr(scene.sceneSummary, "") == doc.sceneSummary && GetOr(scene.transcript, "") == doc.transcript
  {
    SceneRecord(doc.previousDescription, Some(doc.startMs), Some(doc.endMs), Some(doc.sceneSummary),
                Some(doc.transcript))
  }

  /** A `summary_data.json` document as the serializer reads it: the text
      opens with the first-scene sentence exactly when the document has no
      previous description, opens with that description otherwise, and
      gives the document's own start and end times back. */
  lemma SerializeSummaryDoc(doc: SummaryDoc)
    ensures doc.previousDescription.None? <==>
              StartsWith(SerializeScene(SceneOf(doc)), FIRST_SCENE_CONTEXT + SCENE_FROM)
    ensures doc.previousDescription.Some? ==>
              StartsWith(SerializeScene(SceneOf(doc)), PREVIOUSLY + doc.previousDescription.value + SCENE_FROM)
    ensures ReadSceneTimes(SerializeScene(SceneOf(doc)), |ContextText(doc.previousDescription)|)
            == Some((doc.startMs, doc.endMs))
  {
    SerializedDocTimes(doc);
    var scene := SceneOf(doc);
    if doc.previousDescription.None? {
      SerializeFirstScene(scene);
    } else {
      SerializeLaterScene(scene);
      SerializeLaterSceneIsNotFirst(scene);
    }
  }

  lemma SerializedDocTimes(doc: SummaryDoc)
    ensures ReadSceneTimes(SerializeScene(SceneOf(doc)), |ContextText(doc.previousDescription)|)
            == Some((doc.startMs, doc.endMs))
  {
    SceneTimesRoundTrip(SceneOf(doc));
  }

  /** Over a chain of summary documents (entry 0 without a previous
      description, entry `k` carrying entry `k - 1`'s summary), the first
      serializes as the first scene and every later one opens with the
      summary of the one before it. */
  lemma SerializedChain(docs: seq<SummaryDoc>, k: nat)
    requires k < |docs|
    requires docs[0].previousDescription.None?
    requires forall j :: 0 < j < |docs| ==> docs[j].previousDescription == Some(docs[j - 1].sceneSummary)
    ensures k == 0 ==> StartsWith(SerializeScene(SceneOf(docs[k])), FIRST_SCENE_CONTEXT + SCENE_FROM)
    ensures k > 0 ==> StartsWith(SerializeScene(SceneOf(docs[k])),
                                 PREVIOUSLY + docs[k - 1].sceneSummary + SCENE_FROM)
  {
    if k == 0 {
      SerializeFirstScene(SceneOf(docs[k]));
    } else {
      assert docs[k].previousDescription == Some(docs[k - 1].sceneSummary);
      SerializeLaterScene(SceneOf(docs[k]));
    }
  }

  /** `get_embedding`: `None` without a model, and the model is then never
      asked; otherwise the model's encoding of the text. */
  function GetEmbedding<E>(text: string, model: Option<string -> E>): (r: Option<E>)
    ensures r.None? <==> model.None?
    ensures model.Some? ==> r == Some(model.value(text))
  {
    if model.None? then None else Some(model.value(text))
  }

  /** How opening and decoding the scene file ends. */
  datatype SceneFile =
    | FileNotFound
    | InvalidJson
    | ReadError       // any other exception while opening or reading
    | Loaded(scene: SceneRecord)

  /** `generate_embedding_from_file`: the text handed to the model, if any,
      and the embedding returned. */
  datatype EmbeddingOutcome<E> = EmbeddingOutcome(encoded: Option<string>, embedding: Option<E>)

  function GenerateEmbeddingFromFile<E>(model: Option<string -> E>, file: SceneFile): (r: EmbeddingOutcome<E>)
    ensures !file.Loaded? ==> r == EmbeddingOutcome(None, None)
    ensures file.Loaded? && model.None? ==> r == EmbeddingOutcome(None, None)
    ensures file.Loaded? && model.Some? ==>
              r.encoded == Some(SerializeScene(file.scene))
              && r.embedding == Some(model.value(SerializeScene(file.scene)))
    ensures r.embedding.Some? <==> file.Loaded? && model.Some?
    ensures r.embedding.Some? ==> r.encoded.Some? && r.embedding == GetEmbedding(r.encoded.value, model)
  {
    match file
    case Loaded(scene) =>
      var text := SerializeScene(scene);
      EmbeddingOutcome(if model.Some? then Some(text) else None, GetEmbedding(text, model))
    case _ => EmbeddingOutcome(None, None)
  }
}
