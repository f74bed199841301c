# CLIPQUERY video pipeline — a Dafny model

CLIPQUERY makes a video searchable by meaning. Its pipeline has six stages:

1. Cut the video into fixed-length *sets* (`set_001`, `set_002`, …). Each set
   gets an audio clip, sampled frames and a `time_info.txt` record.
2. Describe each set: transcribe its audio, caption its frames and write a
   `data.json`.
3. Thread a running "previous summary" through the sets in order. A language
   model writes one summary sentence per set, and the pass writes
   `context_data.json` and `summary_data.json`.
4. Serialize each summarized scene into one line of text, which is embedded.
5. Add the scene entries to a ChromaDB collection.
6. Answer a text query with the stored scenes nearest to it, with their
   timestamps.

There is one module per source file:

| module | source file |
|---|---|
| `Segmentation` | `process_video` and `format_time` in `video_processing/Full_extraction.py` |
| `FrameSampling` | `extract_frames` in `video_processing/Frame_extraction.py` |
| `SceneDescriber` | `read_time_info`, `process_set_folder` and `process_all_sets` in `video_processing/Description_JSON_Generator.py` |
| `SceneSummary` | the prompt template and `generate_scene_summary` in `Gemini_Description/Gemini.py` |
| `Summarization` | `run_summarization_pipeline` in `Pipe_summarization.py` |
| `SceneEmbedding` | `serialize_scene_to_text`, `get_embedding` and `generate_embedding_from_file` in `JSON_embed/JSON_Embed.py` |
| `SceneIndex` | `populate_chroma_db` and `query_video_for_timestamps` in `ChromaDB.py` |

Four helper modules support them:

- `Base`: ceiling division, and the `FilterMap` and `FlatMap` list folds that the loops are specified by.
- `Text`: digits, zero padding, `split`, `join`, `strip` and line splitting.
- `Numerals`: how the pipeline prints and re-reads times.
- `Records`: the JSON documents passed between stages.

## How it is modelled

**Times.** All times are whole milliseconds. The source prints its float
seconds in two ways:

- with `:.3f` (`Numerals.Fixed3`);
- with `str()` of a value rounded to three decimals (`Numerals.Repr`).

It reads them back with `float()` (`Numerals.ParseSeconds`). The model proves that both printed forms read back exactly.

**Outside world.** Files, folders and model replies are inputs:

- Folder contents come in as sorted sequences.
- "Does this file exist / can it be written" are booleans.
- A file's text is an `Option<string>`.

The transcriber, captioner, language model, embedder and the store's
similarity search are function parameters. The describer logs every
transcribe and caption call it makes (`SceneDescriber.DescribeSetCalls`).
`generate_scene_summary` records the prompt it sends
(`SceneSummary.GenerateSceneSummaryContract`). The summarization pass keeps
every summary request and returns the prompts it sent, in order
(`Summarization.RequestsReference`).

**Loops.** Each loop in the source is a Dafny `method` with a loop. Its
invariant ties the loop's variables to a recursive specification function
over the prefix processed so far: `KeptFrames`, `Run`, `Batch`, `Sampled` and
`Segments`. The properties of the loop are then lemmas about that function.

**Vector store.** The ChromaDB collection is a class, `SceneIndex.Collection`.
It holds the four parallel lists it has been given, and `Add` appends to
them.

## Behaviours the proofs expose

- **Set order is time order only up to 999 sets.** Set names are `set_{n:03d}`, and
  the later stages visit sets in `sorted(glob(...))` order. That order is
  time order only up to set 999: `set_1000` sorts before `set_999`
  (`Segmentation.SetNamesSortInOrder`,
  `Segmentation.SetNameOrderBreaksAtOneThousand`).
- **First frame and negative times.** The frame timestamp is
  `start + (frame_num - 1) * interval`, and only `> end + 0.1` is filtered.
  `frame_0001.png` is at the set's start. A `frame_0000.png` would get a time
  before the set's start, and nothing stops it (`SceneDescriber.FrameTimestampOrder`).
- **Same ids for every scene.** The store's scene id comes from the first
  `set_\d+` anywhere in the file path. If the base folder's own path contains
  such a name, every scene gets the same id
  (`SceneIndex.SetNameFromBaseFolder`).
- **One embedding for the whole batch.** `populate_chroma_db` stores the
  single embedding, times, summary and text it is passed for every file it
  finds. Only the id and `source_file` differ between entries
  (`SceneIndex.BatchReference`).
- **Empty summaries.** `generate_scene_summary` returns `""`, not `None`,
  when the reply strips to nothing. The summarization loop treats both as
  failure, so the running summary is left unchanged.
- **A failed summary write still moves the state on.** When
  `summary_data.json` cannot be written, the summary still becomes the next
  set's previous summary. The written summaries are therefore a subsequence
  of the produced ones, and are exactly those when every write succeeds
  (`Summarization.SummariesReference`).

## Where the specification and the code differ

The model follows the code in each case:

- Set folders are `set_NNN`, not `chunk_NNN`.
- `extract_frames` writes `frame_NNNN.jpg`. The describer reads the
  `frame_NNNN.png` files that `process_video`'s ffmpeg command writes.
- Every set's frame times are bounded only from above, by the set's end plus
  0.1 s. The specification also promises a lower bound of the set's start;
  the code does not check it.
- `collection.add` appends. It does not upsert.
- A reply that is empty counts as failure (see above).

## Model

| member | source | states |
|---|---|---|
| Segmentation.SetLength | video_processing/Full_extraction.py:84-86 | every set before the end of the video has a positive length of at most `chunk_duration` |
| Segmentation.SetsContiguous | video_processing/Full_extraction.py:84-86 | each set ends exactly where the next one starts |
| Segmentation.LastSetEndsAtDuration | video_processing/Full_extraction.py:70-86 | the last of the `ceil(D / L)` sets ends at `D` and is `D - L*(n-1)` long |
| Segmentation.SetInsideVideo | video_processing/Full_extraction.py:84-86 | every set starts before the end of the video and ends no later than it |
| Segmentation.FortySecondsInFifteenSecondSets | video_processing/Full_extraction.py:70-86 | a 40 s video cut every 15 s gives the three sets [0,15), [15,30), [30,40) |
| Segmentation.SetNameInjective | video_processing/Full_extraction.py:76 | distinct set numbers give distinct folder names |
| Segmentation.SetNamesSortInOrder | video_processing/Full_extraction.py:76 | for set numbers 1-999, name order is number order |
| Segmentation.SetNameOrderBreaksAtOneThousand | video_processing/Full_extraction.py:76 | `set_1000` sorts before `set_999` |
| Segmentation.FormatTimeRoundTrip | video_processing/Full_extraction.py:25-30 | the `HH:MM:SS.sss` text reads back as the time it was made from |
| Segmentation.FormatTimeWidth | video_processing/Full_extraction.py:25-30 | below 100 hours the clock text is exactly 12 characters |
| Segmentation.FormatTimeHasNoNewline | video_processing/Full_extraction.py:25-30 | the clock text contains no newline, so it keeps its line in `time_info.txt` |
| Segmentation.TimeInfoLines | video_processing/Full_extraction.py:107-114 | `time_info.txt` reads back as exactly five lines, line k being `key_k: value_k` in the written order |
| Segmentation.ProcessVideo | video_processing/Full_extraction.py:42-116 | a missing video or an unknown duration returns before anything is made; a zero chunk length raises; otherwise the result is the `ceil(D/L)` sets that `Segments` describes, whatever the ffmpeg commands did |
| Segmentation.ProcessVideoSets | video_processing/Full_extraction.py:74-114 | set i is named `set_{i+1:03d}`; its audio and frame commands cover its span; its record holds that span |
| Numerals.ParseFixed3 | video_processing/Full_extraction.py:111-112 | `float()` of a `:.3f` time gives the time back |
| Numerals.Fixed3Shape | video_processing/Full_extraction.py:111-112 | a `:.3f` time has no surrounding space, no newline and no colon |
| Numerals.ParseRepr | Gemini_Description/Gemini.py:54 | `float(str(t))` gives the time back |
| Numerals.ReprShape | Gemini_Description/Gemini.py:54 | a printed time has no surrounding space, no newline and no colon |
| Numerals.ReprChars | JSON_embed/JSON_Embed.py:40 | a printed time is made only of digits, `-` and `.` |
| FrameSampling.TruncToInt | video_processing/Frame_extraction.py:38 | `int(x)` truncates toward zero: its result has the sign of `x` and lies within 1 of `x` |
| FrameSampling.UnknownFpsIsThirty | video_processing/Frame_extraction.py:27-38 | an FPS of 0 gives the frame step of 30 FPS |
| FrameSampling.SavedFrameNameInjective | video_processing/Frame_extraction.py:51 | distinct saved-frame numbers give distinct file names |
| FrameSampling.SampledShape | video_processing/Frame_extraction.py:40-58 | after n frames, `ceil(n/step)` are saved; the j-th is numbered j and holds frame `j*step` |
| FrameSampling.SampledKeepsMultiples | video_processing/Frame_extraction.py:49-56 | every frame whose index is a multiple of the step is saved, as number `index/step` |
| FrameSampling.ModZeroAbs | video_processing/Frame_extraction.py:49 | for a negative step, the `% step == 0` test keeps the same frames as for the positive step |
| FrameSampling.ExtractFrames | video_processing/Frame_extraction.py:4-62 | the folder is made if missing; an unopened capture returns at once; a zero step raises on the first frame read; otherwise every frame is read and `Sampled(frames, abs(step))` is saved |
| FrameSampling.TenFramesEveryThird | video_processing/Frame_extraction.py:40-58 | ten frames with step 3 save frames 0, 3, 6 and 9 as numbers 0-3 |
| SceneDescriber.ScanLinesReference | video_processing/Description_JSON_Generator.py:13-17 | the loop raises exactly when some keyed line fails to parse; otherwise each key holds the value of its last line |
| SceneDescriber.OtherLineIgnored | video_processing/Description_JSON_Generator.py:13-17 | a line carrying neither key can be removed from anywhere without changing the result |
| SceneDescriber.LaterLineWins | video_processing/Description_JSON_Generator.py:14-17 | a later start or end line overwrites the earlier value |
| SceneDescriber.RaisedAbsorbs | video_processing/Description_JSON_Generator.py:11-23 | once a line raises, later lines cannot undo it |
| SceneDescriber.ReadTimeInfo | video_processing/Description_JSON_Generator.py:8-23 | the method computes `ReadTimeInfoSpec`: `None` for an unreadable file, a raise, or a missing key |
| SceneDescriber.ReadTimeInfoNeedsBothKeys | video_processing/Description_JSON_Generator.py:18-20 | a span is returned iff no keyed line fails and both keys occur; it then holds the last value of each |
| SceneDescriber.FieldValueOfLine | video_processing/Description_JSON_Generator.py:15 | `float(line.split(":")[1].strip())` of `key: value\n` is `float(value)` |
| SceneDescriber.TimeInfoLineKinds | video_processing/Description_JSON_Generator.py:13-17 | of the five record lines, the second is read as the start time, the third as the end time, and the rest are ignored |
| SceneDescriber.ReadTimeInfoRoundTrip | video_processing/Description_JSON_Generator.py:8-23 | `read_time_info` of a record `process_video` wrote gives that set's start and end back |
| SceneDescriber.ParseFrameNumberComplete | video_processing/Description_JSON_Generator.py:61-68 | wherever `frame_(\d+)\.png$` matches, the parser returns the matched number |
| SceneDescriber.ParseFrameNumberSound | video_processing/Description_JSON_Generator.py:61-68 | the parser returns a number only where the pattern matches, and returns that match's digits |
| SceneDescriber.FrameNumberRoundTrip | video_processing/Description_JSON_Generator.py:61-68 | a `frame_%04d.png` name after any prefix reads back as its number |
| SceneDescriber.FrameNumberRoundTripJoined | video_processing/Description_JSON_Generator.py:61-68 | the same for `os.path.join(folder, name)` |
| SceneDescriber.KeptFramesReference | video_processing/Description_JSON_Generator.py:63-84 | the kept frames are, in listing order, exactly the matching frames whose time is at most 0.1 s past the end, each with its computed time |
| SceneDescriber.FrameTimestampOrder | video_processing/Description_JSON_Generator.py:70-72 | frame times grow with the frame number; `frame_0001` is at the start and `frame_0000` one interval before it |
| SceneDescriber.CaptionFrames | video_processing/Description_JSON_Generator.py:60-84 | the loop returns one visual per kept frame, with its time and caption, and captions each kept frame once, in order |
| SceneDescriber.DescribeSetCalls | video_processing/Description_JSON_Generator.py:27-103 | without a readable record or without audio nothing is called or returned; otherwise the audio is transcribed first, exactly once, then each kept frame is captioned once, in order, whether or not `data.json` can be written; the record is returned iff `data.json` can be written |
| SceneDescriber.ProcessSetFolder | video_processing/Description_JSON_Generator.py:27-103 | the method's record and call log are those of `DescribeSet` |
| SceneDescriber.ProcessAllSets | video_processing/Description_JSON_Generator.py:107-162 | a missing base folder gives nothing; otherwise the records and calls are those of the folders, taken in sorted order |
| SceneDescriber.AllSetsReference | video_processing/Description_JSON_Generator.py:136-150 | the collected records are, in folder order, exactly those of the folders that yield one |
| SceneDescriber.NonFolderIgnored | video_processing/Description_JSON_Generator.py:137-138 | an entry that is not a folder changes neither the records nor the calls |
| SceneSummary.PromptLayout | Gemini_Description/Gemini.py:57-61 | the prompt is the template text with the previous summary, transcript and visuals in its three places, in that order |
| SceneSummary.VisualLineNoNewline | Gemini_Description/Gemini.py:54 | a visual's line has no newline when its caption has none |
| SceneSummary.VisualLineRoundTrip | Gemini_Description/Gemini.py:54 | a `- At {t}s: {d}` line reads back as its time and caption |
| SceneSummary.ParseVisualLinesRoundTrip | Gemini_Description/Gemini.py:54 | the list of visual lines reads back as the visuals, in order |
| SceneSummary.FormatVisualsRoundTrip | Gemini_Description/Gemini.py:54 | the newline-joined visual block reads back as the visuals, when no caption holds a newline |
| SceneSummary.GenerateSceneSummaryContract | Gemini_Description/Gemini.py:35-69 | without a model nothing is sent and `None` is returned; with one, the prompt is sent once, a raise gives `None`, and a reply gives its stripped text |
| SceneSummary.FirstScenePrompt | Gemini_Description/Gemini.py:49-61 | no previous summary gives the same prompt as the first-scene sentence, placed where the previous summary goes |
| Summarization.NewSummary | Pipe_summarization.py:78-87 | a set yields a summary only when it has `data.json`, and the summary is never empty |
| Summarization.RunSummarizationPipeline | Pipe_summarization.py:7-122 | no model, no base folder or no sets gives nothing and sends no prompt; otherwise the context files, the summaries, the rollup and the prompts sent are those of `Run` over the sets in order |
| Summarization.StateIsLatestSummary | Pipe_summarization.py:40-112 | the produced summaries form a chain from no summary, and the state is always the latest one |
| Summarization.SummariesReference | Pipe_summarization.py:101-112 | the written summaries are a subsequence of the produced ones, and all of them when every write succeeds |
| Summarization.SummariesFollowFolders | Pipe_summarization.py:45-107 | the written summaries carry, in folder order, the `data.json` contents of a subsequence of the sets that have one, and are never more than the sets |
| Summarization.AllWrittenSummariesChain | Pipe_summarization.py:92-112 | when every write succeeds, entry 0 has no previous description, entry k has entry k-1's summary, and no summary is empty |
| Summarization.NoDataIgnored | Pipe_summarization.py:48-50 | a set without `data.json` changes neither the state nor anything written |
| Summarization.ContextsReference | Pipe_summarization.py:59-74 | a context file is written, in folder order, for each set that has data and a writable context file, whatever its summary, and for no other set; the k-th holds its set's data and, as `previous_context`, the state the loop reached before that set |
| Summarization.ContextCarriesLatestSummary | Pipe_summarization.py:59-74 | a context file's `previous_context` is the latest summary produced before its set, or `None` when there is none yet |
| Summarization.RequestsReference | Pipe_summarization.py:45-87 | the model is asked once for every set with `data.json` and for no other, in folder order, whatever it answers and whichever files can be written; each request carries the state reached before that set |
| SceneEmbedding.SerializeStripIsNoOp | JSON_embed/JSON_Embed.py:38-44 | the final `strip()` never changes the serialized text |
| SceneEmbedding.SerializeFirstScene | JSON_embed/JSON_Embed.py:32-33 | no previous description gives text starting `This is the first scene. In this scene from ` |
| SceneEmbedding.SerializeLaterScene | JSON_embed/JSON_Embed.py:34-35 | a previous description gives text starting `Previously: <desc> In this scene from ` |
| SceneEmbedding.SerializeLaterSceneIsNotFirst | JSON_embed/JSON_Embed.py:32-42 | a scene with a previous description never reads as a first scene |
| SceneEmbedding.SceneTextOpening | JSON_embed/JSON_Embed.py:32-42 | the unstripped text opens with the first-scene sentence iff there is no previous description |
| SceneEmbedding.SerializeEmptyScene | JSON_embed/JSON_Embed.py:25-44 | a document with every field missing serializes as the first scene from `0.0s` to `0.0s`, with an empty summary and dialogue |
| SceneEmbedding.SceneTimesRoundTrip | JSON_embed/JSON_Embed.py:38-44 | the start and end times read back from the text for any summary and transcript, with 0 for missing ones |
| SceneEmbedding.SerializeSummaryDoc | JSON_embed/JSON_Embed.py:25-44 | a `summary_data.json` document serializes with the first-scene opening iff it has no previous description, opens with that description otherwise, and gives its own start and end times back |
| SceneEmbedding.SerializedChain | JSON_embed/JSON_Embed.py:32-42 | over a summary chain, the first scene serializes as first, and each later one opens with the previous scene's summary |
| SceneEmbedding.GetEmbedding | JSON_embed/JSON_Embed.py:48-57 | `None` iff there is no model; otherwise the model's encoding of the text |
| SceneEmbedding.GenerateEmbeddingFromFile | JSON_embed/JSON_Embed.py:60-93 | a missing, invalid or unreadable file gives nothing; a loaded file with a model gives the embedding of its serialized scene; an embedding is produced iff the file loads and a model is present, and it is the embedding of the text handed to the model |
| SceneIndex.FirstSetNameFrom | ChromaDB.py:30-35 | the search finds no match iff `set_` plus a digit occurs nowhere after `i`, and otherwise reports the leftmost one |
| SceneIndex.FindSetName | ChromaDB.py:30-39 | a found name is `set_` followed by one or more digits |
| SceneIndex.FindSetNameReference | ChromaDB.py:30-39 | a path has an id iff `set_` plus a digit occurs in it; the name runs from the first occurrence to the end of its digits |
| SceneIndex.SetNameOfSetFile | ChromaDB.py:14-39 | under a base folder without a set name, a file in `set_<digits>` gets exactly `set_<digits>` |
| SceneIndex.SetNameFromBaseFolder | ChromaDB.py:30-39 | under a base folder whose path holds a set name, every file gets that same name |
| SceneIndex.BatchReference | ChromaDB.py:32-65 | entry k comes from the k-th file with a set name that loads, with id `<video>_<set>`, the passed-in embedding, times, summary and text, and its own path; when there is an embedding every such file gets an entry, and without one there is none |
| SceneIndex.Collection.Add | ChromaDB.py:69-76 | `add` appends the four parallel lists to the store and keeps them parallel |
| SceneIndex.PrepareBatch | ChromaDB.py:23-65 | the four lists the loop fills are the ids, embeddings, metadatas and documents of the batch |
| SceneIndex.PopulateChromaDb | ChromaDB.py:8-79 | an empty batch (and no file found) leaves the store unchanged; otherwise the batch is added in one `add` call |
| SceneIndex.QueryVideoForTimestamps | ChromaDB.py:82-118 | no embedding gives no query; missing or empty ids give no results; otherwise the hits are reported in order, with similarity `1 - distance` and the metadata's times and summary, until a distance or metadata is missing, which raises |

## Left out

- Running ffprobe, ffmpeg and OpenCV is not modelled. The duration, whether the capture opens, its FPS and frames, and each command's success are inputs.
- The transcription, captioning, language, embedding and ChromaDB engines are parameters. Their internals are not modelled.
- Model loading (`load_llm`, `load_embedder` and the models loaded in `process_all_sets`) is not modelled. Only a model's presence or absence is.
- Printing and logging are not modelled.
- The frame interval in `process_video`'s ffmpeg command (`fps=1/{frame_interval}`) is not modelled. ffmpeg decides which frames those are.
- Floating point is not modelled. Times are exact milliseconds, so float rounding, `round(x, 3)` and `0.1 s` slack rounding are exact.
- Numerals.ParseSeconds: accepts only the forms the printers produce (a sign, digits, a point, at most three decimals). It does not accept exponents, `inf` or surrounding text.
- Numerals.Repr: models `str()` of a three-decimal float without exponent notation. That is wrong for values of 10^16 seconds and more.
- FrameSampling.ExtractFrames: the FPS and interval are reals and `int()` is truncation. Frames are opaque values and image writing is not performed.
- Rollup files: the write of `all_sets_data.json` is not modelled; it does not change the returned list. `all_summary_data.json` is modelled as written or not.
- JSON documents are records. Missing keys, `null` fields other than `previous_description`, and malformed `data.json` (which crashes the summarization loop) are not modelled.
- SceneDescriber.ParseFrameNumber: models `\d` as ASCII digits and `$` as end of text. Python's `$` also matches before a trailing newline.
- `os.path.join` is a `/` join and `glob` is a given sorted listing. Paths reached through links are not modelled.
- An exception raised by a capability (transcriber, captioner, embedder) propagates in the source. The model treats these capabilities as total.
- SceneIndex.QueryVideoForTimestamps: the `:.2f` rendering of the similarity is not modelled, and neither are metadata keys missing from a stored entry (`.get` returning `None`). The `embedder` object is replaced by the query embedding, given as an input.
- SceneIndex.Collection.Add: ChromaDB's handling of an id that is already stored is not modelled. Nor is its raise on a batch that repeats an id, which happens when every file gets the same id (`SceneIndex.SetNameFromBaseFolder`).
- SceneIndex.FindSetName: models `\d` as ASCII digits. Python's `\d` also matches other Unicode decimal digits.
- Segmentation.ProcessVideo: treats `os.makedirs` and the write of `time_info.txt` as always succeeding. In the source, a failure of either raises.
- Segmentation.ProcessVideo: takes the chunk length as a natural number. A negative `chunk_duration` is accepted by the source: `math.ceil` gives no sets, and the function returns normally after creating the base folder. The model does not cover that case.
- SceneDescriber.ReadTimeInfo: models `read_time_info`'s line iteration for `\n` line endings only. Python's text mode also ends a line at `\r` and `\r\n`.
