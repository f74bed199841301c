/** The per-set documents the pipeline passes between its stages
    (`data.json`, `context_data.json`, `summary_data.json`), as records.
    Times are milliseconds. */
module Records {
  import opened Base

  /** One sampled frame: its absolute time and its caption. */
  datatype Visual = Visual(timestampMs: int, description: string)

  /** `data.json`: a set's time span, transcript and captioned frames. */
  datatype SetData = SetData(startMs: int, endMs: int, transcript: string, visuals: seq<Visual>)

  /** `context_data.json`: the set's data plus the summary carried in from
      the previous set (`previous_context`, `null` for the first). */
  datatype ContextDoc = ContextDoc(data: SetData, previousContext: Option<string>)

  /** `summary_data.json`. */
  datatype SummaryDoc = SummaryDoc(
    startMs: int,
    endMs: int,
    previousDescription: Option<string>,
    sceneSummary: string,
    transcript: string,
    visuals: seq<Visual>)

  /** The `data.json` fields a summary document repeats. */
  function DataOf(doc: SummaryDoc): SetData
  {
    SetData(doc.startMs, doc.endMs, doc.transcript, doc.visuals)
  }
}
