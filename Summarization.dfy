/** `Pipe_summarization.py`: the summarisation pass over the set folders.
    One piece of state, the previous summary, is threaded through the sets
    in sorted order: each set with a `data.json` gets a `context_data.json`
    carrying the current state, then a summary is asked for with that state
    as context; a non-empty summary becomes the new state and, when its
    `summary_data.json` can be written, an entry of the result list. */
module Summarization {
  import opened Base
  import opened Records
  import SceneSummary

  /** A `set_*` folder as the pass sees it: its `data.json` (`None` when the
      file does not exist) and whether each of the two output files can be
      written. */
  datatype SummarySet = SummarySet(
    path: string,
    data: Option<SetData>,
    contextWritable: bool,
    summaryWritable: bool)

  /** A `context_data.json` written into the folder at `path`. */
  datatype ContextWrite = ContextWrite(path: string, doc: ContextDoc)

  /** One request for a summary: the state it was asked under and the
      set's data it was asked about. */
  datatype Request = Request(previous: Option<string>, data: SetData)

  /** The loop's state: `previous_summary_text`, the context files written
      so far, `all_summaries`, and the summary requests made so far. */
  datatype Thread = Thread(previous: Option<string>, contexts: seq<ContextWrite>, summaries: seq<SummaryDoc>,
                           requests: seq<Request>)

  /** What `generate_scene_summary` returns for a set's data under a given
      state, with the loaded model answering `invoke`. The loop and its
      reference below are stated for any such function. */
  function Summarizer(invoke: string -> Option<string>): (Option<string>, SetData) -> Option<string>
  {
    (previous: Option<string>, d: SetData) =>
      SceneSummary.GenerateSceneSummary(d.transcript, d.visuals, true, previous, invoke).summary
  }

  /** The summary a set yields when the state is `previous`: `None` without
      `data.json`, or when the summary is `None` or empty (falsy). */
  function NewSummary(previous: Option<string>, s: SummarySet, summarize: (Option<string>, SetData) -> Option<string>)
    : (r: Option<string>)
    ensures r.Some? ==> s.data.Some? && r.value != []
  {
    match s.data
    case None => None
    case Some(d) =>
      var reply := summarize(previous, d);
      if reply.Some? && reply.value != "" then reply else None
  }

  /** One iteration of the loop (lines 46-112). */
  function Step(t: Thread, s: SummarySet, summarize: (Option<string>, SetData) -> Option<string>): Thread
  {
    match s.data
    case None => t
    case Some(d) =>
      var contexts := if s.contextWritable then t.contexts + [ContextWrite(s.path, ContextDoc(d, t.previous))]
                      else t.contexts;
      var requests := t.requests + [Request(t.previous, d)];
      match NewSummary(t.previous, s, summarize)
      case None => Thread(t.previous, contexts, t.summaries, requests)
      case Some(summary) =>
        var doc := SummaryDoc(d.startMs, d.endMs, t.previous, summary, d.transcript, d.visuals);
        Thread(Some(summary), contexts, if s.summaryWritable then t.summaries + [doc] else t.summaries, requests)
  }

  /** The loop over the sets in order, from no previous summary. */
  function Run(sets: seq<SummarySet>, summarize: (Option<string>, SetData) -> Option<string>): Thread
    decreases |sets|
  {
    if sets == [] then Thread(None, [], [], [])
    else Step(Run(sets[..|sets| - 1], summarize), sets[|sets| - 1], summarize)
  }

  lemma RunStep(sets: seq<SummarySet>, i: nat, summarize: (Option<string>, SetData) -> Option<string>)
    requires i < |sets|
    ensures Run(sets[..i + 1], summarize) == Step(Run(sets[..i], summarize), sets[i], summarize)
  {
    assert sets[..i + 1][..i] == sets[..i];
  }

  /** What the pass leaves behind: the context files, the summary files (the
      same documents as `all_summaries`), `all_summary_data.json` (`None`
      when it was not written), and the prompts sent to the model, in
      order. */
  datatype PipelineResult = PipelineResult(contexts: seq<ContextWrite>, summaries: seq<SummaryDoc>,
                                           rollup: Option<seq<SummaryDoc>>, prompts: seq<string>)

  /** The prompts `generate_scene_summary` sends for a list of requests. */
  function PromptsOf(rs: seq<Request>): (ps: seq<string>)
    ensures |ps| == |rs|
    ensures forall k :: 0 <= k < |rs| ==>
              ps[k] == SceneSummary.ScenePrompt(rs[k].data.transcript, rs[k].data.visuals, rs[k].previous)
  {
    seq(|rs|, k requires 0 <= k < |rs| =>
      SceneSummary.ScenePrompt(rs[k].data.transcript, rs[k].data.visuals, rs[k].previous))
  }

  lemma PromptsOfSnoc(rs: seq<Request>, r: Request)
    ensures PromptsOf(rs + [r])
            == PromptsOf(rs) + [SceneSummary.ScenePrompt(r.data.transcript, r.data.visuals, r.previous)]
  {
    assert PromptsOf(rs + [r])[..|rs|] == PromptsOf(rs);
  }

  /** `run_summarization_pipeline(VIDEO_FILENAME)` with the model's presence,
      the sets folder's existence, its sorted `set_*` folders, whether the
      combined file can be written, and the model's replies as inputs. */
  method RunSummarizationPipeline(hasModel: bool, baseIsDir: bool, sets: seq<SummarySet>,
                                  rollupWritable: bool, invoke: string -> Option<string>)
    returns (result: PipelineResult)
    ensures !hasModel || !baseIsDir || sets == [] ==> result == PipelineResult([], [], None, [])
    ensures hasModel && baseIsDir && sets != [] ==>
              result.contexts == Run(sets, Summarizer(invoke)).contexts
              && result.summaries == Run(sets, Summarizer(invoke)).summaries
              && result.rollup == (if rollupWritable then Some(Run(sets, Summarizer(invoke)).summaries) else None)
              && result.prompts == PromptsOf(Run(sets, Summarizer(invoke)).requests)
  {
    if !hasModel {
      return PipelineResult([], [], None, []);
    }
    if !baseIsDir {
      return PipelineResult([], [], None, []);
    }
    if sets == [] {
      return PipelineResult([], [], None, []);
    }
    var previousSummaryText: Option<string> := None;
    var contexts: seq<ContextWrite> := [];
    var allSummaries: seq<SummaryDoc> := [];
    var prompts: seq<string> := [];
    ghost var requests: seq<Request> := [];
    for i := 0 to |sets|
      invariant Run(sets[..i], Summarizer(invoke)) == Thread(previousSummaryText, contexts, allSummaries, requests)
      invariant prompts == PromptsOf(requests)
    {
      RunStep(sets, i, Summarizer(invoke));
      var setFolder := sets[i];
      if setFolder.data.None? {
        continue;
      }
      var currentSetData := setFolder.data.value;
      var contextJsonData := ContextDoc(currentSetData, previousSummaryText);
      if setFolder.contextWritable {
        contexts := contexts + [ContextWrite(setFolder.path, contextJsonData)];
      }
      var call := SceneSummary.GenerateSceneSummary(currentSetData.transcript, currentSetData.visuals,
                                                    true, previousSummaryText, invoke);
      PromptsOfSnoc(requests, Request(previousSummaryText, currentSetData));
      prompts := prompts + [call.prompt.value];
      requests := requests + [Request(previousSummaryText, currentSetData)];
      var newSummary := call.summary;
      assert newSummary == Summarizer(invoke)(previousSummaryText, currentSetData);
      if newSummary.None? || newSummary.value == "" {
        continue;
      }
      var outputData := SummaryDoc(currentSetData.startMs, currentSetData.endMs, previousSummaryText,
                                   newSummary.value, currentSetData.transcript, currentSetData.visuals);
      if setFolder.summaryWritable {
        allSummaries := allSummaries + [outputData];
      }
      previousSummaryText := newSummary;
    }
    assert sets[..|sets|] == sets;
    return PipelineResult(contexts, allSummaries, if rollupWritable then Some(allSummaries) else None, prompts);
  }

  // ------------------------------------------------------------ reference

  /** One hand-over of the state: the state a summary was produced under,
      and the summary. */
  datatype Handoff = Handoff(before: Option<string>, summary: string)

  /** Every summary the loop produces, in order, whether or not its file
      could be written. */
  function Handoffs(sets: seq<SummarySet>, summarize: (Option<string>, SetData) -> Option<string>): seq<Handoff>
    decreases |sets|
  {
    if sets == [] then []
    else
      var init := sets[..|sets| - 1];
      var before := Run(init, summarize).previous;
      Handoffs(init, summarize)
      + (match NewSummary(before, sets[|sets| - 1], summarize)
         case None => []
         case Some(summary) => [Handoff(before, summary)])
  }

  /** The hand-overs a list of written summary documents records. */
  function HandoffsOf(docs: seq<SummaryDoc>): (hs: seq<Handoff>)
    ensures |hs| == |docs|
    ensures forall k :: 0 <= k < |docs| ==> hs[k] == Handoff(docs[k].previousDescription, docs[k].sceneSummary)
  {
    seq(|docs|, k requires 0 <= k < |docs| => Handoff(docs[k].previousDescription, docs[k].sceneSummary))
  }

  /** The `data.json` contents a list of summary documents repeats. */
  function DataOfAll(docs: seq<SummaryDoc>): (ds: seq<SetData>)
    ensures |ds| == |docs|
    ensures forall k :: 0 <= k < |docs| ==> ds[k] == DataOf(docs[k])
  {
    seq(|docs|, k requires 0 <= k < |docs| => DataOf(docs[k]))
  }

  /** A chain of hand-overs: the first starts from no summary, each later
      one from the summary before it, and no summary is empty. */
  predicate Chained(hs: seq<Handoff>)
  {
    (hs != [] ==> hs[0].before.None?)
    && (forall k :: 0 < k < |hs| ==> hs[k].before == Some(hs[k - 1].summary))
    && (forall k :: 0 <= k < |hs| ==> hs[k].summary != [])
  }

  /** The state invariant: the hand-overs form a chain, and the state is the
      most recent summary produced, or `None` while there is none. */
  lemma {:induction false} StateIsLatestSummary(sets: seq<SummarySet>, summarize: (Option<string>, SetData) -> Option<string>)
    ensures Chained(Handoffs(sets, summarize))
    ensures Run(sets, summarize).previous
            == (if Handoffs(sets, summarize) == [] then None
                else Some(Handoffs(sets, summarize)[|Handoffs(sets, summarize)| - 1].summary))
    decreases |sets|
  {
    if sets != [] {
      var init := sets[..|sets| - 1];
      StateIsLatestSummary(init, summarize);
      var hs := Handoffs(init, summarize);
      var t := Run(init, summarize);
      match NewSummary(t.previous, sets[|sets| - 1], summarize) {
        case None =>
          assert Handoffs(sets, summarize) == hs;
        case Some(summary) =>
          assert Handoffs(sets, summarize) == hs + [Handoff(t.previous, summary)];
      }
    }
  }

  lemma HandoffsOfSnoc(docs: seq<SummaryDoc>, d: SummaryDoc)
    ensures HandoffsOf(docs + [d]) == HandoffsOf(docs) + [Handoff(d.previousDescription, d.sceneSummary)]
    ensures DataOfAll(docs + [d]) == DataOfAll(docs) + [DataOf(d)]
  {
    assert HandoffsOf(docs + [d])[..|docs|] == HandoffsOf(docs);
    assert DataOfAll(docs + [d])[..|docs|] == DataOfAll(docs);
  }

  function DataFile(s: SummarySet): Option<SetData>
  {
    s.data
  }

  /** The written summaries are among the produced ones, in order, each
      recording the state it was produced under; with every write
      succeeding they are exactly the produced ones. */
  lemma {:induction false} SummariesReference(sets: seq<SummarySet>, summarize: (Option<string>, SetData) -> Option<string>)
    ensures IsSubseq(HandoffsOf(Run(sets, summarize).summaries), Handoffs(sets, summarize))
    ensures (forall k :: 0 <= k < |sets| ==> sets[k].summaryWritable) ==>
              HandoffsOf(Run(sets, summarize).summaries) == Handoffs(sets, summarize)
    decreases |sets|
  {
    if sets == [] {
      IsSubseqRefl<Handoff>([]);
    } else {
      var init := sets[..|sets| - 1];
      var s := sets[|sets| - 1];
      SummariesReference(init, summarize);
      assert forall k :: 0 <= k < |init| ==> init[k] == sets[k];
      var t := Run(init, summarize);
      var hs := Handoffs(init, summarize);
      match NewSummary(t.previous, s, summarize) {
        case None =>
          assert Run(sets, summarize).summaries == t.summaries;
          assert Handoffs(sets, summarize) == hs;
        case Some(summary) =>
          var d := s.data.value;
          var h := Handoff(t.previous, summary);
          assert Handoffs(sets, summarize) == hs + [h];
          var doc := SummaryDoc(d.startMs, d.endMs, t.previous, summary, d.transcript, d.visuals);
          if s.summaryWritable {
            assert Run(sets, summarize).summaries == t.summaries + [doc];
            HandoffsOfSnoc(t.summaries, doc);
            IsSubseqSnocBoth(HandoffsOf(t.summaries), hs, h);
          } else {
            assert Run(sets, summarize).summaries == t.summaries;
            IsSubseqSnocRight(HandoffsOf(t.summaries), hs, h);
          }
      }
    }
  }

  /** The written summaries repeat the data of sets with a `data.json`, in
      folder order, so there are no more of them than folders. */
  lemma {:induction false} SummariesFollowFolders(sets: seq<SummarySet>, summarize: (Option<string>, SetData) -> Option<string>)
    ensures IsSubseq(DataOfAll(Run(sets, summarize).summaries), FilterMap(sets, DataFile))
    ensures |Run(sets, summarize).summaries| <= |sets|
    decreases |sets|
  {
    if sets == [] {
      IsSubseqRefl<SetData>([]);
    } else {
      var init := sets[..|sets| - 1];
      var s := sets[|sets| - 1];
      SummariesFollowFolders(init, summarize);
      var t := Run(init, summarize);
      var ds := FilterMap(init, DataFile);
      FilterMapSnoc(init, s, DataFile);
      assert init + [s] == sets;
      if s.data.Some? {
        var d := s.data.value;
        assert FilterMap(sets, DataFile) == ds + [d];
        if NewSummary(t.previous, s, summarize).Some? && s.summaryWritable {
          var doc := SummaryDoc(d.startMs, d.endMs, t.previous, NewSummary(t.previous, s, summarize).value,
                                d.transcript, d.visuals);
          assert Run(sets, summarize).summaries == t.summaries + [doc];
          HandoffsOfSnoc(t.summaries, doc);
          IsSubseqSnocBoth(DataOfAll(t.summaries), ds, d);
        } else {
          assert Run(sets, summarize).summaries == t.summaries;
          IsSubseqSnocRight(DataOfAll(t.summaries), ds, d);
        }
      } else {
        assert Run(sets, summarize) == t;
      }
      IsSubseqLength(DataOfAll(Run(sets, summarize).summaries), FilterMap(sets, DataFile));
    }
  }

  /** When every write succeeds, `all_summaries` is a chain: entry 0 has no
      previous description and entry `k` has entry `k - 1`'s summary as its
      previous description. */
  lemma AllWrittenSummariesChain(sets: seq<SummarySet>, summarize: (Option<string>, SetData) -> Option<string>)
    requires forall k :: 0 <= k < |sets| ==> sets[k].summaryWritable
    ensures var docs := Run(sets, summarize).summaries;
      (docs != [] ==> docs[0].previousDescription.None?)
      && (forall k :: 0 < k < |docs| ==> docs[k].previousDescription == Some(docs[k - 1].sceneSummary))
      && (forall k :: 0 <= k < |docs| ==> docs[k].sceneSummary != [])
  {
    SummariesReference(sets, summarize);
    StateIsLatestSummary(sets, summarize);
    var docs := Run(sets, summarize).summaries;
    assert HandoffsOf(docs) == Handoffs(sets, summarize);
    ChainedDocs(docs);
  }

  lemma ChainedDocs(docs: seq<SummaryDoc>)
    requires Chained(HandoffsOf(docs))
    ensures (docs != [] ==> docs[0].previousDescription.None?)
      && (forall k :: 0 < k < |docs| ==> docs[k].previousDescription == Some(docs[k - 1].sceneSummary))
      && (forall k :: 0 <= k < |docs| ==> docs[k].sceneSummary != [])
  {
    var hs := HandoffsOf(docs);
    assert forall k :: 0 <= k < |docs| ==> hs[k] == Handoff(docs[k].previousDescription, docs[k].sceneSummary);
  }

  /** A set folder without `data.json` is passed over: dropping it changes
      neither the state nor anything written. */
  lemma {:induction false} NoDataIgnored(a: seq<SummarySet>, s: SummarySet, b: seq<SummarySet>,
                                         summarize: (Option<string>, SetData) -> Option<string>)
    requires s.data.None?
    ensures Run(a + [s] + b, summarize) == Run(a + b, summarize)
    decreases |b|
  {
    if b == [] {
      assert a + [s] + b == a + [s];
      assert (a + [s])[..|a|] == a;
      assert a + b == a;
    } else {
      var b' := b[..|b| - 1];
      NoDataIgnored(a, s, b', summarize);
      assert (a + [s] + b)[..|a + [s] + b| - 1] == a + [s] + b';
      assert (a + b)[..|a + b| - 1] == a + b';
    }
  }

  /** The context file of every set with a `data.json` is written (when it
      can be) before its summary is asked for, whatever becomes of the
      summary: the context files are those of the writable sets with data,
      in folder order. Each carries the set's data and, as its previous
      context, the state the loop had reached before that set. */
  lemma ContextsReference(sets: seq<SummarySet>, summarize: (Option<string>, SetData) -> Option<string>)
    ensures |Run(sets, summarize).contexts| == |FilterMap(sets, ContextTarget)|
    ensures forall k :: 0 <= k < |Run(sets, summarize).contexts| ==>
              (Run(sets, summarize).contexts[k].path, Run(sets, summarize).contexts[k].doc.data)
              == FilterMap(sets, ContextTarget)[k]
    ensures var cs := Run(sets, summarize).contexts;
      var h := Hits(sets, ContextTarget);
      |h| == |cs| && Increasing(h)
      && (forall k :: 0 <= k < |cs| ==>
            h[k] < |sets| && ContextTarget(sets[h[k]]).Some?
            && cs[k] == ContextWrite(sets[h[k]].path,
                                     ContextDoc(sets[h[k]].data.value, Run(sets[..h[k]], summarize).previous)))
      && (forall i :: 0 <= i < |sets| && ContextTarget(sets[i]).Some? ==> i in h)
  {
    FilterMapHits(sets, ContextTarget);
    ContextsAt(sets, summarize);
  }

  lemma {:induction false} ContextsAt(sets: seq<SummarySet>, summarize: (Option<string>, SetData) -> Option<string>)
    ensures var cs := Run(sets, summarize).contexts;
      var h := Hits(sets, ContextTarget);
      |h| == |cs|
      && forall k :: 0 <= k < |cs| ==>
           h[k] < |sets| && ContextTarget(sets[h[k]]).Some?
           && cs[k] == ContextWrite(sets[h[k]].path,
                                    ContextDoc(sets[h[k]].data.value, Run(sets[..h[k]], summarize).previous))
    decreases |sets|
  {
    if sets != [] {
      var init := sets[..|sets| - 1];
      var s := sets[|sets| - 1];
      ContextsAt(init, summarize);
      var t := Run(init, summarize);
      var hi := Hits(init, ContextTarget);
      forall k | 0 <= k < |hi|
        ensures sets[..hi[k]] == init[..hi[k]] && sets[hi[k]] == init[hi[k]]
      {
      }
      if ContextTarget(s).Some? {
        assert Hits(sets, ContextTarget) == hi + [|init|];
        assert Run(sets, summarize).contexts == t.contexts + [ContextWrite(s.path, ContextDoc(s.data.value, t.previous))];
        assert sets[..|init|] == init;
      } else {
        assert Hits(sets, ContextTarget) == hi;
        assert Run(sets, summarize).contexts == t.contexts;
      }
    }
  }

  /** The previous context a context file records is the latest summary
      produced before its set, or `None` when there is none yet. */
  lemma ContextCarriesLatestSummary(sets: seq<SummarySet>, summarize: (Option<string>, SetData) -> Option<string>,
                                    k: nat)
    requires k < |Run(sets, summarize).contexts|
    ensures k < |Hits(sets, ContextTarget)| && Hits(sets, ContextTarget)[k] < |sets|
    ensures var j := Hits(sets, ContextTarget)[k];
      var before := Handoffs(sets[..j], summarize);
      sets[j].data.Some?
      && Run(sets, summarize).contexts[k].doc.previousContext
         == (if before == [] then None else Some(before[|before| - 1].summary))
  {
    ContextsReference(sets, summarize);
    var j := Hits(sets, ContextTarget)[k];
    StateIsLatestSummary(sets[..j], summarize);
  }

  /** The model is asked once for every set with a `data.json` and for no
      other, in folder order, whatever it answers and whichever files can
      be written; each request carries the state the loop had reached
      before that set. */
  lemma RequestsReference(sets: seq<SummarySet>, summarize: (Option<string>, SetData) -> Option<string>)
    ensures var rs := Run(sets, summarize).requests;
      var h := Hits(sets, DataFile);
      |h| == |rs| && Increasing(h)
      && (forall k :: 0 <= k < |rs| ==>
            h[k] < |sets| && sets[h[k]].data.Some?
            && rs[k] == Request(Run(sets[..h[k]], summarize).previous, sets[h[k]].data.value))
      && (forall i :: 0 <= i < |sets| && sets[i].data.Some? ==> i in h)
  {
    FilterMapHits(sets, DataFile);
    RequestsAt(sets, summarize);
  }

  lemma {:induction false} RequestsAt(sets: seq<SummarySet>, summarize: (Option<string>, SetData) -> Option<string>)
    ensures var rs := Run(sets, summarize).requests;
      var h := Hits(sets, DataFile);
      |h| == |rs|
      && forall k :: 0 <= k < |rs| ==>
           h[k] < |sets| && sets[h[k]].data.Some?
           && rs[k] == Request(Run(sets[..h[k]], summarize).previous, sets[h[k]].data.value)
    decreases |sets|
  {
    if sets != [] {
      var init := sets[..|sets| - 1];
      var s := sets[|sets| - 1];
      RequestsAt(init, summarize);
      var t := Run(init, summarize);
      var hi := Hits(init, DataFile);
      forall k | 0 <= k < |hi|
        ensures sets[..hi[k]] == init[..hi[k]] && sets[hi[k]] == init[hi[k]]
      {
      }
      if s.data.Some? {
        assert Hits(sets, DataFile) == hi + [|init|];
        assert Run(sets, summarize).requests == t.requests + [Request(t.previous, s.data.value)];
        assert sets[..|init|] == init;
      } else {
        assert Hits(sets, DataFile) == hi;
        assert Run(sets, summarize).requests == t.requests;
      }
    }
  }

  /** The folder and data of a set whose context file gets written. */
  function ContextTarget(s: SummarySet): Option<(string, SetData)>
  {
    if s.data.Some? && s.contextWritable then Some((s.path, s.data.value)) else None
  }
}
