/** `ChromaDB.py`: assembling one batch of scene entries for the vector
    store, and reporting what a similarity query returns. The store is a
    class holding the four parallel lists it has been given; how it ranks
    entries is not modelled, so a query's response is an input. */
module SceneIndex {
  import opened Base
  import opened Text

  // ------------------------------------------------------------ set names

  /** A match of `set_\d+` begins at `i`. */
  predicate SetNameStart(p: string, i: nat)
  {
    i + 5 <= |p| && p[i] == 's' && p[i + 1] == 'e' && p[i + 2] == 't' && p[i + 3] == '_' && IsDigit(p[i + 4])
  }

  /** Where the run of digits that starts at `j` ends (`\d+` is greedy). */
  function DigitRunEnd(p: string, j: nat): (e: nat)
    requires j <= |p|
    ensures j <= e <= |p| && AllDigits(p[j..e]) && (e == |p| || !IsDigit(p[e]))
    decreases |p| - j
  {
    if j < |p| && IsDigit(p[j]) then
      var e := DigitRunEnd(p, j + 1);
      assert p[j..e] == [p[j]] + p[j + 1..e];
      e
    else j
  }

  /** Where the leftmost match of `set_\d+` at or after `i` begins. */
  function FirstSetNameFrom(p: string, i: nat): (k: Option<nat>)
    requires i <= |p|
    ensures k.None? <==> forall j :: i <= j < |p| ==> !SetNameStart(p, j)
    ensures k.Some? ==> k.value < |p| && FirstSetNameAt(p, i, k.value)
    decreases |p| - i
  {
    if i == |p| then None
    else if SetNameStart(p, i) then Some(i)
    else FirstSetNameFrom(p, i + 1)
  }

  /** A match begins at `k` and none begins between `i` and `k`. */
  predicate FirstSetNameAt(p: string, i: nat, k: nat)
  {
    i <= k && SetNameStart(p, k) && forall j :: i <= j < k ==> !SetNameStart(p, j)
  }

  /** `set_name_regex.search(file_path)`, the text of group 1: the leftmost
      match, with as many digits as follow. */
  function FindSetName(p: string): (m: Option<string>)
    ensures m.Some? ==> |m.value| >= 5 && m.value[..4] == "set_" && AllDigits(m.value[4..])
  {
    match FirstSetNameFrom(p, 0)
    case None => None
    case Some(k) =>
      var e := DigitRunEnd(p, k + 4);
      assert p[k..e][4..] == p[k + 4..e];
      Some(p[k..e])
  }

  /** The search reports the first match. */
  lemma FirstSetNameUnique(p: string, i: nat, k: nat)
    requires i <= |p| && k < |p| && FirstSetNameAt(p, i, k)
    ensures FirstSetNameFrom(p, i) == Some(k)
  {
  }

  /** A path names a set exactly when `set_` followed by a digit occurs in
      it, and the name is then read from the first such place. */
  lemma FindSetNameReference(p: string)
    ensures FindSetName(p).None? <==> forall j :: 0 <= j < |p| ==> !SetNameStart(p, j)
    ensures forall k :: 0 <= k < |p| && FirstSetNameAt(p, 0, k) ==>
              FindSetName(p) == Some(p[k..DigitRunEnd(p, k + 4)])
  {
    forall k | 0 <= k < |p| && FirstSetNameAt(p, 0, k)
      ensures FindSetName(p) == Some(p[k..DigitRunEnd(p, k + 4)])
    {
      FirstSetNameUnique(p, 0, k);
    }
  }

  /** Text appended after a match's first five characters does not change
      whether it is one. */
  lemma SetNameStartPrefix(a: string, b: string, j: nat)
    requires j + 5 <= |a|
    ensures SetNameStart(a + b, j) == SetNameStart(a, j)
  {
    assert (a + b)[j + 4] == a[j + 4];
  }

  /** No match spans a `/`. */
  lemma NoSetNameAcrossSlash(p: string, j: nat, i: nat)
    requires j <= i <= j + 4 && i < |p| && p[i] == '/'
    ensures !SetNameStart(p, j)
  {
  }

  /** The first match of `pre` is the first match of `pre + post` when it
      starts before the last five characters of `pre`. */
  lemma FirstSetNameOfPrefix(pre: string, post: string, k: nat)
    requires k + 5 <= |pre| && FirstSetNameAt(pre, 0, k)
    ensures FirstSetNameAt(pre + post, 0, k)
  {
    SetNameStartPrefix(pre, post, k);
    forall j | 0 <= j < k
      ensures !SetNameStart(pre + post, j)
    {
      SetNameStartPrefix(pre, post, j);
    }
  }

  /** A folder `set_<digits>` right after a base folder without any set
      name gives that folder's name. */
  lemma SetNameOfSetFile(base: string, digits: string, rest: string)
    requires FindSetName(base).None?
    requires digits != [] && AllDigits(digits)
    requires rest == [] || !IsDigit(rest[0])
    ensures FindSetName(base + "/" + ("set_" + (digits + rest))) == Some("set_" + digits)
  {
    var tail := "set_" + (digits + rest);
    var p := base + "/" + tail;
    var k := |base| + 1;
    FirstMatchAfterBase(base, tail);
    assert p[k + 4..] == digits + rest;
    DigitRunOf(p, k + 4, digits, rest);
    FirstSetNameUnique(p, 0, k);
    assert p[k..k + 4 + |digits|] == "set_" + digits;
  }

  /** After a base folder without a set name, the first match is at the
      start of the next path component when that begins a match. */
  lemma FirstMatchAfterBase(base: string, tail: string)
    requires FindSetName(base).None?
    requires SetNameStart(tail, 0)
    ensures FirstSetNameAt(base + "/" + tail, 0, |base| + 1)
  {
    var p := base + "/" + tail;
    var k := |base| + 1;
    assert p == base + ("/" + tail);
    assert p[|base|] == '/';
    forall j | 0 <= j < k
      ensures !SetNameStart(p, j)
    {
      if j + 5 <= |base| {
        SetNameStartPrefix(base, "/" + tail, j);
      } else {
        NoSetNameAcrossSlash(p, j, |base|);
      }
    }
    assert p[k..] == tail;
    assert p[k] == tail[0] && p[k + 1] == tail[1] && p[k + 2] == tail[2] && p[k + 3] == tail[3];
    assert p[k + 4] == tail[4];
  }

  lemma DigitRunOf(p: string, j: nat, digits: string, rest: string)
    requires j + |digits| + |rest| == |p| && p[j..] == digits + rest
    requires AllDigits(digits) && (rest == [] || !IsDigit(rest[0]))
    ensures DigitRunEnd(p, j) == j + |digits|
    decreases |digits|
  {
    if digits != [] {
      assert p[j] == digits[0];
      assert p[j + 1..] == digits[1..] + rest;
      DigitRunOf(p, j + 1, digits[1..], rest);
    } else if rest != [] {
      assert p[j] == rest[0];
    }
  }

  /** When the base folder's own name contains a set name, every file
      below it yields that same name, so all ids of the batch coincide. */
  lemma SetNameFromBaseFolder(base: string, rest: string)
    requires FindSetName(base).Some?
    ensures FindSetName(base + "/" + rest) == FindSetName(base)
  {
    var post := "/" + rest;
    var p := base + post;
    assert p == base + "/" + rest;
    var k := FirstSetNameFrom(base, 0).value;
    FirstSetNameOfPrefix(base, post, k);
    FirstSetNameUnique(p, 0, k);
    DigitRunBeforeSlash(base, post, k + 4);
    var e := DigitRunEnd(base, k + 4);
    assert p[k..e] == base[k..e];
  }

  lemma {:induction false} DigitRunBeforeSlash(base: string, post: string, j: nat)
    requires j <= |base| && post != [] && post[0] == '/'
    ensures DigitRunEnd(base + post, j) == DigitRunEnd(base, j)
    decreases |base| - j
  {
    var p := base + post;
    if j < |base| {
      assert p[j] == base[j];
      if IsDigit(base[j]) {
        DigitRunBeforeSlash(base, post, j + 1);
      }
    } else {
      assert p[j] == '/';
    }
  }

  // ------------------------------------------------------------ the batch

  /** The document stored beside each embedding. */
  datatype Metadata = Metadata(startMs: int, endMs: int, summary: string, sourceFile: string)

  /** A `summary_data.json` path found under a `set_*` folder, and whether
      opening and decoding it succeeds. */
  datatype SceneFile = SceneFile(path: string, loads: bool)

  /** One prepared entry of the batch. */
  datatype Entry<E> = Entry(id: string, embedding: E, metadata: Metadata, document: string)

  /** What the loop body makes of one file: nothing when the path has no
      set name, when reading the file raises, or when the embedding is
      `None` (its `tolist()` raises); the exception is caught and the file
      contributes to none of the lists. */
  function PrepareFile<E>(videoFilename: string, embedding: Option<E>, startMs: int, endMs: int,
                          serializedText: string, summary: string)
    : SceneFile -> Option<Entry<E>>
  {
    (f: SceneFile) =>
      match FindSetName(f.path)
      case None => None
      case Some(name) =>
        if !f.loads || embedding.None? then None
        else Some(Entry(videoFilename + "_" + name, embedding.value,
                        Metadata(startMs, endMs, summary, f.path), serializedText))
  }

  /** The entries the loop prepares, in file order. */
  function Batch<E>(files: seq<SceneFile>, videoFilename: string, embedding: Option<E>, startMs: int,
                    endMs: int, serializedText: string, summary: string): seq<Entry<E>>
  {
    FilterMap(files, PrepareFile(videoFilename, embedding, startMs, endMs, serializedText, summary))
  }

  function IdsOf<E>(b: seq<Entry<E>>): (r: seq<string>)
    ensures |r| == |b| && forall k :: 0 <= k < |b| ==> r[k] == b[k].id
  {
    seq(|b|, k requires 0 <= k < |b| => b[k].id)
  }

  function EmbeddingsOf<E>(b: seq<Entry<E>>): (r: seq<E>)
    ensures |r| == |b| && forall k :: 0 <= k < |b| ==> r[k] == b[k].embedding
  {
    seq(|b|, k requires 0 <= k < |b| => b[k].embedding)
  }

  function MetadatasOf<E>(b: seq<Entry<E>>): (r: seq<Metadata>)
    ensures |r| == |b| && forall k :: 0 <= k < |b| ==> r[k] == b[k].metadata
  {
    seq(|b|, k requires 0 <= k < |b| => b[k].metadata)
  }

  function DocumentsOf<E>(b: seq<Entry<E>>): (r: seq<string>)
    ensures |r| == |b| && forall k :: 0 <= k < |b| ==> r[k] == b[k].document
  {
    seq(|b|, k requires 0 <= k < |b| => b[k].document)
  }

  /** The batch, entry by entry: entry `k` comes from the `k`-th file that
      has a set name and loads, in sorted file order; its id is the video
      name and that set name, its metadata repeats the passed-in times and
      summary with the file's own path, and its document is the passed-in
      text. Every such file gets its entry. Without an embedding the batch
      is empty. */
  lemma BatchReference<E>(files: seq<SceneFile>, videoFilename: string, embedding: Option<E>, startMs: int,
                          endMs: int, serializedText: string, summary: string)
    ensures var b := Batch(files, videoFilename, embedding, startMs, endMs, serializedText, summary);
      var h := Hits(files, PrepareFile(videoFilename, embedding, startMs, endMs, serializedText, summary));
      |h| == |b| <= |files| && Increasing(h)
      && (embedding.None? ==> b == [])
      && (forall k :: 0 <= k < |b| ==>
           h[k] < |files| && files[h[k]].loads && FindSetName(files[h[k]].path).Some?
           && b[k] == Entry(videoFilename + "_" + FindSetName(files[h[k]].path).value, embedding.value,
                            Metadata(startMs, endMs, summary, files[h[k]].path), serializedText))
      && (forall i :: 0 <= i < |files| && files[i].loads && FindSetName(files[i].path).Some? && embedding.Some?
            ==> i in h)
  {
    var f := PrepareFile(videoFilename, embedding, startMs, endMs, serializedText, summary);
    FilterMapHits(files, f);
    if embedding.None? {
      NothingPrepared(files, f);
    }
  }

  lemma {:induction false} NothingPrepared<A, B>(s: seq<A>, f: A -> Option<B>)
    requires forall x :: f(x).None?
    ensures FilterMap(s, f) == []
    decreases |s|
  {
    if s != [] {
      NothingPrepared(s[..|s| - 1], f);
    }
  }

  /** The vector store: the four parallel lists it holds, and how often
      `add` has been called. */
  class Collection<E> {
    var ids: seq<string>
    var embeddings: seq<E>
    var metadatas: seq<Metadata>
    var documents: seq<string>
    var addCalls: nat

    predicate Valid()
      reads this
    {
      |embeddings| == |ids| && |metadatas| == |ids| && |documents| == |ids|
    }

    constructor ()
      ensures Valid() && ids == [] && embeddings == [] && metadatas == [] && documents == []
      ensures addCalls == 0
    {
      ids, embeddings, metadatas, documents := [], [], [], [];
      addCalls := 0;
    }

    /** `collection.add(...)`: the lists must be parallel. */
    method Add(newIds: seq<string>, newEmbeddings: seq<E>, newMetadatas: seq<Metadata>, newDocuments: seq<string>)
      requires Valid()
      requires |newEmbeddings| == |newIds| && |newMetadatas| == |newIds| && |newDocuments| == |newIds|
      modifies this
      ensures Valid()
      ensures ids == old(ids) + newIds && embeddings == old(embeddings) + newEmbeddings
      ensures metadatas == old(metadatas) + newMetadatas && documents == old(documents) + newDocuments
      ensures addCalls == old(addCalls) + 1
    {
      ids := ids + newIds;
      embeddings := embeddings + newEmbeddings;
      metadatas := metadatas + newMetadatas;
      documents := documents + newDocuments;
      addCalls := addCalls + 1;
    }
  }

  lemma ProjectionsSnoc<E>(b: seq<Entry<E>>, x: Entry<E>)
    ensures IdsOf(b + [x]) == IdsOf(b) + [x.id]
    ensures EmbeddingsOf(b + [x]) == EmbeddingsOf(b) + [x.embedding]
    ensures MetadatasOf(b + [x]) == MetadatasOf(b) + [x.metadata]
    ensures DocumentsOf(b + [x]) == DocumentsOf(b) + [x.document]
  {
  }

  /** The loop of `populate_chroma_db`: the four lists it fills, which are
      the batch's ids, embeddings, metadatas and documents. */
  method PrepareBatch<E>(embedding: Option<E>, jsonFiles: seq<SceneFile>, videoFilename: string,
                         startMs: int, endMs: int, serializedText: string, summary: string)
    returns (allIds: seq<string>, allEmbeddings: seq<E>, allMetadatas: seq<Metadata>, allDocuments: seq<string>)
    ensures var b := Batch(jsonFiles, videoFilename, embedding, startMs, endMs, serializedText, summary);
      allIds == IdsOf(b) && allEmbeddings == EmbeddingsOf(b)
      && allMetadatas == MetadatasOf(b) && allDocuments == DocumentsOf(b)
  {
    var f := PrepareFile(videoFilename, embedding, startMs, endMs, serializedText, summary);
    allEmbeddings, allMetadatas, allDocuments, allIds := [], [], [], [];
    ghost var batch: seq<Entry<E>> := [];
    for i := 0 to |jsonFiles|
      invariant batch == FilterMap(jsonFiles[..i], f)
      invariant allIds == IdsOf(batch) && allEmbeddings == EmbeddingsOf(batch)
      invariant allMetadatas == MetadatasOf(batch) && allDocuments == DocumentsOf(batch)
    {
      var filePath := jsonFiles[i].path;
      FilterMapStep(jsonFiles, i, f);
      var setName := FindSetName(filePath);
      if setName.None? {
        continue;
      }
      var sceneId := videoFilename + "_" + setName.value;
      if !jsonFiles[i].loads {
        continue;
      }
      var metadata := Metadata(startMs, endMs, summary, filePath);
      if embedding.None? {
        continue;
      }
      var entry := Entry(sceneId, embedding.value, metadata, serializedText);
      assert f(jsonFiles[i]) == Some(entry);
      ProjectionsSnoc(batch, entry);
      allEmbeddings := allEmbeddings + [embedding.value];
      allMetadatas := allMetadatas + [metadata];
      allDocuments := allDocuments + [serializedText];
      allIds := allIds + [sceneId];
      batch := batch + [entry];
    }
    TakeAll(jsonFiles);
  }

  /** `populate_chroma_db` over the sorted listing `jsonFiles`: the batch is
      added in one call when it holds an entry, and the store is left as it
      was otherwise (in particular when no file was found). */
  method PopulateChromaDb<E>(embedding: Option<E>, collection: Collection<E>, jsonFiles: seq<SceneFile>,
                             videoFilename: string, startMs: int, endMs: int, serializedText: string,
                             summary: string)
    requires collection.Valid()
    modifies collection
    ensures collection.Valid()
    ensures var b := Batch(jsonFiles, videoFilename, embedding, startMs, endMs, serializedText, summary);
      if b == [] then
        unchanged(collection)
      else
        collection.ids == old(collection.ids) + IdsOf(b)
        && collection.embeddings == old(collection.embeddings) + EmbeddingsOf(b)
        && collection.metadatas == old(collection.metadatas) + MetadatasOf(b)
        && collection.documents == old(collection.documents) + DocumentsOf(b)
        && collection.addCalls == old(collection.addCalls) + 1
  {
    if jsonFiles == [] {
      return;
    }
    var allIds, allEmbeddings, allMetadatas, allDocuments :=
      PrepareBatch(embedding, jsonFiles, videoFilename, startMs, endMs, serializedText, summary);
    if |allIds| > 0 {
      collection.Add(allIds, allEmbeddings, allMetadatas, allDocuments);
    }
  }

  // ------------------------------------------------------------ queries

  /** What `collection.query` returns for one query embedding: the
      `ids`, `distances` and `metadatas` lists, one inner list per query. */
  datatype QueryResponse = QueryResponse(
    ids: Option<seq<seq<string>>>,
    distances: seq<seq<real>>,
    metadatas: seq<seq<Metadata>>)

  /** One reported result. */
  datatype Hit = Hit(sceneId: string, similarity: real, startMs: int, endMs: int, summary: string)

  datatype QueryOutcome =
    | NoEmbedding                         // the query text got no embedding; the store is not asked
    | NoResults                           // the response has no ids for the query
    | Reported(hits: seq<Hit>, raised: bool)  // `raised`: a distance or metadata was missing (IndexError)

  /** How many results can be reported before a missing distance or
      metadata stops the loop. */
  function Reachable(r: QueryResponse): nat
    requires r.ids.Some? && r.ids.value != []
  {
    var n := |r.ids.value[0]|;
    var d := if r.distances == [] then 0 else |r.distances[0]|;
    var m := if r.metadatas == [] then 0 else |r.metadatas[0]|;
    if n <= d && n <= m then n else if d <= m then d else m
  }

  /** `query_video_for_timestamps` with the store answering `query`. */
  method QueryVideoForTimestamps<E>(queryEmbedding: Option<E>, nResults: nat, query: (E, nat) -> QueryResponse)
    returns (outcome: QueryOutcome)
    ensures queryEmbedding.None? <==> outcome == NoEmbedding
    ensures queryEmbedding.Some? ==>
              var r := query(queryEmbedding.value, nResults);
              (outcome == NoResults <==> r.ids.None? || r.ids.value == [] || r.ids.value[0] == [])
              && (outcome.Reported? ==>
                    |outcome.hits| == Reachable(r)
                    && (outcome.raised <==> Reachable(r) < |r.ids.value[0]|)
                    && forall k :: 0 <= k < |outcome.hits| ==>
                         outcome.hits[k] == Hit(r.ids.value[0][k], 1.0 - r.distances[0][k],
                                                r.metadatas[0][k].startMs, r.metadatas[0][k].endMs,
                                                r.metadatas[0][k].summary))
  {
    if queryEmbedding.None? {
      return NoEmbedding;
    }
    var results := query(queryEmbedding.value, nResults);
    if results.ids.None? || results.ids.value == [] || results.ids.value[0] == [] {
      return NoResults;
    }
    var ids := results.ids.value[0];
    var hits: seq<Hit> := [];
    var i := 0;
    while i < |ids|
      invariant 0 <= i <= Reachable(results) && |hits| == i
      invariant forall k :: 0 <= k < i ==>
                  hits[k] == Hit(ids[k], 1.0 - results.distances[0][k], results.metadatas[0][k].startMs,
                                 results.metadatas[0][k].endMs, results.metadatas[0][k].summary)
    {
      if results.distances == [] || i >= |results.distances[0]|
         || results.metadatas == [] || i >= |results.metadatas[0]| {
        break;
      }
      var distance := results.distances[0][i];
      var metadata := results.metadatas[0][i];
      hits := hits + [Hit(ids[i], 1.0 - distance, metadata.startMs, metadata.endMs, metadata.summary)];
      i := i + 1;
    }
    var raised := i < |ids|;
    return Reported(hits, raised);
  }
}
