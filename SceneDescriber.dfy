/** `Description_JSON_Generator.py`: building each set's `data.json` record
    from its `time_info.txt`, its audio transcript and its captioned frames,
    and collecting the records of all sets in folder order. Transcription
    and captioning are function parameters; every call to them is logged so
    that what is invoked, and in what order, can be stated. */
module SceneDescriber {
  import opened Base
  import opened Text
  import opened Numerals
  import opened Records
  import Segmentation

  // -------------------------------------------------------- read_time_info

  const START_KEY: string := "start_time_seconds:"
  const END_KEY: string := "end_time_seconds:"

  /** The set's span, as `read_time_info` returns it when both times are present. */
  datatype Span = Span(startMs: int, endMs: int)

  /** The `times` dictionary: which of the two keys have been filled in. */
  datatype Times = Times(start: Option<int>, end: Option<int>)

  /** The state of the `for line in f` loop: still scanning, or an
      exception was raised (which the `except` turns into `(None, None)`). */
  datatype Scan = Scanning(times: Times) | Raised

  /** `float(line.split(":")[1].strip())`; `None` where that raises. */
  function FieldValue(line: string): Option<int>
  {
    var parts := Split(line, ':');
    if |parts| >= 2 then ParseSeconds(Strip(parts[1])) else None
  }

  /** What the loop body makes of one line: a `start_time_seconds:` line
      with its parsed value (`None` where `float` raises), an
      `end_time_seconds:` line likewise, or a line it ignores. */
  datatype LineKind = StartLine(value: Option<int>) | EndLine(value: Option<int>) | OtherLine

  function Classify(line: string): LineKind
  {
    if StartsWith(line, START_KEY) then StartLine(FieldValue(line))
    else if StartsWith(line, END_KEY) then EndLine(FieldValue(line))
    else OtherLine
  }

  function Kinds(lines: seq<string>): (ks: seq<LineKind>)
    ensures |ks| == |lines|
    ensures forall i :: 0 <= i < |lines| ==> ks[i] == Classify(lines[i])
  {
    seq(|lines|, i requires 0 <= i < |lines| => Classify(lines[i]))
  }

  /** One iteration of the loop body. */
  function ScanLine(t: Times, kind: LineKind): Scan
  {
    match kind
    case StartLine(v) => if v.Some? then Scanning(Times(v, t.end)) else Raised
    case EndLine(v) => if v.Some? then Scanning(Times(t.start, v)) else Raised
    case OtherLine => Scanning(t)
  }

  /** The loop over the lines of the file. */
  function ScanLines(kinds: seq<LineKind>): Scan
    decreases |kinds|
  {
    if kinds == [] then Scanning(Times(None, None))
    else
      match ScanLines(kinds[..|kinds| - 1])
      case Raised => Raised
      case Scanning(t) => ScanLine(t, kinds[|kinds| - 1])
  }

  /** `read_time_info`: `None` stands for `(None, None)`, which the source
      returns when the file cannot be read, a keyed line does not parse, or
      either key is missing. */
  function ReadTimeInfoSpec(file: Option<string>): Option<Span>
  {
    match file
    case None => None
    case Some(text) =>
      match ScanLines(Kinds(Lines(text)))
      case Raised => None
      case Scanning(t) => if t.start.Some? && t.end.Some? then Some(Span(t.start.value, t.end.value)) else None
  }

  predicate Unparsable(kind: LineKind)
  {
    !kind.OtherLine? && kind.value.None?
  }

  /** Index of the last line of the given kind (`wantStart`: a start line,
      otherwise an end line). */
  function LastOfKind(kinds: seq<LineKind>, wantStart: bool): (r: Option<nat>)
    ensures r.Some? ==> r.value < |kinds| && (if wantStart then kinds[r.value].StartLine? else kinds[r.value].EndLine?)
    decreases |kinds|
  {
    if kinds == [] then None
    else if (if wantStart then kinds[|kinds| - 1].StartLine? else kinds[|kinds| - 1].EndLine?) then Some(|kinds| - 1)
    else LastOfKind(kinds[..|kinds| - 1], wantStart)
  }

  /** The value a key ends up with: that of its last line, or none. */
  function FinalValue(kinds: seq<LineKind>, wantStart: bool): Option<int>
  {
    match LastOfKind(kinds, wantStart)
    case None => None
    case Some(j) => kinds[j].value
  }

  /** The loop raises exactly when some keyed line does not parse; otherwise
      each key holds the value of the last line carrying it, and all other
      lines are ignored. */
  lemma {:induction false} ScanLinesReference(kinds: seq<LineKind>)
    ensures ScanLines(kinds).Raised? <==> exists j :: 0 <= j < |kinds| && Unparsable(kinds[j])
    ensures ScanLines(kinds).Scanning? ==>
              ScanLines(kinds).times == Times(FinalValue(kinds, true), FinalValue(kinds, false))
    decreases |kinds|
  {
    if kinds != [] {
      var init := kinds[..|kinds| - 1];
      ScanLinesReference(init);
      assert forall j :: 0 <= j < |init| ==> init[j] == kinds[j];
      if ScanLines(init).Raised? {
        var j :| 0 <= j < |init| && Unparsable(init[j]);
        assert Unparsable(kinds[j]);
      }
    }
  }

  /** Lines carrying neither key can be dropped from anywhere in the file. */
  lemma {:induction false} OtherLineIgnored(a: seq<LineKind>, b: seq<LineKind>)
    ensures ScanLines(a + [OtherLine] + b) == ScanLines(a + b)
    decreases |b|
  {
    if b == [] {
      assert a + [OtherLine] + b == a + [OtherLine];
      assert (a + [OtherLine])[..|a|] == a;
      assert a + b == a;
    } else {
      var b' := b[..|b| - 1];
      OtherLineIgnored(a, b');
      assert (a + [OtherLine] + b)[..|a + [OtherLine] + b| - 1] == a + [OtherLine] + b';
      assert (a + b)[..|a + b| - 1] == a + b';
    }
  }

  /** A later start line overwrites an earlier one. */
  lemma LaterLineWins(kinds: seq<LineKind>, v: int)
    requires ScanLines(kinds).Scanning?
    ensures ScanLines(kinds + [StartLine(Some(v))]) == Scanning(Times(Some(v), ScanLines(kinds).times.end))
    ensures ScanLines(kinds + [EndLine(Some(v))]) == Scanning(Times(ScanLines(kinds).times.start, Some(v)))
  {
    assert (kinds + [StartLine(Some(v))])[..|kinds|] == kinds;
    assert (kinds + [EndLine(Some(v))])[..|kinds|] == kinds;
  }

  /** Once raised, the exception ends the loop: later lines cannot undo it. */
  lemma {:induction false} RaisedAbsorbs(kinds: seq<LineKind>, k: nat)
    requires k <= |kinds| && ScanLines(kinds[..k]).Raised?
    ensures ScanLines(kinds).Raised?
    decreases |kinds| - k
  {
    if k < |kinds| {
      assert kinds[..k + 1][..k] == kinds[..k];
      RaisedAbsorbs(kinds, k + 1);
    } else {
      assert kinds[..k] == kinds;
    }
  }

  /** `read_time_info(path)`, with the file's text (or `None` when it cannot
      be opened) as input. */
  method ReadTimeInfo(file: Option<string>) returns (span: Option<Span>)
    ensures span == ReadTimeInfoSpec(file)
  {
    if file.None? {
      return None;
    }
    var lines := Lines(file.value);
    ghost var kinds := Kinds(lines);
    var start: Option<int> := None;
    var end: Option<int> := None;
    for i := 0 to |lines|
      invariant ScanLines(kinds[..i]) == Scanning(Times(start, end))
    {
      var line := lines[i];
      assert kinds[..i + 1][..i] == kinds[..i];
      assert kinds[i] == Classify(line);
      if StartsWith(line, START_KEY) {
        var v := FieldValue(line);
        if v.None? {
          RaisedAbsorbs(kinds, i + 1);
          return None;
        }
        start := v;
      } else if StartsWith(line, END_KEY) {
        var v := FieldValue(line);
        if v.None? {
          RaisedAbsorbs(kinds, i + 1);
          return None;
        }
        end := v;
      }
    }
    assert kinds[..|lines|] == kinds;
    if start.None? || end.None? {
      return None;
    }
    return Some(Span(start.value, end.value));
  }

  /** Both times or neither: a span is returned only when the file has a
      line for each key, and then it holds the values of the last ones. */
  lemma ReadTimeInfoNeedsBothKeys(text: string)
    ensures var kinds := Kinds(Lines(text));
      ReadTimeInfoSpec(Some(text)).Some? <==>
        (forall j :: 0 <= j < |kinds| ==> !Unparsable(kinds[j]))
        && FinalValue(kinds, true).Some? && FinalValue(kinds, false).Some?
    ensures ReadTimeInfoSpec(Some(text)).Some? ==>
              ReadTimeInfoSpec(Some(text)).value
              == Span(FinalValue(Kinds(Lines(text)), true).value, FinalValue(Kinds(Lines(text)), false).value)
  {
    ScanLinesReference(Kinds(Lines(text)));
  }

  // ------------------------------------- reading back what process_video wrote

  /** `key: value\n` read back through `line.split(":")[1].strip()`. */
  lemma FieldValueOfLine(key: string, value: string)
    requires ':' !in key && ':' !in value && '\n' !in value
    requires value != [] && !IsSpace(value[0]) && !IsSpace(value[|value| - 1])
    ensures FieldValue(key + ": " + value + "\n") == ParseSeconds(value)
  {
    var rest := " " + value + "\n";
    assert AllSpace(" ") && AllSpace("\n");
    StripPadded(" ", value, "\n");
    assert key + ": " + value + "\n" == key + [':'] + rest;
    FieldValueOfParts(key, rest, value);
  }

  lemma FieldValueOfParts(key: string, rest: string, value: string)
    requires ':' !in key && ':' !in rest && Strip(rest) == value
    ensures FieldValue(key + [':'] + rest) == ParseSeconds(value)
  {
    SplitCons(key, rest, ':');
    SplitNone(rest, ':');
  }

  /** A line `key: value\n` whose key differs from both keys at position
      `i` is ignored. */
  lemma OtherLineOf(key: string, value: string, i: nat)
    requires i < |key| && i < |END_KEY|
    requires key[i] != START_KEY[i] && key[i] != END_KEY[i]
    ensures Classify(key + ": " + value + "\n") == OtherLine
  {
    var line := key + ": " + value + "\n";
    assert line[i] == key[i];
  }

  /** A line `key: value\n` whose key, with its colon, is `lineKey`. */
  lemma KeyedLine(key: string, value: string, lineKey: string)
    requires lineKey == key + ":"
    ensures StartsWith(key + ": " + value + "\n", lineKey)
  {
    assert key + ": " + value + "\n" == lineKey + (" " + value + "\n");
  }

  lemma StartLineOf(ms: nat)
    ensures Classify(Segmentation.TIME_INFO_KEYS[1] + ": " + Fixed3(ms) + "\n") == StartLine(Some(ms))
  {
    var key := Segmentation.TIME_INFO_KEYS[1];
    assert key == "start_time_seconds";
    KeyedLine(key, Fixed3(ms), START_KEY);
    Fixed3Shape(ms);
    FieldValueOfLine(key, Fixed3(ms));
    ParseFixed3(ms);
  }

  lemma EndLineOf(ms: nat)
    ensures Classify(Segmentation.TIME_INFO_KEYS[2] + ": " + Fixed3(ms) + "\n") == EndLine(Some(ms))
  {
    var key := Segmentation.TIME_INFO_KEYS[2];
    assert key == "end_time_seconds";
    var line := key + ": " + Fixed3(ms) + "\n";
    KeyedLine(key, Fixed3(ms), END_KEY);
    assert line[0] != START_KEY[0];
    Fixed3Shape(ms);
    FieldValueOfLine(key, Fixed3(ms));
    ParseFixed3(ms);
  }

  /** What `read_time_info` makes of each of the five lines: the start and
      end lines carry the set's times, the other three are ignored. */
  lemma TimeInfoLineKinds(info: Segmentation.TimeInfo)
    ensures |Kinds(Lines(Segmentation.TimeInfoText(info)))| == 5
    ensures Kinds(Lines(Segmentation.TimeInfoText(info)))[0] == OtherLine
    ensures Kinds(Lines(Segmentation.TimeInfoText(info)))[1] == StartLine(Some(info.startMs))
    ensures Kinds(Lines(Segmentation.TimeInfoText(info)))[2] == EndLine(Some(info.endMs))
    ensures Kinds(Lines(Segmentation.TimeInfoText(info)))[3] == OtherLine
    ensures Kinds(Lines(Segmentation.TimeInfoText(info)))[4] == OtherLine
  {
    RecordLineKinds(Segmentation.TIME_INFO_KEYS, Segmentation.TimeInfoValues(info), info);
    Segmentation.TimeInfoLines(info);
  }

  lemma RecordLineKinds(keys: seq<string>, values: seq<string>, info: Segmentation.TimeInfo)
    requires keys == Segmentation.TIME_INFO_KEYS && |values| == 5
    requires values[1] == Fixed3(info.startMs) && values[2] == Fixed3(info.endMs)
    ensures Classify(keys[0] + ": " + values[0] + "\n") == OtherLine
    ensures Classify(keys[1] + ": " + values[1] + "\n") == StartLine(Some(info.startMs))
    ensures Classify(keys[2] + ": " + values[2] + "\n") == EndLine(Some(info.endMs))
    ensures Classify(keys[3] + ": " + values[3] + "\n") == OtherLine
    ensures Classify(keys[4] + ": " + values[4] + "\n") == OtherLine
  {
    assert keys[0] == "set_number" && keys[3] == "start_time_formatted" && keys[4] == "end_time_formatted";
    OtherLineOf(keys[0], values[0], 1);
    OtherLineOf(keys[3], values[3], 11);
    OtherLineOf(keys[4], values[4], 9);
    StartLineOf(info.startMs);
    EndLineOf(info.endMs);
  }

  /** The loop over the five kinds of lines a record yields. */
  lemma ScanRecordKinds(kinds: seq<LineKind>, startMs: int, endMs: int)
    requires |kinds| == 5 && kinds[0] == OtherLine && kinds[1] == StartLine(Some(startMs))
    requires kinds[2] == EndLine(Some(endMs)) && kinds[3] == OtherLine && kinds[4] == OtherLine
    ensures ScanLines(kinds) == Scanning(Times(Some(startMs), Some(endMs)))
  {
    var k4, k3, k2, k1 := kinds[..4], kinds[..3], kinds[..2], kinds[..1];
    assert k4[..3] == k3 && k3[..2] == k2 && k2[..1] == k1 && k1[..0] == [];
    assert ScanLines(k1) == Scanning(Times(None, None));
    assert ScanLines(k2) == Scanning(Times(Some(startMs), None));
    assert ScanLines(k3) == Scanning(Times(Some(startMs), Some(endMs)));
    assert ScanLines(k4) == Scanning(Times(Some(startMs), Some(endMs)));
  }

  /** Round trip: `read_time_info` on a record `process_video` wrote gives
      back that set's start and end. */
  lemma ReadTimeInfoRoundTrip(info: Segmentation.TimeInfo)
    ensures ReadTimeInfoSpec(Some(Segmentation.TimeInfoText(info))) == Some(Span(info.startMs, info.endMs))
  {
    TimeInfoLineKinds(info);
    ScanRecordKinds(Kinds(Lines(Segmentation.TimeInfoText(info))), info.startMs, info.endMs);
  }

  // ------------------------------------------------- frame names and times

  /** `re.search(r"frame_(\d+)\.png$", path)` matching at position `i`:
      `frame_` at `i`, digits up to the final `.png`. */
  predicate FrameMatchAt(path: string, i: nat)
  {
    i + 6 < |path| - 4 && path[i..i + 6] == "frame_" && AllDigits(path[i + 6..|path| - 4])
    && path[|path| - 4..] == ".png"
  }

  /** `int(match.group(1))`, or `None` when the search finds no match. */
  function ParseFrameNumber(path: string): Option<nat>
  {
    if !EndsWith(path, ".png") then None
    else
      var stem := path[..|path| - 4];
      var digits := TrailingDigits(stem);
      if digits != [] && EndsWith(stem[..|stem| - |digits|], "frame_") then Some(ValueOf(digits)) else None
  }

  /** The parser agrees with the regular expression: whenever the search
      matches (there is then only one match), the parser reads the match's
      digit group ... */
  lemma ParseFrameNumberComplete(path: string)
    ensures forall i :: FrameMatchAt(path, i) ==> ParseFrameNumber(path) == Some(ValueOf(path[i + 6..|path| - 4]))
  {
    forall i | FrameMatchAt(path, i)
      ensures ParseFrameNumber(path) == Some(ValueOf(path[i + 6..|path| - 4]))
    {
      FrameMatched(path, i);
    }
  }

  /** ... and it reads a number only where the search matches. */
  lemma ParseFrameNumberSound(path: string)
    requires ParseFrameNumber(path).Some?
    ensures var i := |path| - 4 - |TrailingDigits(path[..|path| - 4])| - 6;
            i >= 0 && FrameMatchAt(path, i) && ParseFrameNumber(path).value == ValueOf(path[i + 6..|path| - 4])
  {
    var stem := path[..|path| - 4];
    var digits := TrailingDigits(stem);
    var i := |stem| - |digits| - 6;
    assert stem[..|stem| - |digits|][|stem| - |digits| - 6..] == path[i..i + 6];
    assert digits == path[i + 6..|path| - 4];
  }

  lemma FrameMatched(path: string, i: nat)
    requires FrameMatchAt(path, i)
    ensures ParseFrameNumber(path) == Some(ValueOf(path[i + 6..|path| - 4]))
  {
    var stem := path[..|path| - 4];
    assert stem[i + 5] == path[i..i + 6][5] == '_';
    assert stem[i + 6..] == path[i + 6..|path| - 4];
    TrailingDigitsAt(stem, i + 6);
    assert stem[..i + 6][i..] == path[i..i + 6];
  }

  lemma FrameNameParts(p: string, digits: string)
    requires digits != [] && AllDigits(digits)
    ensures ParseFrameNumber(p + "frame_" + digits + ".png") == Some(ValueOf(digits))
  {
    var path := p + "frame_" + digits + ".png";
    assert path[|p|..|p| + 6] == "frame_";
    assert path[|p| + 6..|path| - 4] == digits;
    assert path[|path| - 4..] == ".png";
    FrameMatched(path, |p|);
  }

  /** Round trip: a frame file written as `frame_%04d.png` under any
      folder reads back as its number. */
  lemma FrameNumberRoundTrip(prefix: string, n: nat)
    ensures ParseFrameNumber(prefix + ("frame_" + ZeroPad(n, 4) + ".png")) == Some(n)
  {
    var digits := ZeroPad(n, 4);
    ValueOfZeroPad(n, 4);
    FrameNameParts(prefix, digits);
    assert prefix + ("frame_" + digits + ".png") == prefix + "frame_" + digits + ".png";
  }

  /** The same for the path `os.path.join(folder, name)` builds. */
  lemma FrameNumberRoundTripJoined(folder: string, n: nat)
    ensures ParseFrameNumber(PathJoin(folder, "frame_" + ZeroPad(n, 4) + ".png")) == Some(n)
  {
    var name := "frame_" + ZeroPad(n, 4) + ".png";
    assert name[0] == 'f';
    if folder == [] || folder[|folder| - 1] == '/' {
      FrameNumberRoundTrip(folder, n);
    } else {
      FrameNumberRoundTrip(folder + "/", n);
      assert PathJoin(folder, name) == (folder + "/") + name;
    }
  }

  /** `set_start_time + (frame_num - 1) * frame_interval`: the first frame,
      `frame_0001.png`, is at the set's start. */
  function FrameTimestamp(frameNum: nat, span: Span, intervalMs: int): int
  {
    span.startMs + (frameNum - 1) * intervalMs
  }

  /** A frame the loop keeps: its path and its absolute time. */
  datatype KeptFrame = KeptFrame(path: string, timestampMs: int)

  /** What the loop body does with one frame path: skip it when the name
      does not match or the time is past the end plus the 0.1 s slack. */
  function KeepFrame(path: string, span: Span, intervalMs: int): Option<KeptFrame>
  {
    match ParseFrameNumber(path)
    case None => None
    case Some(n) =>
      var ts := FrameTimestamp(n, span, intervalMs);
      if ts > span.endMs + 100 then None else Some(KeptFrame(path, ts))
  }

  function FrameEntry(span: Span, intervalMs: int): string -> Option<KeptFrame>
  {
    path => KeepFrame(path, span, intervalMs)
  }

  /** The kept frames, in the order of the frame listing. */
  function KeptFrames(files: seq<string>, span: Span, intervalMs: int): seq<KeptFrame>
  {
    FilterMap(files, FrameEntry(span, intervalMs))
  }

  lemma KeptFramesStep(files: seq<string>, i: nat, span: Span, intervalMs: int)
    requires i < |files|
    ensures KeptFrames(files[..i + 1], span, intervalMs)
            == KeptFrames(files[..i], span, intervalMs)
               + (match KeepFrame(files[i], span, intervalMs) case Some(k) => [k] case None => [])
  {
    FilterMapStep(files, i, FrameEntry(span, intervalMs));
  }

  /** The loop keeps, in listing order, exactly the frames whose name
      matches and whose time is at most 0.1 s past the end, each with the
      time `FrameTimestamp` gives its number. */
  lemma KeptFramesReference(files: seq<string>, span: Span, intervalMs: int)
    ensures var hs := Hits(files, FrameEntry(span, intervalMs));
      var kept := KeptFrames(files, span, intervalMs);
      |hs| == |kept| && Increasing(hs)
      && (forall k :: 0 <= k < |hs| ==>
            hs[k] < |files| && ParseFrameNumber(files[hs[k]]).Some?
            && kept[k] == KeptFrame(files[hs[k]], FrameTimestamp(ParseFrameNumber(files[hs[k]]).value, span, intervalMs))
            && kept[k].timestampMs <= span.endMs + 100)
      && (forall i :: (0 <= i < |files| && ParseFrameNumber(files[i]).Some?
            && FrameTimestamp(ParseFrameNumber(files[i]).value, span, intervalMs) <= span.endMs + 100)
            ==> i in hs)
  {
    FilterMapHits(files, FrameEntry(span, intervalMs));
  }

  /** Frame times grow with the frame number; `frame_0001.png` is at the
      start, and a `frame_0000.png` would be placed one interval before it. */
  lemma FrameTimestampOrder(a: nat, b: nat, span: Span, intervalMs: int)
    requires a <= b && intervalMs >= 0
    ensures FrameTimestamp(a, span, intervalMs) <= FrameTimestamp(b, span, intervalMs)
    ensures FrameTimestamp(1, span, intervalMs) == span.startMs
    ensures FrameTimestamp(0, span, intervalMs) == span.startMs - intervalMs
  {
    MulMonotoneInt(a - 1, b - 1, intervalMs);
  }

  lemma MulMonotoneInt(x: int, y: int, c: int)
    requires x <= y && c >= 0
    ensures x * c <= y * c
  {
    assert y * c - x * c == (y - x) * c;
  }

  // ------------------------------------------------------ process_set_folder

  /** The calls made to the two capabilities, in order. */
  datatype Call = Transcribe(audioPath: string) | Caption(framePath: string)

  /** A `set_*` entry as `process_set_folder` sees it: whether it is a
      folder, the text of its `time_info.txt` (`None` if unreadable), whether
      `audio.mp3` exists, its `frame_*.png` listing in sorted order, and
      whether `data.json` can be written. */
  datatype SetFolder = SetFolder(
    path: string,
    isDir: bool,
    timeInfo: Option<string>,
    hasAudio: bool,
    frameFiles: seq<string>,
    dataWritable: bool)

  datatype SetOutcome = SetOutcome(data: Option<SetData>, calls: seq<Call>)

  function AudioPath(folder: SetFolder): string
  {
    PathJoin(folder.path, "audio.mp3")
  }

  function Captioned(kept: seq<KeptFrame>, caption: string -> string): (vs: seq<Visual>)
    ensures |vs| == |kept|
    ensures forall k :: 0 <= k < |kept| ==> vs[k] == Visual(kept[k].timestampMs, caption(kept[k].path))
  {
    seq(|kept|, k requires 0 <= k < |kept| => Visual(kept[k].timestampMs, caption(kept[k].path)))
  }

  function CaptionCalls(kept: seq<KeptFrame>): (cs: seq<Call>)
    ensures |cs| == |kept|
    ensures forall k :: 0 <= k < |kept| ==> cs[k] == Caption(kept[k].path)
  {
    seq(|kept|, k requires 0 <= k < |kept| => Caption(kept[k].path))
  }

  /** `process_set_folder`: the record it returns (`None` on a skip or a
      failed write) and the capability calls it makes. */
  function DescribeSet(folder: SetFolder, intervalMs: int, transcribe: string -> string,
                       caption: string -> string): SetOutcome
  {
    match ReadTimeInfoSpec(folder.timeInfo)
    case None => SetOutcome(None, [])
    case Some(span) =>
      if !folder.hasAudio then SetOutcome(None, [])
      else
        var kept := KeptFrames(folder.frameFiles, span, intervalMs);
        var data := SetData(span.startMs, span.endMs, transcribe(AudioPath(folder)), Captioned(kept, caption));
        SetOutcome(if folder.dataWritable then Some(data) else None,
                   [Transcribe(AudioPath(folder))] + CaptionCalls(kept))
  }

  /** The skip rules: without a readable time record, or without audio, the
      set yields nothing and nothing is transcribed or captioned. Otherwise
      the audio is transcribed first, exactly once, then each kept frame is
      captioned exactly once, in listing order; the record holds the
      transcript and one visual per captioned frame with that caption, and
      is returned exactly when `data.json` can be written. */
  lemma DescribeSetCalls(folder: SetFolder, intervalMs: int, transcribe: string -> string,
                         caption: string -> string)
    ensures var out := DescribeSet(folder, intervalMs, transcribe, caption);
      ReadTimeInfoSpec(folder.timeInfo).None? || !folder.hasAudio ==> out.data.None? && out.calls == []
    ensures var out := DescribeSet(folder, intervalMs, transcribe, caption);
      ReadTimeInfoSpec(folder.timeInfo).Some? && folder.hasAudio ==>
        var span := ReadTimeInfoSpec(folder.timeInfo).value;
        var kept := KeptFrames(folder.frameFiles, span, intervalMs);
        |out.calls| == 1 + |kept| && out.calls[0] == Transcribe(AudioPath(folder))
        && (out.data.Some? <==> folder.dataWritable)
        && (forall k :: 1 <= k < |out.calls| ==> out.calls[k].Caption?)
        && (forall k :: 0 <= k < |kept| ==> out.calls[k + 1] == Caption(kept[k].path))
        && (out.data.Some? ==>
              out.data.value.startMs == span.startMs && out.data.value.endMs == span.endMs
              && out.data.value.transcript == transcribe(AudioPath(folder))
              && |out.data.value.visuals| == |kept|
              && forall k :: 0 <= k < |kept| ==>
                   out.data.value.visuals[k] == Visual(kept[k].timestampMs, caption(kept[k].path)))
  {
    var spec := ReadTimeInfoSpec(folder.timeInfo);
    var out := DescribeSet(folder, intervalMs, transcribe, caption);
    if spec.Some? && folder.hasAudio {
      var span := spec.value;
      var kept := KeptFrames(folder.frameFiles, span, intervalMs);
      var calls := [Transcribe(AudioPath(folder))] + CaptionCalls(kept);
      assert out.calls == calls;
      forall k | 0 <= k < |kept|
        ensures calls[k + 1] == Caption(kept[k].path)
      {
        assert calls[k + 1] == CaptionCalls(kept)[k];
      }
    }
  }

  lemma CaptionedSnoc(kept: seq<KeptFrame>, x: KeptFrame, caption: string -> string)
    ensures Captioned(kept + [x], caption) == Captioned(kept, caption) + [Visual(x.timestampMs, caption(x.path))]
    ensures CaptionCalls(kept + [x]) == CaptionCalls(kept) + [Caption(x.path)]
  {
    assert Captioned(kept + [x], caption)[..|kept|] == Captioned(kept, caption);
    assert CaptionCalls(kept + [x])[..|kept|] == CaptionCalls(kept);
  }

  /** The frame loop of `process_set_folder` (lines 60-84): the visuals it
      builds and the captioning calls it makes. */
  method CaptionFrames(files: seq<string>, span: Span, intervalMs: int, caption: string -> string)
    returns (visuals: seq<Visual>, calls: seq<Call>)
    ensures visuals == Captioned(KeptFrames(files, span, intervalMs), caption)
    ensures calls == CaptionCalls(KeptFrames(files, span, intervalMs))
  {
    visuals, calls := [], [];
    ghost var kept: seq<KeptFrame> := [];
    for i := 0 to |files|
      invariant kept == KeptFrames(files[..i], span, intervalMs)
      invariant visuals == Captioned(kept, caption)
      invariant calls == CaptionCalls(kept)
    {
      var framePath := files[i];
      KeptFramesStep(files, i, span, intervalMs);
      var frameNum := ParseFrameNumber(framePath);
      if frameNum.None? {
        assert KeepFrame(framePath, span, intervalMs) == None;
        assert kept == KeptFrames(files[..i + 1], span, intervalMs);
        continue;
      }
      var frameTimestamp := FrameTimestamp(frameNum.value, span, intervalMs);
      if frameTimestamp > span.endMs + 100 {
        assert KeepFrame(framePath, span, intervalMs) == None;
        assert kept == KeptFrames(files[..i + 1], span, intervalMs);
        continue;
      }
      var captionText := caption(framePath);
      assert KeepFrame(framePath, span, intervalMs) == Some(KeptFrame(framePath, frameTimestamp));
      CaptionedSnoc(kept, KeptFrame(framePath, frameTimestamp), caption);
      visuals := visuals + [Visual(frameTimestamp, captionText)];
      calls := calls + [Caption(framePath)];
      kept := kept + [KeptFrame(framePath, frameTimestamp)];
    }
    TakeAll(files);
  }

  /** `process_set_folder(set_folder_path, frame_interval, ...)`. */
  method ProcessSetFolder(folder: SetFolder, intervalMs: int, transcribe: string -> string,
                          caption: string -> string)
    returns (data: Option<SetData>, calls: seq<Call>)
    ensures SetOutcome(data, calls) == DescribeSet(folder, intervalMs, transcribe, caption)
  {
    var span := ReadTimeInfo(folder.timeInfo);
    if span.None? {
      return None, [];
    }
    if !folder.hasAudio {
      return None, [];
    }
    var audioFile := PathJoin(folder.path, "audio.mp3");
    var transcriptText := transcribe(audioFile);
    var visuals, captionCalls := CaptionFrames(folder.frameFiles, span.value, intervalMs, caption);
    calls := [Transcribe(audioFile)] + captionCalls;
    var finalData := SetData(span.value.startMs, span.value.endMs, transcriptText, visuals);
    if !folder.dataWritable {
      return None, calls;
    }
    return Some(finalData), calls;
  }

  // -------------------------------------------------------- process_all_sets

  function SetDataOf(intervalMs: int, transcribe: string -> string, caption: string -> string)
    : SetFolder -> Option<SetData>
  {
    (folder: SetFolder) => if folder.isDir then DescribeSet(folder, intervalMs, transcribe, caption).data else None
  }

  function SetCallsOf(intervalMs: int, transcribe: string -> string, caption: string -> string)
    : SetFolder -> seq<Call>
  {
    (folder: SetFolder) => if folder.isDir then DescribeSet(folder, intervalMs, transcribe, caption).calls else []
  }

  /** `process_all_sets(sets_base_folder, frame_interval, ...)` with the
      base folder's existence and its sorted `set_*` listing as inputs. */
  method ProcessAllSets(baseIsDir: bool, entries: seq<SetFolder>, intervalMs: int,
                        transcribe: string -> string, caption: string -> string)
    returns (allData: seq<SetData>, calls: seq<Call>)
    ensures !baseIsDir ==> allData == [] && calls == []
    ensures baseIsDir ==>
              allData == FilterMap(entries, SetDataOf(intervalMs, transcribe, caption))
              && calls == FlatMap(entries, SetCallsOf(intervalMs, transcribe, caption))
  {
    if !baseIsDir {
      return [], [];
    }
    if entries == [] {
      return [], [];
    }
    allData, calls := [], [];
    for i := 0 to |entries|
      invariant allData == FilterMap(entries[..i], SetDataOf(intervalMs, transcribe, caption))
      invariant calls == FlatMap(entries[..i], SetCallsOf(intervalMs, transcribe, caption))
    {
      var folder := entries[i];
      FilterMapStep(entries, i, SetDataOf(intervalMs, transcribe, caption));
      FlatMapStep(entries, i, SetCallsOf(intervalMs, transcribe, caption));
      if folder.isDir {
        var data, setCalls := ProcessSetFolder(folder, intervalMs, transcribe, caption);
        calls := calls + setCalls;
        if data.Some? {
          allData := allData + [data.value];
        }
      }
    }
    TakeAll(entries);
  }

  /** The collected records are those of the folders that yielded one, in
      sorted folder order, and no more than there are entries; every folder
      that yields a record is represented. */
  lemma AllSetsReference(entries: seq<SetFolder>, intervalMs: int, transcribe: string -> string,
                         caption: string -> string)
    ensures var f := SetDataOf(intervalMs, transcribe, caption);
      var all := FilterMap(entries, f);
      var hs := Hits(entries, f);
      |all| <= |entries| && |hs| == |all| && Increasing(hs)
      && (forall k :: 0 <= k < |hs| ==>
            hs[k] < |entries| && entries[hs[k]].isDir
            && DescribeSet(entries[hs[k]], intervalMs, transcribe, caption).data == Some(all[k]))
      && (forall i :: (0 <= i < |entries| && entries[i].isDir
            && DescribeSet(entries[i], intervalMs, transcribe, caption).data.Some?) ==> i in hs)
  {
    FilterMapHits(entries, SetDataOf(intervalMs, transcribe, caption));
  }

  /** An entry that is not a folder is passed over: dropping it changes
      neither the records nor the calls. */
  lemma NonFolderIgnored(a: seq<SetFolder>, e: SetFolder, b: seq<SetFolder>, intervalMs: int,
                         transcribe: string -> string, caption: string -> string)
    requires !e.isDir
    ensures FilterMap(a + [e] + b, SetDataOf(intervalMs, transcribe, caption))
            == FilterMap(a + b, SetDataOf(intervalMs, transcribe, caption))
    ensures FlatMap(a + [e] + b, SetCallsOf(intervalMs, transcribe, caption))
            == FlatMap(a + b, SetCallsOf(intervalMs, transcribe, caption))
  {
    FilterMapSkip(a, e, b, SetDataOf(intervalMs, transcribe, caption));
    FlatMapSkip(a, e, b, SetCallsOf(intervalMs, transcribe, caption));
  }
}
