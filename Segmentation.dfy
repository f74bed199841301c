/** Splitting a video into fixed-length sets (`process_video`) and the
    clock format of `format_time`. The ffprobe and ffmpeg processes are not
    modelled: the probed duration is a parameter, and each ffmpeg command's
    success is read from an oracle and recorded, never acted upon. */
module Segmentation {
  import opened Base
  import opened Text
  import opened Numerals

  // ------------------------------------------------------------- the sets

  /** Every set before the last starts strictly inside the video. */
  lemma SetStartInside(i: nat, d: nat, l: nat)
    requires l > 0 && i < CeilDiv(d, l)
    ensures i * l < d
  {
    CeilDivIsCeiling(d, l);
    var n := CeilDiv(d, l);
    assert i <= n - 1;
    MulMonotone(i, n - 1, l);
  }

  lemma MulMonotone(a: nat, b: nat, l: nat)
    requires a <= b
    ensures a * l <= b * l
  {
  }

  /** `start_time = i * chunk_duration`. */
  function SetStart(i: nat, l: nat): nat
  {
    i * l
  }

  /** `current_chunk_duration = min(chunk_duration, total_duration - start_time)`:
      positive and at most the nominal length. */
  function SetLength(i: nat, d: nat, l: nat): (len: nat)
    requires l > 0 && i < CeilDiv(d, l)
    ensures 0 < len <= l
  {
    SetStartInside(i, d, l);
    if l < d - i * l then l else d - i * l
  }

  function SetEnd(i: nat, d: nat, l: nat): nat
    requires l > 0 && i < CeilDiv(d, l)
  {
    SetStart(i, l) + SetLength(i, d, l)
  }

  /** Consecutive sets touch: each set ends where the next starts. */
  lemma SetsContiguous(i: nat, d: nat, l: nat)
    requires l > 0 && i + 1 < CeilDiv(d, l)
    ensures SetEnd(i, d, l) == SetStart(i + 1, l)
  {
    SetStartInside(i + 1, d, l);
    assert (i + 1) * l == i * l + l;
  }

  /** The last set ends exactly at the end of the video and is
      `d - l * (n - 1)` long. */
  lemma LastSetEndsAtDuration(d: nat, l: nat)
    requires l > 0 && CeilDiv(d, l) > 0
    ensures SetEnd(CeilDiv(d, l) - 1, d, l) == d
    ensures SetLength(CeilDiv(d, l) - 1, d, l) == d - l * (CeilDiv(d, l) - 1)
  {
    var n := CeilDiv(d, l);
    CeilDivIsCeiling(d, l);
    assert n * l == (n - 1) * l + l;
  }

  /** The sets lie inside the video: start before `d`, end no later than `d`. */
  lemma SetInsideVideo(i: nat, d: nat, l: nat)
    requires l > 0 && i < CeilDiv(d, l)
    ensures SetStart(i, l) < SetEnd(i, d, l) <= d
  {
    SetStartInside(i, d, l);
  }

  /** A 40-second video cut every 15 seconds gives [0,15), [15,30), [30,40). */
  lemma FortySecondsInFifteenSecondSets()
    ensures CeilDiv(40000, 15000) == 3
    ensures SetStart(0, 15000) == 0 && SetEnd(0, 40000, 15000) == 15000
    ensures SetStart(1, 15000) == 15000 && SetEnd(1, 40000, 15000) == 30000
    ensures SetStart(2, 15000) == 30000 && SetEnd(2, 40000, 15000) == 40000
    ensures SetLength(2, 40000, 15000) == 10000
  {
  }

  // ------------------------------------------------------------ set names

  /** `f"set_{set_number:03d}"`. */
  function SetName(number: nat): string
  {
    "set_" + ZeroPad(number, 3)
  }

  lemma SetNameInjective(a: nat, b: nat)
    requires SetName(a) == SetName(b)
    ensures a == b
  {
    assert SetName(a)[4..] == ZeroPad(a, 3);
    assert SetName(b)[4..] == ZeroPad(b, 3);
    ZeroPadInjective(a, b, 3);
  }

  lemma ZeroPadThreeDigits(a: nat)
    requires a < 1000
    ensures ZeroPad(a, 3) == [DigitChar(a / 100), DigitChar((a / 10) % 10), DigitChar(a % 10)]
  {
    if a < 10 {
      assert Decimal(a) == [DigitChar(a)];
    } else if a < 100 {
      assert Decimal(a) == [DigitChar(a / 10)] + [DigitChar(a % 10)];
    } else {
      assert Decimal(a / 10) == [DigitChar(a / 100)] + [DigitChar((a / 10) % 10)];
    }
  }

  lemma LexLessCommonPrefix(p: string, x: string, y: string)
    ensures LexLess(p + x, p + y) == LexLess(x, y)
    decreases |p|
  {
    if p != [] {
      assert (p + x)[1..] == p[1..] + x;
      assert (p + y)[1..] == p[1..] + y;
      LexLessCommonPrefix(p[1..], x, y);
    } else {
      assert p + x == x && p + y == y;
    }
  }

  lemma DigitCharOrder(x: nat, y: nat)
    requires x < 10 && y < 10
    ensures DigitChar(x) < DigitChar(y) <==> x < y
    ensures DigitChar(x) == DigitChar(y) <==> x == y
  {
  }

  /** Three-digit zero-padded numerals sort in numeric order. */
  lemma ZeroPadThreeOrder(a: nat, b: nat)
    requires a < b < 1000
    ensures LexLess(ZeroPad(a, 3), ZeroPad(b, 3))
  {
    ZeroPadThreeDigits(a);
    ZeroPadThreeDigits(b);
    var a0, a1, a2 := a / 100, (a / 10) % 10, a % 10;
    var b0, b1, b2 := b / 100, (b / 10) % 10, b % 10;
    ThreeDigitOrder(a, b);
    DigitCharOrder(a0, b0);
    DigitCharOrder(a1, b1);
    DigitCharOrder(a2, b2);
    LexLessThree(DigitChar(a0), DigitChar(a1), DigitChar(a2), DigitChar(b0), DigitChar(b1), DigitChar(b2));
  }

  lemma ThreeDigitOrder(a: nat, b: nat)
    requires a < b < 1000
    ensures var a0, a1, a2 := a / 100, (a / 10) % 10, a % 10;
            var b0, b1, b2 := b / 100, (b / 10) % 10, b % 10;
            a0 < b0 || (a0 == b0 && a1 < b1) || (a0 == b0 && a1 == b1 && a2 < b2)
  {
    var a0, a1, a2 := a / 100, (a / 10) % 10, a % 10;
    var b0, b1, b2 := b / 100, (b / 10) % 10, b % 10;
    assert a == 100 * a0 + 10 * a1 + a2;
    assert b == 100 * b0 + 10 * b1 + b2;
  }

  lemma LexLessThree(x0: char, x1: char, x2: char, y0: char, y1: char, y2: char)
    requires x0 < y0 || (x0 == y0 && x1 < y1) || (x0 == y0 && x1 == y1 && x2 < y2)
    ensures LexLess([x0, x1, x2], [y0, y1, y2])
  {
    assert [x0, x1, x2][1..] == [x1, x2] && [y0, y1, y2][1..] == [y1, y2];
    assert [x1, x2][1..] == [x2] && [y1, y2][1..] == [y2];
    assert [x2][1..] == [] && [y2][1..] == [];
  }

  /** Sorting the set folders by name (as `sorted(glob(...))` does) puts them
      in time order, as long as there are at most 999 sets. */
  lemma SetNamesSortInOrder(a: nat, b: nat)
    requires 1 <= a < b <= 999
    ensures LexLess(SetName(a), SetName(b))
  {
    ZeroPadThreeOrder(a, b);
    LexLessCommonPrefix("set_", ZeroPad(a, 3), ZeroPad(b, 3));
  }

  /** With a thousandth set the zero padding runs out: `set_1000` sorts
      before `set_999`. */
  lemma SetNameOrderBreaksAtOneThousand()
    ensures LexLess(SetName(1000), SetName(999))
  {
    assert Decimal(1000) == "1000" by {
      assert Decimal(1) == "1";
      assert Decimal(10) == "10";
      assert Decimal(100) == "100";
    }
    assert ZeroPad(1000, 3) == "1000";
    ZeroPadThreeDigits(999);
    LexLessCommonPrefix("set_", "1000", ZeroPad(999, 3));
  }

  // ----------------------------------------------------------- clock text

  /** `format_time`: `HH:MM:SS.mmm`, hours at least two digits. */
  function FormatTime(ms: nat): string
  {
    var sec := ms % 60000;
    Clock(ms / 3600000, (ms % 3600000) / 60000, sec / 1000, sec % 1000)
  }

  /** `f"{h:02d}:{m:02d}:{s:02d}.{f:03d}"`. */
  function Clock(h: nat, m: nat, s: nat, f: nat): string
  {
    ZeroPad(h, 2) + ":" + ZeroPad(m, 2) + ":" + ZeroPad(s, 2) + "." + ZeroPad(f, 3)
  }

  /** Reads `H:MM:SS.mmm` back into milliseconds (the reference the clock
      text is checked against). */
  function ParseClock(s: string): Option<nat>
  {
    var parts := Split(s, ':');
    if |parts| == 3 && |parts[0]| > 0 && AllDigits(parts[0]) && |parts[1]| > 0 && AllDigits(parts[1]) then
      match ParseSeconds(parts[2])
      case Some(v) => if v >= 0 then Some(ClockMillis(ValueOf(parts[0]), ValueOf(parts[1]), v)) else None
      case None => None
    else None
  }

  /** The milliseconds `h` hours, `m` minutes and `v` milliseconds make. */
  function ClockMillis(h: nat, m: nat, v: nat): nat
  {
    h * 3600000 + m * 60000 + v
  }

  /** The hour, minute, second and millisecond fields `format_time` takes
      apart add up to the time again, and minutes and seconds stay below 60. */
  lemma ClockArithmetic(ms: nat)
    ensures (ms / 3600000) * 3600000 + ((ms % 3600000) / 60000) * 60000
            + ((ms % 60000) / 1000) * 1000 + (ms % 60000) % 1000 == ms
    ensures (ms % 3600000) / 60000 < 60 && (ms % 60000) / 1000 < 60
  {
    var h, a := ms / 3600000, ms % 3600000;
    var m, b := a / 60000, a % 60000;
    assert ms == 3600000 * h + a;
    assert a == 60000 * m + b;
    assert ms == 60000 * (60 * h + m) + b;
    assert ms % 60000 == b;
  }

  lemma SplitThree(a: string, b: string, c: string)
    requires ':' !in a && ':' !in b && ':' !in c
    ensures Split(a + ":" + b + ":" + c, ':') == [a, b, c]
  {
    assert a + ":" + b + ":" + c == a + [':'] + (b + [':'] + c);
    SplitCons(a, b + [':'] + c, ':');
    SplitCons(b, c, ':');
    SplitNone(c, ':');
  }

  /** Reading back clock text made of digit fields. */
  lemma ParseClockFields(hh: string, mm: string, ss: string, ff: string, h: nat, m: nat, v: nat)
    requires AllDigits(hh) && AllDigits(mm) && AllDigits(ss) && AllDigits(ff)
    requires |hh| > 0 && |mm| > 0 && |ss| > 0 && |ff| <= 3
    requires ValueOf(hh) == h && ValueOf(mm) == m && Millis(ss, ff) == v
    ensures ParseClock(hh + ":" + mm + ":" + ss + "." + ff) == Some(ClockMillis(h, m, v))
  {
    DigitsHaveNoPoint(hh);
    DigitsHaveNoPoint(mm);
    DigitsHaveNoPoint(ss);
    DigitsHaveNoPoint(ff);
    var secText := ss + "." + ff;
    var t := hh + ":" + mm + ":" + ss + "." + ff;
    assert t == hh + ":" + mm + ":" + secText;
    SplitThree(hh, mm, secText);
    ParseUnsignedParts(ss, ff);
    assert IsDigit(ss[0]) && secText[0] == ss[0];
    ParseSecondsUnsigned(secText);
    var parts := Split(t, ':');
    assert parts == [hh, mm, secText];
    assert ParseSeconds(parts[2]) == Some(Millis(ss, ff));
  }

  lemma ParseClockParts(h: nat, m: nat, s: nat, f: nat)
    requires f < 1000
    ensures ParseClock(Clock(h, m, s, f)) == Some(ClockMillis(h, m, s * 1000 + f))
  {
    var hh, mm, ss, ff := ZeroPad(h, 2), ZeroPad(m, 2), ZeroPad(s, 2), ZeroPad(f, 3);
    ValueOfZeroPad(h, 2);
    ValueOfZeroPad(m, 2);
    ValueOfZeroPad(s, 2);
    ValueOfZeroPad(f, 3);
    assert Pow10(3) == 1000;
    assert |ff| == 3;
    assert Pow10(3 - |ff|) == 1;
    assert Millis(ss, ff) == s * 1000 + f;
    ParseClockFields(hh, mm, ss, ff, h, m, s * 1000 + f);
  }

  /** The clock text denotes the time it was made from, so nothing is lost
      in the rendering. */
  lemma FormatTimeRoundTrip(ms: nat)
    ensures ParseClock(FormatTime(ms)) == Some(ms)
  {
    var sec := ms % 60000;
    var h, m, s, f := ms / 3600000, (ms % 3600000) / 60000, sec / 1000, sec % 1000;
    ClockArithmetic(ms);
    assert ClockMillis(h, m, s * 1000 + f) == ms;
    ParseClockParts(h, m, s, f);
  }

  /** Below 100 hours the clock text is exactly `HH:MM:SS.mmm`, 12 characters. */
  lemma FormatTimeWidth(ms: nat)
    requires ms < 360000000
    ensures |FormatTime(ms)| == 12
  {
    ClockArithmetic(ms);
    var sec := ms % 60000;
    ClockWidth(ms / 3600000, (ms % 3600000) / 60000, sec / 1000, sec % 1000);
  }

  lemma ClockWidth(h: nat, m: nat, s: nat, f: nat)
    requires h < 100 && m < 100 && s < 100 && f < 1000
    ensures |Clock(h, m, s, f)| == 12
  {
    assert Pow10(2) == 100 && Pow10(3) == 1000;
    ValueOfZeroPad(h, 2);
    ValueOfZeroPad(m, 2);
    ValueOfZeroPad(s, 2);
    ValueOfZeroPad(f, 3);
  }

  lemma FormatTimeHasNoNewline(ms: nat)
    ensures '\n' !in FormatTime(ms)
  {
    var sec := ms % 60000;
    ClockHasNoNewline(ms / 3600000, (ms % 3600000) / 60000, sec / 1000, sec % 1000);
  }

  lemma ClockHasNoNewline(h: nat, m: nat, s: nat, f: nat)
    ensures '\n' !in Clock(h, m, s, f)
  {
    ValueOfZeroPad(h, 2);
    ValueOfZeroPad(m, 2);
    ValueOfZeroPad(s, 2);
    ValueOfZeroPad(f, 3);
    DigitsHaveNoPoint(ZeroPad(h, 2));
    DigitsHaveNoPoint(ZeroPad(m, 2));
    DigitsHaveNoPoint(ZeroPad(s, 2));
    DigitsHaveNoPoint(ZeroPad(f, 3));
  }

  // ------------------------------------------------------ time_info.txt

  const TIME_INFO_KEYS: seq<string> :=
    ["set_number", "start_time_seconds", "end_time_seconds", "start_time_formatted", "end_time_formatted"]

  /** What a set's `time_info.txt` records. */
  datatype TimeInfo = TimeInfo(setNumber: nat, startMs: nat, endMs: nat)

  /** The five values, in the order they are written. */
  function TimeInfoValues(info: TimeInfo): (vs: seq<string>)
    ensures |vs| == |TIME_INFO_KEYS|
  {
    [Decimal(info.setNumber), Fixed3(info.startMs), Fixed3(info.endMs), FormatTime(info.startMs), FormatTime(info.endMs)]
  }

  /** `key: value` for each key and its value. */
  function Fields(keys: seq<string>, values: seq<string>): (fs: seq<string>)
    requires |keys| == |values|
    ensures |fs| == |keys|
    decreases |keys|
  {
    if keys == [] then [] else [keys[0] + ": " + values[0]] + Fields(keys[1..], values[1..])
  }

  lemma {:induction false} FieldsAt(keys: seq<string>, values: seq<string>)
    requires |keys| == |values|
    ensures forall k :: 0 <= k < |keys| ==> Fields(keys, values)[k] == keys[k] + ": " + values[k]
    decreases |keys|
  {
    if keys != [] {
      FieldsAt(keys[1..], values[1..]);
    }
  }

  /** The lines of `time_info.txt`, before their newlines. */
  function TimeInfoFields(info: TimeInfo): seq<string>
  {
    Fields(TIME_INFO_KEYS, TimeInfoValues(info))
  }

  /** The text `process_video` writes to a set's `time_info.txt`. */
  function TimeInfoText(info: TimeInfo): string
  {
    Unlines(TimeInfoFields(info))
  }

  lemma TimeInfoValuesHaveNoNewline(info: TimeInfo)
    ensures forall k :: 0 <= k < 5 ==> '\n' !in TimeInfoValues(info)[k]
  {
    DigitsHaveNoPoint(Decimal(info.setNumber));
    Fixed3Shape(info.startMs);
    Fixed3Shape(info.endMs);
    FormatTimeHasNoNewline(info.startMs);
    FormatTimeHasNoNewline(info.endMs);
  }

  lemma TimeInfoKeysShape()
    ensures forall k :: 0 <= k < 5 ==> '\n' !in TIME_INFO_KEYS[k] && ':' !in TIME_INFO_KEYS[k]
  {
  }

  /** The record reads back, line by line, as exactly its five lines, line
      `k` being `key: value` for the `k`-th key (set_number,
      start_time_seconds, end_time_seconds, start_time_formatted,
      end_time_formatted) and its value. */
  lemma TimeInfoLines(info: TimeInfo)
    ensures |Lines(TimeInfoText(info))| == 5
    ensures forall k :: 0 <= k < 5 ==>
              Lines(TimeInfoText(info))[k] == TIME_INFO_KEYS[k] + ": " + TimeInfoValues(info)[k] + "\n"
  {
    var values := TimeInfoValues(info);
    TimeInfoValuesHaveNoNewline(info);
    TimeInfoKeysShape();
    FieldsAt(TIME_INFO_KEYS, values);
    var fields := TimeInfoFields(info);
    forall k | 0 <= k < 5 ensures '\n' !in fields[k] {
      NoNewlineInField(TIME_INFO_KEYS[k], values[k]);
    }
    LinesUnlines(fields);
  }

  lemma NoNewlineInField(key: string, value: string)
    requires '\n' !in key && '\n' !in value
    ensures '\n' !in key + ": " + value
  {
  }

  // ------------------------------------------------------- process_video

  /** One ffmpeg extraction: where it starts, how long it runs, and whether
      the process succeeded (a failure is only printed). */
  datatype Command = Command(startMs: nat, lengthMs: nat, succeeded: bool)

  /** Everything `process_video` leaves in one set folder. */
  datatype SetArtifact = SetArtifact(name: string, audio: Command, frames: Command, timeInfo: TimeInfo)

  datatype VideoOutcome =
    | VideoNotFound            // returned before creating anything
    | DurationUnknown          // ffprobe gave no duration: returned before creating anything
    | ZeroChunkLength          // ZeroDivisionError after the base folder is created
    | Segmented(sets: seq<SetArtifact>)

  /** Set `i` of a `d`-long video cut every `l`; `ffmpegOk(2i)` and
      `ffmpegOk(2i + 1)` say whether its audio and frame commands succeeded. */
  function SetArtifactAt(i: nat, d: nat, l: nat, ffmpegOk: nat -> bool): SetArtifact
    requires l > 0 && i < CeilDiv(d, l)
  {
    var start := SetStart(i, l);
    var len := SetLength(i, d, l);
    SetArtifact(
      SetName(i + 1),
      Command(start, len, ffmpegOk(2 * i)),
      Command(start, len, ffmpegOk(2 * i + 1)),
      TimeInfo(i + 1, start, start + len))
  }

  /** The first `n` sets of a `d`-long video cut every `l`. */
  function Segments(n: nat, d: nat, l: nat, ffmpegOk: nat -> bool): seq<SetArtifact>
    requires l > 0 && n <= CeilDiv(d, l)
  {
    if n == 0 then [] else Segments(n - 1, d, l, ffmpegOk) + [SetArtifactAt(n - 1, d, l, ffmpegOk)]
  }

  /** `Segments(n, ...)` holds exactly sets `0 .. n - 1`, each as `SetArtifactAt` describes. */
  lemma {:induction false} SegmentsAt(n: nat, d: nat, l: nat, ffmpegOk: nat -> bool)
    requires l > 0 && n <= CeilDiv(d, l)
    ensures |Segments(n, d, l, ffmpegOk)| == n
    ensures forall i :: 0 <= i < n ==> Segments(n, d, l, ffmpegOk)[i] == SetArtifactAt(i, d, l, ffmpegOk)
  {
    if n > 0 {
      SegmentsAt(n - 1, d, l, ffmpegOk);
    }
  }

  /** `process_video`: ceil(d / l) sets, set `i` as `SetArtifactAt` describes,
      whatever the ffmpeg commands did. */
  method ProcessVideo(videoExists: bool, durationMs: Option<nat>, chunkMs: nat, ffmpegOk: nat -> bool)
    returns (outcome: VideoOutcome)
    ensures !videoExists ==> outcome == VideoNotFound
    ensures videoExists && durationMs.None? ==> outcome == DurationUnknown
    ensures videoExists && durationMs.Some? && chunkMs == 0 ==> outcome == ZeroChunkLength
    ensures videoExists && durationMs.Some? && chunkMs > 0 ==>
              outcome == Segmented(Segments(CeilDiv(durationMs.value, chunkMs), durationMs.value, chunkMs, ffmpegOk))
  {
    if !videoExists {
      return VideoNotFound;
    }
    if durationMs.None? {
      return DurationUnknown;
    }
    var total := durationMs.value;
    if chunkMs == 0 {
      return ZeroChunkLength;
    }
    var numSets := (total + chunkMs - 1) / chunkMs;
    assert numSets == CeilDiv(total, chunkMs);
    var sets: seq<SetArtifact> := [];
    for i := 0 to numSets
      invariant sets == Segments(i, total, chunkMs, ffmpegOk)
    {
      var setNumber := i + 1;
      var startTime := i * chunkMs;
      SetStartInside(i, total, chunkMs);
      var currentLength := if chunkMs < total - startTime then chunkMs else total - startTime;
      var endTime := startTime + currentLength;
      var audio := Command(startTime, currentLength, ffmpegOk(2 * i));
      var frames := Command(startTime, currentLength, ffmpegOk(2 * i + 1));
      var info := TimeInfo(setNumber, startTime, endTime);
      var artifact := SetArtifact(SetName(setNumber), audio, frames, info);
      assert currentLength == SetLength(i, total, chunkMs);
      assert artifact == SetArtifactAt(i, total, chunkMs, ffmpegOk);
      sets := sets + [artifact];
    }
    return Segmented(sets);
  }

  /** What `process_video` leaves behind, per set: the `i`-th set is named
      `set_{i+1:03d}`, both its extractions cover its span, and its
      time_info.txt records that span. */
  lemma ProcessVideoSets(d: nat, l: nat, ffmpegOk: nat -> bool, i: nat)
    requires l > 0 && i < CeilDiv(d, l)
    ensures var sets := Segments(CeilDiv(d, l), d, l, ffmpegOk);
      |sets| == CeilDiv(d, l)
      && sets[i].name == SetName(i + 1)
      && sets[i].audio.startMs == sets[i].frames.startMs == SetStart(i, l)
      && sets[i].audio.lengthMs == sets[i].frames.lengthMs == SetLength(i, d, l)
      && sets[i].timeInfo == TimeInfo(i + 1, SetStart(i, l), SetEnd(i, d, l))
  {
    SegmentsAt(CeilDiv(d, l), d, l, ffmpegOk);
  }
}
