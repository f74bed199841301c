/** `extract_frames`: keep every `k`-th decoded frame of a video and save
    the kept ones as `frame_0000.jpg`, `frame_0001.jpg`, ... The decoder is
    the sequence of frames it yields (a read succeeds while frames remain);
    writing an image is recorded, not performed. */
module FrameSampling {
  import opened Base
  import opened Text
  import opened Numerals

  /** A saved image: its number (it is written to `SavedFramePath(folder,
      number)`) and the frame it holds. */
  datatype SavedFrame<F> = SavedFrame(number: nat, frame: F)

  datatype ExtractionStatus =
    | CouldNotOpen   // the capture did not open: returned before reading
    | IntervalZero   // `frame_count % 0` raised ZeroDivisionError on the first frame
    | Completed      // the loop ended on a failed read

  datatype FrameExtraction<F> = FrameExtraction(
    createdFolder: bool,      // the output folder did not exist and was made
    status: ExtractionStatus,
    framesRead: nat,          // successful reads
    saved: seq<SavedFrame<F>>)

  /** Python's `int(x)`: truncation toward zero. */
  function TruncToInt(x: real): (n: int)
    ensures Abs(n) as real <= (if x < 0.0 then -x else x) < Abs(n) as real + 1.0
    ensures x >= 0.0 ==> n >= 0
    ensures x <= 0.0 ==> n <= 0
  {
    if x >= 0.0 then x.Floor else -((-x).Floor)
  }

  /** An FPS reading of 0 stands for 30. */
  function EffectiveFps(fps: real): real
  {
    if fps == 0.0 then 30.0 else fps
  }

  /** `frame_interval = int(fps * interval)`, after the FPS correction. */
  function FrameStep(fps: real, interval: real): int
  {
    TruncToInt(EffectiveFps(fps) * interval)
  }

  /** A video that reports no FPS is sampled as a 30-FPS one. */
  lemma UnknownFpsIsThirty(interval: real)
    ensures FrameStep(0.0, interval) == FrameStep(30.0, interval)
    ensures interval >= 0.0 ==> FrameStep(0.0, interval) == (30.0 * interval).Floor
  {
  }

  /** `f"frame_{k:04d}.jpg"`. */
  function SavedFrameName(k: nat): string
  {
    "frame_" + ZeroPad(k, 4) + ".jpg"
  }

  /** `os.path.join(output_folder, f"frame_{k:04d}.jpg")`. */
  function SavedFramePath(folder: string, k: nat): string
  {
    PathJoin(folder, SavedFrameName(k))
  }

  lemma SavedFrameNameInjective(a: nat, b: nat)
    requires SavedFrameName(a) == SavedFrameName(b)
    ensures a == b
  {
    ValueOfZeroPad(a, 4);
    ValueOfZeroPad(b, 4);
    var pa, pb := ZeroPad(a, 4), ZeroPad(b, 4);
    assert |"frame_" + pa + ".jpg"| == |"frame_" + pb + ".jpg"|;
    assert pa == SavedFrameName(a)[6..6 + |pa|];
    assert pb == SavedFrameName(b)[6..6 + |pb|];
  }

  /** What the loop has saved after reading `frames` with a step of `step`:
      frame `c` is kept when `c % step == 0` and saved under the next free
      number. */
  function Sampled<F>(frames: seq<F>, step: nat): seq<SavedFrame<F>>
    requires step > 0
    decreases |frames|
  {
    if frames == [] then []
    else
      var init := Sampled(frames[..|frames| - 1], step);
      if (|frames| - 1) % step == 0
      then init + [SavedFrame(|init|, frames[|frames| - 1])]
      else init
  }

  /** After `n` frames, `ceil(n / step)` are saved; the `j`-th saved image is
      `frame_{j:04d}.jpg` and holds frame `j * step`. So the saved numbers
      run from 0 without gaps, and exactly the frames whose index is a
      multiple of `step` are kept. */
  lemma {:induction false} SampledShape<F>(frames: seq<F>, step: nat)
    requires step > 0
    ensures |Sampled(frames, step)| == CeilDiv(|frames|, step)
    ensures forall j :: 0 <= j < |Sampled(frames, step)| ==>
              j * step < |frames|
              && Sampled(frames, step)[j] == SavedFrame(j, frames[j * step])
    decreases |frames|
  {
    if frames != [] {
      var n := |frames| - 1;
      var init := frames[..n];
      SampledShape(init, step);
      SampledStep(init, frames[n], step);
      assert init + [frames[n]] == frames;
    } else {
      assert CeilDiv(0, step) == (step - 1) / step;
      DivUnique(step - 1, step, 0, step - 1);
    }
  }

  /** Conversely, every frame whose index is a multiple of `step` is saved,
      as number `c / step`. */
  lemma SampledKeepsMultiples<F>(frames: seq<F>, step: nat, c: nat)
    requires step > 0 && c < |frames| && c % step == 0
    ensures c / step < |Sampled(frames, step)|
    ensures Sampled(frames, step)[c / step] == SavedFrame(c / step, frames[c])
  {
    SampledShape(frames, step);
    CeilDivIsCeiling(|frames|, step);
    var q := c / step;
    DivMod(c, step);
    assert q * step == c;
    MulCancelLess(q, CeilDiv(|frames|, step), step);
  }

  lemma MulCancelLess(a: nat, b: nat, l: nat)
    requires l > 0 && a * l < b * l
    ensures a < b
  {
  }

  lemma SampledStep<F>(init: seq<F>, x: F, step: nat)
    requires step > 0
    requires |Sampled(init, step)| == CeilDiv(|init|, step)
    requires forall j :: 0 <= j < |Sampled(init, step)| ==>
               j * step < |init|
               && Sampled(init, step)[j] == SavedFrame(j, init[j * step])
    ensures |Sampled(init + [x], step)| == CeilDiv(|init + [x]|, step)
    ensures forall j :: 0 <= j < |Sampled(init + [x], step)| ==>
              j * step < |init + [x]|
              && Sampled(init + [x], step)[j] == SavedFrame(j, (init + [x])[j * step])
  {
    var n := |init|;
    var frames := init + [x];
    assert frames[..n] == init;
    CeilDivStep(n, step);
    var before := Sampled(init, step);
    var after := Sampled(frames, step);
    forall j | 0 <= j < |after|
      ensures j * step < |frames| && after[j] == SavedFrame(j, frames[j * step])
    {
      if j < |before| {
        assert after[j] == before[j];
        assert frames[j * step] == init[j * step];
      } else {
        assert j == |before| && n % step == 0;
        assert j * step == n;
      }
    }
  }

  /** Python's `c % k == 0` for a non-zero `k` of either sign. */
  lemma ModZeroAbs(c: nat, k: int)
    requires k != 0
    ensures c % k == c % Abs(k)
  {
    if k < 0 {
      var q, r := c / k, c % k;
      assert c == q * k + r && 0 <= r < -k;
      assert q * k == (-q) * (-k);
      DivUnique(c, -k, -q, r);
    }
  }

  /** `extract_frames(video, folder, interval)` with the folder's prior
      existence, whether the capture opened, the FPS it reports and the
      frames it decodes as inputs. Saved frame `k` goes to
      `SavedFramePath(folder, k)`. */
  method ExtractFrames<F>(folderExists: bool, captureOpened: bool, fps: real, interval: real,
                          frames: seq<F>)
    returns (r: FrameExtraction<F>)
    ensures r.createdFolder == !folderExists
    ensures !captureOpened ==> r.status == CouldNotOpen && r.framesRead == 0 && r.saved == []
    ensures captureOpened && FrameStep(fps, interval) == 0 ==>
              if frames == [] then r.status == Completed && r.framesRead == 0 && r.saved == []
              else r.status == IntervalZero && r.framesRead == 1 && r.saved == []
    ensures captureOpened && FrameStep(fps, interval) != 0 ==>
              r.status == Completed && r.framesRead == |frames|
              && r.saved == Sampled(frames, Abs(FrameStep(fps, interval)))
  {
    var createdFolder := !folderExists;
    if !captureOpened {
      return FrameExtraction(createdFolder, CouldNotOpen, 0, []);
    }
    // `fps` falls back to 30 when the capture reports 0, then
    // `frame_interval = int(fps * interval)`
    var frameInterval := FrameStep(fps, interval);
    var frameCount := 0;
    var savedFrameCount := 0;
    var saved: seq<SavedFrame<F>> := [];
    while true
      invariant 0 <= frameCount <= |frames|
      invariant frameInterval != 0 ==>
                  saved == Sampled(frames[..frameCount], Abs(frameInterval))
      invariant frameInterval == 0 ==> frameCount == 0 && saved == []
      invariant savedFrameCount == |saved|
      decreases |frames| - frameCount
    {
      if frameCount == |frames| {
        break;
      }
      var frame := frames[frameCount];
      if frameInterval == 0 {
        return FrameExtraction(createdFolder, IntervalZero, 1, []);
      }
      ModZeroAbs(frameCount, frameInterval);
      assert frames[..frameCount + 1][..frameCount] == frames[..frameCount];
      if frameCount % frameInterval == 0 {
        saved := saved + [SavedFrame(savedFrameCount, frame)];
        savedFrameCount := savedFrameCount + 1;
      }
      frameCount := frameCount + 1;
    }
    assert frames[..frameCount] == frames;
    return FrameExtraction(createdFolder, Completed, frameCount, saved);
  }

  /** Ten frames sampled every third frame: frames 0, 3, 6 and 9 are saved
      as `frame_0000.jpg` to `frame_0003.jpg`. */
  lemma TenFramesEveryThird(frames: seq<int>)
    requires frames == [0, 1, 2, 3, 4, 5, 6, 7, 8, 9]
    ensures |Sampled(frames, 3)| == 4
    ensures forall j :: 0 <= j < 4 ==> Sampled(frames, 3)[j] == SavedFrame(j, 3 * j)
  {
    SampledShape(frames, 3);
    assert CeilDiv(10, 3) == 4;
  }
}
