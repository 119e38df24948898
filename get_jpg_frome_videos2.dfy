/** The fixed-step frame grabber: from every `.mp4` file directly inside
  * the input directory, every `int(fps · seconds)`-th frame of the
  * sequential read, named after the video and a running counter. */
module GetJpgFromeVideos2 {
  import opened Common
  import opened DirTree
  import ExtractVideoFrames

  // ------------------------------------------------------------------
  // The frame step
  // ------------------------------------------------------------------

  /** `int(fps * seconds_per_frame)`: truncated toward zero and not
    * clamped, so a low frame rate or a short period gives a step of zero
    * and a negative period a negative step. */
  function FrameInterval(fps: real, seconds: int): int {
    Trunc(fps * seconds as real)
  }

  /** The step is zero exactly when `fps · seconds` lies strictly between
    * -1 and 1, and at least 1 from 1 on. */
  lemma FrameIntervalZero(fps: real, seconds: int)
    ensures FrameInterval(fps, seconds) == 0 <==> -1.0 < fps * seconds as real < 1.0
    ensures fps * seconds as real >= 1.0 ==> FrameInterval(fps, seconds) >= 1
  {
  }

  function Abs(k: int): nat {
    if k < 0 then -k else k
  }

  /** `frame_index % frame_interval == 0` does not depend on the step's
    * sign: Python's remainder takes the divisor's sign, Dafny's is never
    * negative, and Dafny's is the same for a divisor and its negation. */
  lemma DivisibleEitherSign(x: nat, k: int)
    requires k != 0
    ensures x % k == x % Abs(k)
  {
    if k < 0 {
      ModNegated(x, k);
    }
  }

  lemma ModNegated(x: nat, k: int)
    requires k < 0
    ensures x % k == x % -k
  {
  }

  // ------------------------------------------------------------------
  // One video
  // ------------------------------------------------------------------

  /** `{video}_frame_{saved_count:04d}.jpg` in the output directory. */
  function FramePath(outputDir: string, videoName: string, saved: nat): string {
    JoinPath(outputDir, videoName + "_frame_" + ZeroPad(saved, 4) + ".jpg")
  }

  /** The frames saved from frame `index` on, `saved` having been saved
    * before it; the `frames`-th read is the first that fails. */
  function SavedFrom(index: nat, saved: nat, frames: nat, interval: int, outputDir: string, videoName: string)
    : seq<string>
    requires interval != 0
    decreases frames - index
  {
    if index >= frames then []
    else if index % interval == 0 then
      [FramePath(outputDir, videoName, saved)] + SavedFrom(index + 1, saved + 1, frames, interval, outputDir, videoName)
    else SavedFrom(index + 1, saved, frames, interval, outputDir, videoName)
  }

  /** The names with counters `start` to `start + n - 1`. */
  function Counted(outputDir: string, videoName: string, start: nat, n: nat): (r: seq<string>)
    ensures |r| == n
  {
    seq(n, j requires 0 <= j < n => FramePath(outputDir, videoName, start + j))
  }

  lemma CountedCons(outputDir: string, videoName: string, start: nat, n: nat)
    ensures Counted(outputDir, videoName, start, n + 1)
            == [FramePath(outputDir, videoName, start)] + Counted(outputDir, videoName, start + 1, n)
  {
    var l := Counted(outputDir, videoName, start, n + 1);
    var r := [FramePath(outputDir, videoName, start)] + Counted(outputDir, videoName, start + 1, n);
    forall j | 1 <= j <= n ensures l[j] == r[j] {
      assert start + 1 + (j - 1) == start + j;
    }
  }

  /** One frame is saved for each frame index in `[index, frames)` that is
    * a multiple of the step, whatever its sign, and the saved frames are
    * numbered on from `saved`. */
  lemma {:induction false} SavedFromMeaning(index: nat, saved: nat, frames: nat, interval: int, outputDir: string,
                                            videoName: string)
    requires interval != 0
    ensures SavedFrom(index, saved, frames, interval, outputDir, videoName)
            == Counted(outputDir, videoName, saved, |ExtractVideoFrames.MultiplesIn(index, frames, Abs(interval))|)
    decreases frames - index
  {
    if index < frames {
      var step := Abs(interval);
      var rest := ExtractVideoFrames.MultiplesIn(index + 1, frames, step);
      DivisibleEitherSign(index, interval);
      if index % interval == 0 {
        SavedFromMeaning(index + 1, saved + 1, frames, interval, outputDir, videoName);
        assert ExtractVideoFrames.MultiplesIn(index, frames, step) == [index] + rest;
        CountedCons(outputDir, videoName, saved, |rest|);
      } else {
        SavedFromMeaning(index + 1, saved, frames, interval, outputDir, videoName);
        assert ExtractVideoFrames.MultiplesIn(index, frames, step) == rest;
      }
    }
  }

  /** A prefix and a suffix shared by two strings leave equal middles. */
  lemma Middle(p: string, x: string, y: string, s: string)
    requires p + x + s == p + y + s
    ensures x == y
  {
    assert |x| == |y|;
    assert x == (p + x + s)[|p|..|p| + |x|];
    assert y == (p + y + s)[|p|..|p| + |y|];
  }

  /** Distinct counters give distinct names, so no frame of a video
    * overwrites another of the same video. */
  lemma FramePathInjective(outputDir: string, videoName: string, a: nat, b: nat)
    requires FramePath(outputDir, videoName, a) == FramePath(outputDir, videoName, b)
    ensures a == b
  {
    var p := videoName + "_frame_";
    JoinPathInjective(outputDir, p + ZeroPad(a, 4) + ".jpg", p + ZeroPad(b, 4) + ".jpg");
    Middle(p, ZeroPad(a, 4), ZeroPad(b, 4), ".jpg");
    ZeroPadInjective(a, b, 4);
  }

  /** What OpenCV reports of one video: whether it opens, its FPS, and how
    * many frames the sequential read yields before a read fails. */
  datatype Capture = Capture(isOpened: bool, fps: real, frames: nat)

  /** What `video_to_frames` does with one video: nothing when it cannot
    * be opened, the frames it saved, or the `ZeroDivisionError` of a zero
    * step, raised at the first frame read. */
  datatype VideoResult = NotOpened | Saved(paths: seq<string>) | Raised

  /** `os.path.splitext(os.path.basename(video_path))[0]`. */
  function VideoName(videoPath: string): string {
    SplitExt(Basename(videoPath)).0
  }

  /** The read loop with a given step. */
  function ReadFrames(frames: nat, interval: int, outputDir: string, videoName: string): VideoResult {
    if interval == 0 then (if frames == 0 then Saved([]) else Raised)
    else Saved(SavedFrom(0, 0, frames, interval, outputDir, videoName))
  }

  /** `video_to_frames` raises exactly when the video opens, has a frame
    * to read, and its step is zero. */
  predicate Raises(cap: Capture, seconds: int) {
    cap.isOpened && cap.frames > 0 && FrameInterval(cap.fps, seconds) == 0
  }

  function VideoToFrames(videoPath: string, cap: Capture, outputDir: string, seconds: int): (r: VideoResult)
    ensures r == NotOpened <==> !cap.isOpened
    ensures r == Raised <==> Raises(cap, seconds)
  {
    if !cap.isOpened then NotOpened
    else ReadFrames(cap.frames, FrameInterval(cap.fps, seconds), outputDir, VideoName(videoPath))
  }

  /** A video that opens and has a non-zero step saves one frame per
    * multiple of the step among its frame indices, with counters from 0. */
  lemma VideoToFramesMeaning(videoPath: string, cap: Capture, outputDir: string, seconds: int)
    requires cap.isOpened && FrameInterval(cap.fps, seconds) != 0
    ensures VideoToFrames(videoPath, cap, outputDir, seconds)
            == Saved(Counted(outputDir, VideoName(videoPath), 0,
                             |ExtractVideoFrames.MultiplesIn(0, cap.frames, Abs(FrameInterval(cap.fps, seconds)))|))
  {
    SavedFromMeaning(0, 0, cap.frames, FrameInterval(cap.fps, seconds), outputDir, VideoName(videoPath));
  }

  /** `video_to_frames` after the capture is open: read frame after frame
    * until a read fails, saving those whose index is a multiple of the
    * step. */
  method ReadLoop(outputDir: string, videoName: string, frames: nat, frameInterval: int) returns (r: VideoResult)
    ensures r == ReadFrames(frames, frameInterval, outputDir, videoName)
  {
    var written: seq<string> := [];
    var savedCount: nat := 0;
    var frameIndex: nat := 0;
    while true
      invariant frameIndex <= frames
      invariant savedCount == |written|
      invariant frameInterval == 0 ==> frameIndex == 0 && written == []
      invariant frameInterval != 0 ==>
                  SavedFrom(0, 0, frames, frameInterval, outputDir, videoName)
                  == written + SavedFrom(frameIndex, savedCount, frames, frameInterval, outputDir, videoName)
      decreases frames - frameIndex
    {
      if frameIndex >= frames {
        break;
      }
      if frameInterval == 0 {
        return Raised;
      }
      written, savedCount := SaveIfDue(outputDir, videoName, frames, frameInterval, frameIndex, written, savedCount);
      frameIndex := frameIndex + 1;
    }
    r := Saved(written);
  }

  /** The body of the read loop: frame `frameIndex` is saved when the step
    * divides its index. */
  method SaveIfDue(outputDir: string, videoName: string, frames: nat, frameInterval: int, frameIndex: nat,
                   written: seq<string>, savedCount: nat)
    returns (written': seq<string>, savedCount': nat)
    requires frameInterval != 0 && frameIndex < frames && savedCount == |written|
    ensures savedCount' == |written'|
    ensures written + SavedFrom(frameIndex, savedCount, frames, frameInterval, outputDir, videoName)
            == written' + SavedFrom(frameIndex + 1, savedCount', frames, frameInterval, outputDir, videoName)
  {
    written', savedCount' := written, savedCount;
    if frameIndex % frameInterval == 0 {
      var outputPath := JoinPath(outputDir, videoName + "_frame_" + ZeroPad(savedCount, 4) + ".jpg");
      var rest := SavedFrom(frameIndex + 1, savedCount + 1, frames, frameInterval, outputDir, videoName);
      assert written + [outputPath] + rest == written + ([outputPath] + rest);
      written' := written + [outputPath];
      savedCount' := savedCount + 1;
    }
  }

  /** `video_to_frames`. */
  method VideoToFramesRun(videoPath: string, cap: Capture, outputDir: string, seconds: int) returns (r: VideoResult)
    ensures r == VideoToFrames(videoPath, cap, outputDir, seconds)
  {
    var videoName := SplitExt(Basename(videoPath)).0;
    if !cap.isOpened {
      return NotOpened;
    }
    var frameInterval := Trunc(cap.fps * seconds as real);
    assert frameInterval == FrameInterval(cap.fps, seconds);
    assert videoName == VideoName(videoPath);
    r := ReadLoop(outputDir, videoName, cap.frames, frameInterval);
  }

  // ------------------------------------------------------------------
  // process_all_videos
  // ------------------------------------------------------------------

  /** Whether the glob `*.mp4` matches a name: it ends in `.mp4`, case
    * counting, and does not start with a dot, which `*` never matches. */
  predicate MatchesMp4(name: string) {
    EndsWith(name, ".mp4") && name[0] != '.'
  }

  /** `glob.glob(os.path.join(input_dir, "*.mp4"))` over the names listed
    * in the input directory, in listing order. */
  function GlobMp4(inputDir: string, names: seq<string>): seq<string> {
    if names == [] then []
    else
      var n := |names| - 1;
      GlobMp4(inputDir, names[..n]) + if MatchesMp4(names[n]) then [JoinPath(inputDir, names[n])] else []
  }

  lemma {:induction false} GlobMp4Contents(inputDir: string, names: seq<string>, p: string)
    ensures p in GlobMp4(inputDir, names) <==> exists f :: f in names && MatchesMp4(f) && p == JoinPath(inputDir, f)
  {
    if names != [] {
      var n := |names| - 1;
      GlobMp4Contents(inputDir, names[..n], p);
      assert names == names[..n] + [names[n]];
    }
  }

  /** The frames a video leaves on disk when the run goes past it. */
  function FramesOf(captures: string -> Capture, outputDir: string, seconds: int): string -> seq<string> {
    v => match VideoToFrames(v, captures(v), outputDir, seconds)
         case Saved(w) => w
         case _ => []
  }

  predicate RaisesAt(paths: seq<string>, captures: string -> Capture, seconds: int, i: int) {
    0 <= i < |paths| && Raises(captures(paths[i]), seconds)
  }

  /** The frames saved over a list of videos, and whether a zero step
    * stopped the run. */
  datatype Run = Run(written: seq<string>, raised: bool)

  function RunFrom(paths: seq<string>, captures: string -> Capture, outputDir: string, seconds: int): Run
    decreases |paths|
  {
    if paths == [] then Run([], false)
    else
      if Raises(captures(paths[0]), seconds) then Run([], true)
      else
        var rest := RunFrom(paths[1..], captures, outputDir, seconds);
        Run(FramesOf(captures, outputDir, seconds)(paths[0]) + rest.written, rest.raised)
  }

  /** Video `i` is the first of the list that raises. */
  predicate FirstRaise(paths: seq<string>, captures: string -> Capture, seconds: int, i: int) {
    RaisesAt(paths, captures, seconds, i) && forall j :: 0 <= j < i ==> !RaisesAt(paths, captures, seconds, j)
  }

  /** The run stops at the first video whose step is zero and that has a
    * frame, having saved the frames of the videos before it; without
    * such a video it saves the frames of all of them, in order. */
  lemma {:induction false} RunFromMeaning(paths: seq<string>, captures: string -> Capture, outputDir: string,
                                          seconds: int)
    ensures var run := RunFrom(paths, captures, outputDir, seconds);
            && (run.raised <==> exists i :: RaisesAt(paths, captures, seconds, i))
            && (!run.raised ==> run.written == FlatMap(paths, FramesOf(captures, outputDir, seconds)))
            && (run.raised ==> exists i :: FirstRaise(paths, captures, seconds, i)
                                && run.written == FlatMap(paths[..i], FramesOf(captures, outputDir, seconds)))
    decreases |paths|
  {
    var f := FramesOf(captures, outputDir, seconds);
    if paths != [] {
      var tail := paths[1..];
      if RaisesAt(paths, captures, seconds, 0) {
        assert paths[..0] == [];
        assert FirstRaise(paths, captures, seconds, 0);
      } else {
        RunFromMeaning(tail, captures, outputDir, seconds);
        RunFromCons(paths, captures, outputDir, seconds);
        RaisesShift(paths, captures, seconds);
        if !RunFrom(tail, captures, outputDir, seconds).raised {
          FlatMapCons(paths, f);
        } else {
          var i :| FirstRaise(tail, captures, seconds, i)
                   && RunFrom(tail, captures, outputDir, seconds).written == FlatMap(tail[..i], f);
          FlatMapFirst(paths, i, f);
          FirstRaiseShift(paths, captures, seconds, i);
        }
      }
    }
  }

  /** A first raise in the tail, after a head that does not raise, is a
    * first raise of the whole list one position on. */
  lemma FirstRaiseShift(paths: seq<string>, captures: string -> Capture, seconds: int, i: int)
    requires paths != [] && !RaisesAt(paths, captures, seconds, 0)
    requires FirstRaise(paths[1..], captures, seconds, i)
    ensures FirstRaise(paths, captures, seconds, i + 1)
  {
    assert paths[1..][i] == paths[i + 1];
    forall j | 0 <= j < i + 1 ensures !RaisesAt(paths, captures, seconds, j) {
      if j > 0 {
        assert !RaisesAt(paths[1..], captures, seconds, j - 1);
        assert paths[1..][j - 1] == paths[j];
      }
    }
  }

  /** Raising at position `i + 1` of a list is raising at position `i` of
    * its tail. */
  lemma RaisesShift(paths: seq<string>, captures: string -> Capture, seconds: int)
    requires paths != []
    ensures forall i :: 0 <= i ==> (RaisesAt(paths[1..], captures, seconds, i) <==> RaisesAt(paths, captures, seconds, i + 1))
    ensures (exists i :: RaisesAt(paths, captures, seconds, i))
            <==> RaisesAt(paths, captures, seconds, 0)
                 || exists i :: RaisesAt(paths[1..], captures, seconds, i)
  {
    forall i | 0 <= i ensures RaisesAt(paths[1..], captures, seconds, i) <==> RaisesAt(paths, captures, seconds, i + 1) {
      if 0 <= i < |paths| - 1 {
        assert paths[1..][i] == paths[i + 1];
      }
    }
    if exists i :: RaisesAt(paths, captures, seconds, i) {
      var i :| RaisesAt(paths, captures, seconds, i);
      if i > 0 {
        assert RaisesAt(paths[1..], captures, seconds, i - 1);
      }
    }
    if exists i :: RaisesAt(paths[1..], captures, seconds, i) {
      var i :| RaisesAt(paths[1..], captures, seconds, i);
      assert RaisesAt(paths, captures, seconds, i + 1);
    }
  }

  /** What the script ends with: no `.mp4` file found, every video
    * handled, or a zero step aborting the run after some frames. */
  datatype Outcome = NoVideos | Finished(written: seq<string>) | Aborted(written: seq<string>)

  function ProcessAll(inputDir: string, tree: Dir, captures: string -> Capture, outputDir: string, seconds: int)
    : Outcome
  {
    var paths := GlobMp4(inputDir, EntryNames(tree));
    if paths == [] then NoVideos
    else
      var run := RunFrom(paths, captures, outputDir, seconds);
      if run.raised then Aborted(run.written) else Finished(run.written)
  }

  /** The list of videos is empty exactly when no listed name matches. */
  lemma NoVideosMeaning(inputDir: string, tree: Dir, captures: string -> Capture, outputDir: string, seconds: int)
    ensures ProcessAll(inputDir, tree, captures, outputDir, seconds) == NoVideos
            <==> forall f :: f in EntryNames(tree) ==> !MatchesMp4(f)
  {
    if exists f :: f in EntryNames(tree) && MatchesMp4(f) {
      var f :| f in EntryNames(tree) && MatchesMp4(f);
      GlobMp4Contents(inputDir, EntryNames(tree), JoinPath(inputDir, f));
    }
    if GlobMp4(inputDir, EntryNames(tree)) != [] {
      var p := GlobMp4(inputDir, EntryNames(tree))[0];
      GlobMp4Contents(inputDir, EntryNames(tree), p);
    }
  }

  /** `process_all_videos`. */
  method ProcessAllVideos(inputDir: string, tree: Dir, captures: string -> Capture, outputDir: string, seconds: int)
    returns (outcome: Outcome)
    ensures outcome == ProcessAll(inputDir, tree, captures, outputDir, seconds)
  {
    var videoPaths := GlobMp4(inputDir, EntryNames(tree));
    if |videoPaths| == 0 {
      return NoVideos;
    }
    var run := RunVideos(videoPaths, captures, outputDir, seconds);
    outcome := if run.raised then Aborted(run.written) else Finished(run.written);
  }

  /** The loop over the videos; the error of a zero step leaves it. */
  method RunVideos(videoPaths: seq<string>, captures: string -> Capture, outputDir: string, seconds: int)
    returns (run: Run)
    ensures run == RunFrom(videoPaths, captures, outputDir, seconds)
  {
    var written: seq<string> := [];
    var idx := 0;
    while idx < |videoPaths|
      invariant 0 <= idx <= |videoPaths|
      invariant RunFrom(videoPaths, captures, outputDir, seconds)
                == After(written, RunFrom(videoPaths[idx..], captures, outputDir, seconds))
      decreases |videoPaths| - idx
    {
      var raised;
      assert videoPaths[idx..][1..] == videoPaths[idx + 1..];
      written, raised := RunOne(videoPaths[idx..], captures, outputDir, seconds, written);
      if raised {
        return Run(written, true);
      }
      idx := idx + 1;
    }
    run := Run(written, false);
  }

  /** The frames saved before a run goes on. */
  function After(written: seq<string>, rest: Run): Run {
    Run(written + rest.written, rest.raised)
  }

  /** The body of the loop over the videos: the first of the videos
    * left is handled. */
  method RunOne(rest: seq<string>, captures: string -> Capture, outputDir: string, seconds: int, written: seq<string>)
    returns (written': seq<string>, raised: bool)
    requires rest != []
    ensures raised ==> written' == written && After(written, RunFrom(rest, captures, outputDir, seconds)) == Run(written, true)
    ensures !raised ==> After(written, RunFrom(rest, captures, outputDir, seconds))
                        == After(written', RunFrom(rest[1..], captures, outputDir, seconds))
  {
    RunFromCons(rest, captures, outputDir, seconds);
    var w;
    w, raised := HandleVideo(rest[0], captures, outputDir, seconds);
    written' := written;
    if !raised {
      var tail := RunFrom(rest[1..], captures, outputDir, seconds).written;
      assert written + (w + tail) == written + w + tail;
      written' := written + w;
    }
  }

  /** `video_to_frames` on one listed video: whether it raised, and
    * otherwise the frames it saved. */
  method HandleVideo(videoPath: string, captures: string -> Capture, outputDir: string, seconds: int)
    returns (w: seq<string>, raised: bool)
    ensures raised <==> Raises(captures(videoPath), seconds)
    ensures !raised ==> w == FramesOf(captures, outputDir, seconds)(videoPath)
  {
    var r := VideoToFramesRun(videoPath, captures(videoPath), outputDir, seconds);
    w, raised := [], false;
    match r {
      case Raised =>
        raised := true;
      case NotOpened =>
      case Saved(paths) =>
        w := paths;
    }
  }

  /** The first step of a run over a non-empty list. */
  lemma RunFromCons(paths: seq<string>, captures: string -> Capture, outputDir: string, seconds: int)
    requires paths != []
    ensures Raises(captures(paths[0]), seconds) ==> RunFrom(paths, captures, outputDir, seconds) == Run([], true)
    ensures !Raises(captures(paths[0]), seconds) ==>
              RunFrom(paths, captures, outputDir, seconds)
              == After(FramesOf(captures, outputDir, seconds)(paths[0]), RunFrom(paths[1..], captures, outputDir, seconds))
  {
  }
}
