/** The video frame extractor: finding the videos, choosing which frames
  * to save in time mode (seek every `interval` seconds) or frame mode
  * (every `interval`-th frame), naming them, and counting the results. */
module ExtractVideoFrames {
  import opened Common
  import opened Sorting
  import opened DirTree

  // ------------------------------------------------------------------
  // Timestamps
  // ------------------------------------------------------------------

  /** `f"{hours:02d}-{minutes:02d}-{seconds:02d}"` of
    * `timedelta(seconds=s).seconds`: the day part is dropped. */
  function TimeStr(s: int): string {
    var daySeconds := s % 86400;
    ZeroPad(daySeconds / 3600, 2) + "-" + ZeroPad((daySeconds % 3600) / 60, 2) + "-" + ZeroPad(daySeconds % 60, 2)
  }

  lemma TwoDigits(n: nat)
    requires n < 100
    ensures |ZeroPad(n, 2)| == 2 && AllDigits(ZeroPad(n, 2)) && DigitsValue(ZeroPad(n, 2)) == n
  {
    ZeroPadRoundTrip(n, 2);
    if n >= 10 {
      assert NatToString(n) == NatToString(n / 10) + [DigitChar(n % 10)];
    }
  }

  /** The timestamp is eight characters, `HH-MM-SS`, with hours below 24,
    * and reading its three fields back gives the second of the day. */
  lemma TimeStrMeaning(s: int)
    ensures var r := TimeStr(s);
            && |r| == 8 && r[2] == '-' && r[5] == '-'
            && AllDigits(r[..2]) && AllDigits(r[3..5]) && AllDigits(r[6..])
            && DigitsValue(r[..2]) < 24 && DigitsValue(r[3..5]) < 60 && DigitsValue(r[6..]) < 60
            && DigitsValue(r[..2]) * 3600 + DigitsValue(r[3..5]) * 60 + DigitsValue(r[6..]) == s % 86400
  {
    var d := s % 86400;
    DayFields(d);
    TwoDigits(d / 3600);
    TwoDigits((d % 3600) / 60);
    TwoDigits(d % 60);
    Fields(ZeroPad(d / 3600, 2), ZeroPad((d % 3600) / 60, 2), ZeroPad(d % 60, 2));
  }

  /** Hours, minutes and seconds of a second of the day. */
  lemma DayFields(d: int)
    requires 0 <= d < 86400
    ensures d / 3600 < 24 && (d % 3600) / 60 < 60 && d % 60 < 60
    ensures (d / 3600) * 3600 + ((d % 3600) / 60) * 60 + d % 60 == d
  {
  }

  /** Three two-character fields joined by dashes are read back by
    * position. */
  lemma Fields(h: string, m: string, sec: string)
    requires |h| == 2 && |m| == 2 && |sec| == 2
    ensures var r := h + "-" + m + "-" + sec;
            |r| == 8 && r[2] == '-' && r[5] == '-' && r[..2] == h && r[3..5] == m && r[6..] == sec
  {
    var r := h + "-" + m + "-" + sec;
    assert r[..2] == h;
    assert r[3..5] == m;
    assert r[6..] == sec;
  }

  // ------------------------------------------------------------------
  // Settings
  // ------------------------------------------------------------------

  /** An FPS of zero or less, or above 1000, is replaced by 25. */
  function SanitizeFps(fps: real): (r: real)
    ensures 0.0 < r <= 1000.0
    ensures 0.0 < fps <= 1000.0 ==> r == fps
  {
    if fps <= 0.0 || fps > 1000.0 then 25.0 else fps
  }

  /** `total_frames / fps if fps > 0 else 0`. */
  function Duration(totalFrames: int, fps: real): real {
    if fps > 0.0 then totalFrames as real / fps else 0.0
  }

  /** `max(1, int(round(fps * interval_seconds)))`. */
  function FrameInterval(fps: real, intervalSeconds: real): (r: nat)
    ensures r >= 1
  {
    Max(1, Round(fps * intervalSeconds))
  }

  /** The interval is the frame count of the interval's seconds, rounded,
    * and at least one frame. */
  lemma FrameIntervalMeaning(fps: real, intervalSeconds: real)
    ensures var r := FrameInterval(fps, intervalSeconds);
            fps * intervalSeconds >= 0.5 ==> fps * intervalSeconds - 0.5 <= r as real <= fps * intervalSeconds + 0.5
  {
  }

  // ------------------------------------------------------------------
  // Time mode: seek to 0, interval, 2·interval, … while within the video
  // ------------------------------------------------------------------

  /** How many times `k · interval` are at most `duration`. */
  function Samples(interval: real, duration: real): nat
    requires interval > 0.0
  {
    if duration < 0.0 then 0 else (duration / interval).Floor + 1
  }

  /** The seek time of sample `k`: the interval added `k` times. */
  function SampleTime(k: nat, interval: real): real {
    if k == 0 then 0.0 else SampleTime(k - 1, interval) + interval
  }

  lemma {:induction false} SampleTimeProduct(k: nat, interval: real)
    ensures SampleTime(k, interval) == k as real * interval
  {
    if k > 0 {
      SampleTimeProduct(k - 1, interval);
      assert k as real * interval == (k - 1) as real * interval + interval;
    }
  }

  /** Sample `k` is within the duration exactly when `k` is below the
    * sample count. */
  lemma SamplesMeaning(interval: real, duration: real, k: nat)
    requires interval > 0.0
    ensures SampleTime(k, interval) <= duration <==> k < Samples(interval, duration)
  {
    SampleTimeProduct(k, interval);
    if duration >= 0.0 {
      var q := duration / interval;
      assert (k as real - q) * interval == k as real * interval - duration;
      ScaleSign(k as real - q, interval);
    } else {
      assert k as real * interval >= 0.0;
    }
  }

  lemma ScaleSign(x: real, y: real)
    requires y > 0.0
    ensures x * y <= 0.0 <==> x <= 0.0
  {
  }

  function TimePath(outputDir: string, videoName: string, t: real): string {
    JoinPath(outputDir, videoName + "_" + TimeStr(Trunc(t)) + ".jpg")
  }

  /** The frames saved from sample `k` on: the loop ends at the first
    * sample past the duration or whose seek cannot be read. */
  function TimeFrom(k: nat, outputDir: string, videoName: string, interval: real, duration: real, readOk: real -> bool)
    : seq<string>
    requires interval > 0.0
    decreases Samples(interval, duration) - k
  {
    SamplesMeaning(interval, duration, k);
    if SampleTime(k, interval) > duration || !readOk(SampleTime(k, interval)) then []
    else [TimePath(outputDir, videoName, SampleTime(k, interval))]
         + TimeFrom(k + 1, outputDir, videoName, interval, duration, readOk)
  }

  /** Sample `j` is within the duration and its seek can be read. */
  predicate Sampled(readOk: real -> bool, interval: real, duration: real, j: nat) {
    SampleTime(j, interval) <= duration && readOk(SampleTime(j, interval))
  }

  /** The files of samples `k` to `m - 1`. */
  function TimePaths(k: nat, m: nat, outputDir: string, videoName: string, interval: real): (r: seq<string>)
    requires k <= m
    ensures |r| == m - k
  {
    seq(m - k, j requires 0 <= j < m - k => TimePath(outputDir, videoName, SampleTime(k + j, interval)))
  }

  /** The files of samples `k` to `m - 1` are that of sample `k`, then
    * those from `k + 1`. */
  lemma TimePathsCons(k: nat, m: nat, outputDir: string, videoName: string, interval: real)
    requires k < m
    ensures TimePaths(k, m, outputDir, videoName, interval)
            == [TimePath(outputDir, videoName, SampleTime(k, interval))] + TimePaths(k + 1, m, outputDir, videoName, interval)
  {
    var rest := TimePaths(k + 1, m, outputDir, videoName, interval);
    forall j | 1 <= j < m - k
      ensures TimePaths(k, m, outputDir, videoName, interval)[j] == rest[j - 1]
    {
      assert k + 1 + (j - 1) == k + j;
    }
  }

  /** One step of the time loop: a sample within the duration that can
    * be read is saved, anything else ends the loop. */
  lemma TimeFromStep(k: nat, outputDir: string, videoName: string, interval: real, duration: real, readOk: real -> bool)
    requires interval > 0.0
    ensures Sampled(readOk, interval, duration, k) ==>
              TimeFrom(k, outputDir, videoName, interval, duration, readOk)
                == [TimePath(outputDir, videoName, SampleTime(k, interval))]
                   + TimeFrom(k + 1, outputDir, videoName, interval, duration, readOk)
    ensures !Sampled(readOk, interval, duration, k) ==> TimeFrom(k, outputDir, videoName, interval, duration, readOk) == []
  {
  }

  /** Time mode saves one frame for each sample `0, interval, 2·interval, …`
    * while it is within the duration, named after its second, and stops
    * at the first sample that cannot be read. */
  lemma {:induction false} TimeFromMeaning(k: nat, outputDir: string, videoName: string, interval: real, duration: real,
                                           readOk: real -> bool)
    requires interval > 0.0
    ensures exists m :: k <= m
              && TimeFrom(k, outputDir, videoName, interval, duration, readOk) == TimePaths(k, m, outputDir, videoName, interval)
              && (forall j :: k <= j < m ==> Sampled(readOk, interval, duration, j))
              && !Sampled(readOk, interval, duration, m)
    decreases Samples(interval, duration) - k
  {
    SamplesMeaning(interval, duration, k);
    if !Sampled(readOk, interval, duration, k) {
      assert TimeFrom(k, outputDir, videoName, interval, duration, readOk) == TimePaths(k, k, outputDir, videoName, interval);
    } else {
      TimeFromMeaning(k + 1, outputDir, videoName, interval, duration, readOk);
      var m :| k + 1 <= m
               && TimeFrom(k + 1, outputDir, videoName, interval, duration, readOk)
                    == TimePaths(k + 1, m, outputDir, videoName, interval)
               && (forall j :: k + 1 <= j < m ==> Sampled(readOk, interval, duration, j))
               && !Sampled(readOk, interval, duration, m);
      TimePathsCons(k, m, outputDir, videoName, interval);
    }
  }

  // ------------------------------------------------------------------
  // Frame mode: every `interval`-th frame of the sequential read
  // ------------------------------------------------------------------

  /** `{video}_frame_{saved_count:04d}_{time}.jpg`, the time being the
    * frame's whole second. */
  function FramePath(outputDir: string, videoName: string, saved: nat, index: nat, fps: real): string {
    JoinPath(outputDir, videoName + "_frame_" + ZeroPad(saved, 4) + "_" + TimeStr(FrameSecond(index, fps)) + ".jpg")
  }

  /** The whole second of frame `index`. */
  function FrameSecond(index: nat, fps: real): int {
    if fps > 0.0 then Trunc(index as real / fps) else 0
  }

  /** The frames saved from frame `index` on, `saved` having been saved
    * before it; `frames` frames can be read. */
  function FramesFrom(index: nat, saved: nat, frames: nat, step: nat, outputDir: string, videoName: string, fps: real)
    : seq<string>
    requires step > 0
    decreases frames - index
  {
    if index >= frames then []
    else if index % step == 0 then
      [FramePath(outputDir, videoName, saved, index, fps)] + FramesFrom(index + 1, saved + 1, frames, step, outputDir, videoName, fps)
    else FramesFrom(index + 1, saved, frames, step, outputDir, videoName, fps)
  }

  /** One step of `FramesFrom`. */
  lemma FramesFromStep(index: nat, saved: nat, frames: nat, step: nat, outputDir: string, videoName: string, fps: real)
    requires step > 0
    ensures index >= frames ==> FramesFrom(index, saved, frames, step, outputDir, videoName, fps) == []
    ensures index < frames && index % step == 0 ==>
              FramesFrom(index, saved, frames, step, outputDir, videoName, fps)
                == [FramePath(outputDir, videoName, saved, index, fps)]
                   + FramesFrom(index + 1, saved + 1, frames, step, outputDir, videoName, fps)
    ensures index < frames && index % step != 0 ==>
              FramesFrom(index, saved, frames, step, outputDir, videoName, fps)
                == FramesFrom(index + 1, saved, frames, step, outputDir, videoName, fps)
  {
  }

  /** The frame indices from `index` up to `frames` that are multiples of
    * `step`, in increasing order. */
  function MultiplesIn(index: nat, frames: nat, step: nat): seq<nat>
    requires step > 0
    decreases frames - index
  {
    if index >= frames then []
    else (if index % step == 0 then [index] else []) + MultiplesIn(index + 1, frames, step)
  }

  /** The list holds exactly the multiples of `step` in `[index, frames)`. */
  lemma {:induction false} MultiplesInContents(index: nat, frames: nat, step: nat, x: nat)
    requires step > 0
    ensures x in MultiplesIn(index, frames, step) <==> index <= x < frames && x % step == 0
    decreases frames - index
  {
    if index < frames {
      MultiplesInContents(index + 1, frames, step, x);
    }
  }

  /** The list is strictly increasing. */
  lemma {:induction false} MultiplesInIncreasing(index: nat, frames: nat, step: nat)
    requires step > 0
    ensures forall i, j :: 0 <= i < j < |MultiplesIn(index, frames, step)| ==>
              MultiplesIn(index, frames, step)[i] < MultiplesIn(index, frames, step)[j]
    decreases frames - index
  {
    if index < frames {
      var rest := MultiplesIn(index + 1, frames, step);
      MultiplesInIncreasing(index + 1, frames, step);
      forall i | 0 <= i < |rest| ensures index < rest[i] {
        MultiplesInContents(index + 1, frames, step, rest[i]);
      }
    }
  }

  /** The names of the frames at indices `ms`, numbered from `saved`. */
  function NamedFrames(ms: seq<nat>, saved: nat, outputDir: string, videoName: string, fps: real): (r: seq<string>)
    ensures |r| == |ms|
    ensures forall j :: 0 <= j < |ms| ==> r[j] == FramePath(outputDir, videoName, saved + j, ms[j], fps)
  {
    Numbered(ms, saved, FrameNamer(outputDir, videoName, fps))
  }

  function FrameNamer(outputDir: string, videoName: string, fps: real): (nat, nat) -> string {
    (k: nat, index: nat) => FramePath(outputDir, videoName, k, index, fps)
  }

  /** Frame mode saves the frames whose index is a multiple of the frame
    * interval, among those that can be read, the `j`-th of them named
    * with counter `saved + j` and its own index's second. */
  lemma {:induction false} FramesFromMeaning(index: nat, saved: nat, frames: nat, step: nat, outputDir: string,
                                             videoName: string, fps: real)
    requires step > 0
    ensures FramesFrom(index, saved, frames, step, outputDir, videoName, fps)
            == NamedFrames(MultiplesIn(index, frames, step), saved, outputDir, videoName, fps)
    decreases frames - index
  {
    if index < frames {
      if index % step == 0 {
        FramesFromMeaning(index + 1, saved + 1, frames, step, outputDir, videoName, fps);
        FramesFromDue(index, saved, frames, step, outputDir, videoName, fps);
      } else {
        FramesFromMeaning(index + 1, saved, frames, step, outputDir, videoName, fps);
        FramesFromSkipped(index, saved, frames, step, outputDir, videoName, fps);
      }
    }
  }

  /** A frame that is due is named first, with counter `saved`. */
  lemma FramesFromDue(index: nat, saved: nat, frames: nat, step: nat, outputDir: string, videoName: string, fps: real)
    requires step > 0 && index < frames && index % step == 0
    requires FramesFrom(index + 1, saved + 1, frames, step, outputDir, videoName, fps)
             == NamedFrames(MultiplesIn(index + 1, frames, step), saved + 1, outputDir, videoName, fps)
    ensures FramesFrom(index, saved, frames, step, outputDir, videoName, fps)
            == NamedFrames(MultiplesIn(index, frames, step), saved, outputDir, videoName, fps)
  {
    NumberedCons(index, MultiplesIn(index + 1, frames, step), saved, FrameNamer(outputDir, videoName, fps));
  }

  /** A frame that is not due adds nothing. */
  lemma FramesFromSkipped(index: nat, saved: nat, frames: nat, step: nat, outputDir: string, videoName: string,
                          fps: real)
    requires step > 0 && index < frames && index % step != 0
    requires FramesFrom(index + 1, saved, frames, step, outputDir, videoName, fps)
             == NamedFrames(MultiplesIn(index + 1, frames, step), saved, outputDir, videoName, fps)
    ensures FramesFrom(index, saved, frames, step, outputDir, videoName, fps)
            == NamedFrames(MultiplesIn(index, frames, step), saved, outputDir, videoName, fps)
  {
  }

  // ------------------------------------------------------------------
  // One video
  // ------------------------------------------------------------------

  /** What OpenCV reports of one video: whether it opens, its FPS and
    * frame count properties, which seek positions (in seconds) can be
    * read, and how many frames a sequential read yields. */
  datatype Capture = Capture(isOpened: bool, fps: real, totalFrames: int, readOk: real -> bool, frames: nat)

  /** The frames one video gives, or `None` when it cannot be opened. */
  function ExtractFromVideo(videoPath: string, cap: Capture, outputDir: string, intervalSeconds: real, mode: string)
    : Option<seq<string>>
    requires mode == "time" ==> intervalSeconds > 0.0
  {
    var videoName := SplitExt(Basename(videoPath)).0;
    if !cap.isOpened then None
    else
      var fps := SanitizeFps(cap.fps);
      var duration := Duration(cap.totalFrames, fps);
      if mode == "time" then Some(TimeFrom(0, outputDir, videoName, intervalSeconds, duration, cap.readOk))
      else Some(FramesFrom(0, 0, cap.frames, FrameInterval(fps, intervalSeconds), outputDir, videoName, fps))
  }

  // ------------------------------------------------------------------
  // find_video_files
  // ------------------------------------------------------------------

  predicate IsVideo(name: string) {
    var l := Lower(name);
    EndsWith(l, ".mp4") || EndsWith(l, ".avi") || EndsWith(l, ".mov")
      || EndsWith(l, ".mkv") || EndsWith(l, ".flv") || EndsWith(l, ".wmv")
  }

  /** The video paths among one directory's names, in listing order. */
  function VideosIn(dirpath: string, names: seq<string>): seq<string> {
    if names == [] then []
    else
      var n := |names| - 1;
      VideosIn(dirpath, names[..n]) + if IsVideo(names[n]) then [JoinPath(dirpath, names[n])] else []
  }

  function VisitVideos(v: Visit): seq<string> {
    VideosIn(v.dirpath, v.filenames)
  }

  function WalkVideos(visits: seq<Visit>): seq<string> {
    FlatMap(visits, VisitVideos)
  }

  /** The walk's video files when recursive, else the top directory's
    * names (sub-directories included, as `os.listdir` lists them), sorted. */
  function VideoFiles(recursive: bool, inputDir: string, tree: Dir): seq<string> {
    SortStrings(if recursive then WalkVideos(Walk(tree, inputDir)) else VideosIn(inputDir, EntryNames(tree)))
  }

  lemma {:induction false} VideosInContents(dirpath: string, names: seq<string>, p: string)
    ensures p in VideosIn(dirpath, names) <==> exists f :: f in names && IsVideo(f) && p == JoinPath(dirpath, f)
  {
    if names != [] {
      var n := |names| - 1;
      VideosInContents(dirpath, names[..n], p);
      assert names == names[..n] + [names[n]];
    }
  }

  /** `p` is a video path of directory `dir` of the walk. */
  predicate VideoOf(dir: Visit, p: string) {
    exists f :: f in dir.filenames && IsVideo(f) && p == JoinPath(dir.dirpath, f)
  }

  /** The videos of a walk are exactly the video paths of its
    * directories. */
  lemma WalkVideosMeaning(visits: seq<Visit>, p: string)
    ensures p in WalkVideos(visits) <==> exists v :: 0 <= v < |visits| && VideoOf(visits[v], p)
  {
    FlatMapContents(visits, VisitVideos, p);
    if p in WalkVideos(visits) {
      var v :| InFlatPart(visits, VisitVideos, v, p);
      VideosInContents(visits[v].dirpath, visits[v].filenames, p);
    }
    if exists v :: 0 <= v < |visits| && VideoOf(visits[v], p) {
      var v :| 0 <= v < |visits| && VideoOf(visits[v], p);
      VideosInContents(visits[v].dirpath, visits[v].filenames, p);
      assert InFlatPart(visits, VisitVideos, v, p);
    }
  }

  /** Recursively, the list is sorted and holds exactly the joined paths
    * of the file names with one of the six extensions (any case) from
    * every directory of the walk. */
  lemma WalkVideoFilesMeaning(inputDir: string, tree: Dir, p: string)
    ensures SortedStrings(VideoFiles(true, inputDir, tree))
    ensures p in VideoFiles(true, inputDir, tree) <==>
              exists v :: 0 <= v < |Walk(tree, inputDir)| && VideoOf(Walk(tree, inputDir)[v], p)
  {
    var visits := Walk(tree, inputDir);
    assert VideoFiles(true, inputDir, tree) == SortStrings(WalkVideos(visits));
    SortStringsMembers(WalkVideos(visits), p);
    WalkVideosMeaning(visits, p);
    if p in VideoFiles(true, inputDir, tree) {
      var v :| 0 <= v < |visits| && VideoOf(visits[v], p);
      assert 0 <= v < |Walk(tree, inputDir)| && VideoOf(Walk(tree, inputDir)[v], p);
    }
    if exists v :: 0 <= v < |Walk(tree, inputDir)| && VideoOf(Walk(tree, inputDir)[v], p) {
      var v :| 0 <= v < |Walk(tree, inputDir)| && VideoOf(Walk(tree, inputDir)[v], p);
      assert 0 <= v < |visits| && VideoOf(visits[v], p);
    }
  }

  /** Without recursion, the list is sorted and holds exactly the joined
    * paths of the top directory's names with one of the six extensions;
    * `os.listdir` also lists sub-directories, so a directory so named is
    * kept too. */
  lemma TopVideoFilesMeaning(inputDir: string, tree: Dir, p: string)
    ensures SortedStrings(VideoFiles(false, inputDir, tree))
    ensures p in VideoFiles(false, inputDir, tree) <==> VideoOf(Visit(inputDir, EntryNames(tree)), p)
  {
    SortStringsMembers(VideosIn(inputDir, EntryNames(tree)), p);
    VideosInContents(inputDir, EntryNames(tree), p);
  }

  /** `find_video_files` once the output directory is set up: an input
    * that emptying the output removed walks as nothing, and `os.listdir`
    * raises on it (`None`). */
  function FoundVideos(recursive: bool, inputDir: string, input: Option<Dir>): Option<seq<string>> {
    match input
    case Some(t) => Some(VideoFiles(recursive, inputDir, t))
    case None => if recursive then Some([]) else None
  }

  /** When the output is the input or a directory above it and the run
    * does not add, no video is found: the input is empty or gone, and
    * `os.listdir` raises exactly when it is gone and the search is not
    * recursive. */
  lemma OutputOverInputFindsNothing(recursive: bool, inputDir: string, tree: Dir, outputDir: string)
    requires SetupRemoves(outputDir, inputDir)
    ensures var found := FoundVideos(recursive, inputDir, AfterSetup(tree, inputDir, outputDir, false));
            && (found.None? <==> !recursive && inputDir != outputDir)
            && (found.Some? ==> found.value == [])
  {
    if inputDir == outputDir {
      var empty := Dir([]);
      assert Walk(empty, inputDir) == [Visit(inputDir, [])];
      assert WalkVideos(Walk(empty, inputDir)) == [] by {
        var visits := Walk(empty, inputDir);
        assert |visits| == 1 && visits[..0] == [] && visits[0].filenames == [];
        assert VisitVideos(visits[0]) == [];
        assert FlatMap(visits, VisitVideos) == FlatMap(visits[..0], VisitVideos) + VisitVideos(visits[0]);
      }
      assert EntryNames(empty) == [];
    }
  }

  // ------------------------------------------------------------------
  // The extractor
  // ------------------------------------------------------------------

  /** What `process_videos` adds up over the video list: videos opened,
    * frames saved, and the frame files in order. */
  datatype Summary = Summary(successful: nat, frames: nat, written: seq<string>)

  function Summarize(videos: seq<string>, captures: string -> Capture, outputDir: string, intervalSeconds: real,
                     mode: string): Summary
    requires mode == "time" ==> intervalSeconds > 0.0
  {
    if videos == [] then Summary(0, 0, [])
    else
      var n := |videos| - 1;
      var s := Summarize(videos[..n], captures, outputDir, intervalSeconds, mode);
      match ExtractFromVideo(videos[n], captures(videos[n]), outputDir, intervalSeconds, mode)
      case None => s
      case Some(w) => Summary(s.successful + 1, s.frames + |w|, s.written + w)
  }

  /** One more video adds what it gives, if it opens, to the summary of
    * those before it. */
  lemma SummarizeStep(videos: seq<string>, idx: nat, captures: string -> Capture, outputDir: string,
                      intervalSeconds: real, mode: string)
    requires mode == "time" ==> intervalSeconds > 0.0
    requires idx < |videos|
    ensures var s := Summarize(videos[..idx], captures, outputDir, intervalSeconds, mode);
            var s' := Summarize(videos[..idx + 1], captures, outputDir, intervalSeconds, mode);
            var r := ExtractFromVideo(videos[idx], captures(videos[idx]), outputDir, intervalSeconds, mode);
            && (r.None? ==> s' == s)
            && (r.Some? ==> s' == Summary(s.successful + 1, s.frames + |r.value|, s.written + r.value))
  {
    assert videos[..idx + 1][..idx] == videos[..idx];
  }

  /** The video count is never exceeded and the frame count is the number
    * of files written. */
  lemma {:induction false} SummarizeMeaning(videos: seq<string>, captures: string -> Capture, outputDir: string,
                                            intervalSeconds: real, mode: string)
    requires mode == "time" ==> intervalSeconds > 0.0
    ensures var s := Summarize(videos, captures, outputDir, intervalSeconds, mode);
            s.successful <= |videos| && s.frames == |s.written|
  {
    if videos != [] {
      var n := |videos| - 1;
      SummarizeMeaning(videos[..n], captures, outputDir, intervalSeconds, mode);
      SummarizeStep(videos, n, captures, outputDir, intervalSeconds, mode);
      assert videos[..n + 1] == videos;
    }
  }

  class VideoFrameExtractor {
    const outputDir: string
    const intervalSeconds: real
    const mode: string
    const jpegQuality: int
    const addMode: bool
    const recursive: bool

    var totalVideos: nat
    var successfulVideos: nat
    var totalFramesSaved: nat

    constructor (outputDir: string, intervalSeconds: real, mode: string, jpegQuality: int, addMode: bool, recursive: bool)
      ensures this.outputDir == outputDir && this.intervalSeconds == intervalSeconds && this.mode == mode
      ensures this.jpegQuality == jpegQuality && this.addMode == addMode && this.recursive == recursive
      ensures totalVideos == 0 && successfulVideos == 0 && totalFramesSaved == 0
    {
      this.outputDir := outputDir;
      this.intervalSeconds := intervalSeconds;
      this.mode := mode;
      this.jpegQuality := jpegQuality;
      this.addMode := addMode;
      this.recursive := recursive;
      totalVideos := 0;
      successfulVideos := 0;
      totalFramesSaved := 0;
    }

    /** The files left in the output directory: all of them in add mode,
      * none otherwise. */
    method SetupOutputDir(existing: set<string>) returns (kept: set<string>)
      ensures addMode ==> kept == existing
      ensures !addMode ==> kept == {}
    {
      kept := existing;
      if !addMode {
        kept := {};
      }
    }

    /** `f"{video_name}_{time_str}.jpg"` in the output directory. */
    method TimeFramePath(videoName: string, currentTime: real) returns (outputPath: string)
      ensures outputPath == TimePath(outputDir, videoName, currentTime)
    {
      var td := Trunc(currentTime);
      var timeStr := TimeStr(td);
      var outputFilename := videoName + "_" + timeStr + ".jpg";
      outputPath := JoinPath(outputDir, outputFilename);
    }

    /** `extract_by_time`: `current_time` grows by the interval while it is
      * within the duration. */
    method ExtractByTime(videoName: string, cap: Capture, duration: real) returns (savedCount: nat, written: seq<string>)
      requires intervalSeconds > 0.0
      ensures written == TimeFrom(0, outputDir, videoName, intervalSeconds, duration, cap.readOk)
      ensures savedCount == |written|
    {
      savedCount := 0;
      written := [];
      var currentTime := 0.0;
      ghost var k: nat := 0;
      while currentTime <= duration
        invariant currentTime == SampleTime(k, intervalSeconds)
        invariant k <= Samples(intervalSeconds, duration)
        invariant savedCount == |written|
        invariant TimeFrom(0, outputDir, videoName, intervalSeconds, duration, cap.readOk)
                  == written + TimeFrom(k, outputDir, videoName, intervalSeconds, duration, cap.readOk)
        decreases Samples(intervalSeconds, duration) - k
      {
        SamplesMeaning(intervalSeconds, duration, k);
        if !cap.readOk(currentTime) {
          TimeFromStep(k, outputDir, videoName, intervalSeconds, duration, cap.readOk);
          break;
        }
        written := SaveSample(videoName, cap, duration, k, currentTime, written);
        savedCount := savedCount + 1;
        currentTime := currentTime + intervalSeconds;
        k := k + 1;
      }
      TimeFromStep(k, outputDir, videoName, intervalSeconds, duration, cap.readOk);
    }

    /** The body of the time loop: the frame read at `currentTime`, the
      * `k`-th sample, is saved. */
    method SaveSample(videoName: string, cap: Capture, duration: real, ghost k: nat, currentTime: real,
                      written: seq<string>)
      returns (written': seq<string>)
      requires intervalSeconds > 0.0
      requires currentTime == SampleTime(k, intervalSeconds) && currentTime <= duration && cap.readOk(currentTime)
      ensures |written'| == |written| + 1
      ensures written + TimeFrom(k, outputDir, videoName, intervalSeconds, duration, cap.readOk)
              == written' + TimeFrom(k + 1, outputDir, videoName, intervalSeconds, duration, cap.readOk)
    {
      TimeFromStep(k, outputDir, videoName, intervalSeconds, duration, cap.readOk);
      var outputPath := TimeFramePath(videoName, currentTime);
      assert written + [outputPath] + TimeFrom(k + 1, outputDir, videoName, intervalSeconds, duration, cap.readOk)
             == written + ([outputPath] + TimeFrom(k + 1, outputDir, videoName, intervalSeconds, duration, cap.readOk));
      written' := written + [outputPath];
    }

    /** `extract_by_frame`: read frame after frame and save those whose
      * index is a multiple of the frame interval. */
    method ExtractByFrame(videoName: string, cap: Capture, fps: real) returns (savedCount: nat, written: seq<string>)
      ensures written == FramesFrom(0, 0, cap.frames, FrameInterval(fps, intervalSeconds), outputDir, videoName, fps)
      ensures savedCount == |written|
    {
      var frameInterval := FrameInterval(fps, intervalSeconds);
      var frames := cap.frames;
      savedCount := 0;
      written := [];
      var frameIndex := 0;
      while true
        invariant frameIndex <= frames
        invariant savedCount == |written|
        invariant FramesFrom(0, 0, frames, frameInterval, outputDir, videoName, fps)
                  == written + FramesFrom(frameIndex, savedCount, frames, frameInterval, outputDir, videoName, fps)
        decreases frames - frameIndex
      {
        if frameIndex >= frames {
          FramesFromStep(frameIndex, savedCount, frames, frameInterval, outputDir, videoName, fps);
          break;
        }
        savedCount, written := SaveIfDue(videoName, fps, frameInterval, frames, frameIndex, savedCount, written);
        frameIndex := frameIndex + 1;
      }
    }

    /** The body of the frame loop: frame `frameIndex` is saved when it is
      * a multiple of the interval. */
    method SaveIfDue(videoName: string, fps: real, frameInterval: nat, frames: nat, frameIndex: nat,
                     savedCount: nat, written: seq<string>)
      returns (savedCount': nat, written': seq<string>)
      requires frameInterval > 0 && frameIndex < frames && savedCount == |written|
      ensures savedCount' == |written'|
      ensures written + FramesFrom(frameIndex, savedCount, frames, frameInterval, outputDir, videoName, fps)
              == written' + FramesFrom(frameIndex + 1, savedCount', frames, frameInterval, outputDir, videoName, fps)
    {
      FramesFromStep(frameIndex, savedCount, frames, frameInterval, outputDir, videoName, fps);
      savedCount', written' := savedCount, written;
      if frameIndex % frameInterval == 0 {
        var outputPath := FrameOutputPath(videoName, savedCount, frameIndex, fps);
        assert written + [outputPath] + FramesFrom(frameIndex + 1, savedCount + 1, frames, frameInterval, outputDir, videoName, fps)
               == written + ([outputPath] + FramesFrom(frameIndex + 1, savedCount + 1, frames, frameInterval, outputDir, videoName, fps));
        written' := written + [outputPath];
        savedCount' := savedCount + 1;
      }
    }

    /** The name of the `saved`-th frame saved, taken at frame `index`:
      * its second is the index over the frame rate, truncated. */
    method FrameOutputPath(videoName: string, saved: nat, index: nat, fps: real) returns (outputPath: string)
      ensures outputPath == FramePath(outputDir, videoName, saved, index, fps)
    {
      var currentTimeSec := if fps > 0.0 then Trunc(index as real / fps) else 0;
      assert currentTimeSec == FrameSecond(index, fps);
      var outputFilename := videoName + "_frame_" + ZeroPad(saved, 4) + "_" + TimeStr(currentTimeSec) + ".jpg";
      outputPath := JoinPath(outputDir, outputFilename);
    }

    /** `extract_frames_from_video`. */
    method ExtractFramesFromVideo(videoPath: string, cap: Capture) returns (r: Option<seq<string>>)
      requires mode == "time" ==> intervalSeconds > 0.0
      ensures r == ExtractFromVideo(videoPath, cap, outputDir, intervalSeconds, mode)
    {
      var videoName := SplitExt(Basename(videoPath)).0;
      if !cap.isOpened {
        return None;
      }
      var fps := cap.fps;
      if fps <= 0.0 || fps > 1000.0 {
        fps := 25.0;
      }
      var duration := if fps > 0.0 then cap.totalFrames as real / fps else 0.0;
      var savedCount, written;
      if mode == "time" {
        savedCount, written := ExtractByTime(videoName, cap, duration);
      } else {
        savedCount, written := ExtractByFrame(videoName, cap, fps);
      }
      return Some(written);
    }

    /** `find_video_files`. */
    method FindVideoFiles(inputDir: string, tree: Dir) returns (videoFiles: seq<string>)
      ensures videoFiles == VideoFiles(recursive, inputDir, tree)
    {
      var found: seq<string> := [];
      if recursive {
        var visits := Walk(tree, inputDir);
        var v := 0;
        while v < |visits|
          invariant 0 <= v <= |visits|
          invariant found == WalkVideos(visits[..v])
        {
          assert visits[..v + 1][..v] == visits[..v];
          var more := CollectVideos(visits[v].dirpath, visits[v].filenames);
          found := found + more;
          v := v + 1;
        }
        assert visits[..v] == visits;
      } else {
        found := CollectVideos(inputDir, EntryNames(tree));
      }
      videoFiles := SortStrings(found);
    }

    /** The name loop of one directory. */
    static method CollectVideos(dirpath: string, files: seq<string>) returns (found: seq<string>)
      ensures found == VideosIn(dirpath, files)
    {
      found := [];
      var i := 0;
      while i < |files|
        invariant 0 <= i <= |files|
        invariant found == VideosIn(dirpath, files[..i])
      {
        assert files[..i + 1][..i] == files[..i];
        if IsVideo(files[i]) {
          found := found + [JoinPath(dirpath, files[i])];
        }
        i := i + 1;
      }
      assert files[..i] == files;
    }

    /** `process_videos`: set up the output directory, then extract from
      * every video found, counting videos and frames. With no video the
      * counters are left alone. */
    method ProcessVideos(inputDir: string, tree: Dir, existing: set<string>, captures: string -> Capture)
      returns (kept: set<string>, written: seq<string>, listed: bool)
      requires mode == "time" ==> intervalSeconds > 0.0
      modifies this
      ensures kept == (if addMode then existing else {})
      ensures var found := FoundVideos(recursive, inputDir, AfterSetup(tree, inputDir, outputDir, addMode));
              (listed <==> found.Some?)
      ensures !listed ==> written == [] && totalVideos == old(totalVideos)
                          && successfulVideos == old(successfulVideos) && totalFramesSaved == old(totalFramesSaved)
      ensures listed ==>
              var videos := FoundVideos(recursive, inputDir, AfterSetup(tree, inputDir, outputDir, addMode)).value;
              var s := Summarize(videos, captures, outputDir, intervalSeconds, mode);
              && (videos == [] ==> totalVideos == old(totalVideos) && written == [])
              && (videos != [] ==> totalVideos == |videos| && written == s.written)
              && successfulVideos == old(successfulVideos) + s.successful
              && totalFramesSaved == old(totalFramesSaved) + s.frames
    {
      kept := SetupOutputDir(existing);
      var input := AfterSetup(tree, inputDir, outputDir, addMode);
      written := [];
      if input.None? {
        listed := recursive;
        return;
      }
      listed := true;
      var videoFiles := FindVideoFiles(inputDir, input.value);
      if videoFiles == [] {
        return;
      }
      totalVideos := |videoFiles|;
      written := ExtractAll(videoFiles, captures);
    }

    /** The video loop of `process_videos`. */
    method ExtractAll(videoFiles: seq<string>, captures: string -> Capture) returns (written: seq<string>)
      requires mode == "time" ==> intervalSeconds > 0.0
      modifies this
      ensures totalVideos == old(totalVideos)
      ensures var s := Summarize(videoFiles, captures, outputDir, intervalSeconds, mode);
              && successfulVideos == old(successfulVideos) + s.successful
              && totalFramesSaved == old(totalFramesSaved) + s.frames
              && written == s.written
    {
      ghost var s0, f0 := successfulVideos, totalFramesSaved;
      written := [];
      var idx := 0;
      while idx < |videoFiles|
        invariant 0 <= idx <= |videoFiles|
        invariant totalVideos == old(totalVideos)
        invariant Tallied(videoFiles[..idx], captures, s0, f0, written)
      {
        written := ExtractOne(videoFiles, idx, captures, written, s0, f0);
        idx := idx + 1;
      }
      assert videoFiles[..idx] == videoFiles;
    }

    /** The counters and the files written agree with the summary of
      * `videos` on top of the counts `s0` and `f0`. */
    predicate Tallied(videos: seq<string>, captures: string -> Capture, s0: nat, f0: nat, written: seq<string>)
      requires mode == "time" ==> intervalSeconds > 0.0
      reads this
    {
      var s := Summarize(videos, captures, outputDir, intervalSeconds, mode);
      successfulVideos == s0 + s.successful && totalFramesSaved == f0 + s.frames && written == s.written
    }

    /** The body of the video loop, for `videoFiles[idx]`. */
    method ExtractOne(videoFiles: seq<string>, idx: nat, captures: string -> Capture, written: seq<string>,
                      ghost s0: nat, ghost f0: nat)
      returns (written': seq<string>)
      requires mode == "time" ==> intervalSeconds > 0.0
      requires idx < |videoFiles|
      requires Tallied(videoFiles[..idx], captures, s0, f0, written)
      modifies this
      ensures totalVideos == old(totalVideos)
      ensures Tallied(videoFiles[..idx + 1], captures, s0, f0, written')
    {
      SummarizeStep(videoFiles, idx, captures, outputDir, intervalSeconds, mode);
      written' := AddVideo(videoFiles[idx], captures(videoFiles[idx]), written);
    }

    method AddVideo(videoPath: string, cap: Capture, written: seq<string>) returns (written': seq<string>)
      requires mode == "time" ==> intervalSeconds > 0.0
      modifies this
      ensures totalVideos == old(totalVideos)
      ensures var r := ExtractFromVideo(videoPath, cap, outputDir, intervalSeconds, mode);
              && (r.None? ==> successfulVideos == old(successfulVideos) && totalFramesSaved == old(totalFramesSaved)
                              && written' == written)
              && (r.Some? ==> successfulVideos == old(successfulVideos) + 1
                              && totalFramesSaved == old(totalFramesSaved) + |r.value| && written' == written + r.value)
    {
      written' := written;
      var savedCount := ExtractFramesFromVideo(videoPath, cap);
      if savedCount.Some? {
        successfulVideos := successfulVideos + 1;
        totalFramesSaved := totalFramesSaved + |savedCount.value|;
        written' := written + savedCount.value;
      }
    }
  }

  // ------------------------------------------------------------------
  // main
  // ------------------------------------------------------------------

  datatype Outcome =
    | InputMissing
    | BadQuality
    | BadInterval
    | InputRemoved(kept: set<string>)   // os.listdir raises on the input the set-up removed
    | Processed(kept: set<string>, written: seq<string>)

  /** The command line: the input must be a directory, the quality within
    * 1..100 and the interval positive; only then are the videos
    * processed. */
  method RunCli(input: string, inputIsDir: bool, tree: Dir, output: string, interval: real, mode: string, quality: int,
            add: bool, noRecursive: bool, existing: set<string>, captures: string -> Capture)
    returns (outcome: Outcome)
    requires mode == "time" || mode == "frame"
    ensures !inputIsDir <==> outcome == InputMissing
    ensures inputIsDir && (quality < 1 || quality > 100) <==> outcome == BadQuality
    ensures inputIsDir && 1 <= quality <= 100 && interval <= 0.0 <==> outcome == BadInterval
    ensures inputIsDir && 1 <= quality <= 100 && interval > 0.0 ==>
              (outcome.InputRemoved? <==> FoundVideos(!noRecursive, input, AfterSetup(tree, input, output, add)).None?)
    ensures outcome.InputRemoved? ==> outcome.kept == {}
    ensures outcome.Processed? ==>
              var videos := FoundVideos(!noRecursive, input, AfterSetup(tree, input, output, add)).value;
              && outcome.kept == (if add then existing else {})
              && outcome.written == Summarize(videos, captures, output, interval, mode).written
  {
    if !inputIsDir {
      return InputMissing;
    }
    if quality < 1 || quality > 100 {
      return BadQuality;
    }
    if interval <= 0.0 {
      return BadInterval;
    }
    var extractor := new VideoFrameExtractor(output, interval, mode, quality, add, !noRecursive);
    var kept, written, listed := extractor.ProcessVideos(input, tree, existing, captures);
    if !listed {
      return InputRemoved(kept);
    }
    return Processed(kept, written);
  }
}
