/** The interval frame grabber: from every `.mp4` file found under the
  * input directory, one frame every `interval` seconds, named after the
  * video and the frame's time as `str(timedelta)` prints it. */
module GetJpgFromeVideos {
  import opened Common
  import opened DirTree
  import ExtractVideoFrames

  // ------------------------------------------------------------------
  // Timestamps
  // ------------------------------------------------------------------

  /** `str(timedelta(seconds=s))` for a whole number of seconds: `H:MM:SS`,
    * and in front `D day, ` or `D days, ` when the days, counted by floor
    * division, are not zero. */
  function TimedeltaStr(s: int): string {
    var days := s / 86400;
    var rest := s % 86400;
    var clock := NatToString(rest / 3600) + ":" + ZeroPad(rest % 3600 / 60, 2) + ":" + ZeroPad(rest % 60, 2);
    if days == 0 then clock
    else IntToString(days) + (if days == 1 || days == -1 then " day, " else " days, ") + clock
  }

  /** `text.zfill(width)`: zeros in front, after a leading sign, up to the
    * width. */
  function ZFill(s: string, width: nat): string {
    if |s| >= width then s
    else if s != [] && (s[0] == '+' || s[0] == '-') then [s[0]] + seq(width - |s|, _ => '0') + s[1..]
    else seq(width - |s|, _ => '0') + s
  }

  /** The file-name timestamp of second `s`:
    * `str(timedelta(...)).split(".")[0].zfill(8).replace(':', '-')`; a
    * whole second prints without a fraction, so the split keeps all. */
  function TimeStamp(s: int): string {
    ReplaceChar(ZFill(TimedeltaStr(s), 8), ':', '-')
  }

  lemma NoColon(s: string)
    requires AllDigits(s)
    ensures ':' !in s
  {
  }

  /** `h-mm-ss` from the clock text. */
  lemma ClockDashes(h: string, m: string, sec: string)
    requires AllDigits(h) && AllDigits(m) && AllDigits(sec)
    ensures ReplaceChar(h + ":" + m + ":" + sec, ':', '-') == h + "-" + m + "-" + sec
  {
    NoColon(h);
    NoColon(m);
    NoColon(sec);
    ReplaceCharAppend(h + ":" + m + ":", sec, ':', '-');
    ReplaceCharAppend(h + ":" + m, ":", ':', '-');
    ReplaceCharAppend(h + ":", m, ':', '-');
    ReplaceCharAppend(h, ":", ':', '-');
    ReplaceCharAbsent(h, ':', '-');
    ReplaceCharAbsent(m, ':', '-');
    ReplaceCharAbsent(sec, ':', '-');
  }

  /** Within the first day the stamp is the `HH-MM-SS` of the other frame
    * extractor: `zfill(8)` supplies the missing leading zero of a
    * one-digit hour. */
  lemma TimeStampFirstDay(s: int)
    requires 0 <= s < 86400
    ensures TimeStamp(s) == ExtractVideoFrames.TimeStr(s)
  {
    var h, m, sec := s / 3600, s % 3600 / 60, s % 60;
    ExtractVideoFrames.DayFields(s);
    ExtractVideoFrames.TwoDigits(h);
    ExtractVideoFrames.TwoDigits(m);
    ExtractVideoFrames.TwoDigits(sec);
    var hh, mm, ss := ZeroPad(h, 2), ZeroPad(m, 2), ZeroPad(sec, 2);
    calc {
      TimeStamp(s);
      ReplaceChar(ZFill(TimedeltaStr(s), 8), ':', '-');
      { FirstDayClock(s); }
      ReplaceChar(ZFill(NatToString(h) + ":" + mm + ":" + ss, 8), ':', '-');
      { HourPadded(h, mm, ss); }
      ReplaceChar(hh + ":" + mm + ":" + ss, ':', '-');
      { ClockDashes(hh, mm, ss); }
      hh + "-" + mm + "-" + ss;
      { assert s % 86400 == s; }
      ExtractVideoFrames.TimeStr(s);
    }
  }

  /** Within the first day there is no day part. */
  lemma FirstDayClock(s: int)
    requires 0 <= s < 86400
    ensures TimedeltaStr(s) == NatToString(s / 3600) + ":" + ZeroPad(s % 3600 / 60, 2) + ":" + ZeroPad(s % 60, 2)
  {
    assert s / 86400 == 0 && s % 86400 == s;
  }

  /** Padding a clock to eight characters pads its hour to two digits. */
  lemma HourPadded(h: nat, mm: string, ss: string)
    requires h < 24 && |mm| == 2 && |ss| == 2
    ensures ZFill(NatToString(h) + ":" + mm + ":" + ss, 8) == ZeroPad(h, 2) + ":" + mm + ":" + ss
  {
    var hh := NatToString(h);
    if h < 10 {
      assert hh == [DigitChar(h)];
      assert ZFill(hh + ":" + mm + ":" + ss, 8) == "0" + (hh + ":" + mm + ":" + ss);
    } else {
      assert hh == NatToString(h / 10) + [DigitChar(h % 10)];
      assert |hh| == 2;
    }
  }

  /** From the first full day on the stamp keeps the day count in front of
    * an unpadded hour: `D day, H-MM-SS` or `D days, H-MM-SS`. */
  lemma TimeStampLaterDays(s: int)
    requires s >= 86400
    ensures var d, r := s / 86400, s % 86400;
            TimeStamp(s) == NatToString(d) + (if d == 1 then " day, " else " days, ")
                            + NatToString(r / 3600) + "-" + ZeroPad(r % 3600 / 60, 2) + "-" + ZeroPad(r % 60, 2)
  {
    var d, r := s / 86400, s % 86400;
    var word := if d == 1 then " day, " else " days, ";
    var h, m, sec := NatToString(r / 3600), ZeroPad(r % 3600 / 60, 2), ZeroPad(r % 60, 2);
    ExtractVideoFrames.TwoDigits(r % 3600 / 60);
    ExtractVideoFrames.TwoDigits(r % 60);
    NatToStringRoundTrip(r / 3600);
    NatToStringRoundTrip(d);
    var front := NatToString(d) + word;
    var clock := h + ":" + m + ":" + sec;
    calc {
      TimeStamp(s);
      ReplaceChar(ZFill(TimedeltaStr(s), 8), ':', '-');
      { LaterClock(s); }
      ReplaceChar(ZFill(front + clock, 8), ':', '-');
      { assert |front + clock| >= 8; }
      ReplaceChar(front + clock, ':', '-');
      { ReplaceCharAppend(front, clock, ':', '-'); }
      ReplaceChar(front, ':', '-') + ReplaceChar(clock, ':', '-');
      { DayWords(d, word); ClockDashes(h, m, sec); }
      front + (h + "-" + m + "-" + sec);
      NatToString(d) + word + h + "-" + m + "-" + sec;
    }
  }

  /** From the first full day on, the days come first. */
  lemma LaterClock(s: int)
    requires s >= 86400
    ensures var d, r := s / 86400, s % 86400;
            TimedeltaStr(s) == NatToString(d) + (if d == 1 then " day, " else " days, ")
                               + (NatToString(r / 3600) + ":" + ZeroPad(r % 3600 / 60, 2) + ":" + ZeroPad(r % 60, 2))
  {
    assert s / 86400 >= 1;
  }

  /** The day part holds no colon. */
  lemma DayWords(d: nat, word: string)
    requires word == " day, " || word == " days, "
    ensures ReplaceChar(NatToString(d) + word, ':', '-') == NatToString(d) + word
  {
    NatToStringRoundTrip(d);
    NoColon(NatToString(d));
    ReplaceCharAbsent(NatToString(d) + word, ':', '-');
  }

  // ------------------------------------------------------------------
  // One video
  // ------------------------------------------------------------------

  /** `f"{video_name}_{time_str}.jpg"` in the output directory, for the
    * frame at second `t`. */
  function StampPath(outputDir: string, videoName: string, t: real): string {
    JoinPath(outputDir, videoName + "_" + TimeStamp(t.Floor) + ".jpg")
  }

  /** The frames saved from seek time `k · interval` on: the loop ends at
    * the first time past the duration or whose read fails. */
  function StampsFrom(k: nat, outputDir: string, videoName: string, interval: real, duration: real,
                      readOk: real -> bool): seq<string>
    requires interval > 0.0
    decreases ExtractVideoFrames.Samples(interval, duration) - k
  {
    ExtractVideoFrames.SamplesMeaning(interval, duration, k);
    if !ExtractVideoFrames.Sampled(readOk, interval, duration, k) then []
    else [StampPath(outputDir, videoName, ExtractVideoFrames.SampleTime(k, interval))]
         + StampsFrom(k + 1, outputDir, videoName, interval, duration, readOk)
  }

  /** The files of seek times `k` to `m - 1`. */
  function StampPaths(k: nat, m: nat, outputDir: string, videoName: string, interval: real): (r: seq<string>)
    requires k <= m
    ensures |r| == m - k
  {
    seq(m - k, j requires 0 <= j < m - k => StampPath(outputDir, videoName, ExtractVideoFrames.SampleTime(k + j, interval)))
  }

  lemma StampPathsCons(k: nat, m: nat, outputDir: string, videoName: string, interval: real)
    requires k < m
    ensures StampPaths(k, m, outputDir, videoName, interval)
            == [StampPath(outputDir, videoName, ExtractVideoFrames.SampleTime(k, interval))]
               + StampPaths(k + 1, m, outputDir, videoName, interval)
  {
    var rest := StampPaths(k + 1, m, outputDir, videoName, interval);
    forall j | 1 <= j < m - k
      ensures StampPaths(k, m, outputDir, videoName, interval)[j] == rest[j - 1]
    {
      assert k + 1 + (j - 1) == k + j;
    }
  }

  /** One frame is saved for each seek time `0, interval, 2·interval, …`
    * within the duration, named after its second, up to the first whose
    * read fails. */
  lemma {:induction false} StampsFromMeaning(k: nat, outputDir: string, videoName: string, interval: real,
                                             duration: real, readOk: real -> bool)
    requires interval > 0.0
    ensures exists m :: k <= m
              && StampsFrom(k, outputDir, videoName, interval, duration, readOk)
                 == StampPaths(k, m, outputDir, videoName, interval)
              && (forall j :: k <= j < m ==> ExtractVideoFrames.Sampled(readOk, interval, duration, j))
              && !ExtractVideoFrames.Sampled(readOk, interval, duration, m)
    decreases ExtractVideoFrames.Samples(interval, duration) - k
  {
    ExtractVideoFrames.SamplesMeaning(interval, duration, k);
    if !ExtractVideoFrames.Sampled(readOk, interval, duration, k) {
      assert StampsFrom(k, outputDir, videoName, interval, duration, readOk)
             == StampPaths(k, k, outputDir, videoName, interval);
    } else {
      StampsFromMeaning(k + 1, outputDir, videoName, interval, duration, readOk);
      var m :| k + 1 <= m
               && StampsFrom(k + 1, outputDir, videoName, interval, duration, readOk)
                  == StampPaths(k + 1, m, outputDir, videoName, interval)
               && (forall j :: k + 1 <= j < m ==> ExtractVideoFrames.Sampled(readOk, interval, duration, j))
               && !ExtractVideoFrames.Sampled(readOk, interval, duration, m);
      StampPathsCons(k, m, outputDir, videoName, interval);
    }
  }

  /** What OpenCV reports of one video: whether it opens, its FPS and
    * frame count properties, and which seek positions (in seconds) can be
    * read. */
  datatype Capture = Capture(isOpened: bool, fps: real, totalFrames: int, readOk: real -> bool)

  /** `extract_frames`: nothing when the video cannot be opened, else the
    * frames of the seek loop over `total_frames / fps` seconds (zero when
    * the FPS is not positive). */
  function ExtractFrames(videoPath: string, cap: Capture, outputDir: string, interval: int): seq<string>
    requires interval > 0
  {
    if !cap.isOpened then []
    else StampsFrom(0, outputDir, SplitExt(Basename(videoPath)).0, interval as real,
                    ExtractVideoFrames.Duration(cap.totalFrames, cap.fps), cap.readOk)
  }

  /** `extract_frames`. */
  method ExtractFramesRun(videoPath: string, cap: Capture, outputDir: string, interval: int) returns (written: seq<string>)
    requires interval > 0
    ensures written == ExtractFrames(videoPath, cap, outputDir, interval)
  {
    var videoName := SplitExt(Basename(videoPath)).0;
    if !cap.isOpened {
      return [];
    }
    var fps := cap.fps;
    var duration := if fps > 0.0 then cap.totalFrames as real / fps else 0.0;
    written := SeekLoop(outputDir, videoName, interval, duration, cap.readOk);
  }

  /** The seek loop: `current_time` grows by the interval while it is
    * within the duration and the frame there can be read. */
  method SeekLoop(outputDir: string, videoName: string, interval: int, duration: real, readOk: real -> bool)
    returns (written: seq<string>)
    requires interval > 0
    ensures written == StampsFrom(0, outputDir, videoName, interval as real, duration, readOk)
  {
    var step := interval as real;
    written := [];
    var currentTime := 0.0;
    var success := true;
    ghost var k: nat := 0;
    while success && currentTime <= duration
      invariant currentTime == ExtractVideoFrames.SampleTime(k, step)
      invariant k <= ExtractVideoFrames.Samples(step, duration)
      invariant StampsFrom(0, outputDir, videoName, step, duration, readOk)
                == written + StampsFrom(k, outputDir, videoName, step, duration, readOk)
      invariant !success ==> StampsFrom(k, outputDir, videoName, step, duration, readOk) == []
      decreases ExtractVideoFrames.Samples(step, duration) - k, success
    {
      ExtractVideoFrames.SamplesMeaning(step, duration, k);
      success := readOk(currentTime);
      if !success {
        break;
      }
      written := SaveStamp(outputDir, videoName, interval, duration, readOk, k, currentTime, written);
      currentTime := currentTime + step;
      k := k + 1;
    }
  }

  /** The body of the seek loop: the frame read at `currentTime`, the
    * `k`-th seek time, is saved. */
  method SaveStamp(outputDir: string, videoName: string, interval: int, duration: real, readOk: real -> bool,
                   ghost k: nat, currentTime: real, written: seq<string>)
    returns (written': seq<string>)
    requires interval > 0
    requires currentTime == ExtractVideoFrames.SampleTime(k, interval as real)
    requires currentTime <= duration && readOk(currentTime)
    ensures written + StampsFrom(k, outputDir, videoName, interval as real, duration, readOk)
            == written' + StampsFrom(k + 1, outputDir, videoName, interval as real, duration, readOk)
  {
    var timeStr := TimeStamp(currentTime.Floor);
    var outputPath := JoinPath(outputDir, videoName + "_" + timeStr + ".jpg");
    var rest := StampsFrom(k + 1, outputDir, videoName, interval as real, duration, readOk);
    assert StampsFrom(k, outputDir, videoName, interval as real, duration, readOk) == [outputPath] + rest;
    assert written + [outputPath] + rest == written + ([outputPath] + rest);
    written' := written + [outputPath];
  }

  // ------------------------------------------------------------------
  // process_videos
  // ------------------------------------------------------------------

  /** `type=bool` on the `--is_add` text: any non-empty text is true,
    * `"False"` included; without the option it is false. */
  function IsAddArg(arg: Option<string>): bool {
    arg.Some? && arg.value != ""
  }

  predicate IsMp4(name: string) {
    EndsWith(Lower(name), ".mp4")
  }

  /** The video paths among one walked directory's file names, in listing
    * order. */
  function Mp4In(dirpath: string, names: seq<string>): seq<string> {
    if names == [] then []
    else
      var n := |names| - 1;
      Mp4In(dirpath, names[..n]) + if IsMp4(names[n]) then [JoinPath(dirpath, names[n])] else []
  }

  function VisitMp4(v: Visit): seq<string> {
    Mp4In(v.dirpath, v.filenames)
  }

  /** The videos in walk order: directory by directory, each in listing
    * order. */
  function WalkMp4(visits: seq<Visit>): seq<string> {
    FlatMap(visits, VisitMp4)
  }

  predicate Mp4Of(v: Visit, p: string) {
    exists f :: f in v.filenames && IsMp4(f) && p == JoinPath(v.dirpath, f)
  }

  lemma {:induction false} Mp4InContents(dirpath: string, names: seq<string>, p: string)
    ensures p in Mp4In(dirpath, names) <==> exists f :: f in names && IsMp4(f) && p == JoinPath(dirpath, f)
  {
    if names != [] {
      var n := |names| - 1;
      Mp4InContents(dirpath, names[..n], p);
      assert names == names[..n] + [names[n]];
    }
  }

  /** The videos are exactly the joined paths of the file names ending in
    * `.mp4`, in any case, of every directory of the walk. */
  lemma WalkMp4Meaning(visits: seq<Visit>, p: string)
    ensures p in WalkMp4(visits) <==> exists v :: 0 <= v < |visits| && Mp4Of(visits[v], p)
  {
    FlatMapContents(visits, VisitMp4, p);
    if p in WalkMp4(visits) {
      var v :| InFlatPart(visits, VisitMp4, v, p);
      Mp4InContents(visits[v].dirpath, visits[v].filenames, p);
    }
    if exists v :: 0 <= v < |visits| && Mp4Of(visits[v], p) {
      var v :| 0 <= v < |visits| && Mp4Of(visits[v], p);
      Mp4InContents(visits[v].dirpath, visits[v].filenames, p);
      assert InFlatPart(visits, VisitMp4, v, p);
    }
  }

  function FramesOfVideo(captures: string -> Capture, outputDir: string, interval: int): string -> seq<string>
    requires interval > 0
  {
    v => ExtractFrames(v, captures(v), outputDir, interval)
  }

  /** What `process_videos` leaves: the files kept in the output directory
    * and the frames written, in order. */
  datatype Result = Result(kept: set<string>, written: seq<string>)

  /** What `os.walk(input_dir)` yields once the output directory is set
    * up: the input as given, unless emptying the output removed it. */
  function InputVisits(inputDir: string, tree: Dir, outputDir: string, isAdd: bool): seq<Visit> {
    WalkPresent(AfterSetup(tree, inputDir, outputDir, isAdd), inputDir)
  }

  /** The output directory is emptied unless adding, then every video of
    * the walk is extracted in walk order. */
  function ProcessVideos(inputDir: string, tree: Dir, outputDir: string, interval: int, isAdd: bool,
                         existing: set<string>, captures: string -> Capture): Result
    requires interval > 0
  {
    Result(if isAdd then existing else {},
           FlatMap(WalkMp4(InputVisits(inputDir, tree, outputDir, isAdd)), FramesOfVideo(captures, outputDir, interval)))
  }

  /** Frame file `p` comes from video `k` of the list. */
  predicate WrittenFor(videos: seq<string>, captures: string -> Capture, outputDir: string, interval: int, k: int,
                       p: string)
    requires interval > 0
  {
    0 <= k < |videos| && p in ExtractFrames(videos[k], captures(videos[k]), outputDir, interval)
  }

  /** In add mode the old files stay, otherwise none does; and a frame is
    * written exactly when one of the walk's videos yields it. */
  lemma ProcessVideosMeaning(inputDir: string, tree: Dir, outputDir: string, interval: int, isAdd: bool,
                             existing: set<string>, captures: string -> Capture, p: string)
    requires interval > 0
    ensures isAdd ==> ProcessVideos(inputDir, tree, outputDir, interval, isAdd, existing, captures).kept == existing
    ensures !isAdd ==> ProcessVideos(inputDir, tree, outputDir, interval, isAdd, existing, captures).kept == {}
    ensures p in ProcessVideos(inputDir, tree, outputDir, interval, isAdd, existing, captures).written
            ==> exists k :: WrittenFor(WalkMp4(InputVisits(inputDir, tree, outputDir, isAdd)), captures, outputDir, interval, k, p)
    ensures (exists k :: WrittenFor(WalkMp4(InputVisits(inputDir, tree, outputDir, isAdd)), captures, outputDir, interval, k, p))
            ==> p in ProcessVideos(inputDir, tree, outputDir, interval, isAdd, existing, captures).written
  {
    var videos := WalkMp4(InputVisits(inputDir, tree, outputDir, isAdd));
    var r := ProcessVideos(inputDir, tree, outputDir, interval, isAdd, existing, captures);
    assert r.written == FlatMap(videos, FramesOfVideo(captures, outputDir, interval));
    WrittenMeaning(videos, captures, outputDir, interval, p);
  }

  /** When the output is the input or a directory above it and the run
    * does not add, emptying the output removes the videos first, and
    * nothing is written. */
  lemma OutputOverInputWritesNothing(inputDir: string, tree: Dir, outputDir: string, interval: int,
                                     existing: set<string>, captures: string -> Capture)
    requires interval > 0 && SetupRemoves(outputDir, inputDir)
    ensures ProcessVideos(inputDir, tree, outputDir, interval, false, existing, captures) == Result({}, [])
  {
    var visits := InputVisits(inputDir, tree, outputDir, false);
    RemovedInputHasNoFiles(tree, inputDir, outputDir);
    NoFilesNoMp4(visits);
  }

  lemma {:induction false} NoFilesNoMp4(visits: seq<Visit>)
    requires forall v :: v in visits ==> v.filenames == []
    ensures WalkMp4(visits) == []
  {
    if visits != [] {
      var n := |visits| - 1;
      NoFilesNoMp4(visits[..n]);
      assert visits[n] in visits;
      assert VisitMp4(visits[n]) == [];
    }
  }

  /** The frames of a list of videos are those of its members. */
  lemma WrittenMeaning(videos: seq<string>, captures: string -> Capture, outputDir: string, interval: int, p: string)
    requires interval > 0
    ensures p in FlatMap(videos, FramesOfVideo(captures, outputDir, interval))
            <==> exists k :: WrittenFor(videos, captures, outputDir, interval, k, p)
  {
    var f := FramesOfVideo(captures, outputDir, interval);
    FlatMapContents(videos, f, p);
    if p in FlatMap(videos, f) {
      var k :| InFlatPart(videos, f, k, p);
      assert WrittenFor(videos, captures, outputDir, interval, k, p);
    }
    if exists k :: WrittenFor(videos, captures, outputDir, interval, k, p) {
      var k :| WrittenFor(videos, captures, outputDir, interval, k, p);
      assert InFlatPart(videos, f, k, p);
    }
  }

  /** `process_videos`. */
  method ProcessVideosRun(inputDir: string, tree: Dir, outputDir: string, interval: int, isAdd: bool,
                          existing: set<string>, captures: string -> Capture)
    returns (r: Result)
    requires interval > 0
    ensures r == ProcessVideos(inputDir, tree, outputDir, interval, isAdd, existing, captures)
  {
    var kept := existing;
    if !isAdd {
      kept := {};
    }
    var visits := InputVisits(inputDir, tree, outputDir, isAdd);
    var f := FramesOfVideo(captures, outputDir, interval);
    var written: seq<string> := [];
    var v := 0;
    while v < |visits|
      invariant 0 <= v <= |visits|
      invariant written == FlatMap(WalkMp4(visits[..v]), f)
      decreases |visits| - v
    {
      var w := ProcessDirectory(visits[v].dirpath, visits[v].filenames, outputDir, interval, captures);
      WalkMp4Snoc(visits, v);
      FlatMapAppend(WalkMp4(visits[..v]), VisitMp4(visits[v]), f);
      written := written + w;
      v := v + 1;
    }
    assert visits[..v] == visits;
    r := Result(kept, written);
  }

  lemma WalkMp4Snoc(visits: seq<Visit>, v: nat)
    requires v < |visits|
    ensures WalkMp4(visits[..v + 1]) == WalkMp4(visits[..v]) + VisitMp4(visits[v])
  {
    assert visits[..v + 1][..v] == visits[..v];
  }

  /** The inner loop over one directory's files. */
  method ProcessDirectory(dirpath: string, files: seq<string>, outputDir: string, interval: int,
                          captures: string -> Capture)
    returns (written: seq<string>)
    requires interval > 0
    ensures written == FlatMap(Mp4In(dirpath, files), FramesOfVideo(captures, outputDir, interval))
  {
    var f := FramesOfVideo(captures, outputDir, interval);
    written := [];
    var i := 0;
    while i < |files|
      invariant 0 <= i <= |files|
      invariant written == FlatMap(Mp4In(dirpath, files[..i]), f)
      decreases |files| - i
    {
      written := ProcessFile(dirpath, files, i, outputDir, interval, captures, written);
      i := i + 1;
    }
    assert files[..i] == files;
  }

  /** The body of the inner loop: file `i`, when it is a video. */
  method ProcessFile(dirpath: string, files: seq<string>, i: nat, outputDir: string, interval: int,
                     captures: string -> Capture, written: seq<string>)
    returns (written': seq<string>)
    requires interval > 0 && i < |files|
    requires written == FlatMap(Mp4In(dirpath, files[..i]), FramesOfVideo(captures, outputDir, interval))
    ensures written' == FlatMap(Mp4In(dirpath, files[..i + 1]), FramesOfVideo(captures, outputDir, interval))
  {
    var f := FramesOfVideo(captures, outputDir, interval);
    var file := files[i];
    assert files[..i + 1][..i] == files[..i];
    var found := if IsMp4(file) then [JoinPath(dirpath, file)] else [];
    assert Mp4In(dirpath, files[..i + 1]) == Mp4In(dirpath, files[..i]) + found;
    FlatMapAppend(Mp4In(dirpath, files[..i]), found, f);
    written' := written;
    if IsMp4(file) {
      var videoPath := JoinPath(dirpath, file);
      var w := ExtractFramesRun(videoPath, captures(videoPath), outputDir, interval);
      assert FlatMap([videoPath], f) == w by {
        assert [videoPath][..0] == [];
      }
      written' := written + w;
    }
  }
}
