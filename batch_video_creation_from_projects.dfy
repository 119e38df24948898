/** One video per project folder: the numbered sequence folders of a
  * project in numeric order, the numbered `.jpg` frames of each in numeric
  * order, and the video jobs this yields. */
module BatchVideoCreationFromProjects {
  import opened Common
  import opened Sorting
  import opened DirTree

  /** `int(x)` for an all-digit `x`. */
  function NumericValue(x: string): int {
    if DigitsOrEmpty(x) then DigitsValue(x) else 0
  }

  // ------------------------------------------------------------------
  // get_sorted_numeric_dirs
  // ------------------------------------------------------------------

  /** `get_sorted_numeric_dirs`: the all-digit sub-directory names, by
    * integer value; `[]` for a path that is not a directory (`None`). */
  function NumericDirs(d: Option<Dir>): (r: seq<string>)
    ensures SortedByKey(r, NumericValue)
    ensures d.None? ==> r == []
    ensures forall x :: x in r <==> d.Some? && Lookup(d.value.entries, x).Some? && AllDigits(x)
  {
    if d.None? then []
    else
      var names := DirNames(d.value.entries);
      var digits := Filter(names, AllDigits);
      FilterContents(names, AllDigits);
      forall x ensures x in names <==> Lookup(d.value.entries, x).Some? {
        DirNamesFound(d.value.entries, x);
      }
      var r := SortByKey(digits, NumericValue);
      assert forall x :: x in r <==> x in multiset(r);
      r
  }

  // ------------------------------------------------------------------
  // get_sorted_numeric_images
  // ------------------------------------------------------------------

  /** A listed name (file or directory) that counts as a frame: its
    * lower-cased name ends in `.jpg` and its `splitext` stem is all
    * digits. */
  predicate FrameFile(f: string) {
    EndsWith(Lower(f), ".jpg") && AllDigits(SplitExt(f).0)
  }

  /** `(int(name_part), os.path.join(folder_path, f_name))`. */
  datatype Frame = Frame(index: int, path: string)

  function FrameIndex(fr: Frame): int { fr.index }

  function FrameOf(folderPath: string, f: string): Option<Frame> {
    if FrameFile(f) then Some(Frame(DigitsValue(SplitExt(f).0), JoinPath(folderPath, f))) else None
  }

  /** `imgs` before the sort: the frames of the listed names, in listing
    * order. */
  function FoundFrames(folderPath: string, names: seq<string>): seq<Frame> {
    if names == [] then []
    else
      var n := |names| - 1;
      FoundFrames(folderPath, names[..n])
        + match FrameOf(folderPath, names[n]) case Some(fr) => [fr] case None => []
  }

  lemma {:induction false} FoundFramesContents(folderPath: string, names: seq<string>, fr: Frame)
    ensures fr in FoundFrames(folderPath, names) <==> exists f :: f in names && FrameOf(folderPath, f) == Some(fr)
  {
    if names != [] {
      var n := |names| - 1;
      FoundFramesContents(folderPath, names[..n], fr);
      assert names == names[..n] + [names[n]];
    }
  }

  /** `imgs` after `imgs.sort(key=lambda x: x[0])`: a stable sort on the
    * frame number. */
  function SortedFrames(folderPath: string, d: Option<Dir>): (r: seq<Frame>)
    ensures SortedByKey(r, FrameIndex)
    ensures forall fr :: fr in r <==>
              d.Some? && exists f :: f in EntryNames(d.value) && FrameOf(folderPath, f) == Some(fr)
  {
    if d.None? then []
    else
      var found := FoundFrames(folderPath, EntryNames(d.value));
      forall fr ensures fr in found <==> exists f :: f in EntryNames(d.value) && FrameOf(folderPath, f) == Some(fr) {
        FoundFramesContents(folderPath, EntryNames(d.value), fr);
      }
      var r := SortByKey(found, FrameIndex);
      assert forall fr :: fr in r <==> fr in multiset(r);
      r
  }

  function Paths(frames: seq<Frame>): (r: seq<string>)
    ensures |r| == |frames|
    ensures forall i :: 0 <= i < |frames| ==> r[i] == frames[i].path
  {
    seq(|frames|, i requires 0 <= i < |frames| => frames[i].path)
  }

  /** `get_sorted_numeric_images`: the frame paths, in frame-number order
    * (so `2.jpg` comes before `10.jpg`). */
  function NumericImages(folderPath: string, d: Option<Dir>): seq<string> {
    Paths(SortedFrames(folderPath, d))
  }

  /** The paths come in non-decreasing frame-number order. */
  lemma NumericImagesOrdered(folderPath: string, d: Option<Dir>)
    ensures var r := NumericImages(folderPath, d);
            var frames := SortedFrames(folderPath, d);
            |r| == |frames|
            && (forall i, j :: 0 <= i < j < |r| ==> frames[i].index <= frames[j].index)
            && (forall i :: 0 <= i < |r| ==> r[i] == frames[i].path)
  {
    var frames := SortedFrames(folderPath, d);
    assert SortedByKey(frames, FrameIndex);
  }

  /** Every frame name of the folder has its joined path listed. */
  lemma NumericImagesComplete(folderPath: string, d: Option<Dir>, f: string)
    requires d.Some? && f in EntryNames(d.value) && FrameFile(f)
    ensures JoinPath(folderPath, f) in NumericImages(folderPath, d)
  {
    var frames := SortedFrames(folderPath, d);
    var r := NumericImages(folderPath, d);
    var fr := FrameOf(folderPath, f).value;
    assert fr in frames;
    var i :| 0 <= i < |frames| && frames[i] == fr;
    assert r[i] == JoinPath(folderPath, f);
  }

  /** The listing loop of `get_sorted_numeric_images`. */
  method CollectFrames(folderPath: string, names: seq<string>) returns (imgs: seq<Frame>)
    ensures imgs == FoundFrames(folderPath, names)
  {
    imgs := [];
    var i := 0;
    while i < |names|
      invariant 0 <= i <= |names|
      invariant imgs == FoundFrames(folderPath, names[..i])
    {
      assert names[..i + 1][..i] == names[..i];
      var fName := names[i];
      if EndsWith(Lower(fName), ".jpg") {
        var namePart := SplitExt(fName).0;
        if AllDigits(namePart) {
          imgs := imgs + [Frame(DigitsValue(namePart), JoinPath(folderPath, fName))];
        }
      }
      i := i + 1;
    }
    assert names[..i] == names;
  }

  /** `get_sorted_numeric_images`: collect, sort on the frame number, keep
    * the paths. */
  method GetSortedNumericImages(folderPath: string, d: Option<Dir>) returns (paths: seq<string>)
    ensures paths == NumericImages(folderPath, d)
  {
    if d.None? {
      return [];
    }
    var imgs := CollectFrames(folderPath, EntryNames(d.value));
    imgs := SortByKey(imgs, FrameIndex);
    SortedFramesFound(folderPath, d);
    paths := PathsOf(imgs);
  }

  lemma SortedFramesFound(folderPath: string, d: Option<Dir>)
    requires d.Some?
    ensures SortedFrames(folderPath, d) == SortByKey(FoundFrames(folderPath, EntryNames(d.value)), FrameIndex)
  {
  }

  /** The path-keeping loop of `get_sorted_numeric_images`. */
  method PathsOf(imgs: seq<Frame>) returns (paths: seq<string>)
    ensures paths == Paths(imgs)
  {
    paths := [];
    var k := 0;
    while k < |imgs|
      invariant 0 <= k <= |imgs|
      invariant paths == Paths(imgs[..k])
    {
      paths := paths + [imgs[k].path];
      k := k + 1;
    }
    assert imgs[..k] == imgs;
  }

  // ------------------------------------------------------------------
  // process_all_projects
  // ------------------------------------------------------------------

  /** The frames of one sequence folder of a project. */
  function SeqFolderFrames(projectPath: string, pd: Dir, name: string): seq<string> {
    NumericImages(JoinPath(projectPath, name), Lookup(pd.entries, name))
  }

  /** The frames of sequence folders `seqs` of a project, folder after
    * folder. */
  function FramesOf(projectPath: string, pd: Dir, seqs: seq<string>): seq<string> {
    FlatMap(seqs, name => SeqFolderFrames(projectPath, pd, name))
  }

  /** `all_project_images`: the sequence folders' frames in numeric folder
    * order. */
  function ProjectFrames(projectPath: string, pd: Dir): seq<string> {
    FramesOf(projectPath, pd, NumericDirs(Some(pd)))
  }

  /** `p` is a frame of sequence folder `k`. */
  predicate InSeqFolder(projectPath: string, pd: Dir, seqs: seq<string>, k: int, p: string) {
    0 <= k < |seqs| && p in SeqFolderFrames(projectPath, pd, seqs[k])
  }

  /** The concatenation is exact: a frame of the project is a frame of one
    * of its sequence folders, and each of their frames is one of it. */
  lemma FramesOfContents(projectPath: string, pd: Dir, seqs: seq<string>, p: string)
    ensures p in FramesOf(projectPath, pd, seqs) <==> exists k :: InSeqFolder(projectPath, pd, seqs, k, p)
  {
    var f := name => SeqFolderFrames(projectPath, pd, name);
    FlatMapContents(seqs, f, p);
    forall k ensures InFlatPart(seqs, f, k, p) <==> InSeqFolder(projectPath, pd, seqs, k, p) {
    }
  }

  /** One video to write: `{project}.mp4` in the grand root, from the given
    * frames. */
  datatype VideoJob = VideoJob(output: string, frames: seq<string>, fps: int)

  function JobsOf(rootPath: string, entries: seq<Entry>, fps: int): seq<VideoJob> {
    if entries == [] then []
    else
      var e := entries[|entries| - 1];
      JobsOf(rootPath, entries[..|entries| - 1], fps)
        + if e.Folder? && ProjectFrames(JoinPath(rootPath, e.name), e.content) != [] then
            [VideoJob(JoinPath(rootPath, e.name + ".mp4"), ProjectFrames(JoinPath(rootPath, e.name), e.content), fps)]
          else []
  }

  /** A project yields a video exactly when it collects a frame; the video
    * is named after it and beside it, and holds its frames. */
  lemma {:induction false} JobsMeaning(rootPath: string, entries: seq<Entry>, fps: int, name: string, pd: Dir)
    ensures Folder(name, pd) in entries && ProjectFrames(JoinPath(rootPath, name), pd) != [] ==>
              VideoJob(JoinPath(rootPath, name + ".mp4"), ProjectFrames(JoinPath(rootPath, name), pd), fps) in JobsOf(rootPath, entries, fps)
    ensures forall j :: j in JobsOf(rootPath, entries, fps) ==>
              j.frames != [] && j.fps == fps
              && exists e :: e in entries && e.Folder? && j.output == JoinPath(rootPath, e.name + ".mp4")
                             && j.frames == ProjectFrames(JoinPath(rootPath, e.name), e.content)
  {
    if entries != [] {
      var n := |entries| - 1;
      JobsMeaning(rootPath, entries[..n], fps, name, pd);
      assert entries == entries[..n] + [entries[n]];
    }
  }

  /** One project: its sequence folders, then their frames. */
  method CollectProject(projectPath: string, pd: Dir) returns (allProjectImages: seq<string>)
    ensures allProjectImages == ProjectFrames(projectPath, pd)
  {
    var sequenceFolders := NumericDirs(Some(pd));
    allProjectImages := CollectFolders(projectPath, pd, sequenceFolders);
  }

  /** The sequence-folder loop of one project. */
  method CollectFolders(projectPath: string, pd: Dir, sequenceFolders: seq<string>) returns (allProjectImages: seq<string>)
    ensures allProjectImages == FramesOf(projectPath, pd, sequenceFolders)
  {
    allProjectImages := [];
    var i := 0;
    while i < |sequenceFolders|
      invariant 0 <= i <= |sequenceFolders|
      invariant allProjectImages == FramesOf(projectPath, pd, sequenceFolders[..i])
    {
      assert sequenceFolders[..i + 1][..i] == sequenceFolders[..i];
      var seqFolderName := sequenceFolders[i];
      assert FramesOf(projectPath, pd, sequenceFolders[..i + 1])
          == FramesOf(projectPath, pd, sequenceFolders[..i])
             + SeqFolderFrames(projectPath, pd, seqFolderName);
      var images := GetSortedNumericImages(JoinPath(projectPath, seqFolderName), Lookup(pd.entries, seqFolderName));
      allProjectImages := allProjectImages + images;
      i := i + 1;
    }
    assert sequenceFolders[..i] == sequenceFolders;
  }

  datatype Outcome = RootMissing | Jobs(jobs: seq<VideoJob>)

  /** `process_all_projects`, with `create_video_from_image_paths` recorded
    * as a job: every sub-directory of the grand root, in listing order. */
  method ProcessAllProjects(rootPath: string, root: Option<Dir>, fps: int) returns (outcome: Outcome)
    ensures root.None? <==> outcome == RootMissing
    ensures root.Some? ==> outcome == Jobs(JobsOf(rootPath, root.value.entries, fps))
  {
    if root.None? {
      return RootMissing;
    }
    var entries := root.value.entries;
    var jobs: seq<VideoJob> := [];
    var i := 0;
    while i < |entries|
      invariant 0 <= i <= |entries|
      invariant jobs == JobsOf(rootPath, entries[..i], fps)
    {
      jobs := ProcessProject(rootPath, entries, i, fps, jobs);
      i := i + 1;
    }
    assert entries[..i] == entries;
    return Jobs(jobs);
  }

  /** The body of the project loop, for `entries[i]`. */
  method ProcessProject(rootPath: string, entries: seq<Entry>, i: nat, fps: int, current: seq<VideoJob>)
    returns (jobs: seq<VideoJob>)
    requires i < |entries| && current == JobsOf(rootPath, entries[..i], fps)
    ensures jobs == JobsOf(rootPath, entries[..i + 1], fps)
  {
    assert entries[..i + 1][..i] == entries[..i];
    jobs := current;
    var e := entries[i];
    if e.Folder? {
      var projectPath := JoinPath(rootPath, e.name);
      var images := CollectProject(projectPath, e.content);
      if images != [] {
        jobs := jobs + [VideoJob(JoinPath(rootPath, e.name + ".mp4"), images, fps)];
      }
    }
  }
}
