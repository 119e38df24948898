/** Splitting a flat YOLO folder into `train/` and `val/`: the ratio check,
  * the image/label matching, the shuffled split and the copy
  * destinations. */
module SplitYoloData {
  import opened Common

  /** An entry of `images/`: its name and whether it is a regular file. */
  datatype Entry = Entry(name: string, isFile: bool)

  const ImageExtensions: set<string> := {".jpg", ".jpeg", ".png", ".bmp", ".gif", ".webp"}

  /** `(filename, base_name)` when the entry is an image file whose label
    * `labels/{base_name}.txt` is a file. */
  function MatchOf(e: Entry, labelFiles: set<string>): Option<(string, string)> {
    var (base, ext) := SplitExt(e.name);
    if e.isFile && Lower(ext) in ImageExtensions && base + ".txt" in labelFiles then Some((e.name, base))
    else None
  }

  function Matched(listing: seq<Entry>, labelFiles: set<string>): seq<(string, string)> {
    if listing == [] then []
    else
      var front := Matched(listing[..|listing| - 1], labelFiles);
      match MatchOf(listing[|listing| - 1], labelFiles)
      case Some(m) => front + [m]
      case None => front
  }

  /** A pair is matched exactly when it comes from a listed regular file
    * with an allowed lower-cased extension whose label file exists; it
    * carries the file's base name. */
  lemma {:induction false} MatchedContents(listing: seq<Entry>, labelFiles: set<string>, m: (string, string))
    ensures |Matched(listing, labelFiles)| <= |listing|
    ensures m in Matched(listing, labelFiles) <==>
              exists i :: 0 <= i < |listing| && listing[i].isFile && listing[i].name == m.0
                && m.1 == SplitExt(m.0).0 && Lower(SplitExt(m.0).1) in ImageExtensions
                && m.1 + ".txt" in labelFiles
  {
    if listing != [] {
      var n := |listing| - 1;
      var front := listing[..n];
      MatchedContents(front, labelFiles, m);
      if exists i :: 0 <= i < |listing| && listing[i].isFile && listing[i].name == m.0
           && m.1 == SplitExt(m.0).0 && Lower(SplitExt(m.0).1) in ImageExtensions && m.1 + ".txt" in labelFiles {
        var i :| 0 <= i < |listing| && listing[i].isFile && listing[i].name == m.0
           && m.1 == SplitExt(m.0).0 && Lower(SplitExt(m.0).1) in ImageExtensions && m.1 + ".txt" in labelFiles;
        if i < n {
          assert front[i] == listing[i];
        }
      }
      if m in Matched(front, labelFiles) {
        var i :| 0 <= i < |front| && front[i].isFile && front[i].name == m.0
           && m.1 == SplitExt(m.0).0 && Lower(SplitExt(m.0).1) in ImageExtensions && m.1 + ".txt" in labelFiles;
        assert front[i] == listing[i];
      }
    }
  }

  /** `get_matched_files` over the directory listing; an image without a
    * label only draws a warning. */
  method GetMatchedFiles(listing: seq<Entry>, labelFiles: set<string>) returns (files: seq<(string, string)>)
    ensures files == Matched(listing, labelFiles)
  {
    files := [];
    var i := 0;
    while i < |listing|
      invariant 0 <= i <= |listing|
      invariant files == Matched(listing[..i], labelFiles)
    {
      var e := listing[i];
      assert listing[..i + 1][..i] == listing[..i];
      if e.isFile {
        var ext := Lower(SplitExt(e.name).1);
        if ext in ImageExtensions {
          var base := SplitExt(e.name).0;
          if base + ".txt" in labelFiles {
            files := files + [(e.name, base)];
          }
        }
      }
      i := i + 1;
    }
    assert listing[..i] == listing;
  }

  /** `split_files`, with `random.shuffle`'s result given as `shuffled`: the
    * first `int(n * ratio)` items are the training set, the rest the
    * validation set. */
  method SplitFiles(fileList: seq<(string, string)>, ratio: real, shuffled: seq<(string, string)>)
    returns (train: seq<(string, string)>, val: seq<(string, string)>)
    requires 0.0 < ratio < 1.0
    requires multiset(shuffled) == multiset(fileList)
    ensures train + val == shuffled
    ensures multiset(train + val) == multiset(fileList)
    ensures |train| == SplitIndex(|fileList|, ratio)
    ensures fileList != [] ==> val != []
  {
    assert |shuffled| == |multiset(shuffled)| == |fileList|;
    var k := SplitIndex(|shuffled|, ratio);
    train := shuffled[..k];
    val := shuffled[k..];
    assert train + val == shuffled;
  }

  /** A path below the output (or the root) directory, as components. */
  type Path = seq<string>

  datatype Copy = Copy(src: Path, dst: Path)

  function CopiesOf(files: seq<(string, string)>, mode: string): seq<Copy> {
    if files == [] then []
    else
      var (img, base) := files[|files| - 1];
      CopiesOf(files[..|files| - 1], mode)
        + [Copy(["images", img], [mode, "images", img]), Copy(["labels", base + ".txt"], [mode, "labels", base + ".txt"])]
  }

  /** Every pair is copied twice: the image to `{mode}/images/{filename}`
    * and the label `labels/{base}.txt` to `{mode}/labels/{base}.txt`. */
  lemma {:induction false} CopiesShape(files: seq<(string, string)>, mode: string)
    ensures |CopiesOf(files, mode)| == 2 * |files|
    ensures forall i :: 0 <= i < |files| ==>
              CopiesOf(files, mode)[2 * i] == Copy(["images", files[i].0], [mode, "images", files[i].0])
              && CopiesOf(files, mode)[2 * i + 1] == Copy(["labels", files[i].1 + ".txt"], [mode, "labels", files[i].1 + ".txt"])
  {
    if files != [] {
      var n := |files| - 1;
      CopiesShape(files[..n], mode);
      forall i | 0 <= i < n
        ensures CopiesOf(files, mode)[2 * i] == CopiesOf(files[..n], mode)[2 * i]
        ensures CopiesOf(files, mode)[2 * i + 1] == CopiesOf(files[..n], mode)[2 * i + 1]
      {
      }
    }
  }

  /** `copy_dataset_files`. */
  method CopyDatasetFiles(files: seq<(string, string)>, mode: string) returns (copies: seq<Copy>)
    ensures copies == CopiesOf(files, mode)
  {
    copies := [];
    var i := 0;
    while i < |files|
      invariant 0 <= i <= |files|
      invariant copies == CopiesOf(files[..i], mode)
    {
      assert files[..i + 1][..i] == files[..i];
      var (img, base) := files[i];
      copies := copies + [Copy(["images", img], [mode, "images", img])];
      var lbl := base + ".txt";
      copies := copies + [Copy(["labels", lbl], [mode, "labels", lbl])];
      i := i + 1;
    }
    assert files[..i] == files;
  }

  datatype Outcome =
    | BadRatio
    | MissingDirectory
    | NoPairs
    | Split(train: seq<(string, string)>, val: seq<(string, string)>, created: seq<Path>, copies: seq<Copy>)

  /** The four directories `create_dirs` makes. */
  const OutputDirs: seq<Path> := [["train", "images"], ["train", "labels"], ["val", "images"], ["val", "labels"]]

  /** `main`, with the shuffle's result as `shuffled` (a reordering of the
    * matched pairs). An invalid ratio is refused before anything else; a
    * missing `images/` or `labels/` and an empty match both end the run
    * before any output directory is created. */
  method SplitYolo(ratioArg: Option<string>, imagesIsDir: bool, labelsIsDir: bool,
                   listing: seq<Entry>, labelFiles: set<string>, shuffled: seq<(string, string)>)
    returns (outcome: Outcome)
    requires multiset(shuffled) == multiset(Matched(listing, labelFiles))
    ensures outcome == BadRatio <==> ratioArg.Some? && ValidRatio(ratioArg.value).None?
    ensures outcome == MissingDirectory <==> !(ratioArg.Some? && ValidRatio(ratioArg.value).None?) && !(imagesIsDir && labelsIsDir)
    ensures outcome == NoPairs <==>
              !(ratioArg.Some? && ValidRatio(ratioArg.value).None?) && imagesIsDir && labelsIsDir
              && Matched(listing, labelFiles) == []
    ensures outcome.Split? ==>
              var ratio := if ratioArg.Some? then ValidRatio(ratioArg.value).value else 0.9;
              && Matched(listing, labelFiles) != []
              && outcome.train + outcome.val == shuffled
              && |outcome.train| == SplitIndex(|shuffled|, ratio)
              && outcome.val != []
              && outcome.created == OutputDirs
              && outcome.copies == CopiesOf(outcome.train, "train") + CopiesOf(outcome.val, "val")
  {
    var ratio := 0.9;
    if ratioArg.Some? {
      var r := ValidRatio(ratioArg.value);
      if r.None? {
        return BadRatio;
      }
      ratio := r.value;
    }
    if !imagesIsDir || !labelsIsDir {
      return MissingDirectory;
    }
    var matched := GetMatchedFiles(listing, labelFiles);
    if matched == [] {
      return NoPairs;
    }
    var train, val := SplitFiles(matched, ratio, shuffled);
    var trainCopies := CopyDatasetFiles(train, "train");
    var valCopies := CopyDatasetFiles(val, "val");
    return Split(train, val, OutputDirs, trainCopies + valCopies);
  }
}
