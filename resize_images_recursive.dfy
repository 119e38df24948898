/** Letterboxing every image below a root directory to a fixed size, in
  * place: which files count as images, the size arithmetic, the status of
  * each file and the counters of the walk. */
module ResizeImagesRecursive {
  import opened Common
  import opened DirTree

  // ------------------------------------------------------------------
  // is_image_file
  // ------------------------------------------------------------------

  const SupportedExts: set<string> := {".jpg", ".jpeg", ".png", ".bmp", ".tif", ".tiff", ".webp"}

  /** `set(map(str.lower, exts)) if exts else SUPPORTED_EXTS`. */
  function ExtSet(exts: Option<seq<string>>): (r: set<string>)
    ensures exts.None? || exts.value == [] ==> r == SupportedExts
    ensures exts.Some? && exts.value != [] ==> forall e :: e in r <==> exists x :: x in exts.value && Lower(x) == e
  {
    if exts.None? || exts.value == [] then SupportedExts
    else set x | x in exts.value :: Lower(x)
  }

  /** `is_image_file(filename, exts)`: the lower-cased extension is among
    * the lower-cased wanted ones. */
  predicate IsImageFile(filename: string, exts: Option<seq<string>>) {
    Lower(SplitExt(filename).1) in ExtSet(exts)
  }

  /** A name made of a stem with a non-dot character and an extension
    * is an image exactly when the extension's lower case is wanted,
    * whatever the case of its letters. */
  lemma IsImageFileMeaning(stem: string, ext: string, exts: Option<seq<string>>)
    requires exists j :: 0 <= j < |stem| && stem[j] != '.'
    requires IsExtension(ext)
    ensures IsImageFile(stem + ext, exts) <==> Lower(ext) in ExtSet(exts)
  {
    SplitExtOfJoin(stem, ext);
  }

  lemma SplitExtOfJoin(stem: string, ext: string)
    requires exists j :: 0 <= j < |stem| && stem[j] != '.'
    requires IsExtension(ext)
    ensures SplitExt(stem + ext) == (stem, ext)
  {
    var name := stem + ext;
    var i := LastIndexOf(name, '.');
    assert name[|stem|] == '.';
    forall k | |stem| < k < |name| ensures name[k] != '.' {
      assert name[k] == ext[k - |stem|];
    }
    assert i == |stem|;
    var j :| 0 <= j < |stem| && stem[j] != '.';
    assert name[j] != '.';
    assert name[..i] == stem && name[i..] == ext;
  }

  /** A name without any dot has no extension and is never an image with
    * the default extensions. */
  lemma NoDotNoImage(name: string)
    requires forall k :: 0 <= k < |name| ==> name[k] != '.'
    ensures !IsImageFile(name, None)
  {
    assert LastIndexOf(name, '.') == -1;
  }

  // ------------------------------------------------------------------
  // resize_with_padding
  // ------------------------------------------------------------------

  /** The scaled size, the interpolation (`shrink` is `INTER_AREA`), the
    * borders, and whether the final safety resize runs. */
  datatype Fit = Fit(newW: int, newH: int, shrink: bool, top: int, bottom: int, left: int, right: int, resizedAgain: bool)

  /** `min(target_w / w, target_h / h)`. */
  function Scale(w: nat, h: nat, tw: int, th: int): real
    requires w > 0 && h > 0
  {
    MinR(tw as real / w as real, th as real / h as real)
  }

  /** `max(1, int(round(side * scale)))`. */
  function ScaledSide(side: nat, scale: real): int {
    Max(1, Round(side as real * scale))
  }

  /** The borders around a `newW`×`newH` picture and the final check. */
  function Border(newW: int, newH: int, shrink: bool, tw: int, th: int): Fit {
    var padW := Max(0, tw - newW);
    var padH := Max(0, th - newH);
    var top := padH / 2;
    var left := padW / 2;
    Fit(newW, newH, shrink, top, padH - top, left, padW - left,
        newW + left + (padW - left) != tw || newH + top + (padH - top) != th)
  }

  /** `resize_with_padding(img, target_w, target_h)` on a `w`×`h` image;
    * `None` for an image with no pixels. The targets are positive, as
    * `main` checks. */
  function ResizeWithPadding(w: nat, h: nat, tw: int, th: int): Option<Fit>
    requires tw > 0 && th > 0
  {
    if h == 0 || w == 0 then None
    else
      var scale := Scale(w, h, tw, th);
      Some(Border(ScaledSide(w, scale), ScaledSide(h, scale), scale < 1.0, tw, th))
  }

  /** One side: the scaled side is between 1 and the target, and is the
    * target when the scale is that side's. */
  lemma SideFit(side: nat, scale: real, target: int)
    requires side > 0 && target > 0 && scale <= target as real / side as real
    ensures 1 <= ScaledSide(side, scale) <= target
    ensures scale == target as real / side as real ==> ScaledSide(side, scale) == target
  {
    assert side as real * scale <= side as real * (target as real / side as real);
    assert side as real * (target as real / side as real) == target as real;
  }

  /** A picture with pixels is scaled to at least 1×1 and at most the
    * target, filling one side exactly; the borders are non-negative and
    * split with the odd pixel at the bottom or right; the padded picture
    * already has the target size, so the final safety resize never runs
    * and the result is exactly `tw`×`th`. */
  lemma FitMeaning(w: nat, h: nat, tw: int, th: int)
    requires tw > 0 && th > 0
    ensures ResizeWithPadding(w, h, tw, th).None? <==> w == 0 || h == 0
    ensures var r := ResizeWithPadding(w, h, tw, th);
            r.Some? ==>
              && 1 <= r.value.newW <= tw && 1 <= r.value.newH <= th
              && (r.value.newW == tw || r.value.newH == th)
              && 0 <= r.value.top <= r.value.bottom <= r.value.top + 1
              && 0 <= r.value.left <= r.value.right <= r.value.left + 1
              && r.value.top + r.value.newH + r.value.bottom == th
              && r.value.left + r.value.newW + r.value.right == tw
              && !r.value.resizedAgain
  {
    if w > 0 && h > 0 {
      var scale := Scale(w, h, tw, th);
      SideFit(w, scale, tw);
      SideFit(h, scale, th);
    }
  }

  // ------------------------------------------------------------------
  // process_image_inplace
  // ------------------------------------------------------------------

  /** What `cv2.imread` gives: nothing, a `w`×`h` picture, or an
    * exception. */
  datatype ReadResult = Unreadable | Picture(w: nat, h: nat) | ReadRaised(readMsg: string)

  /** What writing the temporary file and `os.replace` do. */
  datatype WriteResult = Replaced | TempNotWritten | WriteRaised(writeMsg: string)

  /** The `(modified, msg)` pair: `Changed` is `(True, "")`, each other
    * status a `False` with its message. */
  datatype Status = Changed | ReadFailed | AlreadyTarget | ProcessFailed | TempWriteFailed | Raised(msg: string)

  function ProcessImage(read: ReadResult, write: WriteResult, tw: int, th: int): Status
    requires tw > 0 && th > 0
  {
    match read
    case Unreadable => ReadFailed
    case ReadRaised(m) => Raised(m)
    case Picture(w, h) =>
      if w == tw && h == th then AlreadyTarget
      else if ResizeWithPadding(w, h, tw, th).None? then ProcessFailed
      else
        match write
        case Replaced => Changed
        case TempNotWritten => TempWriteFailed
        case WriteRaised(m) => Raised(m)
  }

  /** A file is rewritten only when it was read, is not already of the
    * target size, has pixels and its temporary copy replaced it; one of
    * the target size is reported as such and left alone. */
  lemma ProcessImageMeaning(read: ReadResult, write: WriteResult, tw: int, th: int)
    requires tw > 0 && th > 0
    ensures ProcessImage(read, write, tw, th) == Changed <==>
              read.Picture? && (read.w != tw || read.h != th) && read.w > 0 && read.h > 0 && write == Replaced
    ensures read.Picture? && read.w == tw && read.h == th ==> ProcessImage(read, write, tw, th) == AlreadyTarget
  {
    if read.Picture? {
      FitMeaning(read.w, read.h, tw, th);
    }
  }

  /** `f".{name_only}.tmp{ext_lower}"`. */
  function TmpName(baseName: string): string {
    var (nameOnly, ext) := SplitExt(baseName);
    "." + nameOnly + ".tmp" + Lower(ext)
  }

  /** The temporary file beside the image. */
  function TmpPath(imgPath: string): string {
    JoinPath(Dirname(imgPath), TmpName(Basename(imgPath)))
  }

  lemma SplitExtParts(name: string)
    ensures SplitExt(name).0 + SplitExt(name).1 == name
  {
  }

  /** The temporary file sits in the image's directory under the hidden
    * name `.{stem}.tmp{ext}`, which is never the image's own name, so
    * writing it cannot clobber the original before the replace. */
  lemma TmpPathMeaning(imgPath: string)
    ensures Basename(TmpPath(imgPath)) == TmpName(Basename(imgPath))
    ensures TmpName(Basename(imgPath)) != Basename(imgPath)
    ensures TmpName(Basename(imgPath))[0] == '.'
  {
    var base := Basename(imgPath);
    var (nameOnly, ext) := SplitExt(base);
    SplitExtParts(base);
    var t := TmpName(base);
    assert |t| == |base| + 5;
    forall k | 0 <= k < |base| ensures base[k] != '/' {
      assert base[k] == imgPath[LastIndexOf(imgPath, '/') + 1 + k];
    }
    forall k | 0 <= k < |t| ensures t[k] != '/' {
      if 1 <= k < 1 + |nameOnly| {
        assert t[k] == base[k - 1];
      } else if 1 + |nameOnly| + 4 <= k {
        assert t[k] == Lower(ext)[k - 1 - |nameOnly| - 4];
        assert ext == base[|nameOnly|..];
        assert Lower(ext)[k - 1 - |nameOnly| - 4] == LowerChar(base[k - 5]);
      }
    }
    BasenameOfJoin(Dirname(imgPath), t);
  }

  // ------------------------------------------------------------------
  // walk_and_process
  // ------------------------------------------------------------------

  /** The image paths of one directory, in listing order. */
  function ImagesIn(dirpath: string, names: seq<string>): seq<string> {
    if names == [] then []
    else
      var n := |names| - 1;
      ImagesIn(dirpath, names[..n]) + if IsImageFile(names[n], None) then [JoinPath(dirpath, names[n])] else []
  }

  /** Every image path the walk visits, in visiting order. */
  function AllImages(visits: seq<Visit>): seq<string> {
    if visits == [] then []
    else
      var n := |visits| - 1;
      AllImages(visits[..n]) + ImagesIn(visits[n].dirpath, visits[n].filenames)
  }

  datatype Stats = Stats(total: nat, changed: nat, skipped: nat, failed: nat)

  /** How the loop counts one status: a failure is a non-empty message. */
  function Count(s: Stats, st: Status): Stats {
    match st
    case Changed => s.(changed := s.changed + 1)
    case AlreadyTarget => s.(skipped := s.skipped + 1)
    case Raised(m) => if m == "" then s.(skipped := s.skipped + 1) else s.(failed := s.failed + 1)
    case _ => s.(failed := s.failed + 1)
  }

  /** The counters after the image paths `paths`; `io` gives each path's
    * read and write outcome. */
  function Tally(paths: seq<string>, io: string -> (ReadResult, WriteResult), tw: int, th: int, dryRun: bool): Stats
    requires tw > 0 && th > 0
  {
    if paths == [] then Stats(0, 0, 0, 0)
    else
      var n := |paths| - 1;
      var s := Tally(paths[..n], io, tw, th, dryRun).(total := Tally(paths[..n], io, tw, th, dryRun).total + 1);
      if dryRun then s else Count(s, ProcessImage(io(paths[n]).0, io(paths[n]).1, tw, th))
  }

  /** Every image visited is counted once; outside a dry run it is counted
    * exactly once more as changed, skipped or failed, and a dry run counts
    * nothing else. */
  lemma {:induction false} TallyMeaning(paths: seq<string>, io: string -> (ReadResult, WriteResult), tw: int, th: int, dryRun: bool)
    requires tw > 0 && th > 0
    ensures var s := Tally(paths, io, tw, th, dryRun);
            && s.total == |paths|
            && (!dryRun ==> s.changed + s.skipped + s.failed == s.total)
            && (dryRun ==> s.changed == 0 && s.skipped == 0 && s.failed == 0)
  {
    if paths != [] {
      TallyMeaning(paths[..|paths| - 1], io, tw, th, dryRun);
    }
  }

  /** The walk visits exactly the image files of the tree's directories,
    * each joined to its directory's path. */
  lemma {:induction false} ImagesInContents(dirpath: string, names: seq<string>, p: string)
    ensures p in ImagesIn(dirpath, names) <==> exists f :: f in names && IsImageFile(f, None) && p == JoinPath(dirpath, f)
  {
    if names != [] {
      var n := |names| - 1;
      ImagesInContents(dirpath, names[..n], p);
      assert names == names[..n] + [names[n]];
    }
  }

  /** `p` is an image of the `i`th visited directory. */
  predicate ImageOfVisit(visits: seq<Visit>, i: int, p: string) {
    0 <= i < |visits| && p in ImagesIn(visits[i].dirpath, visits[i].filenames)
  }

  lemma {:induction false} AllImagesContents(visits: seq<Visit>, p: string)
    ensures p in AllImages(visits) <==> exists i :: ImageOfVisit(visits, i, p)
  {
    if visits != [] {
      var n := |visits| - 1;
      var front := visits[..n];
      AllImagesContents(front, p);
      assert AllImages(visits) == AllImages(front) + ImagesIn(visits[n].dirpath, visits[n].filenames);
      if exists i :: ImageOfVisit(front, i, p) {
        var i :| ImageOfVisit(front, i, p);
        assert visits[i] == front[i];
        assert ImageOfVisit(visits, i, p);
      }
      if exists i :: ImageOfVisit(visits, i, p) {
        var i :| ImageOfVisit(visits, i, p);
        if i < n {
          assert front[i] == visits[i];
          assert ImageOfVisit(front, i, p);
        }
      }
      if p in ImagesIn(visits[n].dirpath, visits[n].filenames) {
        assert ImageOfVisit(visits, n, p);
      }
    }
  }

  /** The inner loop of `walk_and_process`: the files of one directory,
    * counted on top of the images `before` already seen. */
  method ProcessDirectory(dirpath: string, filenames: seq<string>, io: string -> (ReadResult, WriteResult),
                          tw: int, th: int, dryRun: bool, ghost before: seq<string>, start: Stats)
    returns (stats: Stats)
    requires tw > 0 && th > 0
    requires start == Tally(before, io, tw, th, dryRun)
    ensures stats == Tally(before + ImagesIn(dirpath, filenames), io, tw, th, dryRun)
  {
    stats := start;
    assert before + ImagesIn(dirpath, filenames[..0]) == before;
    var j := 0;
    while j < |filenames|
      invariant 0 <= j <= |filenames|
      invariant stats == Tally(before + ImagesIn(dirpath, filenames[..j]), io, tw, th, dryRun)
    {
      stats := ProcessFile(dirpath, filenames, j, io, tw, th, dryRun, before, stats);
      j := j + 1;
    }
    assert filenames[..j] == filenames;
  }

  /** The body of the inner loop, for `filenames[j]`. */
  method ProcessFile(dirpath: string, filenames: seq<string>, j: nat, io: string -> (ReadResult, WriteResult),
                     tw: int, th: int, dryRun: bool, ghost before: seq<string>, current: Stats)
    returns (stats: Stats)
    requires tw > 0 && th > 0 && j < |filenames|
    requires current == Tally(before + ImagesIn(dirpath, filenames[..j]), io, tw, th, dryRun)
    ensures stats == Tally(before + ImagesIn(dirpath, filenames[..j + 1]), io, tw, th, dryRun)
  {
    var total, changed, skipped, failed := current.total, current.changed, current.skipped, current.failed;
    assert filenames[..j + 1][..j] == filenames[..j];
    var fname := filenames[j];
    ghost var seen := before + ImagesIn(dirpath, filenames[..j]);
    if IsImageFile(fname, None) {
      total := total + 1;
      var path := JoinPath(dirpath, fname);
      assert before + ImagesIn(dirpath, filenames[..j + 1]) == seen + [path];
      assert (seen + [path])[..|seen|] == seen;
      if !dryRun {
        var status := ProcessImage(io(path).0, io(path).1, tw, th);
        if status == Changed {
          changed := changed + 1;
        } else if status == AlreadyTarget {
          skipped := skipped + 1;
        } else if status.Raised? && status.msg == "" {
          skipped := skipped + 1;
        } else {
          failed := failed + 1;
        }
      }
    } else {
      assert before + ImagesIn(dirpath, filenames[..j + 1]) == seen;
    }
    stats := Stats(total, changed, skipped, failed);
  }

  /** The loops of `walk_and_process`, over the triples of `os.walk`. */
  method WalkAndProcess(visits: seq<Visit>, io: string -> (ReadResult, WriteResult), tw: int, th: int, dryRun: bool)
    returns (stats: Stats)
    requires tw > 0 && th > 0
    ensures stats == Tally(AllImages(visits), io, tw, th, dryRun)
  {
    stats := Stats(0, 0, 0, 0);
    var i := 0;
    while i < |visits|
      invariant 0 <= i <= |visits|
      invariant stats == Tally(AllImages(visits[..i]), io, tw, th, dryRun)
    {
      assert visits[..i + 1][..i] == visits[..i];
      stats := ProcessDirectory(visits[i].dirpath, visits[i].filenames, io, tw, th, dryRun, AllImages(visits[..i]), stats);
      i := i + 1;
    }
    assert visits[..i] == visits;
  }

  datatype Outcome = BadSize | RootMissing | Walked(stats: Stats)

  /** `main`: the size is checked, then the root, then the tree is
    * walked; `root` is `None` when the path is not a directory. */
  method ResizeAll(rootPath: string, root: Option<Dir>, width: int, height: int, dryRun: bool,
              io: string -> (ReadResult, WriteResult))
    returns (outcome: Outcome)
    ensures outcome == BadSize <==> width <= 0 || height <= 0
    ensures outcome == RootMissing <==> width > 0 && height > 0 && root.None?
    ensures outcome.Walked? ==>
              width > 0 && height > 0 && root.Some?
              && outcome.stats == Tally(AllImages(Walk(root.value, rootPath)), io, width, height, dryRun)
  {
    if width <= 0 || height <= 0 {
      return BadSize;
    }
    if root.None? {
      return RootMissing;
    }
    var stats := WalkAndProcess(Walk(root.value, rootPath), io, width, height, dryRun);
    return Walked(stats);
  }
}
