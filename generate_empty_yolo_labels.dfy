/** Creating empty YOLO label files for background images: extension
  * normalisation, the image-to-label path mapping, and the
  * create/overwrite/skip decision with its counters. */
module GenerateEmptyYoloLabels {
  import opened Common

  /** A path as its list of components. */
  type Path = seq<string>

  /** `e.lower() if e.startswith('.') else '.' + e.lower()`. */
  function NormaliseExt(e: string): (r: string)
    ensures |r| >= 1 && r[0] == '.'
    ensures Lower(r) == r
  {
    var r := if StartsWith(e, ".") then Lower(e) else "." + Lower(e);
    assert forall i :: 0 <= i < |r| ==> LowerChar(r[i]) == r[i];
    r
  }

  function NormaliseExts(exts: seq<string>): (r: set<string>)
    ensures forall e :: e in exts ==> NormaliseExt(e) in r
    ensures forall x :: x in r ==> exists e :: e in exts && NormaliseExt(e) == x
  {
    set e | e in exts :: NormaliseExt(e)
  }

  /** `is_image_file` for a regular file: its lower-cased suffix is one of
    * the normalised extensions. */
  predicate IsImageFile(name: string, exts: set<string>) {
    Lower(PathSuffix(name)) in exts
  }

  /** A file path whose last component is an image name. */
  predicate IsImagePath(p: Path, exts: set<string>) {
    p != [] && IsImageFile(p[|p| - 1], exts)
  }

  /** `find_images`: the regular files of the listing (the top level, or
    * the whole tree with `--recursive`) that are images; paths are relative
    * to the images directory. */
  function FindImages(files: seq<Path>, exts: set<string>): (images: seq<Path>)
    ensures forall i :: 0 <= i < |images| ==> images[i] != [] && IsImageFile(images[i][|images[i]| - 1], exts)
    ensures forall p :: p in images <==> p in files && p != [] && IsImageFile(p[|p| - 1], exts)
  {
    var images := Filter(files, p => IsImagePath(p, exts));
    FilterContents(files, p => IsImagePath(p, exts));
    assert forall i :: 0 <= i < |images| ==> images[i] in images;
    images
  }

  /** The default labels root: the sibling `labels` of the images
    * directory (the root directory is its own parent). */
  function LabelsRoot(imagesDir: Path, labelDir: Option<Path>): Path {
    if labelDir.Some? then labelDir.value
    else if imagesDir == [] then ["labels"]
    else imagesDir[..|imagesDir| - 1] + ["labels"]
  }

  /** `labels_root / Path(rel).with_suffix('.txt')` for an image at `rel`
    * below the images directory. */
  function LabelPath(root: Path, rel: Path): (r: Path)
    requires rel != []
    ensures |r| == |root| + |rel|
    ensures r[..|root|] == root
    ensures r[|root|..|r| - 1] == rel[..|rel| - 1]
    ensures r[|r| - 1] == PathStem(rel[|rel| - 1]) + ".txt"
  {
    root + rel[..|rel| - 1] + [PathStem(rel[|rel| - 1]) + ".txt"]
  }

  /** The label of an image in a sub-directory lands in the matching
    * sub-directory of the labels root, named after the image's stem. */
  lemma LabelPathMirrorsImage(root: Path, rel: Path, name: string)
    ensures LabelPath(root, rel + [name]) == root + rel + [PathStem(name) + ".txt"]
  {
    assert (rel + [name])[..|rel|] == rel;
  }

  /** The label path of every image, in listing order. */
  function LabelPaths(root: Path, images: seq<Path>): (labels: seq<Path>)
    requires forall i :: 0 <= i < |images| ==> images[i] != []
    ensures |labels| == |images|
  {
    seq(|images|, i requires 0 <= i < |images| => LabelPath(root, images[i]))
  }

  datatype Tally = Tally(created: nat, overwritten: nat, skipped: nat)

  /** Whether the label of image `i` exists when the loop reaches it: it
    * existed before, or (outside dry-run) an earlier image mapped to the
    * same label path and created it. */
  predicate ExistsWhenReached(labels: seq<Path>, i: nat, existing: set<Path>, dryRun: bool)
    requires i < |labels|
  {
    labels[i] in existing || (!dryRun && labels[i] in labels[..i])
  }

  function Classify(present: bool, dryRun: bool, overwrite: bool, t: Tally): Tally {
    if present then
      if overwrite then (if dryRun then t else t.(overwritten := t.overwritten + 1))
      else t.(skipped := t.skipped + 1)
    else if dryRun then t
    else t.(created := t.created + 1)
  }

  /** The counters after the loop over `labels`. */
  function TallyOf(labels: seq<Path>, existing: set<Path>, dryRun: bool, overwrite: bool): Tally {
    if labels == [] then Tally(0, 0, 0)
    else
      var n := |labels| - 1;
      assert labels[..n][..n] == labels[..n];
      Classify(ExistsWhenReached(labels, n, existing, dryRun), dryRun, overwrite,
               TallyOf(labels[..n], existing, dryRun, overwrite))
  }

  /** The label files a real run truncates or creates, in order. */
  function Written(labels: seq<Path>, existing: set<Path>, dryRun: bool, overwrite: bool): seq<Path> {
    if labels == [] || dryRun then []
    else
      var n := |labels| - 1;
      Written(labels[..n], existing, dryRun, overwrite)
        + (if !ExistsWhenReached(labels, n, existing, dryRun) || overwrite then [labels[n]] else [])
  }

  /** Outside dry-run every image is counted exactly once. */
  lemma {:induction false} RealRunCountsEveryImage(labels: seq<Path>, existing: set<Path>, overwrite: bool)
    ensures var t := TallyOf(labels, existing, false, overwrite);
            t.created + t.overwritten + t.skipped == |labels|
  {
    if labels != [] {
      RealRunCountsEveryImage(labels[..|labels| - 1], existing, overwrite);
    }
  }

  /** A dry run creates and overwrites nothing; only existing labels without
    * `--overwrite` are counted, as skipped. */
  lemma {:induction false} DryRunTally(labels: seq<Path>, existing: set<Path>, overwrite: bool)
    ensures var t := TallyOf(labels, existing, true, overwrite);
            t.created == 0 && t.overwritten == 0 && t.skipped <= |labels| && (overwrite ==> t.skipped == 0)
    ensures Written(labels, existing, true, overwrite) == []
  {
    if labels != [] {
      DryRunTally(labels[..|labels| - 1], existing, overwrite);
    }
  }

  /** Without `--overwrite` an existing label is never rewritten. */
  lemma {:induction false} ExistingKeptWithoutOverwrite(labels: seq<Path>, existing: set<Path>, p: Path)
    requires p in existing
    ensures p !in Written(labels, existing, false, false)
  {
    if labels != [] {
      ExistingKeptWithoutOverwrite(labels[..|labels| - 1], existing, p);
    }
  }

  datatype Outcome = BadImagesDir | NoImages | Done(tally: Tally, written: seq<Path>)

  /** `main` from the image listing on: a missing images directory exits
    * with status 2 and an empty listing with status 0, both before any
    * change; otherwise each image's label is created, truncated or
    * skipped in listing order. */
  method GenerateLabels(imagesDirOk: bool, imagesDir: Path, labelDir: Option<Path>, files: seq<Path>,
                        extArgs: seq<string>, existing: set<Path>, dryRun: bool, overwrite: bool)
    returns (outcome: Outcome)
    ensures var images := FindImages(files, NormaliseExts(extArgs));
            GenerateLabelsSpec(imagesDirOk, imagesDir, labelDir, images, existing, dryRun, overwrite, outcome)
  {
    var images := FindImages(files, NormaliseExts(extArgs));
    outcome := GenerateFor(imagesDirOk, imagesDir, labelDir, images, existing, dryRun, overwrite);
  }

  predicate GenerateLabelsSpec(imagesDirOk: bool, imagesDir: Path, labelDir: Option<Path>, images: seq<Path>,
                               existing: set<Path>, dryRun: bool, overwrite: bool, outcome: Outcome)
    requires forall i :: 0 <= i < |images| ==> images[i] != []
  {
    && (!imagesDirOk ==> outcome == BadImagesDir)
    && (imagesDirOk && images == [] ==> outcome == NoImages)
    && (imagesDirOk && images != [] ==>
          var labels := LabelPaths(LabelsRoot(imagesDir, labelDir), images);
          outcome == Done(TallyOf(labels, existing, dryRun, overwrite), Written(labels, existing, dryRun, overwrite)))
  }

  method GenerateFor(imagesDirOk: bool, imagesDir: Path, labelDir: Option<Path>, images: seq<Path>,
                     existing: set<Path>, dryRun: bool, overwrite: bool)
    returns (outcome: Outcome)
    requires forall i :: 0 <= i < |images| ==> images[i] != []
    ensures !imagesDirOk ==> outcome == BadImagesDir
    ensures imagesDirOk && images == [] ==> outcome == NoImages
    ensures imagesDirOk && images != [] ==>
              var labels := LabelPaths(LabelsRoot(imagesDir, labelDir), images);
              outcome == Done(TallyOf(labels, existing, dryRun, overwrite), Written(labels, existing, dryRun, overwrite))
  {
    if !imagesDirOk {
      return BadImagesDir;
    }
    if images == [] {
      return NoImages;
    }
    var root := LabelsRoot(imagesDir, labelDir);
    var labels: seq<Path> := [];
    var k := 0;
    while k < |images|
      invariant 0 <= k <= |images|
      invariant |labels| == k
      invariant forall i :: 0 <= i < k ==> labels[i] == LabelPath(root, images[i])
    {
      labels := labels + [LabelPath(root, images[k])];
      k := k + 1;
    }
    assert labels == LabelPaths(root, images);
    var tally, written := ApplyLabels(labels, existing, dryRun, overwrite);
    return Done(tally, written);
  }

  /** The second loop of `main`: walks the planned label paths, checking
    * each against the files present at that moment. */
  method ApplyLabels(labels: seq<Path>, existing: set<Path>, dryRun: bool, overwrite: bool)
    returns (tally: Tally, written: seq<Path>)
    ensures tally == TallyOf(labels, existing, dryRun, overwrite)
    ensures written == Written(labels, existing, dryRun, overwrite)
  {
    var present := existing;
    tally := Tally(0, 0, 0);
    written := [];
    var i := 0;
    while i < |labels|
      invariant 0 <= i <= |labels|
      invariant present == if dryRun then existing else existing + set j | 0 <= j < i :: labels[j]
      invariant tally == TallyOf(labels[..i], existing, dryRun, overwrite)
      invariant written == Written(labels[..i], existing, dryRun, overwrite)
    {
      var lbl := labels[i];
      assert labels[..i + 1][..i] == labels[..i];
      assert labels[..i + 1][i] == lbl;
      assert lbl in present <==> ExistsWhenReached(labels[..i + 1], i, existing, dryRun) by {
        assert forall j :: 0 <= j < i ==> labels[..i][j] == labels[j];
      }
      if lbl in present {
        if overwrite {
          if !dryRun {
            written := written + [lbl];
            tally := tally.(overwritten := tally.overwritten + 1);
          }
        } else {
          tally := tally.(skipped := tally.skipped + 1);
        }
      } else {
        if !dryRun {
          written := written + [lbl];
          present := present + {lbl};
          tally := tally.(created := tally.created + 1);
        }
      }
      i := i + 1;
    }
    assert labels[..i] == labels;
  }

}
