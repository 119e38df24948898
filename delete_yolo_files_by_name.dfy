/** Deleting, from one YOLO tree, the samples whose names are labelled in
  * another: the set of labelled names, and the per-name search and
  * counters of the deletion. */
module DeleteYoloFilesByName {
  import opened Common

  /** One step of `os.walk`: a directory and the names of its files. */
  datatype Dir = Dir(path: string, files: seq<string>)

  /** `get_labeled_filenames`: the stems of all `.txt` files anywhere under
    * `labels/`; an absent `labels/` gives the empty set. */
  function LabeledNames(labels: Option<seq<Dir>>): set<string> {
    if labels.None? then {}
    else set d, f | d in labels.value && f in d.files && EndsWith(f, ".txt") :: SplitExt(f).0
  }

  method GetLabeledFilenames(labels: Option<seq<Dir>>) returns (names: set<string>)
    ensures names == LabeledNames(labels)
  {
    names := {};
    if labels.None? {
      return;
    }
    var walk := labels.value;
    var i := 0;
    while i < |walk|
      invariant 0 <= i <= |walk|
      invariant names == WalkStems(walk[..i])
    {
      var more := DirLabelStems(walk[i].files);
      assert walk[..i + 1][..i] == walk[..i];
      names := names + more;
      i := i + 1;
    }
    assert walk[..i] == walk;
    WalkStemsMeaning(walk);
  }

  /** The inner loop over one directory's files. */
  method DirLabelStems(files: seq<string>) returns (stems: set<string>)
    ensures stems == DirStems(files)
  {
    stems := {};
    var j := 0;
    while j < |files|
      invariant 0 <= j <= |files|
      invariant stems == DirStems(files[..j])
    {
      assert files[..j + 1][..j] == files[..j];
      if EndsWith(files[j], ".txt") {
        stems := stems + {SplitExt(files[j]).0};
      }
      j := j + 1;
    }
    assert files[..j] == files;
  }

  /** `x` is the stem of label file `f`. */
  predicate LabelStem(f: string, x: string) {
    EndsWith(f, ".txt") && SplitExt(f).0 == x
  }

  /** The stems of the `.txt` files of one directory. */
  function DirStems(files: seq<string>): set<string> {
    if files == [] then {}
    else
      var n := |files| - 1;
      DirStems(files[..n]) + (if EndsWith(files[n], ".txt") then {SplitExt(files[n]).0} else {})
  }

  /** The stems of the `.txt` files of a walk, directory by directory. */
  function WalkStems(walk: seq<Dir>): set<string> {
    if walk == [] then {}
    else
      var n := |walk| - 1;
      WalkStems(walk[..n]) + DirStems(walk[n].files)
  }

  lemma {:induction false} DirStemsHas(files: seq<string>, x: string)
    ensures x in DirStems(files) <==> exists f :: f in files && LabelStem(f, x)
  {
    if files != [] {
      var n := |files| - 1;
      var front := files[..n];
      DirStemsHas(front, x);
      if exists f :: f in files && LabelStem(f, x) {
        var f :| f in files && LabelStem(f, x);
        if f != files[n] {
          var k :| 0 <= k < |files| && files[k] == f;
          assert front[k] == f;
        }
      }
      if exists f :: f in front && LabelStem(f, x) {
        var f :| f in front && LabelStem(f, x);
        assert f in files;
      }
      if EndsWith(files[n], ".txt") && x == SplitExt(files[n]).0 {
        assert LabelStem(files[n], x);
      }
    }
  }

  lemma {:induction false} WalkStemsHas(walk: seq<Dir>, x: string)
    ensures x in WalkStems(walk) <==> exists d, f :: d in walk && f in d.files && LabelStem(f, x)
  {
    if walk != [] {
      var n := |walk| - 1;
      var front := walk[..n];
      WalkStemsHas(front, x);
      DirStemsHas(walk[n].files, x);
      if exists d, f :: d in walk && f in d.files && LabelStem(f, x) {
        var d, f :| d in walk && f in d.files && LabelStem(f, x);
        if d != walk[n] {
          var k :| 0 <= k < |walk| && walk[k] == d;
          assert front[k] == d;
        }
      }
      if exists d, f :: d in front && f in d.files && LabelStem(f, x) {
        var d, f :| d in front && f in d.files && LabelStem(f, x);
        assert d in walk;
      }
      if exists f :: f in walk[n].files && LabelStem(f, x) {
        var f :| f in walk[n].files && LabelStem(f, x);
        assert walk[n] in walk;
      }
    }
  }

  lemma WalkStemsMeaning(walk: seq<Dir>)
    ensures WalkStems(walk) == set d, f | d in walk && f in d.files && EndsWith(f, ".txt") :: SplitExt(f).0
  {
    var spec := set d, f | d in walk && f in d.files && EndsWith(f, ".txt") :: SplitExt(f).0;
    forall x ensures x in WalkStems(walk) <==> x in spec {
      WalkStemsHas(walk, x);
      if x in spec {
        var d, f :| d in walk && f in d.files && EndsWith(f, ".txt") && SplitExt(f).0 == x;
        assert LabelStem(f, x);
      }
    }
  }

  /** The extensions tried for an image, in order. */
  const ImageExtensions: seq<string> := [".jpg", ".jpeg", ".png", ".bmp", ".tif", ".tiff", ".webp"]

  /** The first walked directory holding `name + ext` for some `ext`, and
    * the file found there (the first extension in list order). */
  function FindInTree(name: string, exts: seq<string>, walk: seq<Dir>): Option<(string, string)> {
    if walk == [] then None
    else
      match FirstWithExtension(name, exts, set f | f in walk[0].files)
      case Some(file) => Some((walk[0].path, file))
      case None => FindInTree(name, exts, walk[1..])
  }

  /** A hit is a file of some walked directory that is that directory's
    * first match; there is no hit exactly when no directory matches. */
  lemma {:induction false} FindInTreeMeaning(name: string, exts: seq<string>, walk: seq<Dir>)
    ensures var r := FindInTree(name, exts, walk);
            r.Some? ==> exists i :: 0 <= i < |walk| && walk[i].path == r.value.0 && r.value.1 in walk[i].files
                          && FirstWithExtension(name, exts, set f | f in walk[i].files) == Some(r.value.1)
    ensures FindInTree(name, exts, walk).None? <==>
              forall i :: 0 <= i < |walk| ==> FirstWithExtension(name, exts, set f | f in walk[i].files).None?
  {
    if walk != [] {
      match FirstWithExtension(name, exts, set f | f in walk[0].files)
      case Some(file) =>
        assert file in set f | f in walk[0].files;
      case None =>
        FindInTreeMeaning(name, exts, walk[1..]);
        assert forall i :: 1 <= i < |walk| ==> walk[i] == walk[1..][i - 1];
        var r := FindInTree(name, exts, walk[1..]);
        if r.Some? {
          var i :| 0 <= i < |walk[1..]| && walk[1..][i].path == r.value.0 && r.value.1 in walk[1..][i].files
                   && FirstWithExtension(name, exts, set f | f in walk[1..][i].files) == Some(r.value.1);
          assert walk[i + 1] == walk[1..][i];
        }
    }
  }

  function ImageOf(name: string, images: Option<seq<Dir>>): Option<(string, string)> {
    if images.None? then None else FindInTree(name, ImageExtensions, images.value)
  }

  function LabelOf(name: string, labels: Option<seq<Dir>>): Option<(string, string)> {
    if labels.None? then None else FindInTree(name, [".txt"], labels.value)
  }

  datatype Stats = Stats(imagesDeleted: nat, labelsDeleted: nat, imagesNotFound: nat, labelsNotFound: nat)

  /** The files a real run removes for `names`: per name, its image then its
    * label, each where the search found it. */
  function Removals(names: seq<string>, images: Option<seq<Dir>>, labels: Option<seq<Dir>>): seq<(string, string)> {
    if names == [] then []
    else
      var n := names[|names| - 1];
      Removals(names[..|names| - 1], images, labels) + Hits(ImageOf(n, images)) + Hits(LabelOf(n, labels))
  }

  function Hits(hit: Option<(string, string)>): seq<(string, string)> {
    if hit.Some? then [hit.value] else []
  }

  function ImagesFound(names: seq<string>, images: Option<seq<Dir>>): (n: nat)
    ensures n <= |names|
  {
    if names == [] then 0
    else ImagesFound(names[..|names| - 1], images) + (if ImageOf(names[|names| - 1], images).Some? then 1 else 0)
  }

  function LabelsFound(names: seq<string>, labels: Option<seq<Dir>>): (n: nat)
    ensures n <= |names|
  {
    if names == [] then 0
    else LabelsFound(names[..|names| - 1], labels) + (if LabelOf(names[|names| - 1], labels).Some? then 1 else 0)
  }

  /** One more name: its image and label hits are appended and counted. */
  lemma DeleteStep(names: seq<string>, i: nat, images: Option<seq<Dir>>, labels: Option<seq<Dir>>)
    requires i < |names|
    ensures Removals(names[..i + 1], images, labels)
            == Removals(names[..i], images, labels) + Hits(ImageOf(names[i], images)) + Hits(LabelOf(names[i], labels))
    ensures ImagesFound(names[..i + 1], images)
            == ImagesFound(names[..i], images) + (if ImageOf(names[i], images).Some? then 1 else 0)
    ensures LabelsFound(names[..i + 1], labels)
            == LabelsFound(names[..i], labels) + (if LabelOf(names[i], labels).Some? then 1 else 0)
  {
    assert names[..i + 1][..i] == names[..i];
  }

  /** The walk for one name: each directory in turn, each extension in
    * turn, stopping at the first hit. */
  method SearchTree(name: string, exts: seq<string>, walk: seq<Dir>) returns (hit: Option<(string, string)>)
    ensures hit == FindInTree(name, exts, walk)
  {
    var i := 0;
    while i < |walk|
      invariant 0 <= i <= |walk|
      invariant FindInTree(name, exts, walk) == FindInTree(name, exts, walk[i..])
    {
      var file := FindWithExtension(name, exts, set f | f in walk[i].files);
      if file.Some? {
        return Some((walk[i].path, file.value));
      }
      assert walk[i..][1..] == walk[i + 1..];
      i := i + 1;
    }
    return None;
  }

  /** The image and the label search for one name. */
  method FindBoth(name: string, images: Option<seq<Dir>>, labels: Option<seq<Dir>>)
    returns (image: Option<(string, string)>, labelHit: Option<(string, string)>)
    ensures image == ImageOf(name, images) && labelHit == LabelOf(name, labels)
  {
    image, labelHit := None, None;
    if images.Some? {
      image := SearchTree(name, ImageExtensions, images.value);
    }
    if labels.Some? {
      labelHit := SearchTree(name, [".txt"], labels.value);
    }
  }

  /** `delete_files_from_yolo` over the names in iteration order: for each
    * name exactly one of deleted/not-found is counted for the image and
    * for the label, and at most one image and one label are removed.
    * A dry run counts the same and removes nothing. */
  method DeleteFilesFromYolo(images: Option<seq<Dir>>, labels: Option<seq<Dir>>, names: seq<string>, dryRun: bool)
    returns (stats: Stats, removed: seq<(string, string)>)
    ensures stats.imagesDeleted == ImagesFound(names, images)
    ensures stats.labelsDeleted == LabelsFound(names, labels)
    ensures stats.imagesDeleted + stats.imagesNotFound == |names|
    ensures stats.labelsDeleted + stats.labelsNotFound == |names|
    ensures removed == if dryRun then [] else Removals(names, images, labels)
  {
    stats := Stats(0, 0, 0, 0);
    removed := [];
    var i := 0;
    while i < |names|
      invariant 0 <= i <= |names|
      invariant stats.imagesDeleted == ImagesFound(names[..i], images)
      invariant stats.labelsDeleted == LabelsFound(names[..i], labels)
      invariant stats.imagesDeleted + stats.imagesNotFound == i
      invariant stats.labelsDeleted + stats.labelsNotFound == i
      invariant removed == if dryRun then [] else Removals(names[..i], images, labels)
    {
      stats, removed := DeleteName(names, i, images, labels, dryRun, stats, removed);
      i := i + 1;
    }
    assert names[..i] == names;
  }

  /** The loop body for `names[i]`: both searches, the removals of a real
    * run, and one count each for the image and the label. */
  method DeleteName(names: seq<string>, i: nat, images: Option<seq<Dir>>, labels: Option<seq<Dir>>, dryRun: bool,
                    stats: Stats, removed: seq<(string, string)>)
    returns (stats': Stats, removed': seq<(string, string)>)
    requires i < |names|
    requires stats.imagesDeleted == ImagesFound(names[..i], images)
    requires stats.labelsDeleted == LabelsFound(names[..i], labels)
    requires stats.imagesDeleted + stats.imagesNotFound == i
    requires stats.labelsDeleted + stats.labelsNotFound == i
    requires removed == if dryRun then [] else Removals(names[..i], images, labels)
    ensures stats'.imagesDeleted == ImagesFound(names[..i + 1], images)
    ensures stats'.labelsDeleted == LabelsFound(names[..i + 1], labels)
    ensures stats'.imagesDeleted + stats'.imagesNotFound == i + 1
    ensures stats'.labelsDeleted + stats'.labelsNotFound == i + 1
    ensures removed' == if dryRun then [] else Removals(names[..i + 1], images, labels)
  {
    var image, labelHit := FindBoth(names[i], images, labels);
    DeleteStep(names, i, images, labels);
    removed' := removed;
    if !dryRun {
      removed' := removed + Hits(image) + Hits(labelHit);
    }
    stats' := stats;
    if image.Some? {
      stats' := stats'.(imagesDeleted := stats'.imagesDeleted + 1);
    } else {
      stats' := stats'.(imagesNotFound := stats'.imagesNotFound + 1);
    }
    if labelHit.Some? {
      stats' := stats'.(labelsDeleted := stats'.labelsDeleted + 1);
    } else {
      stats' := stats'.(labelsNotFound := stats'.labelsNotFound + 1);
    }
  }

  /** Every removed file is one the search found for one of the names, and
    * there are at most two per name. */
  lemma {:induction false} RemovalsFound(names: seq<string>, images: Option<seq<Dir>>, labels: Option<seq<Dir>>)
    ensures |Removals(names, images, labels)| <= 2 * |names|
    ensures forall p :: p in Removals(names, images, labels) ==>
              exists n :: n in names && (ImageOf(n, images) == Some(p) || LabelOf(n, labels) == Some(p))
  {
    if names != [] {
      var front := names[..|names| - 1];
      RemovalsFound(front, images, labels);
      forall p | p in Removals(names, images, labels)
        ensures exists n :: n in names && (ImageOf(n, images) == Some(p) || LabelOf(n, labels) == Some(p))
      {
        if p in Removals(front, images, labels) {
          var n :| n in front && (ImageOf(n, images) == Some(p) || LabelOf(n, labels) == Some(p));
          assert n in names;
        } else {
          assert names[|names| - 1] in names;
        }
      }
    }
  }
}
