/** The cleaner for a tiled YOLO dataset: it recognises tiles by their
  * region suffix and deletes (or moves to a backup) either the tiles or the
  * originals they were cut from. The `images/` directory is its listing in
  * iteration order; `labels/` is the set of names it holds. */
module CleanupSplitYolo {
  import opened Common
  import SplitImagesYolo

  /** The nine stem endings that mark a tile. */
  const SplitSuffixes: seq<string> :=
    ["_top_left", "_top_right", "_bottom_left", "_bottom_right", "_tl", "_tr", "_bl", "_br", "_center"]

  /** A file by the directory it is in: `images/` or `labels/`. */
  datatype FilePath = ImagePath(name: string) | LabelPath(name: string)

  /** Where a file goes: removed, or moved to the backup's `images/` or
    * `labels/` under its own name. */
  datatype Effect = Removed(file: FilePath) | MovedToImages(file: FilePath) | MovedToLabels(file: FilePath)

  function FileName(f: FilePath): string {
    match f
    case ImagePath(n) => n
    case LabelPath(n) => n
  }

  predicate IsSupportedImage(name: string) {
    Lower(PathSuffix(name)) in SplitImagesYolo.SupportedImageExts
  }

  predicate HasSplitSuffix(stem: string) {
    exists k :: 0 <= k < |SplitSuffixes| && EndsWith(stem, SplitSuffixes[k])
  }

  /** A tile: a supported image whose stem ends with a split suffix. */
  predicate IsSplitImage(name: string) {
    IsSupportedImage(name) && HasSplitSuffix(PathStem(name))
  }

  // ------------------------------------------------------------------
  // The suffix set
  // ------------------------------------------------------------------

  /** A string ending with `b` agrees with `b` at `b`'s first and last two
    * characters. */
  lemma EndsWithChars(a: string, b: string)
    requires |b| >= 2 && EndsWith(a, b)
    ensures a[|a| - |b|] == b[0] && a[|a| - 1] == b[|b| - 1] && a[|a| - 2] == b[|b| - 2]
  {
    assert a[|a| - |b|..][0] == b[0];
    assert a[|a| - |b|..][|b| - 1] == b[|b| - 1];
    assert a[|a| - |b|..][|b| - 2] == b[|b| - 2];
  }

  /** What tells the suffixes apart: their last two characters and, for the
    * four long ones, their length and their fourth character. */
  lemma SuffixShape(i: nat)
    requires i < |SplitSuffixes|
    ensures var s := SplitSuffixes[i];
      |s| >= 3 && s[0] == '_'
      && s[|s| - 1] == (if i < 4 then 't' else if i == 4 || i == 6 then 'l' else 'r')
      && s[|s| - 2] == (if i < 4 then (if i % 2 == 0 then 'f' else 'h') else if i < 6 then 't' else if i < 8 then 'b' else 'e')
      && (i < 4 ==> |s| == (if i < 2 then 9 + i else 10 + i) && s[3] == (if i < 2 then 'p' else 't'))
  {
  }

  lemma SuffixPair(i: nat, j: nat)
    requires i < |SplitSuffixes| && j < |SplitSuffixes| && i != j
    ensures !EndsWith(SplitSuffixes[i], SplitSuffixes[j])
  {
    var a, b := SplitSuffixes[i], SplitSuffixes[j];
    if EndsWith(a, b) {
      EndsWithChars(a, b);
      SuffixShape(i);
      SuffixShape(j);
      assert false;
    }
  }

  /** No split suffix ends with another one. */
  lemma SuffixesUnique()
    ensures forall i, j :: 0 <= i < |SplitSuffixes| && 0 <= j < |SplitSuffixes| && i != j ==>
      !EndsWith(SplitSuffixes[i], SplitSuffixes[j])
  {
    forall i, j | 0 <= i < |SplitSuffixes| && 0 <= j < |SplitSuffixes| && i != j
      ensures !EndsWith(SplitSuffixes[i], SplitSuffixes[j])
    {
      SuffixPair(i, j);
    }
  }

  /** Of two endings of the same string, the shorter ends the longer. */
  lemma EndsWithBoth(s: string, a: string, b: string)
    requires EndsWith(s, a) && EndsWith(s, b)
    ensures EndsWith(a, b) || EndsWith(b, a)
  {
    if |a| <= |b| {
      assert b[|b| - |a|..] == s[|s| - |a|..];
    } else {
      assert a[|a| - |b|..] == s[|s| - |b|..];
    }
  }

  /** A stem ends with at most one split suffix, so the order in which the
    * suffix set is searched does not matter. */
  lemma AtMostOneSuffix(stem: string)
    ensures forall i, j :: (0 <= i < |SplitSuffixes| && 0 <= j < |SplitSuffixes|
      && EndsWith(stem, SplitSuffixes[i]) && EndsWith(stem, SplitSuffixes[j])) ==> i == j
  {
    SuffixesUnique();
    forall i, j | 0 <= i < |SplitSuffixes| && 0 <= j < |SplitSuffixes|
      && EndsWith(stem, SplitSuffixes[i]) && EndsWith(stem, SplitSuffixes[j])
      ensures i == j
    {
      EndsWithBoth(stem, SplitSuffixes[i], SplitSuffixes[j]);
    }
  }

  /** The first suffix, from index `from` on, that the stem ends with, or
    * `|SplitSuffixes|` when there is none. */
  function SuffixIndex(stem: string, from: nat): (k: nat)
    requires from <= |SplitSuffixes|
    ensures from <= k <= |SplitSuffixes|
    ensures k < |SplitSuffixes| ==> EndsWith(stem, SplitSuffixes[k])
    ensures forall j :: from <= j < k ==> !EndsWith(stem, SplitSuffixes[j])
    decreases |SplitSuffixes| - from
  {
    if from == |SplitSuffixes| || EndsWith(stem, SplitSuffixes[from]) then from
    else SuffixIndex(stem, from + 1)
  }

  /** The stem of the image a tile was cut from: the tile's stem without its
    * split suffix. */
  function OriginalStem(stem: string): string
    requires HasSplitSuffix(stem)
  {
    var k := SuffixIndex(stem, 0);
    stem[..|stem| - |SplitSuffixes[k]|]
  }

  /** Whichever matching suffix is removed, the original stem is the same. */
  lemma OriginalStemAnySuffix(stem: string, k: nat)
    requires k < |SplitSuffixes| && EndsWith(stem, SplitSuffixes[k])
    ensures HasSplitSuffix(stem)
    ensures OriginalStem(stem) == stem[..|stem| - |SplitSuffixes[k]|]
    ensures OriginalStem(stem) + SplitSuffixes[k] == stem
  {
    AtMostOneSuffix(stem);
    assert SuffixIndex(stem, 0) == k;
    assert stem == stem[..|stem| - |SplitSuffixes[k]|] + stem[|stem| - |SplitSuffixes[k]|..];
  }

  /** The suffix the tiler appends for each of its regions. */
  lemma RegionSuffix(region: nat)
    requires region < |SplitImagesYolo.RegionNames|
    ensures "_" + SplitImagesYolo.RegionNames[region] == SplitSuffixes[if region < 4 then region else 8]
  {
  }

  lemma EndsWithAppended(stem: string, suffix: string)
    ensures EndsWith(stem + suffix, suffix)
    ensures (stem + suffix)[..|stem + suffix| - |suffix|] == stem
  {
    var s := stem + suffix;
    assert s[|s| - |suffix|..] == suffix;
  }

  /** The names the tiler gives its tiles are recognised as tiles, and the
    * original stem comes back. */
  lemma TileNamesRecognised(stem: string, region: nat, ext: string)
    requires region < |SplitImagesYolo.RegionNames|
    requires IsExtension(ext) && Lower(ext) in SplitImagesYolo.SupportedImageExts
    ensures var name := stem + "_" + SplitImagesYolo.RegionNames[region] + ext;
      IsSplitImage(name) && OriginalStem(PathStem(name)) == stem
  {
    var k := if region < 4 then region else 8;
    var suffix := SplitSuffixes[k];
    RegionSuffix(region);
    var tileStem := stem + suffix;
    assert stem + "_" + SplitImagesYolo.RegionNames[region] == tileStem;
    StemSuffixOfJoin(tileStem, ext);
    EndsWithAppended(stem, suffix);
    OriginalStemAnySuffix(tileStem, k);
  }

  // ------------------------------------------------------------------
  // Finding the tiles
  // ------------------------------------------------------------------

  function SplitImagesOf(images: seq<string>): set<string> {
    set n | n in images && IsSplitImage(n)
  }

  /** The suffix search for one stem, stopping at the first match. */
  method MatchesSplitSuffix(stem: string) returns (found: bool)
    ensures found <==> HasSplitSuffix(stem)
  {
    found := false;
    var k := 0;
    while k < |SplitSuffixes|
      invariant 0 <= k <= |SplitSuffixes|
      invariant forall j :: 0 <= j < k ==> !EndsWith(stem, SplitSuffixes[j])
    {
      if EndsWith(stem, SplitSuffixes[k]) {
        found := true;
        break;
      }
      k := k + 1;
    }
  }

  /** `identify_split_images`: the names of the tiles in `images/`. */
  method IdentifySplitImages(images: seq<string>) returns (split: set<string>)
    ensures split == SplitImagesOf(images)
  {
    split := {};
    var i := 0;
    while i < |images|
      invariant 0 <= i <= |images|
      invariant split == SplitImagesOf(images[..i])
    {
      assert images[..i + 1] == images[..i] + [images[i]];
      if IsSupportedImage(images[i]) {
        var found := MatchesSplitSuffix(PathStem(images[i]));
        if found {
          split := split + {images[i]};
        }
      }
      i := i + 1;
    }
    assert images[..i] == images;
  }

  // ------------------------------------------------------------------
  // Files to delete, keeping the originals
  // ------------------------------------------------------------------

  /** The label file that belongs to an image. */
  function LabelNameOf(image: string): string {
    PathStem(image) + ".txt"
  }

  /** Each tile, in `order`, followed by its label when that exists. */
  function TileFiles(order: seq<string>, images: seq<string>, labels: set<string>): seq<FilePath> {
    if order == [] then []
    else
      var n := order[|order| - 1];
      TileFiles(order[..|order| - 1], images, labels)
      + (if n in images then [ImagePath(n)] else [])
      + (if LabelNameOf(n) in labels then [LabelPath(LabelNameOf(n))] else [])
  }

  /** The tiles and the labels of the tiles, and nothing else. */
  lemma {:induction false} TileFilesContents(order: seq<string>, images: seq<string>, labels: set<string>)
    ensures forall f :: f in TileFiles(order, images, labels) <==>
      (f.ImagePath? && f.name in order && f.name in images)
      || (f.LabelPath? && f.name in labels && exists n :: n in order && f.name == LabelNameOf(n))
    decreases |order|
  {
    if order != [] {
      var front := order[..|order| - 1];
      var n := order[|order| - 1];
      TileFilesContents(front, images, labels);
      assert order == front + [n];
      forall f ensures f in TileFiles(order, images, labels) <==>
        (f.ImagePath? && f.name in order && f.name in images)
        || (f.LabelPath? && f.name in labels && exists m :: m in order && f.name == LabelNameOf(m))
      {
        if f.LabelPath? && f.name in labels && (exists m :: m in order && f.name == LabelNameOf(m)) {
          var m :| m in order && f.name == LabelNameOf(m);
          if m != n { assert m in front; }
        }
      }
    }
  }

  // ------------------------------------------------------------------
  // Files to delete, keeping the tiles
  // ------------------------------------------------------------------

  /** The original stems of a set of tile names. */
  function OriginalStems(split: set<string>): set<string> {
    set n | n in split && HasSplitSuffix(PathStem(n)) :: OriginalStem(PathStem(n))
  }

  /** The stems of the supported images. */
  function ImageStems(images: seq<string>): set<string> {
    set n | n in images && IsSupportedImage(n) :: PathStem(n)
  }

  /** The first supported image, in listing order, with the given stem. */
  function FirstImageWithStem(images: seq<string>, stem: string): (r: Option<string>)
    ensures r.Some? ==> r.value in images && IsSupportedImage(r.value) && PathStem(r.value) == stem
    ensures r.None? <==> stem !in ImageStems(images)
  {
    if images == [] then None
    else if PathStem(images[0]) == stem && IsSupportedImage(images[0]) then Some(images[0])
    else
      var r := FirstImageWithStem(images[1..], stem);
      assert ImageStems(images) == ImageStems(images[1..]) + (if IsSupportedImage(images[0]) then {PathStem(images[0])} else {}) by {
        assert images == [images[0]] + images[1..];
      }
      r
  }

  /** For each stem, in `order`, that some supported image has: the first
    * such image. */
  function OriginalImages(order: seq<string>, images: seq<string>): seq<string> {
    if order == [] then []
    else
      var front := OriginalImages(order[..|order| - 1], images);
      match FirstImageWithStem(images, order[|order| - 1])
      case None => front
      case Some(img) => front + [img]
  }

  /** The labels that exist for a list of images, in the same order. */
  function ExistingLabels(imgs: seq<string>, labels: set<string>): seq<string> {
    if imgs == [] then []
    else
      var front := ExistingLabels(imgs[..|imgs| - 1], labels);
      var l := LabelNameOf(imgs[|imgs| - 1]);
      if l in labels then front + [l] else front
  }

  /** Each original image is a supported image whose stem is one of the
    * stems searched for, and every searched stem that has a supported image
    * contributes one. */
  lemma {:induction false} OriginalImagesContents(order: seq<string>, images: seq<string>)
    ensures forall k :: 0 <= k < |OriginalImages(order, images)| ==>
      OriginalImages(order, images)[k] in images && IsSupportedImage(OriginalImages(order, images)[k])
      && PathStem(OriginalImages(order, images)[k]) in order
    ensures forall s :: s in order && s in ImageStems(images) ==>
      FirstImageWithStem(images, s).value in OriginalImages(order, images)
    ensures |OriginalImages(order, images)| <= |order|
    decreases |order|
  {
    if order != [] {
      var front, last := order[..|order| - 1], order[|order| - 1];
      OriginalImagesContents(front, images);
      assert forall s :: s in order <==> s in front || s == last;
      var r := OriginalImages(front, images);
      match FirstImageWithStem(images, last)
      case None =>
        assert OriginalImages(order, images) == r;
      case Some(img) =>
        assert OriginalImages(order, images) == r + [img];
    }
  }

  /** With the stems listed once each, no two originals share a stem. */
  lemma {:induction false} OriginalImagesOnePerStem(order: seq<string>, images: seq<string>)
    requires forall i, j :: 0 <= i < j < |order| ==> order[i] != order[j]
    ensures forall i, j :: 0 <= i < j < |OriginalImages(order, images)| ==>
      PathStem(OriginalImages(order, images)[i]) != PathStem(OriginalImages(order, images)[j])
    decreases |order|
  {
    if order != [] {
      var front := order[..|order| - 1];
      var last := order[|order| - 1];
      OriginalImagesOnePerStem(front, images);
      OriginalImagesContents(front, images);
      assert last !in front;
    }
  }

  /** The labels found are exactly the existing labels of the images. */
  lemma {:induction false} ExistingLabelsContents(imgs: seq<string>, labels: set<string>)
    ensures forall l :: l in ExistingLabels(imgs, labels) <==>
      l in labels && exists n :: n in imgs && l == LabelNameOf(n)
    decreases |imgs|
  {
    if imgs != [] {
      var front := imgs[..|imgs| - 1];
      ExistingLabelsContents(front, labels);
      assert imgs == front + [imgs[|imgs| - 1]];
      forall l ensures l in ExistingLabels(imgs, labels) <==>
        l in labels && exists n :: n in imgs && l == LabelNameOf(n)
      {
        if l in labels && exists n :: n in imgs && l == LabelNameOf(n) {
          var n :| n in imgs && l == LabelNameOf(n);
          if n != imgs[|imgs| - 1] { assert n in front; }
        }
      }
    }
  }

  /** `find_original_files`: `stemOrder` is the order in which the set of
    * original stems is iterated. */
  method FindOriginalFiles(images: seq<string>, labels: set<string>, stemOrder: seq<string>)
    returns (originalImages: seq<string>, originalLabels: seq<string>)
    ensures originalImages == OriginalImages(stemOrder, images)
    ensures originalLabels == ExistingLabels(originalImages, labels)
  {
    originalImages := [];
    var i := 0;
    while i < |stemOrder|
      invariant 0 <= i <= |stemOrder|
      invariant originalImages == OriginalImages(stemOrder[..i], images)
    {
      assert stemOrder[..i + 1][..i] == stemOrder[..i];
      var found := FindImageWithStem(images, stemOrder[i]);
      if found.Some? {
        originalImages := originalImages + [found.value];
      }
      i := i + 1;
    }
    assert stemOrder[..i] == stemOrder;
    originalLabels := FindExistingLabels(originalImages, labels);
  }

  /** The scan of `images/` for the first supported image with a stem. */
  method FindImageWithStem(images: seq<string>, stem: string) returns (found: Option<string>)
    ensures found == FirstImageWithStem(images, stem)
  {
    var j := 0;
    while j < |images|
      invariant 0 <= j <= |images|
      invariant FirstImageWithStem(images, stem) == FirstImageWithStem(images[j..], stem)
    {
      if PathStem(images[j]) == stem && IsSupportedImage(images[j]) {
        return Some(images[j]);
      }
      assert images[j..][1..] == images[j + 1..];
      j := j + 1;
    }
    return None;
  }

  /** The loop that collects the labels of the original images. */
  method FindExistingLabels(imgs: seq<string>, labels: set<string>) returns (found: seq<string>)
    ensures found == ExistingLabels(imgs, labels)
  {
    found := [];
    var k := 0;
    while k < |imgs|
      invariant 0 <= k <= |imgs|
      invariant found == ExistingLabels(imgs[..k], labels)
    {
      assert imgs[..k + 1][..k] == imgs[..k];
      if LabelNameOf(imgs[k]) in labels {
        found := found + [LabelNameOf(imgs[k])];
      }
      k := k + 1;
    }
    assert imgs[..k] == imgs;
  }

  function ImagePaths(names: seq<string>): seq<FilePath> {
    seq(|names|, i requires 0 <= i < |names| => ImagePath(names[i]))
  }

  function LabelPaths(names: seq<string>): seq<FilePath> {
    seq(|names|, i requires 0 <= i < |names| => LabelPath(names[i]))
  }

  /** `find_files_to_delete`: `splitOrder` is the order in which the tile
    * set is iterated and `stemOrder` that of the original stems. */
  function FilesToDelete(keepOriginal: bool, splitOrder: seq<string>, stemOrder: seq<string>,
                         images: seq<string>, labels: set<string>): seq<FilePath>
  {
    if keepOriginal then TileFiles(splitOrder, images, labels)
    else
      var originals := OriginalImages(stemOrder, images);
      ImagePaths(originals) + LabelPaths(ExistingLabels(originals, labels))
  }

  /** A tile with no original in `images/` puts nothing on the list when the
    * tiles are kept. */
  lemma TilesWithoutOriginalContributeNothing(splitOrder: seq<string>, stemOrder: seq<string>,
                                              images: seq<string>, labels: set<string>, s: string)
    requires s !in ImageStems(images)
    ensures forall f :: f in FilesToDelete(false, splitOrder, stemOrder, images, labels) ==>
      PathStem(FileName(f)) != s || f.LabelPath?
  {
    var originals := OriginalImages(stemOrder, images);
    OriginalImagesContents(stemOrder, images);
    forall f | f in FilesToDelete(false, splitOrder, stemOrder, images, labels) && f.ImagePath?
      ensures PathStem(FileName(f)) != s
    {
      var k :| 0 <= k < |ImagePaths(originals)| && ImagePaths(originals)[k] == f;
      assert f.name == originals[k];
    }
  }

  // ------------------------------------------------------------------
  // Routing: dry-run, delete, or move to the backup
  // ------------------------------------------------------------------

  /** A moved image goes to the backup's `images/`, anything else to its
    * `labels/`, chosen by the file name's extension. */
  function MoveEffect(f: FilePath): Effect {
    if IsSupportedImage(FileName(f)) then MovedToImages(f) else MovedToLabels(f)
  }

  /** What `cleanup` does to its list of files. */
  function CleanupEffects(files: seq<FilePath>, dryRun: bool, backup: bool): (effects: seq<Effect>)
    ensures files == [] || dryRun ==> effects == []
    ensures !(files == [] || dryRun) ==>
      (|effects| == |files| && forall k :: 0 <= k < |files| ==> effects[k].file == files[k])
  {
    if files == [] || dryRun then []
    else if backup then seq(|files|, k requires 0 <= k < |files| => MoveEffect(files[k]))
    else seq(|files|, k requires 0 <= k < |files| => Removed(files[k]))
  }

  lemma TxtNotImage(stem: string)
    ensures !IsSupportedImage(stem + ".txt")
  {
    if stem != [] {
      StemSuffixOfJoin(stem, ".txt");
      var low := Lower(".txt");
      assert low == ".txt" by {
        assert |low| == 4 && low[0] == '.' && low[1] == 't' && low[2] == 'x' && low[3] == 't';
      }
      assert low !in SplitImagesYolo.SupportedImageExts by {
        assert |low| == 4 ==> low[1] != 'j' && low[1] != 'p' && low[1] != 'b';
      }
    } else {
      assert PathSuffix(stem + ".txt") == [];
    }
  }

  /** Moving the tiles and their labels keeps each in its kind of
    * directory: images to the backup's `images/`, labels to its `labels/`. */
  lemma TileMovesKeepDirectory(splitOrder: seq<string>, images: seq<string>, labels: set<string>)
    requires forall n :: n in splitOrder ==> IsSupportedImage(n)
    ensures forall f :: f in TileFiles(splitOrder, images, labels) ==> (MoveEffect(f).MovedToImages? <==> f.ImagePath?)
  {
    TileFilesContents(splitOrder, images, labels);
    forall f | f in TileFiles(splitOrder, images, labels) && f.LabelPath?
      ensures !MoveEffect(f).MovedToImages?
    {
      var n :| n in splitOrder && f.name == LabelNameOf(n);
      TxtNotImage(PathStem(n));
    }
  }

  /** Moving the originals and their labels keeps each in its kind of
    * directory. */
  lemma OriginalMovesKeepDirectory(stemOrder: seq<string>, images: seq<string>, labels: set<string>)
    ensures forall f :: f in FilesToDelete(false, [], stemOrder, images, labels) ==>
      (MoveEffect(f).MovedToImages? <==> f.ImagePath?)
  {
    var originals := OriginalImages(stemOrder, images);
    var ls := ExistingLabels(originals, labels);
    OriginalImagesContents(stemOrder, images);
    ImagesMoveToImages(originals);
    assert forall k :: 0 <= k < |ls| ==> !IsSupportedImage(ls[k]) by {
      ExistingLabelsContents(originals, labels);
      forall k | 0 <= k < |ls| ensures !IsSupportedImage(ls[k]) {
        assert ls[k] in ls;
        var n :| n in originals && ls[k] == LabelNameOf(n);
        TxtNotImage(PathStem(n));
      }
    }
    LabelsMoveToLabels(ls);
  }

  lemma ImagesMoveToImages(names: seq<string>)
    requires forall k :: 0 <= k < |names| ==> IsSupportedImage(names[k])
    ensures forall f :: f in ImagePaths(names) ==> f.ImagePath? && MoveEffect(f).MovedToImages?
  {
    forall f | f in ImagePaths(names) ensures f.ImagePath? && MoveEffect(f).MovedToImages? {
      var k :| 0 <= k < |names| && ImagePaths(names)[k] == f;
    }
  }

  lemma LabelsMoveToLabels(names: seq<string>)
    requires forall k :: 0 <= k < |names| ==> !IsSupportedImage(names[k])
    ensures forall f :: f in LabelPaths(names) ==> f.LabelPath? && MoveEffect(f).MovedToLabels?
  {
    forall f | f in LabelPaths(names) ensures f.LabelPath? && MoveEffect(f).MovedToLabels? {
      var k :| 0 <= k < |names| && LabelPaths(names)[k] == f;
    }
  }

  /** A backup directory as Python's truth test reads `--backup`: absent
    * or empty means none. */
  function BackupDir(backup: Option<string>): (r: Option<string>)
    ensures r.Some? <==> backup.Some? && backup.value != []
    ensures r.Some? ==> r == backup
  {
    if backup.Some? && backup.value != [] then backup else None
  }

  /** The settings `main` builds from its flags; `backup` is `args.backup`
    * as given. */
  datatype Settings = Settings(dryRun: bool, backup: Option<string>, keepOriginal: bool)

  /** `main`'s flag checks: `--delete` with a non-empty `--backup` is
    * refused, and the run is a dry run unless `--delete` or `--move` is
    * given. */
  function MainSettings(delete: bool, move: bool, backup: Option<string>, keepOriginal: bool): (r: Option<Settings>)
    ensures r.None? <==> delete && backup.Some? && backup.value != []
    ensures r.Some? ==> r.value.backup == backup && r.value.keepOriginal == keepOriginal
    ensures r.Some? ==> (r.value.dryRun <==> !delete && !move)
  {
    if delete && BackupDir(backup).Some? then None
    else Some(Settings(!(delete || move), backup, keepOriginal))
  }

  /** Without `--delete` or `--move` no file is touched, whatever the list. */
  lemma NoFlagNoEffect(backup: Option<string>, keepOriginal: bool, files: seq<FilePath>)
    ensures var s := MainSettings(false, false, backup, keepOriginal);
      s.Some? && CleanupEffects(files, s.value.dryRun, BackupDir(s.value.backup).Some?) == []
  {
  }

  /** An accepted `--delete` never moves: every effect is a removal. */
  lemma DeleteOnlyRemoves(move: bool, backup: Option<string>, keepOriginal: bool, files: seq<FilePath>)
    requires MainSettings(true, move, backup, keepOriginal).Some?
    ensures var s := MainSettings(true, move, backup, keepOriginal).value;
      forall e :: e in CleanupEffects(files, s.dryRun, BackupDir(s.backup).Some?) ==> e.Removed?
  {
  }

  /** `--move` without a non-empty `--backup` is not a dry run and has no
    * backup to move to, so it removes the listed files. */
  lemma MoveWithoutBackupRemoves(backup: Option<string>, keepOriginal: bool, files: seq<FilePath>)
    requires backup.None? || backup == Some("")
    ensures var s := MainSettings(false, true, backup, keepOriginal).value;
      CleanupEffects(files, s.dryRun, BackupDir(s.backup).Some?)
        == seq(|files|, k requires 0 <= k < |files| => Removed(files[k]))
  {
  }

  /** `--delete -b ""` is accepted: the empty backup is no backup, and the
    * files are removed. */
  lemma EmptyBackupDeletes(keepOriginal: bool, files: seq<FilePath>)
    ensures var s := MainSettings(true, false, Some(""), keepOriginal);
      && s.Some? && !s.value.dryRun
      && CleanupEffects(files, s.value.dryRun, BackupDir(s.value.backup).Some?)
           == seq(|files|, k requires 0 <= k < |files| => Removed(files[k]))
  {
  }

  // ------------------------------------------------------------------
  // The cleaner object
  // ------------------------------------------------------------------

  class SplitYoloCleaner {
    const dryRun: bool
    const backup: Option<string>
    const keepOriginal: bool
    var filesToDelete: seq<FilePath>

    constructor (dryRun: bool, backup: Option<string>, keepOriginal: bool)
      ensures this.dryRun == dryRun && this.keepOriginal == keepOriginal
      ensures this.backup.Some? <==> backup.Some? && backup.value != []
      ensures this.backup.Some? ==> this.backup == backup
      ensures filesToDelete == []
    {
      this.dryRun := dryRun;
      this.backup := BackupDir(backup);
      this.keepOriginal := keepOriginal;
      filesToDelete := [];
    }

    /** `preview`: finds the tiles and, when there are some, replaces the
      * list of files to delete. `splitOrder` and `stemOrder` are the
      * iteration orders of the tile set and of the original-stem set. */
    method Preview(images: seq<string>, labels: set<string>, splitOrder: seq<string>, stemOrder: seq<string>)
      modifies this
      requires (set n | n in splitOrder) == SplitImagesOf(images)
      requires (set s | s in stemOrder) == OriginalStems(SplitImagesOf(images))
      ensures SplitImagesOf(images) == {} ==> filesToDelete == old(filesToDelete)
      ensures SplitImagesOf(images) != {} ==>
        filesToDelete == FilesToDelete(keepOriginal, splitOrder, stemOrder, images, labels)
    {
      var split := IdentifySplitImages(images);
      if split == {} {
        return;
      }
      if keepOriginal {
        filesToDelete := TileFilesLoop(splitOrder, images, labels);
      } else {
        var originals, originalLabels := FindOriginalFiles(images, labels, stemOrder);
        filesToDelete := ImagePaths(originals) + LabelPaths(originalLabels);
      }
    }

    /** The keep-original branch of `find_files_to_delete`. */
    static method TileFilesLoop(order: seq<string>, images: seq<string>, labels: set<string>)
      returns (files: seq<FilePath>)
      ensures files == TileFiles(order, images, labels)
    {
      files := [];
      var i := 0;
      while i < |order|
        invariant 0 <= i <= |order|
        invariant files == TileFiles(order[..i], images, labels)
      {
        assert order[..i + 1][..i] == order[..i];
        if order[i] in images {
          files := files + [ImagePath(order[i])];
        }
        if LabelNameOf(order[i]) in labels {
          files := files + [LabelPath(LabelNameOf(order[i]))];
        }
        i := i + 1;
      }
      assert order[..i] == order;
    }

    /** `cleanup`: previews, then removes or moves each listed file unless
      * the list is empty or this is a dry run. */
    method Cleanup(images: seq<string>, labels: set<string>, splitOrder: seq<string>, stemOrder: seq<string>)
      returns (effects: seq<Effect>)
      modifies this
      requires (set n | n in splitOrder) == SplitImagesOf(images)
      requires (set s | s in stemOrder) == OriginalStems(SplitImagesOf(images))
      ensures SplitImagesOf(images) == {} ==> filesToDelete == old(filesToDelete)
      ensures SplitImagesOf(images) != {} ==>
        filesToDelete == FilesToDelete(keepOriginal, splitOrder, stemOrder, images, labels)
      ensures effects == CleanupEffects(filesToDelete, dryRun, backup.Some?)
    {
      Preview(images, labels, splitOrder, stemOrder);
      if filesToDelete == [] || dryRun {
        return [];
      }
      effects := ApplyAll(filesToDelete, backup.Some?);
    }

    /** The loop that removes or moves each listed file. */
    static method ApplyAll(files: seq<FilePath>, backup: bool) returns (effects: seq<Effect>)
      requires files != []
      ensures effects == CleanupEffects(files, false, backup)
    {
      effects := [];
      var i := 0;
      while i < |files|
        invariant 0 <= i <= |files|
        invariant |effects| == i
        invariant forall k :: 0 <= k < i ==> effects[k] == (if backup then MoveEffect(files[k]) else Removed(files[k]))
      {
        if backup {
          effects := effects + [MoveEffect(files[i])];
        } else {
          effects := effects + [Removed(files[i])];
        }
        i := i + 1;
      }
    }
  }
}
