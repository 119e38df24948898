/** Copying a ratio or a number of image/label pairs out of a YOLO tree:
  * pair discovery with mirrored label paths, the copy count, the sample,
  * and the copy statistics. */
module CopyYoloDataByRatio {
  import opened Common

  /** A path as its list of components. */
  type Path = seq<string>

  /** One step of the walk of `images/`: the directory, relative to
    * `images/` (`[]` for `images/` itself), and its file names. */
  datatype WalkDir = WalkDir(rel: Path, files: seq<string>)

  /** `(filename_without_ext, image_path, label_path)`: the image relative to
    * `images/`, the label, when it exists, relative to `labels/`. */
  datatype Pair = Pair(stem: string, image: Path, labelPath: Option<Path>)

  const ImageExtensions: seq<string> := [".jpg", ".jpeg", ".png", ".bmp", ".tif", ".tiff", ".webp"]

  predicate IsImage(file: string) {
    Lower(SplitExt(file).1) in ImageExtensions
  }

  /** The label an image at `rel/file` would have: same sub-directory under
    * `labels/`, the image's stem with `.txt`. */
  function MirrorLabel(rel: Path, file: string): Path {
    rel + [SplitExt(file).0 + ".txt"]
  }

  function PairOf(rel: Path, file: string, labelFiles: set<Path>): Pair {
    var mirror := MirrorLabel(rel, file);
    Pair(SplitExt(file).0, rel + [file], if mirror in labelFiles then Some(mirror) else None)
  }

  function DirPairs(rel: Path, files: seq<string>, labelFiles: set<Path>): seq<Pair> {
    if files == [] then []
    else
      var f := files[|files| - 1];
      DirPairs(rel, files[..|files| - 1], labelFiles) + (if IsImage(f) then [PairOf(rel, f, labelFiles)] else [])
  }

  function WalkPairs(walk: seq<WalkDir>, labelFiles: set<Path>): seq<Pair> {
    if walk == [] then []
    else
      var d := walk[|walk| - 1];
      WalkPairs(walk[..|walk| - 1], labelFiles) + DirPairs(d.rel, d.files, labelFiles)
  }

  /** `find_image_label_pairs`: nothing when `images/` is missing. */
  function Pairs(imagesExists: bool, walk: seq<WalkDir>, labelFiles: set<Path>): seq<Pair> {
    if imagesExists then WalkPairs(walk, labelFiles) else []
  }

  /** A pair as discovery builds it: an image file with a listed extension,
    * its stem, and the mirrored label exactly when that file exists. */
  predicate WellFormed(p: Pair, labelFiles: set<Path>) {
    |p.image| >= 1
    && var file := p.image[|p.image| - 1];
    && IsImage(file)
    && p.stem == SplitExt(file).0
    && var mirror := MirrorLabel(p.image[..|p.image| - 1], file);
    && (if mirror in labelFiles then p.labelPath == Some(mirror) else p.labelPath.None?)
  }

  function ImageCount(files: seq<string>): (n: nat)
    ensures n <= |files|
  {
    if files == [] then 0
    else ImageCount(files[..|files| - 1]) + (if IsImage(files[|files| - 1]) then 1 else 0)
  }

  function WalkImageCount(walk: seq<WalkDir>): nat {
    if walk == [] then 0
    else WalkImageCount(walk[..|walk| - 1]) + ImageCount(walk[|walk| - 1].files)
  }

  lemma {:induction false} DirPairsShape(rel: Path, files: seq<string>, labelFiles: set<Path>)
    ensures |DirPairs(rel, files, labelFiles)| == ImageCount(files)
    ensures forall p :: p in DirPairs(rel, files, labelFiles) ==> WellFormed(p, labelFiles) && p.image[..|p.image| - 1] == rel
  {
    if files != [] {
      var f := files[|files| - 1];
      DirPairsShape(rel, files[..|files| - 1], labelFiles);
      var p := PairOf(rel, f, labelFiles);
      assert p.image[..|p.image| - 1] == rel;
    }
  }

  /** Discovery yields exactly one well-formed pair per image file. */
  lemma {:induction false} PairsShape(walk: seq<WalkDir>, labelFiles: set<Path>)
    ensures |WalkPairs(walk, labelFiles)| == WalkImageCount(walk)
    ensures forall p :: p in WalkPairs(walk, labelFiles) ==> WellFormed(p, labelFiles)
  {
    if walk != [] {
      var d := walk[|walk| - 1];
      PairsShape(walk[..|walk| - 1], labelFiles);
      DirPairsShape(d.rel, d.files, labelFiles);
    }
  }

  /** The walk of `find_image_label_pairs`, file by file. */
  method FindImageLabelPairs(imagesExists: bool, walk: seq<WalkDir>, labelFiles: set<Path>)
    returns (pairs: seq<Pair>)
    ensures pairs == Pairs(imagesExists, walk, labelFiles)
  {
    pairs := [];
    if !imagesExists {
      return;
    }
    var i := 0;
    while i < |walk|
      invariant 0 <= i <= |walk|
      invariant pairs == WalkPairs(walk[..i], labelFiles)
    {
      var found := ScanDir(walk[i].rel, walk[i].files, labelFiles);
      pairs := pairs + found;
      assert walk[..i + 1][..i] == walk[..i];
      i := i + 1;
    }
    assert walk[..i] == walk;
  }

  /** The files of one walked directory, in listing order. */
  method ScanDir(rel: Path, files: seq<string>, labelFiles: set<Path>) returns (found: seq<Pair>)
    ensures found == DirPairs(rel, files, labelFiles)
  {
    found := [];
    var j := 0;
    while j < |files|
      invariant 0 <= j <= |files|
      invariant found == DirPairs(rel, files[..j], labelFiles)
    {
      var file := files[j];
      assert files[..j + 1][..j] == files[..j];
      if Lower(SplitExt(file).1) in ImageExtensions {
        var stem := SplitExt(file).0;
        var mirror := rel + [stem + ".txt"];
        if mirror in labelFiles {
          found := found + [Pair(stem, rel + [file], Some(mirror))];
        } else {
          found := found + [Pair(stem, rel + [file], None)];
        }
      }
      j := j + 1;
    }
    assert files[..j] == files;
  }

  // ------------------------------------------------------------------
  // Copying
  // ------------------------------------------------------------------

  datatype Stats = Stats(imagesCopied: nat, labelsCopied: nat, imagesWithoutLabels: nat)

  /** A file copy, with its path relative to `images/` or `labels/` (the
    * same relative path on both sides). */
  datatype CopyOp = CopyImage(image: Path) | CopyLabel(labelPath: Path)

  function StatsOf(pairs: seq<Pair>, onlyLabeled: bool): Stats {
    if pairs == [] then Stats(0, 0, 0)
    else
      var s := StatsOf(pairs[..|pairs| - 1], onlyLabeled);
      var p := pairs[|pairs| - 1];
      if onlyLabeled && p.labelPath.None? then s
      else if p.labelPath.Some? then s.(imagesCopied := s.imagesCopied + 1, labelsCopied := s.labelsCopied + 1)
      else s.(imagesCopied := s.imagesCopied + 1, imagesWithoutLabels := s.imagesWithoutLabels + 1)
  }

  function CopiesOf(pairs: seq<Pair>, onlyLabeled: bool): seq<CopyOp> {
    if pairs == [] then []
    else
      var p := pairs[|pairs| - 1];
      CopiesOf(pairs[..|pairs| - 1], onlyLabeled)
        + (if onlyLabeled && p.labelPath.None? then []
           else [CopyImage(p.image)] + (if p.labelPath.Some? then [CopyLabel(p.labelPath.value)] else []))
  }

  function LabeledCount(pairs: seq<Pair>): (n: nat)
    ensures n <= |pairs|
  {
    if pairs == [] then 0
    else LabeledCount(pairs[..|pairs| - 1]) + (if pairs[|pairs| - 1].labelPath.Some? then 1 else 0)
  }

  /** Every copied image is either copied with its label or counted as
    * unlabelled; labels copied are the labelled pairs; with
    * `copy_only_labeled` the unlabelled pairs are skipped and counted
    * nowhere, otherwise every pair's image is copied. */
  lemma {:induction false} StatsBalance(pairs: seq<Pair>, onlyLabeled: bool)
    ensures var s := StatsOf(pairs, onlyLabeled);
            && s.imagesCopied == s.labelsCopied + s.imagesWithoutLabels
            && s.labelsCopied == LabeledCount(pairs)
            && (onlyLabeled ==> s.imagesWithoutLabels == 0)
            && (!onlyLabeled ==> s.imagesCopied == |pairs|)
            && |CopiesOf(pairs, onlyLabeled)| == s.imagesCopied + s.labelsCopied
  {
    if pairs != [] {
      StatsBalance(pairs[..|pairs| - 1], onlyLabeled);
    }
  }

  /** `copy_yolo_pairs` with the label files found at discovery still in
    * place. */
  method CopyYoloPairs(pairs: seq<Pair>, onlyLabeled: bool) returns (stats: Stats, copies: seq<CopyOp>)
    ensures stats == StatsOf(pairs, onlyLabeled)
    ensures copies == CopiesOf(pairs, onlyLabeled)
  {
    stats := Stats(0, 0, 0);
    copies := [];
    var i := 0;
    while i < |pairs|
      invariant 0 <= i <= |pairs|
      invariant stats == StatsOf(pairs[..i], onlyLabeled)
      invariant copies == CopiesOf(pairs[..i], onlyLabeled)
    {
      var p := pairs[i];
      assert pairs[..i + 1][..i] == pairs[..i];
      if onlyLabeled && p.labelPath.None? {
        i := i + 1;
        continue;
      }
      copies := copies + [CopyImage(p.image)];
      stats := stats.(imagesCopied := stats.imagesCopied + 1);
      if p.labelPath.Some? {
        copies := copies + [CopyLabel(p.labelPath.value)];
        stats := stats.(labelsCopied := stats.labelsCopied + 1);
      } else {
        stats := stats.(imagesWithoutLabels := stats.imagesWithoutLabels + 1);
      }
      i := i + 1;
    }
    assert pairs[..i] == pairs;
  }

  // ------------------------------------------------------------------
  // How many, and which
  // ------------------------------------------------------------------

  /** `--ratio` or `--count`, exactly one of which is given. */
  datatype Amount = Ratio(ratio: real) | Count(count: int)

  /** The argument checks of `main`: a ratio in (0, 1], a positive count. */
  predicate ValidAmount(a: Amount) {
    match a
    case Ratio(r) => 0.0 < r <= 1.0
    case Count(c) => c > 0
  }

  function CopyCount(n: nat, a: Amount): int {
    match a
    case Ratio(r) => Trunc(n as real * r)
    case Count(c) => Min(c, n)
  }

  /** With valid arguments the copy count is a number of pairs that exist:
    * at most `n`, `min(count, n)` for a count, and zero (which aborts) only
    * when there are no pairs or the ratio is below `1/n`. */
  lemma CopyCountBounds(n: nat, a: Amount)
    requires ValidAmount(a)
    ensures 0 <= CopyCount(n, a) <= n
    ensures a.Count? ==> CopyCount(n, a) == if a.count <= n then a.count else n
    ensures a.Count? ==> (CopyCount(n, a) == 0 <==> n == 0)
    ensures a.Ratio? ==> (CopyCount(n, a) == 0 <==> n as real * a.ratio < 1.0)
    ensures a == Ratio(1.0) ==> CopyCount(n, a) == n
  {
    if a.Ratio? {
      RatioCount(n, a);
    }
  }

  lemma RatioCount(n: nat, a: Amount)
    requires a.Ratio? && ValidAmount(a)
    ensures 0 <= CopyCount(n, a) <= n
    ensures CopyCount(n, a) == 0 <==> n as real * a.ratio < 1.0
    ensures a.ratio == 1.0 ==> CopyCount(n, a) == n
  {
    var x := n as real * a.ratio;
    if a.ratio < 1.0 {
      ScaleBelow(n as real, a.ratio);
    } else {
      assert x == n as real;
    }
    TruncBelow(x, n);
    TruncZero(x);
  }

  lemma TruncZero(x: real)
    requires x >= 0.0
    ensures Trunc(x) == 0 <==> x < 1.0
  {
  }

  /** `True` where `indices` lists distinct positions below `n`. */
  predicate DistinctIndices(indices: seq<nat>, n: nat) {
    (forall i :: 0 <= i < |indices| ==> indices[i] < n)
    && (forall i, j :: 0 <= i < j < |indices| ==> indices[i] != indices[j])
  }

  /** `pairs[:k]` with `--no_shuffle`; otherwise `random.sample(pairs, k)`,
    * whose choice is the sequence `draw` of distinct positions. */
  function Select(pairs: seq<Pair>, k: nat, noShuffle: bool, draw: seq<nat>): (r: seq<Pair>)
    requires k <= |pairs|
    requires noShuffle || (|draw| == k && DistinctIndices(draw, |pairs|))
  {
    if noShuffle then pairs[..k] else seq(k, i requires 0 <= i < k => pairs[draw[i]])
  }

  /** The sample has `k` pairs, each taken from `pairs`; without shuffling
    * it is the first `k` in discovery order, with shuffling no position is
    * taken twice. */
  lemma SelectMeaning(pairs: seq<Pair>, k: nat, noShuffle: bool, draw: seq<nat>)
    requires k <= |pairs|
    requires noShuffle || (|draw| == k && DistinctIndices(draw, |pairs|))
    ensures |Select(pairs, k, noShuffle, draw)| == k
    ensures forall p :: p in Select(pairs, k, noShuffle, draw) ==> p in pairs
    ensures noShuffle ==> forall i :: 0 <= i < k ==> Select(pairs, k, noShuffle, draw)[i] == pairs[i]
    ensures !noShuffle ==> forall i :: 0 <= i < k ==> Select(pairs, k, noShuffle, draw)[i] == pairs[draw[i]]
  {
    var r := Select(pairs, k, noShuffle, draw);
    forall p | p in r ensures p in pairs {
      var i :| 0 <= i < |r| && r[i] == p;
      if noShuffle {
        assert r[i] == pairs[i];
      } else {
        assert r[i] == pairs[draw[i]];
      }
    }
  }

  function Labeled(pairs: seq<Pair>): seq<Pair> {
    Filter(pairs, (p: Pair) => p.labelPath.Some?)
  }

  datatype Outcome =
    | NoSource | BadRatio | BadCount | Cancelled | NoImages | ZeroCount
    | Copied(count: nat, stats: Stats, copies: seq<CopyOp>)

  /** The pairs `main` samples from. */
  function ToSample(pairs: seq<Pair>, onlyLabeled: bool): seq<Pair> {
    if onlyLabeled then Labeled(pairs) else pairs
  }

  /** `main` with the confirmation prompt's answer as `confirmed` and the
    * random sample's positions as `draw`: the checks in order, then the
    * count, the sample and the copy. */
  method CopyByRatio(sourceExists: bool, amount: Amount, targetExists: bool, confirmed: bool,
                     noShuffle: bool, onlyLabeled: bool,
                     imagesExists: bool, walk: seq<WalkDir>, labelFiles: set<Path>, draw: seq<nat>)
    returns (outcome: Outcome)
    requires var n := |ToSample(Pairs(imagesExists, walk, labelFiles), onlyLabeled)|;
             noShuffle || !ValidAmount(amount) || (|draw| == CopyCount(n, amount) && DistinctIndices(draw, n))
    ensures outcome == NoSource <==> !sourceExists
    ensures outcome == BadRatio <==> sourceExists && amount.Ratio? && !ValidAmount(amount)
    ensures outcome == BadCount <==> sourceExists && amount.Count? && !ValidAmount(amount)
    ensures outcome == Cancelled <==> sourceExists && ValidAmount(amount) && targetExists && !confirmed
    ensures outcome == ZeroCount <==>
              && sourceExists && ValidAmount(amount) && (!targetExists || confirmed)
              && Pairs(imagesExists, walk, labelFiles) != []
              && CopyCount(|ToSample(Pairs(imagesExists, walk, labelFiles), onlyLabeled)|, amount) == 0
    ensures outcome.Copied? <==>
              && sourceExists && ValidAmount(amount) && (!targetExists || confirmed)
              && Pairs(imagesExists, walk, labelFiles) != []
              && CopyCount(|ToSample(Pairs(imagesExists, walk, labelFiles), onlyLabeled)|, amount) > 0
    ensures outcome.Copied? ==>
              var pool := ToSample(Pairs(imagesExists, walk, labelFiles), onlyLabeled);
              var k := CopyCount(|pool|, amount);
              && ValidAmount(amount) && 0 < k <= |pool| && outcome.count == k
              && var selected := Select(pool, k, noShuffle, draw);
              && outcome.stats == StatsOf(selected, onlyLabeled)
              && outcome.copies == CopiesOf(selected, onlyLabeled)
    ensures outcome == NoImages <==> sourceExists && ValidAmount(amount) && (!targetExists || confirmed)
                                     && Pairs(imagesExists, walk, labelFiles) == []
  {
    if !sourceExists {
      return NoSource;
    }
    if amount.Ratio? && (amount.ratio <= 0.0 || amount.ratio > 1.0) {
      return BadRatio;
    }
    if amount.Count? && amount.count <= 0 {
      return BadCount;
    }
    if targetExists && !confirmed {
      return Cancelled;
    }
    var all := FindImageLabelPairs(imagesExists, walk, labelFiles);
    if all == [] {
      return NoImages;
    }
    var pool := if onlyLabeled then Labeled(all) else all;
    var k := CopyCount(|pool|, amount);
    CopyCountBounds(|pool|, amount);
    if k == 0 {
      return ZeroCount;
    }
    var selected := Select(pool, k, noShuffle, draw);
    var stats, copies := CopyYoloPairs(selected, onlyLabeled);
    return Copied(k, stats, copies);
  }
}
