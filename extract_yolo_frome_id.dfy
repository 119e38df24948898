/** Extracting the samples of one class: label files with a line of that
  * class are paired with their image and both are copied out. */
module ExtractYoloFromeId {
  import opened Common
  import ChangeYoloId

  /** The image extensions tried, in order. */
  const ImageExtensions: seq<string> := [".jpg", ".jpeg", ".png", ".bmp"]

  /** An entry of the label directory and, for a file, its lines. */
  datatype LabelFile = LabelFile(name: string, lines: seq<string>)

  /** Some line's first token is `str(classId)`. */
  predicate HasClass(lines: seq<string>, classId: int) {
    exists i :: 0 <= i < |lines| && ChangeYoloId.Matches(lines[i], classId)
  }

  /** The `(image, label)` pair `filter_files` records for one listed entry:
    * a `.txt` file with a matching line whose image exists under one of
    * the extensions (the first in list order). */
  function PairOf(f: LabelFile, classId: int, images: set<string>): (r: Option<(string, string)>)
    ensures r.Some? ==> r.value.1 == f.name && r.value.0 in images
  {
    if EndsWith(f.name, ".txt") && HasClass(f.lines, classId) then
      match FirstWithExtension(SplitExt(f.name).0, ImageExtensions, images)
      case None => None
      case Some(image) => Some((image, f.name))
    else None
  }

  function MatchedPairs(listing: seq<LabelFile>, classId: int, images: set<string>): seq<(string, string)> {
    FilterMap(listing, f => PairOf(f, classId, images))
  }

  /** Scans the lines of one label file up to the first line of the class,
    * as the inner loop with its `break` does. */
  method ContainsClass(lines: seq<string>, classId: int) returns (found: bool)
    ensures found == HasClass(lines, classId)
  {
    var target := IntToString(classId);
    var i := 0;
    while i < |lines|
      invariant 0 <= i <= |lines|
      invariant forall j :: 0 <= j < i ==> !ChangeYoloId.Matches(lines[j], classId)
    {
      var parts := Tokens(lines[i]);
      if |parts| >= 1 && parts[0] == target {
        return true;
      }
      i := i + 1;
    }
    return false;
  }

  /** `filter_files`: the pairs in listing order, at most one per label
    * file; a label without an image only draws a warning. */
  method FilterFiles(classId: int, listing: seq<LabelFile>, images: set<string>)
    returns (matched: seq<(string, string)>)
    ensures matched == MatchedPairs(listing, classId, images)
  {
    matched := [];
    var i := 0;
    while i < |listing|
      invariant 0 <= i <= |listing|
      invariant matched == MatchedPairs(listing[..i], classId, images)
    {
      var f := listing[i];
      assert listing[..i + 1][..i] == listing[..i];
      if EndsWith(f.name, ".txt") {
        var found := ContainsClass(f.lines, classId);
        if found {
          var image := FindWithExtension(SplitExt(f.name).0, ImageExtensions, images);
          if image.Some? {
            matched := matched + [(image.value, f.name)];
          }
        }
      }
      i := i + 1;
    }
    assert listing[..i] == listing;
  }

  /** A label is extracted iff it is a listed `.txt` file with a line of the
    * class whose image exists, and it comes with the first such image. */
  lemma MatchedPairsContents(listing: seq<LabelFile>, classId: int, images: set<string>, p: (string, string))
    ensures |MatchedPairs(listing, classId, images)| <= |listing|
    ensures p in MatchedPairs(listing, classId, images) <==>
              exists i :: 0 <= i < |listing| && listing[i].name == p.1 && EndsWith(p.1, ".txt")
                && HasClass(listing[i].lines, classId)
                && FirstWithExtension(SplitExt(p.1).0, ImageExtensions, images) == Some(p.0)
  {
    FilterMapContents(listing, f => PairOf(f, classId, images));
  }

  /** With distinct names in the listing, no label file appears in two
    * pairs. */
  lemma {:induction false} OnePairPerLabel(listing: seq<LabelFile>, classId: int, images: set<string>)
    requires forall i, j :: 0 <= i < j < |listing| ==> listing[i].name != listing[j].name
    ensures var m := MatchedPairs(listing, classId, images);
            forall i, j :: 0 <= i < j < |m| ==> m[i].1 != m[j].1
  {
    if listing != [] {
      var n := |listing| - 1;
      var front := listing[..n];
      OnePairPerLabel(front, classId, images);
      var m := MatchedPairs(front, classId, images);
      var r := PairOf(listing[n], classId, images);
      if r.Some? {
        forall i | 0 <= i < |m| ensures m[i].1 != r.value.1 {
          var k := PairFromListing(front, classId, images, i);
          assert front[k] == listing[k];
        }
        assert MatchedPairs(listing, classId, images) == m + [r.value];
      } else {
        assert MatchedPairs(listing, classId, images) == m;
      }
    }
  }

  /** Every pair names the label file of some listed entry. */
  lemma PairFromListing(listing: seq<LabelFile>, classId: int, images: set<string>, i: nat) returns (k: nat)
    requires i < |MatchedPairs(listing, classId, images)|
    ensures k < |listing| && listing[k].name == MatchedPairs(listing, classId, images)[i].1
  {
    var m := MatchedPairs(listing, classId, images);
    assert m[i] in m;
    MatchedPairsContents(listing, classId, images, m[i]);
    k :| 0 <= k < |listing| && listing[k].name == m[i].1;
  }

  /** Where `copy_files` puts one source file. */
  datatype Copy = ToImages(image: string) | ToLabels(labelName: string)

  function CopiesOf(files: seq<(string, string)>): seq<Copy> {
    if files == [] then []
    else CopiesOf(files[..|files| - 1]) + [ToImages(files[|files| - 1].0), ToLabels(files[|files| - 1].1)]
  }

  /** `copy_files`: every pair is copied under its own names into `Images/`
    * and `labels/`, and both counters end at the number of pairs. */
  method CopyFiles(files: seq<(string, string)>) returns (imageCount: nat, labelCount: nat, copies: seq<Copy>)
    ensures imageCount == labelCount == |files|
    ensures copies == CopiesOf(files)
    ensures |copies| == 2 * |files|
  {
    imageCount, labelCount, copies := 0, 0, [];
    var i := 0;
    while i < |files|
      invariant 0 <= i <= |files|
      invariant imageCount == labelCount == i
      invariant copies == CopiesOf(files[..i]) && |copies| == 2 * i
    {
      assert files[..i + 1][..i] == files[..i];
      copies := copies + [ToImages(files[i].0)];
      imageCount := imageCount + 1;
      copies := copies + [ToLabels(files[i].1)];
      labelCount := labelCount + 1;
      i := i + 1;
    }
    assert files[..i] == files;
  }
}
