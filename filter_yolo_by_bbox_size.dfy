/** Filtering a YOLO dataset by box size in pixels: boxes outside the
  * bounds are dropped from their label file, and an image that loses all of
  * its boxes is deleted together with its label. */
module FilterYoloByBboxSize {
  import opened Common
  import opened YoloFormat
  import Sorting
  import SplitImagesYolo

  // ------------------------------------------------------------------
  // Loading and saving label files
  // ------------------------------------------------------------------

  /** The annotation a line gives, if it has five or more tokens that
    * convert. */
  function LineAnnotation(line: string): Option<Annotation> {
    var r := ParseLabelLine(line);
    if r.Parsed? then Some(r.ann) else None
  }

  /** The annotations of a label file's lines: lines with fewer than five
    * tokens and lines whose numbers do not convert are skipped. */
  function LoadLines(lines: seq<string>): seq<Annotation> {
    FilterMap(lines, LineAnnotation)
  }

  /** A missing label file has no annotations. */
  function LoadAnnotations(file: Option<seq<string>>): seq<Annotation> {
    if file.None? then [] else LoadLines(file.value)
  }

  /** `load_yolo_annotation`: the read loop. */
  method LoadYoloAnnotation(file: Option<seq<string>>) returns (anns: seq<Annotation>)
    ensures anns == LoadAnnotations(file)
  {
    anns := [];
    if file.None? {
      return;
    }
    var lines := file.value;
    var i := 0;
    while i < |lines|
      invariant 0 <= i <= |lines|
      invariant anns == LoadLines(lines[..i])
    {
      LoadStep(lines, i);
      var r := ParseLabelLine(lines[i]);
      if r.Parsed? {
        anns := anns + [r.ann];
      }
      i := i + 1;
    }
    assert lines[..i] == lines;
  }

  /** Reading one more line appends its annotation, if it has one. */
  lemma LoadStep(lines: seq<string>, i: nat)
    requires i < |lines|
    ensures LoadLines(lines[..i + 1]) ==
      if ParseLabelLine(lines[i]).Parsed? then LoadLines(lines[..i]) + [ParseLabelLine(lines[i]).ann]
      else LoadLines(lines[..i])
  {
    assert lines[..i + 1][..i] == lines[..i];
  }

  /** The annotations loaded are exactly those of the lines that parse, in
    * file order; a bad line costs only itself. */
  lemma LoadLinesContents(lines: seq<string>)
    ensures |LoadLines(lines)| <= |lines|
    ensures forall a :: a in LoadLines(lines) <==>
      exists i :: 0 <= i < |lines| && LineAnnotation(lines[i]) == Some(a)
  {
    FilterMapContents(lines, LineAnnotation);
  }

  /** Where the tiler's reading succeeds (no malformed line), this lenient
    * reading gives the same annotations. */
  lemma {:induction false} LoadAgreesWithTiler(lines: seq<string>)
    requires SplitImagesYolo.ParseLines(lines).Some?
    ensures LoadLines(lines) == SplitImagesYolo.ParseLines(lines).value
    decreases |lines|
  {
    if lines != [] {
      var n := |lines| - 1;
      var rs := SplitImagesYolo.ParseEach(lines);
      assert SplitImagesYolo.ParseEach(lines[..n]) == rs[..n];
      assert SplitImagesYolo.Collect(rs[..n]).Some?;
      LoadAgreesWithTiler(lines[..n]);
      assert rs[n] == ParseLabelLine(lines[n]);
    }
  }

  /** `f"{class_id} {x_center} {y_center} {width} {height}\n"`, where `show`
    * stands for `str` on a float. */
  function SaveLine(a: Annotation, show: real -> string): string {
    JoinSpace([IntToString(a.classId), show(a.box.xc), show(a.box.yc), show(a.box.w), show(a.box.h)]) + "\n"
  }

  /** The lines `save_yolo_annotation` writes: one per annotation, in list
    * order. */
  function SaveLines(anns: seq<Annotation>, show: real -> string): (lines: seq<string>)
    ensures |lines| == |anns|
  {
    seq(|anns|, i requires 0 <= i < |anns| => SaveLine(anns[i], show))
  }

  /** `show(x)` is one token that reads back as `x`, as `str` on a float
    * does. */
  predicate ShowsExactly(show: real -> string, x: real) {
    IsWord(show(x)) && ParseFloat(show(x)) == Some(x)
  }

  predicate ShowsBox(show: real -> string, b: Box) {
    ShowsExactly(show, b.xc) && ShowsExactly(show, b.yc) && ShowsExactly(show, b.w) && ShowsExactly(show, b.h)
  }

  lemma SaveLineRoundTrip(a: Annotation, show: real -> string)
    requires ShowsBox(show, a.box)
    ensures ParseLabelLine(SaveLine(a, show)) == Parsed(a)
  {
    var b := a.box;
    var parts := [IntToString(a.classId), show(b.xc), show(b.yc), show(b.w), show(b.h)];
    assert Tokens(SaveLine(a, show)) == parts by {
      IntToStringIsWord(a.classId);
      forall k | 0 <= k < |parts| ensures IsWord(parts[k]) {
        if k == 0 { } else if k == 1 { } else if k == 2 { } else if k == 3 { } else { }
      }
      assert IsBlank("\n");
      TokensOfJoin(parts, "\n");
    }
    ParseIntOfToString(a.classId);
  }

  /** Saving then loading gives back the annotations. */
  lemma SaveLoadRoundTrip(anns: seq<Annotation>, show: real -> string)
    requires forall k :: 0 <= k < |anns| ==> ShowsBox(show, anns[k].box)
    ensures LoadAnnotations(Some(SaveLines(anns, show))) == anns
  {
    var lines := SaveLines(anns, show);
    forall k | 0 <= k < |lines| ensures LineAnnotation(lines[k]) == Some(anns[k]) {
      SaveLineRoundTrip(anns[k], show);
    }
    FilterMapAll(lines, anns, LineAnnotation);
  }

  // ------------------------------------------------------------------
  // Filtering
  // ------------------------------------------------------------------

  datatype Bounds = Bounds(minW: int, minH: int, maxW: int, maxH: int)

  /** A box is kept when its pixel width and height are within the bounds,
    * all inclusive. */
  predicate KeepsBox(a: Annotation, imageWidth: int, imageHeight: int, bounds: Bounds) {
    var w := a.box.w * imageWidth as real;
    var h := a.box.h * imageHeight as real;
    bounds.minW as real <= w <= bounds.maxW as real && bounds.minH as real <= h <= bounds.maxH as real
  }

  /** The kept annotations, in order. */
  function Kept(anns: seq<Annotation>, iw: int, ih: int, bounds: Bounds): seq<Annotation> {
    if anns == [] then []
    else
      var front := Kept(anns[..|anns| - 1], iw, ih, bounds);
      if KeepsBox(anns[|anns| - 1], iw, ih, bounds) then front + [anns[|anns| - 1]] else front
  }

  /** The indices of the removed annotations, ascending. */
  function RemovedIndices(anns: seq<Annotation>, iw: int, ih: int, bounds: Bounds): seq<nat> {
    if anns == [] then []
    else
      var front := RemovedIndices(anns[..|anns| - 1], iw, ih, bounds);
      if KeepsBox(anns[|anns| - 1], iw, ih, bounds) then front else front + [|anns| - 1]
  }

  /** `filter_annotations`: the loop over the enumerated annotations. */
  method FilterAnnotations(anns: seq<Annotation>, iw: int, ih: int, bounds: Bounds)
    returns (kept: seq<Annotation>, removed: seq<nat>)
    ensures kept == Kept(anns, iw, ih, bounds)
    ensures removed == RemovedIndices(anns, iw, ih, bounds)
  {
    kept, removed := [], [];
    var i := 0;
    while i < |anns|
      invariant 0 <= i <= |anns|
      invariant kept == Kept(anns[..i], iw, ih, bounds)
      invariant removed == RemovedIndices(anns[..i], iw, ih, bounds)
    {
      assert anns[..i + 1][..i] == anns[..i];
      if KeepsBox(anns[i], iw, ih, bounds) {
        kept := kept + [anns[i]];
      } else {
        removed := removed + [i];
      }
      i := i + 1;
    }
    assert anns[..i] == anns;
  }

  /** The filter removes exactly the indices whose box is out of bounds,
    * in ascending order. */
  lemma {:induction false} RemovedMeaning(anns: seq<Annotation>, iw: int, ih: int, bounds: Bounds)
    ensures var removed := RemovedIndices(anns, iw, ih, bounds);
      forall i :: i in removed <==> 0 <= i < |anns| && !KeepsBox(anns[i], iw, ih, bounds)
    ensures var removed := RemovedIndices(anns, iw, ih, bounds);
      forall p, q :: 0 <= p < q < |removed| ==> removed[p] < removed[q]
    decreases |anns|
  {
    if anns != [] {
      var n := |anns| - 1;
      RemovedMeaning(anns[..n], iw, ih, bounds);
      var removed := RemovedIndices(anns, iw, ih, bounds);
      var front := RemovedIndices(anns[..n], iw, ih, bounds);
      assert forall p :: 0 <= p < |front| ==> front[p] < n by {
        forall p | 0 <= p < |front| ensures front[p] < n {
          assert front[p] in front;
        }
      }
      forall i ensures i in removed <==> 0 <= i < |anns| && !KeepsBox(anns[i], iw, ih, bounds) {
        if 0 <= i < n { assert anns[..n][i] == anns[i]; }
      }
    }
  }

  /** The kept boxes are all in bounds, and the kept and removed outputs
    * together account for every input. */
  lemma {:induction false} FilterPartitions(anns: seq<Annotation>, iw: int, ih: int, bounds: Bounds)
    ensures forall a :: a in Kept(anns, iw, ih, bounds) ==> a in anns && KeepsBox(a, iw, ih, bounds)
    ensures |Kept(anns, iw, ih, bounds)| + |RemovedIndices(anns, iw, ih, bounds)| == |anns|
    decreases |anns|
  {
    if anns != [] {
      var n := |anns| - 1;
      FilterPartitions(anns[..n], iw, ih, bounds);
      assert forall a :: a in anns[..n] ==> a in anns;
    }
  }

  // ------------------------------------------------------------------
  // Processing a dataset
  // ------------------------------------------------------------------

  /** What happens to one image. */
  datatype Decision =
    | Skipped             // no label file, or the image cannot be read
    | DeleteBoth          // every annotation was removed
    | Rewrite(kept: seq<Annotation>)  // some were removed
    | Unchanged           // none were removed, or the label was empty

  /** One image of the listing: its name, its size when it can be read, and
    * its label file's lines when that exists. */
  datatype ImageEntry = ImageEntry(name: string, size: Option<(nat, nat)>, labelFile: Option<seq<string>>)

  function Decide(e: ImageEntry, bounds: Bounds): (d: Decision)
    ensures d.Skipped? <==> e.labelFile.None? || e.size.None?
    ensures !d.Skipped? ==>
      var anns := LoadLines(e.labelFile.value);
      var kept := Kept(anns, e.size.value.0, e.size.value.1, bounds);
      (d.DeleteBoth? <==> anns != [] && kept == [])
      && (d.Rewrite? <==> kept != [] && |kept| < |anns|)
      && (d.Unchanged? <==> kept == anns)
  {
    if e.labelFile.None? || e.size.None? then Skipped
    else
      var anns := LoadLines(e.labelFile.value);
      var (iw, ih) := e.size.value;
      var kept := Kept(anns, iw, ih, bounds);
      FilterPartitions(anns, iw, ih, bounds);
      KeptAllIsIdentity(anns, iw, ih, bounds);
      if kept == [] && anns != [] then DeleteBoth
      else if |RemovedIndices(anns, iw, ih, bounds)| > 0 then Rewrite(kept)
      else Unchanged
  }

  /** Nothing removed means the kept list is the input. */
  lemma {:induction false} KeptAllIsIdentity(anns: seq<Annotation>, iw: int, ih: int, bounds: Bounds)
    ensures |Kept(anns, iw, ih, bounds)| == |anns| <==> Kept(anns, iw, ih, bounds) == anns
    ensures |Kept(anns, iw, ih, bounds)| <= |anns|
    decreases |anns|
  {
    if anns != [] {
      var n := |anns| - 1;
      KeptAllIsIdentity(anns[..n], iw, ih, bounds);
      if Kept(anns, iw, ih, bounds) == anns {
        assert |Kept(anns, iw, ih, bounds)| == |anns|;
      }
      if |Kept(anns, iw, ih, bounds)| == |anns| {
        assert KeepsBox(anns[n], iw, ih, bounds);
        assert anns == anns[..n] + [anns[n]];
      }
    }
  }

  datatype Stats = Stats(total: nat, deletedImages: nat, deletedAnnotations: nat, keptImages: nat, keptAnnotations: nat)

  /** The counters after one image. */
  function Count(s: Stats, e: ImageEntry, bounds: Bounds): Stats {
    match Decide(e, bounds)
    case Skipped => s
    case DeleteBoth =>
      s.(deletedImages := s.deletedImages + 1, deletedAnnotations := s.deletedAnnotations + |LoadLines(e.labelFile.value)|)
    case Rewrite(kept) =>
      var removed := |LoadLines(e.labelFile.value)| - |kept|;
      s.(deletedAnnotations := s.deletedAnnotations + removed, keptAnnotations := s.keptAnnotations + |kept|)
    case Unchanged =>
      s.(keptImages := s.keptImages + 1, keptAnnotations := s.keptAnnotations + |LoadLines(e.labelFile.value)|)
  }

  function CountAll(entries: seq<ImageEntry>, bounds: Bounds): Stats {
    if entries == [] then Stats(0, 0, 0, 0, 0)
    else Count(CountAll(entries[..|entries| - 1], bounds), entries[|entries| - 1], bounds)
  }

  /** A file change: the image and its label deleted, or the label
    * rewritten with these lines. */
  datatype FileChange = Delete(image: string) | Save(image: string, lines: seq<string>)

  /** The file changes of one image in a real run. */
  function ChangeOf(e: ImageEntry, bounds: Bounds, show: real -> string): seq<FileChange> {
    match Decide(e, bounds)
    case DeleteBoth => [Delete(e.name)]
    case Rewrite(kept) => [Save(e.name, SaveLines(kept, show))]
    case _ => []
  }

  function Changes(entries: seq<ImageEntry>, bounds: Bounds, show: real -> string): seq<FileChange> {
    if entries == [] then []
    else Changes(entries[..|entries| - 1], bounds, show) + ChangeOf(entries[|entries| - 1], bounds, show)
  }

  /** The annotations of the images that were examined. */
  function LoadedTotal(entries: seq<ImageEntry>): nat {
    if entries == [] then 0
    else
      var e := entries[|entries| - 1];
      LoadedTotal(entries[..|entries| - 1])
      + (if e.labelFile.None? || e.size.None? then 0 else |LoadLines(e.labelFile.value)|)
  }

  /** Every examined annotation is counted once, as deleted or as kept, and
    * every examined image is deleted, rewritten or kept. */
  lemma {:induction false} CountsConserved(entries: seq<ImageEntry>, bounds: Bounds)
    ensures CountAll(entries, bounds).deletedAnnotations + CountAll(entries, bounds).keptAnnotations
            == LoadedTotal(entries)
    ensures CountAll(entries, bounds).deletedImages + CountAll(entries, bounds).keptImages <= |entries|
    decreases |entries|
  {
    if entries != [] {
      var e := entries[|entries| - 1];
      CountsConserved(entries[..|entries| - 1], bounds);
      if !(e.labelFile.None? || e.size.None?) {
        var anns := LoadLines(e.labelFile.value);
        KeptAllIsIdentity(anns, e.size.value.0, e.size.value.1, bounds);
      }
    }
  }

  /** `process_yolo_dataset` over the sorted image listing. In a dry run no
    * file changes, and the counters are the same as in a real run. */
  method ProcessYoloDataset(entries: seq<ImageEntry>, bounds: Bounds, dryRun: bool, show: real -> string)
    returns (stats: Stats, changes: seq<FileChange>)
    ensures stats == CountAll(entries, bounds).(total := |entries|)
    ensures changes == if dryRun then [] else Changes(entries, bounds, show)
  {
    stats := Stats(0, 0, 0, 0, 0);
    changes := [];
    var i := 0;
    while i < |entries|
      invariant 0 <= i <= |entries|
      invariant stats == CountAll(entries[..i], bounds)
      invariant changes == if dryRun then [] else Changes(entries[..i], bounds, show)
    {
      ProcessStep(entries, i, bounds, show);
      var change;
      stats, change := ProcessImage(entries[i], bounds, dryRun, show, stats);
      changes := changes + change;
      i := i + 1;
    }
    assert entries[..i] == entries;
    stats := stats.(total := |entries|);
  }

  /** One more image adds its counts and its file changes. */
  lemma ProcessStep(entries: seq<ImageEntry>, i: nat, bounds: Bounds, show: real -> string)
    requires i < |entries|
    ensures CountAll(entries[..i + 1], bounds) == Count(CountAll(entries[..i], bounds), entries[i], bounds)
    ensures Changes(entries[..i + 1], bounds, show) == Changes(entries[..i], bounds, show) + ChangeOf(entries[i], bounds, show)
  {
    assert entries[..i + 1][..i] == entries[..i];
  }

  /** The body of the loop for one image. */
  method ProcessImage(e: ImageEntry, bounds: Bounds, dryRun: bool, show: real -> string, stats: Stats)
    returns (next: Stats, change: seq<FileChange>)
    ensures next == Count(stats, e, bounds)
    ensures change == if dryRun then [] else ChangeOf(e, bounds, show)
  {
    next, change := stats, [];
    if e.labelFile.None? || e.size.None? {
      return;
    }
    var (iw, ih) := e.size.value;
    var anns := LoadYoloAnnotation(e.labelFile);
    var kept, removed := FilterAnnotations(anns, iw, ih, bounds);
    FilterPartitions(anns, iw, ih, bounds);
    if |kept| == 0 && |anns| > 0 {
      if !dryRun {
        change := [Delete(e.name)];
      }
      next := stats.(deletedImages := stats.deletedImages + 1,
                     deletedAnnotations := stats.deletedAnnotations + |anns|);
    } else if |removed| > 0 {
      if !dryRun {
        change := [Save(e.name, SaveLines(kept, show))];
      }
      next := stats.(deletedAnnotations := stats.deletedAnnotations + |removed|,
                     keptAnnotations := stats.keptAnnotations + |kept|);
    } else {
      next := stats.(keptImages := stats.keptImages + 1,
                     keptAnnotations := stats.keptAnnotations + |anns|);
    }
  }

  // ------------------------------------------------------------------
  // Listing and command-line checks
  // ------------------------------------------------------------------

  const SupportedExts: seq<string> := [".jpg", ".jpeg", ".png", ".bmp", ".tif", ".tiff"]

  function UpperChar(c: char): char {
    if 'a' <= c <= 'z' then (c as int - 32) as char else c
  }

  function Upper(s: string): string {
    seq(|s|, i requires 0 <= i < |s| => UpperChar(s[i]))
  }

  /** Matched by `*{ext}` or `*{ext.upper()}` for a supported extension:
    * the glob is case-sensitive, so mixed case such as `.Jpg` is missed. */
  predicate Globbed(name: string) {
    exists k :: 0 <= k < |SupportedExts| && (EndsWith(name, SupportedExts[k]) || EndsWith(name, Upper(SupportedExts[k])))
  }

  function GlobbedNames(names: seq<string>): (r: seq<string>)
    ensures forall n :: n in r <==> n in names && Globbed(n)
  {
    if names == [] then []
    else (if Globbed(names[0]) then [names[0]] else []) + GlobbedNames(names[1..])
  }

  /** `sorted(set(image_files))` over a directory listing: the globbed
    * names, each once, in code-point order. */
  function ImageListing(names: seq<string>): (r: seq<string>)
    ensures Sorting.SortedStrings(r)
    ensures forall n :: n in r <==> n in names && Globbed(n)
    ensures forall i, j :: 0 <= i < j < |r| ==> r[i] != r[j]
  {
    var unique := Dedup(GlobbedNames(names));
    var s := Sorting.SortStrings(unique);
    assert forall n :: n in s <==> n in multiset(s);
    assert forall n :: n in unique <==> n in multiset(unique);
    Sorting.SortedDistinct(unique);
    s
  }

  /** The command-line checks: every bound at least 1 and each minimum at
    * most its maximum. */
  predicate ValidBounds(bounds: Bounds) {
    bounds.minW >= 1 && bounds.minH >= 1 && bounds.maxW >= 1 && bounds.maxH >= 1
    && bounds.minW <= bounds.maxW && bounds.minH <= bounds.maxH
  }

  /** Accepted bounds keep some box: one of exactly the minimum size. */
  lemma ValidBoundsKeepSomething(bounds: Bounds, iw: nat, ih: nat)
    requires ValidBounds(bounds) && iw > 0 && ih > 0
    ensures var b := Box(0.5, 0.5, bounds.minW as real / iw as real, bounds.minH as real / ih as real);
      KeepsBox(Annotation(0, b), iw, ih, bounds)
  {
    var w := bounds.minW as real / iw as real;
    var h := bounds.minH as real / ih as real;
    assert w * iw as real == bounds.minW as real;
    assert h * ih as real == bounds.minH as real;
  }

  /** Rejected bounds keep nothing usable: with a minimum above its maximum
    * no box is kept. */
  lemma InvertedBoundsKeepNothing(bounds: Bounds, a: Annotation, iw: int, ih: int)
    requires bounds.minW > bounds.maxW || bounds.minH > bounds.maxH
    ensures !KeepsBox(a, iw, ih, bounds)
  {
  }
}
