/** Cutting every labelled object out of the images of a YOLO dataset into
  * `cropped_objects/{class_id}/`: which images and lines are used, the
  * padded and clamped crop box, and the crops saved. */
module GenerateClassifyImages {
  import opened Common

  // ------------------------------------------------------------------
  // The crop box of one label line
  // ------------------------------------------------------------------

  /** The rows or columns `a[start:stop]` takes from an axis of length
    * `len`: a negative bound counts from the end, and both are clipped to
    * the axis. */
  function SliceBounds(start: int, stop: int, len: nat): (r: (int, int))
    ensures 0 <= r.0 <= len && 0 <= r.1 <= len
  {
    (if start < 0 then Max(0, start + len) else Min(start, len),
     if stop < 0 then Max(0, stop + len) else Min(stop, len))
  }

  /** The region `image[y1:y2, x1:x2]` actually covers: columns `[x1, x2)`
    * and rows `[y1, y2)`. */
  datatype Box = Box(x1: int, y1: int, x2: int, y2: int)

  predicate EmptyBox(b: Box) {
    b.x2 <= b.x1 || b.y2 <= b.y1
  }

  /** What one line of a label file gives. */
  datatype LineResult = WrongArity | BadNumber | EmptyCrop | Crop(classId: string, box: Box)

  /** The box before clamping: centre and size scaled to pixels, each edge
    * truncated toward zero, then widened by `int(size * padding)`. */
  datatype Raw = Raw(x1: int, y1: int, x2: int, y2: int, padW: int, padH: int)

  /** A normalised coordinate in pixels. */
  function Pixels(f: real, len: nat): real {
    f * len as real
  }

  /** `int(center - size / 2)`, `int(center + size / 2)` and
    * `int(size * padding)`. */
  function Near(center: real, size: real): int { Trunc(center - size / 2.0) }
  function Far(center: real, size: real): int { Trunc(center + size / 2.0) }
  function Pad(size: real, padding: real): int { Trunc(size * padding) }

  function RawBox(xc: real, yc: real, bw: real, bh: real, padding: real): Raw {
    Raw(Near(xc, bw), Near(yc, bh), Far(xc, bw), Far(yc, bh), Pad(bw, padding), Pad(bh, padding))
  }

  /** `max(0, x1 - pad_w)`, `min(img_w, x2 + pad_w)` and likewise for rows,
    * then the slice. */
  function Clamped(r: Raw, imgW: nat, imgH: nat): Box {
    var x1 := Max(0, r.x1 - r.padW);
    var x2 := Min(imgW, r.x2 + r.padW);
    var y1 := Max(0, r.y1 - r.padH);
    var y2 := Min(imgH, r.y2 + r.padH);
    var (cx1, cx2) := SliceBounds(x1, x2, imgW);
    var (cy1, cy2) := SliceBounds(y1, y2, imgH);
    Box(cx1, cy1, cx2, cy2)
  }

  /** One line of a label file on an `imgW`×`imgH` image. */
  function LineCrop(line: string, imgW: nat, imgH: nat, padding: real): LineResult {
    var parts := Tokens(line);
    if |parts| != 5 then WrongArity
    else
      var f1 := ParseFloat(parts[1]);
      var f2 := ParseFloat(parts[2]);
      var f3 := ParseFloat(parts[3]);
      var f4 := ParseFloat(parts[4]);
      if f1.None? || f2.None? || f3.None? || f4.None? then BadNumber
      else
        var raw := RawBox(Pixels(f1.value, imgW), Pixels(f2.value, imgH),
                          Pixels(f3.value, imgW), Pixels(f4.value, imgH), padding);
        var box := Clamped(raw, imgW, imgH);
        if EmptyBox(box) then EmptyCrop else Crop(parts[0], box)
  }

  /** A saved crop is a non-empty region inside the image, cut for a line
    * of exactly five tokens, and filed under the line's first token. */
  lemma LineCropMeaning(line: string, imgW: nat, imgH: nat, padding: real)
    ensures var r := LineCrop(line, imgW, imgH, padding);
            && (r == WrongArity <==> |Tokens(line)| != 5)
            && (r.Crop? ==>
                  && |Tokens(line)| == 5 && r.classId == Tokens(line)[0]
                  && 0 <= r.box.x1 < r.box.x2 <= imgW
                  && 0 <= r.box.y1 < r.box.y2 <= imgH)
  {
  }

  /** For a well-formed label (centre and size in `[0, 1]`, no negative
    * padding) the crop is exactly the padded box clamped into the image:
    * no slice bound is negative, so nothing wraps around. */
  lemma WellFormedCrop(xc: real, yc: real, bw: real, bh: real, padding: real, imgW: nat, imgH: nat)
    requires 0.0 <= xc <= 1.0 && 0.0 <= yc <= 1.0 && 0.0 <= bw <= 1.0 && 0.0 <= bh <= 1.0
    requires padding >= 0.0
    ensures var raw := RawBox(Pixels(xc, imgW), Pixels(yc, imgH), Pixels(bw, imgW), Pixels(bh, imgH), padding);
            Clamped(raw, imgW, imgH)
              == Box(Max(0, raw.x1 - raw.padW), Max(0, raw.y1 - raw.padH),
                     Min(imgW, raw.x2 + raw.padW), Min(imgH, raw.y2 + raw.padH))
  {
    EdgesInRange(xc, bw, imgW, padding);
    EdgesInRange(yc, bh, imgH, padding);
  }

  /** For a centre and size in `[0, 1]` and no negative padding, the near
    * edge is at most the axis length, and the far edge and the padding
    * are not negative. */
  lemma EdgesInRange(c: real, s: real, len: nat, padding: real)
    requires 0.0 <= c <= 1.0 && 0.0 <= s <= 1.0 && padding >= 0.0
    ensures Near(Pixels(c, len), Pixels(s, len)) <= len
    ensures Far(Pixels(c, len), Pixels(s, len)) >= 0
    ensures Pad(Pixels(s, len), padding) >= 0
  {
    assert 0.0 <= Pixels(c, len) <= len as real;
    assert Pixels(s, len) >= 0.0;
    assert Pixels(s, len) * padding >= 0.0;
  }

  /** A box above the image is not skipped: `0 0.5 -0.5 0.2 0.2` on a
    * 100×100 image gives `y2 = -40`, and `image[0:-40]` keeps the top 60
    * rows. */
  lemma AboveImageWraps()
    ensures Clamped(RawBox(50.0, -50.0, 20.0, 20.0, 0.0), 100, 100) == Box(40, 0, 60, 60)
  {
    assert Trunc(-60.0) == -60 && Trunc(-40.0) == -40;
    assert Trunc(40.0) == 40 && Trunc(60.0) == 60;
  }

  /** The line loop body: parse, then reassign the edges step by step. */
  method CropLine(line: string, imgW: nat, imgH: nat, padding: real) returns (r: LineResult)
    ensures r == LineCrop(line, imgW, imgH, padding)
  {
    var parts := Tokens(line);
    if |parts| != 5 {
      return WrongArity;
    }
    var classId := parts[0];
    var p1, p2, p3, p4 := ParseFloat(parts[1]), ParseFloat(parts[2]), ParseFloat(parts[3]), ParseFloat(parts[4]);
    if p1.None? || p2.None? || p3.None? || p4.None? {
      return BadNumber;
    }
    var xCenter := Pixels(p1.value, imgW);
    var yCenter := Pixels(p2.value, imgH);
    var width := Pixels(p3.value, imgW);
    var height := Pixels(p4.value, imgH);
    var x1 := Near(xCenter, width);
    var y1 := Near(yCenter, height);
    var x2 := Far(xCenter, width);
    var y2 := Far(yCenter, height);
    var padW := Pad(width, padding);
    var padH := Pad(height, padding);
    ghost var raw := Raw(x1, y1, x2, y2, padW, padH);
    assert raw == RawBox(xCenter, yCenter, width, height, padding);
    x1 := Max(0, x1 - padW);
    x2 := Min(imgW, x2 + padW);
    y1 := Max(0, y1 - padH);
    y2 := Min(imgH, y2 + padH);
    var (cx1, cx2) := SliceBounds(x1, x2, imgW);
    var (cy1, cy2) := SliceBounds(y1, y2, imgH);
    var box := Box(cx1, cy1, cx2, cy2);
    assert box == Clamped(raw, imgW, imgH);
    if EmptyBox(box) {
      return EmptyCrop;
    }
    return Crop(classId, box);
  }

  // ------------------------------------------------------------------
  // crop_and_save_objects
  // ------------------------------------------------------------------

  /** `img_file.lower().endswith(('.png', '.jpg', '.jpeg'))`. */
  predicate IsImage(name: string) {
    var l := Lower(name);
    EndsWith(l, ".png") || EndsWith(l, ".jpg") || EndsWith(l, ".jpeg")
  }

  function LabelPath(labelsDir: string, imgFile: string): string {
    JoinPath(labelsDir, SplitExt(imgFile).0 + ".txt")
  }

  /** A crop written to `{output_dir}/{class_id}/{uuid}.jpg`; the random
    * file name is not modelled. */
  datatype Save = Save(imgPath: string, classDir: string, box: Box)

  /** Saves so far, and whether a `ValueError` ended the run. */
  datatype Run = Run(saves: seq<Save>, raised: bool)

  /** The dataset as the function sees it: the label files' lines by path,
    * and the size of each image `cv2.imread` can read. */
  datatype Dataset = Dataset(labels: map<string, seq<string>>, images: map<string, (nat, nat)>)

  /** The lines of one image, up to the first `ValueError`. */
  function LinesRun(imgPath: string, outputDir: string, lines: seq<string>, imgW: nat, imgH: nat, padding: real): Run {
    if lines == [] then Run([], false)
    else
      var n := |lines| - 1;
      var r := LinesRun(imgPath, outputDir, lines[..n], imgW, imgH, padding);
      if r.raised then r
      else
        match LineCrop(lines[n], imgW, imgH, padding)
        case BadNumber => Run(r.saves, true)
        case Crop(c, box) => Run(r.saves + [Save(imgPath, JoinPath(outputDir, c), box)], false)
        case _ => r
  }

  /** What one listed name contributes. */
  function FileRun(rootDir: string, ds: Dataset, imgFile: string, padding: real): Run {
    var imagesDir := JoinPath(rootDir, "images");
    var labelFile := LabelPath(JoinPath(rootDir, "labels"), imgFile);
    var imgPath := JoinPath(imagesDir, imgFile);
    if !IsImage(imgFile) || labelFile !in ds.labels || imgPath !in ds.images then Run([], false)
    else
      LinesRun(imgPath, JoinPath(rootDir, "cropped_objects"), ds.labels[labelFile],
               ds.images[imgPath].0, ds.images[imgPath].1, padding)
  }

  /** The listing in order, stopping at the first `ValueError`. */
  function FilesRun(rootDir: string, ds: Dataset, listing: seq<string>, padding: real): Run {
    if listing == [] then Run([], false)
    else
      var n := |listing| - 1;
      var r := FilesRun(rootDir, ds, listing[..n], padding);
      if r.raised then r
      else
        var more := FileRun(rootDir, ds, listing[n], padding);
        Run(r.saves + more.saves, more.raised)
  }

  /** Every crop of an image is what one of its label lines gives, filed
    * under that line's class. */
  lemma {:induction false} LinesRunSources(imgPath: string, outputDir: string, lines: seq<string>, imgW: nat, imgH: nat,
                                           padding: real)
    ensures forall s :: s in LinesRun(imgPath, outputDir, lines, imgW, imgH, padding).saves ==>
              exists k :: 0 <= k < |lines| && LineCrop(lines[k], imgW, imgH, padding).Crop?
                          && s == Save(imgPath, JoinPath(outputDir, LineCrop(lines[k], imgW, imgH, padding).classId),
                                       LineCrop(lines[k], imgW, imgH, padding).box)
  {
    if lines != [] {
      var n := |lines| - 1;
      LinesRunSources(imgPath, outputDir, lines[..n], imgW, imgH, padding);
      var r := LinesRun(imgPath, outputDir, lines[..n], imgW, imgH, padding);
      forall s | s in LinesRun(imgPath, outputDir, lines, imgW, imgH, padding).saves
        ensures exists k :: 0 <= k < |lines| && LineCrop(lines[k], imgW, imgH, padding).Crop?
                            && s == Save(imgPath, JoinPath(outputDir, LineCrop(lines[k], imgW, imgH, padding).classId),
                                         LineCrop(lines[k], imgW, imgH, padding).box)
      {
        if s in r.saves {
          var k :| 0 <= k < n && LineCrop(lines[..n][k], imgW, imgH, padding).Crop?
                   && s == Save(imgPath, JoinPath(outputDir, LineCrop(lines[..n][k], imgW, imgH, padding).classId),
                                LineCrop(lines[..n][k], imgW, imgH, padding).box);
          assert lines[..n][k] == lines[k];
        } else {
          assert LineCrop(lines[n], imgW, imgH, padding).Crop?;
        }
      }
    }
  }

  /** Every crop of an image is non-empty, lies inside the image and is
    * filed under the first token of a five-token line. */
  lemma LinesRunMeaning(imgPath: string, outputDir: string, lines: seq<string>, imgW: nat, imgH: nat, padding: real)
    ensures forall s :: s in LinesRun(imgPath, outputDir, lines, imgW, imgH, padding).saves ==>
              && s.imgPath == imgPath
              && 0 <= s.box.x1 < s.box.x2 <= imgW && 0 <= s.box.y1 < s.box.y2 <= imgH
              && exists k :: 0 <= k < |lines| && |Tokens(lines[k])| == 5
                             && s.classDir == JoinPath(outputDir, Tokens(lines[k])[0])
  {
    LinesRunSources(imgPath, outputDir, lines, imgW, imgH, padding);
    forall s | s in LinesRun(imgPath, outputDir, lines, imgW, imgH, padding).saves
      ensures && s.imgPath == imgPath
              && 0 <= s.box.x1 < s.box.x2 <= imgW && 0 <= s.box.y1 < s.box.y2 <= imgH
              && exists k :: 0 <= k < |lines| && |Tokens(lines[k])| == 5
                             && s.classDir == JoinPath(outputDir, Tokens(lines[k])[0])
    {
      var k :| 0 <= k < |lines| && LineCrop(lines[k], imgW, imgH, padding).Crop?
               && s == Save(imgPath, JoinPath(outputDir, LineCrop(lines[k], imgW, imgH, padding).classId),
                            LineCrop(lines[k], imgW, imgH, padding).box);
      LineCropMeaning(lines[k], imgW, imgH, padding);
    }
  }

  /** Only listed `.png`/`.jpg`/`.jpeg` names (any case) with a label file
    * and a readable image give crops. */
  lemma {:induction false} FilesRunSources(rootDir: string, ds: Dataset, listing: seq<string>, padding: real)
    ensures forall s :: s in FilesRun(rootDir, ds, listing, padding).saves ==>
              exists f :: f in listing && IsImage(f) && LabelPath(JoinPath(rootDir, "labels"), f) in ds.labels
                          && s.imgPath == JoinPath(JoinPath(rootDir, "images"), f) && s.imgPath in ds.images
  {
    if listing != [] {
      var n := |listing| - 1;
      FilesRunSources(rootDir, ds, listing[..n], padding);
      var f := listing[n];
      var imgPath := JoinPath(JoinPath(rootDir, "images"), f);
      var labelFile := LabelPath(JoinPath(rootDir, "labels"), f);
      if IsImage(f) && labelFile in ds.labels && imgPath in ds.images {
        LinesRunMeaning(imgPath, JoinPath(rootDir, "cropped_objects"), ds.labels[labelFile],
                        ds.images[imgPath].0, ds.images[imgPath].1, padding);
      }
      assert listing == listing[..n] + [f];
    }
  }

  /** The line loop of one image. */
  method CropImage(imgPath: string, outputDir: string, lines: seq<string>, imgW: nat, imgH: nat, padding: real)
    returns (r: Run)
    ensures r == LinesRun(imgPath, outputDir, lines, imgW, imgH, padding)
  {
    var saves: seq<Save> := [];
    var idx := 0;
    while idx < |lines|
      invariant 0 <= idx <= |lines|
      invariant LinesRun(imgPath, outputDir, lines[..idx], imgW, imgH, padding) == Run(saves, false)
    {
      assert lines[..idx + 1][..idx] == lines[..idx];
      var lr := CropLine(lines[idx], imgW, imgH, padding);
      if lr.BadNumber? {
        assert LinesRun(imgPath, outputDir, lines[..idx + 1], imgW, imgH, padding) == Run(saves, true);
        LinesRunStops(imgPath, outputDir, lines, imgW, imgH, padding, idx + 1);
        return Run(saves, true);
      }
      if lr.Crop? {
        var classDir := JoinPath(outputDir, lr.classId);
        saves := saves + [Save(imgPath, classDir, lr.box)];
      }
      idx := idx + 1;
    }
    assert lines[..idx] == lines;
    return Run(saves, false);
  }

  /** Once a line has raised, later lines change nothing. */
  lemma {:induction false} LinesRunStops(imgPath: string, outputDir: string, lines: seq<string>, imgW: nat, imgH: nat,
                                         padding: real, k: nat)
    requires k <= |lines| && LinesRun(imgPath, outputDir, lines[..k], imgW, imgH, padding).raised
    ensures LinesRun(imgPath, outputDir, lines, imgW, imgH, padding) == LinesRun(imgPath, outputDir, lines[..k], imgW, imgH, padding)
    decreases |lines| - k
  {
    if k < |lines| {
      assert lines[..k + 1][..k] == lines[..k];
      LinesRunStops(imgPath, outputDir, lines, imgW, imgH, padding, k + 1);
    } else {
      assert lines[..k] == lines;
    }
  }

  lemma {:induction false} FilesRunStops(rootDir: string, ds: Dataset, listing: seq<string>, padding: real, k: nat)
    requires k <= |listing| && FilesRun(rootDir, ds, listing[..k], padding).raised
    ensures FilesRun(rootDir, ds, listing, padding) == FilesRun(rootDir, ds, listing[..k], padding)
    decreases |listing| - k
  {
    if k < |listing| {
      assert listing[..k + 1][..k] == listing[..k];
      FilesRunStops(rootDir, ds, listing, padding, k + 1);
    } else {
      assert listing[..k] == listing;
    }
  }

  /** The loop body for one listed name. */
  method CropFile(rootDir: string, ds: Dataset, imgFile: string, padding: real) returns (r: Run)
    ensures r == FileRun(rootDir, ds, imgFile, padding)
  {
    r := Run([], false);
    if IsImage(imgFile) {
      var labelFile := JoinPath(JoinPath(rootDir, "labels"), SplitExt(imgFile).0 + ".txt");
      var imgPath := JoinPath(JoinPath(rootDir, "images"), imgFile);
      if labelFile in ds.labels && imgPath in ds.images {
        var (imgW, imgH) := ds.images[imgPath];
        r := CropImage(imgPath, JoinPath(rootDir, "cropped_objects"), ds.labels[labelFile], imgW, imgH, padding);
      }
    }
  }

  /** `crop_and_save_objects(root_dir, padding)` over `os.listdir` of the
    * images directory. */
  method CropAndSaveObjects(rootDir: string, ds: Dataset, listing: seq<string>, padding: real) returns (r: Run)
    ensures r == FilesRun(rootDir, ds, listing, padding)
  {
    var saves: seq<Save> := [];
    var i := 0;
    while i < |listing|
      invariant 0 <= i <= |listing|
      invariant FilesRun(rootDir, ds, listing[..i], padding) == Run(saves, false)
    {
      assert listing[..i + 1][..i] == listing[..i];
      var more := CropFile(rootDir, ds, listing[i], padding);
      saves := saves + more.saves;
      if more.raised {
        FilesRunStops(rootDir, ds, listing, padding, i + 1);
        return Run(saves, true);
      }
      i := i + 1;
    }
    assert listing[..i] == listing;
    return Run(saves, false);
  }
}
