/** Centre-cropping every image under a directory to a target size, saving
  * the crops to a sibling `images` directory and listing their stems in
  * `img_idx/test_IRSTD-1K.txt`. */
module GenerateIrstd1k {
  import opened Common
  import opened DirTree

  // ------------------------------------------------------------------
  // The crop box
  // ------------------------------------------------------------------

  /** `(left, top, right, bottom)` as `img.crop` receives it. */
  datatype CropBox = CropBox(left: real, top: real, right: real, bottom: real)

  /** The centred box of the target size, clamped into the image. */
  function CenterCrop(width: nat, height: nat, targetWidth: int, targetHeight: int): CropBox {
    var left := (width as real - targetWidth as real) / 2.0;
    var top := (height as real - targetHeight as real) / 2.0;
    var right := (width as real + targetWidth as real) / 2.0;
    var bottom := (height as real + targetHeight as real) / 2.0;
    CropBox(MaxR(0.0, left), MaxR(0.0, top), MinR(width as real, right), MinR(height as real, bottom))
  }

  /** Along one axis the clamped box is `min(target, size)` long and leaves
    * equal margins on both sides; when the target fits it starts at
    * `(size - target) / 2`. */
  lemma AxisMeaning(size: nat, target: int)
    ensures var lo := MaxR(0.0, (size as real - target as real) / 2.0);
            var hi := MinR(size as real, (size as real + target as real) / 2.0);
            && hi - lo == Min(target, size) as real
            && lo - 0.0 == size as real - hi
            && 0.0 <= lo && hi <= size as real
            && (target <= size ==> lo == (size - target) as real / 2.0)
  {
  }

  /** The crop is centred, inside the image, and `min(target, size)` on
    * each axis. */
  lemma CenterCropMeaning(width: nat, height: nat, targetWidth: int, targetHeight: int)
    ensures var b := CenterCrop(width, height, targetWidth, targetHeight);
            && b.right - b.left == Min(targetWidth, width) as real
            && b.bottom - b.top == Min(targetHeight, height) as real
            && b.left == width as real - b.right && b.top == height as real - b.bottom
            && 0.0 <= b.left && b.right <= width as real
            && 0.0 <= b.top && b.bottom <= height as real
  {
    AxisMeaning(width, targetWidth);
    AxisMeaning(height, targetHeight);
  }

  // ------------------------------------------------------------------
  // center_crop_images
  // ------------------------------------------------------------------

  /** `file.lower().endswith(supported_formats)`. */
  predicate Supported(name: string) {
    var l := Lower(name);
    EndsWith(l, ".jpg") || EndsWith(l, ".jpeg") || EndsWith(l, ".png")
      || EndsWith(l, ".bmp") || EndsWith(l, ".gif") || EndsWith(l, ".tiff")
  }

  /** A crop written from `source` to `target`. */
  datatype Crop = Crop(source: string, target: string, box: CropBox)

  /** The images Pillow opens, crops and saves without raising, with their
    * sizes; for any other supported file the exception is printed and the
    * file skipped. */
  type Sizes = map<string, (nat, nat)>

  /** The crop of a handled file `f` of directory `root`, and its stem. */
  function Done(root: string, f: string, imagesDir: string, sizes: Sizes, tw: int, th: int): (Crop, string)
    requires JoinPath(root, f) in sizes
  {
    var path := JoinPath(root, f);
    (Crop(path, JoinPath(imagesDir, f), CenterCrop(sizes[path].0, sizes[path].1, tw, th)), SplitExt(f).0)
  }

  /** The crops and stems of the files of one directory. */
  function DirCrops(root: string, files: seq<string>, imagesDir: string, sizes: Sizes, tw: int, th: int)
    : seq<(Crop, string)>
  {
    if files == [] then []
    else
      var n := |files| - 1;
      DirCrops(root, files[..n], imagesDir, sizes, tw, th)
        + if Handled(root, files[n], sizes)
          then [Done(root, files[n], imagesDir, sizes, tw, th)]
          else []
  }

  /** The crops and stems of the whole walk, in walk order. */
  function WalkCrops(visits: seq<Visit>, imagesDir: string, sizes: Sizes, tw: int, th: int): seq<(Crop, string)> {
    if visits == [] then []
    else
      var n := |visits| - 1;
      WalkCrops(visits[..n], imagesDir, sizes, tw, th)
        + DirCrops(visits[n].dirpath, visits[n].filenames, imagesDir, sizes, tw, th)
  }

  /** The text of the list file: one stem per line. */
  function ListText(stems: seq<string>): string {
    if stems == [] then [] else ListText(stems[..|stems| - 1]) + stems[|stems| - 1] + "\n"
  }

  /** What a run leaves behind. */
  datatype Result = Result(crops: seq<Crop>, listPath: string, listText: string)

  function Firsts(ps: seq<(Crop, string)>): (r: seq<Crop>)
    ensures |r| == |ps|
  {
    seq(|ps|, i requires 0 <= i < |ps| => ps[i].0)
  }

  function Seconds(ps: seq<(Crop, string)>): (r: seq<string>)
    ensures |r| == |ps|
  {
    seq(|ps|, i requires 0 <= i < |ps| => ps[i].1)
  }

  function ImagesDir(inputDir: string): string {
    JoinPath(Dirname(inputDir), "images")
  }

  /** `images` is a sibling of the input only when the input has no
    * trailing slash: `raw/` puts it inside the input, which the walk then
    * also visits. */
  lemma ImagesPlacement()
    ensures ImagesDir("data/raw") == "data/images"
    ensures ImagesDir("data/raw/") == "data/raw/images"
  {
    assert LastIndexOf("data/raw", '/') == 4 by {
      var raw := "data/raw";
      assert raw[4] == '/' && raw[5] == 'r' && raw[6] == 'a' && raw[7] == 'w';
    }
    assert "data/raw"[..5] == "data/";
    assert StripSlashes("data/") == "data" by {
      assert "data/"[..4] == "data";
    }
    assert LastIndexOf("data/raw/", '/') == 8 by {
      assert "data/raw/"[8] == '/';
    }
    assert "data/raw/"[..9] == "data/raw/";
    assert StripSlashes("data/raw/") == "data/raw" by {
      assert "data/raw/"[..8] == "data/raw";
    }
  }

  function CenterCropImages(inputDir: string, tree: Dir, sizes: Sizes, tw: int, th: int): Result {
    var parentDir := Dirname(inputDir);
    var done := WalkCrops(Walk(tree, inputDir), ImagesDir(inputDir), sizes, tw, th);
    Result(Firsts(done), JoinPath(JoinPath(parentDir, "img_idx"), "test_IRSTD-1K.txt"), ListText(Seconds(done)))
  }

  /** `f` has a supported extension and Pillow handled it. */
  predicate Handled(root: string, f: string, sizes: Sizes) {
    Supported(f) && JoinPath(root, f) in sizes
  }

  /** `c` is the crop and stem of a handled file of directory `root`. */
  predicate InDir(root: string, files: seq<string>, c: (Crop, string), imagesDir: string, sizes: Sizes, tw: int, th: int) {
    exists f :: f in files && Handled(root, f, sizes) && c == Done(root, f, imagesDir, sizes, tw, th)
  }

  /** A file of one directory is cropped exactly when it has a supported
    * extension and Pillow handled it. */
  lemma {:induction false} DirCropsMeaning(root: string, files: seq<string>, imagesDir: string, sizes: Sizes, tw: int, th: int)
    ensures forall c :: c in DirCrops(root, files, imagesDir, sizes, tw, th) <==>
              InDir(root, files, c, imagesDir, sizes, tw, th)
  {
    if files != [] {
      var n := |files| - 1;
      DirCropsMeaning(root, files[..n], imagesDir, sizes, tw, th);
      assert files == files[..n] + [files[n]];
    }
  }

  /** `c` is the crop and stem of a handled file of the `v`th visited
    * directory. */
  predicate InWalk(visits: seq<Visit>, v: int, c: (Crop, string), imagesDir: string, sizes: Sizes, tw: int, th: int) {
    0 <= v < |visits| && InDir(visits[v].dirpath, visits[v].filenames, c, imagesDir, sizes, tw, th)
  }

  /** `c` is the crop and stem of a handled file of some visited
    * directory. */
  ghost predicate FromWalk(visits: seq<Visit>, c: (Crop, string), imagesDir: string, sizes: Sizes, tw: int, th: int) {
    exists v :: InWalk(visits, v, c, imagesDir, sizes, tw, th)
  }

  /** `c` is among the crops of the `v`th visited directory. */
  predicate InVisit(visits: seq<Visit>, v: int, c: (Crop, string), imagesDir: string, sizes: Sizes, tw: int, th: int) {
    0 <= v < |visits| && c in DirCrops(visits[v].dirpath, visits[v].filenames, imagesDir, sizes, tw, th)
  }

  /** The walk's crops are those of its directories. */
  lemma {:induction false} WalkCropsVisits(visits: seq<Visit>, imagesDir: string, sizes: Sizes, tw: int, th: int)
    ensures forall c :: c in WalkCrops(visits, imagesDir, sizes, tw, th) <==>
              exists v :: InVisit(visits, v, c, imagesDir, sizes, tw, th)
  {
    if visits != [] {
      var n := |visits| - 1;
      var front := visits[..n];
      WalkCropsVisits(front, imagesDir, sizes, tw, th);
      forall c | exists v :: InVisit(visits, v, c, imagesDir, sizes, tw, th)
        ensures c in WalkCrops(visits, imagesDir, sizes, tw, th)
      {
        var v :| InVisit(visits, v, c, imagesDir, sizes, tw, th);
        if v < n {
          assert front[v] == visits[v];
          assert InVisit(front, v, c, imagesDir, sizes, tw, th);
        }
      }
      forall c | c in WalkCrops(front, imagesDir, sizes, tw, th)
        ensures exists v :: InVisit(visits, v, c, imagesDir, sizes, tw, th)
      {
        var v :| InVisit(front, v, c, imagesDir, sizes, tw, th);
        assert front[v] == visits[v];
        assert InVisit(visits, v, c, imagesDir, sizes, tw, th);
      }
      forall c | c in DirCrops(visits[n].dirpath, visits[n].filenames, imagesDir, sizes, tw, th)
        ensures exists v :: InVisit(visits, v, c, imagesDir, sizes, tw, th)
      {
        assert InVisit(visits, n, c, imagesDir, sizes, tw, th);
      }
    }
  }

  /** Over the whole walk: a crop for every handled supported file of
    * every directory, and nothing else. */
  lemma WalkCropsMeaning(visits: seq<Visit>, imagesDir: string, sizes: Sizes, tw: int, th: int)
    ensures forall c :: c in WalkCrops(visits, imagesDir, sizes, tw, th) <==> FromWalk(visits, c, imagesDir, sizes, tw, th)
  {
    WalkCropsVisits(visits, imagesDir, sizes, tw, th);
    forall c | c in WalkCrops(visits, imagesDir, sizes, tw, th) ensures FromWalk(visits, c, imagesDir, sizes, tw, th) {
      var v :| InVisit(visits, v, c, imagesDir, sizes, tw, th);
      DirCropsMeaning(visits[v].dirpath, visits[v].filenames, imagesDir, sizes, tw, th);
      assert InWalk(visits, v, c, imagesDir, sizes, tw, th);
    }
    forall c | FromWalk(visits, c, imagesDir, sizes, tw, th) ensures c in WalkCrops(visits, imagesDir, sizes, tw, th) {
      var v :| InWalk(visits, v, c, imagesDir, sizes, tw, th);
      DirCropsMeaning(visits[v].dirpath, visits[v].filenames, imagesDir, sizes, tw, th);
      assert InVisit(visits, v, c, imagesDir, sizes, tw, th);
    }
  }

  /** The list file holds `stems`, one per line, and each crop comes with
    * its stem from a handled file of the walk. */
  ghost predicate ListsStems(r: Result, stems: seq<string>, visits: seq<Visit>, imagesDir: string, sizes: Sizes, tw: int, th: int) {
    && r.listText == ListText(stems)
    && |stems| == |r.crops|
    && forall i :: 0 <= i < |stems| ==> FromWalk(visits, (r.crops[i], stems[i]), imagesDir, sizes, tw, th)
  }

  /** The list file has one line per crop, in the same order, holding the
    * stem of the file that crop came from. */
  lemma CenterCropListMeaning(inputDir: string, tree: Dir, sizes: Sizes, tw: int, th: int)
    ensures exists stems :: ListsStems(CenterCropImages(inputDir, tree, sizes, tw, th), stems,
                                       Walk(tree, inputDir), ImagesDir(inputDir), sizes, tw, th)
  {
    var visits := Walk(tree, inputDir);
    var done := WalkCrops(visits, ImagesDir(inputDir), sizes, tw, th);
    WalkCropsMeaning(visits, ImagesDir(inputDir), sizes, tw, th);
    var r := CenterCropImages(inputDir, tree, sizes, tw, th);
    var stems := Seconds(done);
    assert r.crops == Firsts(done) && r.listText == ListText(stems);
    forall i | 0 <= i < |stems|
      ensures FromWalk(visits, (r.crops[i], stems[i]), ImagesDir(inputDir), sizes, tw, th)
    {
      assert (r.crops[i], stems[i]) == done[i];
      assert done[i] in done;
    }
    assert ListsStems(r, stems, visits, ImagesDir(inputDir), sizes, tw, th);
  }

  /** The crops are exactly the supported files of the walk that Pillow
    * handled: every such file is centre-cropped to its own size and saved
    * under its own name in `images`. */
  lemma CenterCropImagesMeaning(inputDir: string, tree: Dir, sizes: Sizes, tw: int, th: int)
    ensures var r := CenterCropImages(inputDir, tree, sizes, tw, th);
            var visits := Walk(tree, inputDir);
            forall v, f :: 0 <= v < |visits| && f in visits[v].filenames && Handled(visits[v].dirpath, f, sizes) ==>
              Done(visits[v].dirpath, f, ImagesDir(inputDir), sizes, tw, th).0 in r.crops
  {
    var visits := Walk(tree, inputDir);
    var done := WalkCrops(visits, ImagesDir(inputDir), sizes, tw, th);
    WalkCropsMeaning(visits, ImagesDir(inputDir), sizes, tw, th);
    var r := CenterCropImages(inputDir, tree, sizes, tw, th);
    assert r.crops == Firsts(done);
    forall v, f | 0 <= v < |visits| && f in visits[v].filenames && Handled(visits[v].dirpath, f, sizes)
      ensures Done(visits[v].dirpath, f, ImagesDir(inputDir), sizes, tw, th).0 in r.crops
    {
      var c := Done(visits[v].dirpath, f, ImagesDir(inputDir), sizes, tw, th);
      assert InDir(visits[v].dirpath, visits[v].filenames, c, ImagesDir(inputDir), sizes, tw, th);
      assert InWalk(visits, v, c, ImagesDir(inputDir), sizes, tw, th);
      assert c in done;
      var i :| 0 <= i < |done| && done[i] == c;
      assert r.crops[i] == c.0;
    }
  }

  /** The loop over one directory's files. */
  method CropDirectory(root: string, files: seq<string>, imagesDir: string, sizes: Sizes, tw: int, th: int)
    returns (crops: seq<Crop>, stems: seq<string>)
    ensures crops == Firsts(DirCrops(root, files, imagesDir, sizes, tw, th))
    ensures stems == Seconds(DirCrops(root, files, imagesDir, sizes, tw, th))
  {
    crops, stems := [], [];
    var i := 0;
    while i < |files|
      invariant 0 <= i <= |files|
      invariant crops == Firsts(DirCrops(root, files[..i], imagesDir, sizes, tw, th))
      invariant stems == Seconds(DirCrops(root, files[..i], imagesDir, sizes, tw, th))
    {
      assert files[..i + 1][..i] == files[..i];
      var file := files[i];
      if Supported(file) {
        var inputPath := JoinPath(root, file);
        if inputPath in sizes {
          var (width, height) := sizes[inputPath];
          var box := CenterCrop(width, height, tw, th);
          var c := Crop(inputPath, JoinPath(imagesDir, file), box);
          FirstsAppend(DirCrops(root, files[..i], imagesDir, sizes, tw, th), [Done(root, file, imagesDir, sizes, tw, th)]);
          crops := crops + [c];
          stems := stems + [SplitExt(file).0];
        }
      }
      i := i + 1;
    }
    assert files[..i] == files;
  }

  lemma FirstsAppend(a: seq<(Crop, string)>, b: seq<(Crop, string)>)
    ensures Firsts(a + b) == Firsts(a) + Firsts(b)
    ensures Seconds(a + b) == Seconds(a) + Seconds(b)
  {
    assert Firsts(a + b) == Firsts(a) + Firsts(b);
    assert Seconds(a + b) == Seconds(a) + Seconds(b);
  }

  /** Writing the collected stems, one per line. */
  method WriteList(processed: seq<string>) returns (text: string)
    ensures text == ListText(processed)
  {
    text := "";
    var k := 0;
    while k < |processed|
      invariant 0 <= k <= |processed|
      invariant text == ListText(processed[..k])
    {
      assert processed[..k + 1][..k] == processed[..k];
      text := text + processed[k] + "\n";
      k := k + 1;
    }
    assert processed[..k] == processed;
  }

  /** `center_crop_images(input_dir, target_width, target_height)`. */
  method CenterCropImagesRun(inputDir: string, tree: Dir, sizes: Sizes, tw: int, th: int) returns (r: Result)
    ensures r == CenterCropImages(inputDir, tree, sizes, tw, th)
  {
    var parentDir := Dirname(inputDir);
    var imagesDir := JoinPath(parentDir, "images");
    var txtPath := JoinPath(JoinPath(parentDir, "img_idx"), "test_IRSTD-1K.txt");
    var visits := Walk(tree, inputDir);
    var crops: seq<Crop> := [];
    var processed: seq<string> := [];
    var v := 0;
    while v < |visits|
      invariant 0 <= v <= |visits|
      invariant crops == Firsts(WalkCrops(visits[..v], imagesDir, sizes, tw, th))
      invariant processed == Seconds(WalkCrops(visits[..v], imagesDir, sizes, tw, th))
    {
      assert visits[..v + 1][..v] == visits[..v];
      var more, stems := CropDirectory(visits[v].dirpath, visits[v].filenames, imagesDir, sizes, tw, th);
      FirstsAppend(WalkCrops(visits[..v], imagesDir, sizes, tw, th),
                   DirCrops(visits[v].dirpath, visits[v].filenames, imagesDir, sizes, tw, th));
      crops := crops + more;
      processed := processed + stems;
      v := v + 1;
    }
    assert visits[..v] == visits;
    var text := WriteList(processed);
    return Result(crops, txtPath, text);
  }
}
