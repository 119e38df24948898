/** Splitting a classification dataset (one sub-directory per category)
  * into `train/` and `val/`: argument checks, per-category shuffled split,
  * the output directories and the totals. */
module SplitClassifyData {
  import opened Common

  /** An entry of the root directory: its name, whether it is a
    * directory, and (for a directory) the names it lists. */
  datatype Entry = Entry(name: string, isDir: bool, files: seq<string>)

  datatype Error = RootMissing | RatioOutOfRange | NoCategories

  /** `validate_arguments`: the root is checked first, then the ratio. */
  function ValidateArguments(rootIsDir: bool, ratio: real): (r: Option<Error>)
    ensures r.None? <==> rootIsDir && 0.0 < ratio < 1.0
  {
    if !rootIsDir then Some(RootMissing)
    else if !(0.0 < ratio < 1.0) then Some(RatioOutOfRange)
    else None
  }

  /** `get_category_dirs`: the sub-directories, in listing order. */
  function Categories(root: seq<Entry>): (r: seq<Entry>)
    ensures forall e :: e in r <==> e in root && e.isDir
  {
    FilterContents(root, (e: Entry) => e.isDir);
    Filter(root, (e: Entry) => e.isDir)
  }

  const ImageExtensions: set<string> := {".jpg", ".jpeg", ".png", ".bmp", ".webp"}

  predicate IsImage(name: string) {
    Lower(SplitExt(name).1) in ImageExtensions
  }

  /** The names of a category directory whose lower-cased extension is an
    * image extension, in listing order. */
  function ImageFiles(names: seq<string>): (r: seq<string>)
    ensures |r| <= |names|
    ensures forall f :: f in r <==> f in names && IsImage(f)
  {
    FilterContents(names, IsImage);
    Filter(names, IsImage)
  }

  /** `split_category_files`. The generator is re-seeded with the same seed
    * for every category, so the shuffle is a fixed function `shuffle` of
    * the list; it only reorders. */
  method SplitCategoryFiles(names: seq<string>, ratio: real, shuffle: seq<string> -> seq<string>)
    returns (train: seq<string>, val: seq<string>)
    requires 0.0 < ratio < 1.0
    requires forall xs :: multiset(shuffle(xs)) == multiset(xs)
    ensures train + val == shuffle(ImageFiles(names))
    ensures multiset(train + val) == multiset(ImageFiles(names))
    ensures |train| == SplitIndex(|ImageFiles(names)|, ratio)
  {
    var all := ImageFiles(names);
    var shuffled := shuffle(all);
    assert |shuffled| == |multiset(shuffled)| == |all|;
    var k := SplitIndex(|shuffled|, ratio);
    train := shuffled[..k];
    val := shuffled[k..];
    assert train + val == shuffled;
  }

  /** The directories `create_directory_structure` makes: `train/<c>` for
    * every category, then `val/<c>`. */
  function DirsFor(split: string, categories: seq<Entry>): (r: seq<seq<string>>)
    ensures |r| == |categories|
    ensures forall i :: 0 <= i < |categories| ==> r[i] == [split, categories[i].name]
  {
    seq(|categories|, i requires 0 <= i < |categories| => [split, categories[i].name])
  }

  method CreateDirectoryStructure(categories: seq<Entry>) returns (dirs: seq<seq<string>>)
    ensures dirs == DirsFor("train", categories) + DirsFor("val", categories)
  {
    dirs := [];
    var splits := ["train", "val"];
    var s := 0;
    while s < 2
      invariant 0 <= s <= 2
      invariant dirs == (if s >= 1 then DirsFor("train", categories) else [])
                        + (if s >= 2 then DirsFor("val", categories) else [])
    {
      var i := 0;
      ghost var before := dirs;
      while i < |categories|
        invariant 0 <= i <= |categories|
        invariant dirs == before + DirsFor(splits[s], categories[..i])
      {
        dirs := dirs + [[splits[s], categories[i].name]];
        i := i + 1;
      }
      assert categories[..i] == categories;
      s := s + 1;
    }
  }

  /** A file copied from `<category>/<filename>` to
    * `<split>/<category>/<filename>`. */
  datatype Copy = Copy(split: string, category: string, filename: string)

  function CopiesFor(split: string, category: string, files: seq<string>): (r: seq<Copy>)
    ensures |r| == |files|
    ensures forall i :: 0 <= i < |files| ==> r[i] == Copy(split, category, files[i])
  {
    seq(|files|, i requires 0 <= i < |files| => Copy(split, category, files[i]))
  }

  /** The number of image files over the categories. */
  function TotalImages(categories: seq<Entry>): nat {
    if categories == [] then 0
    else TotalImages(categories[..|categories| - 1]) + |ImageFiles(categories[|categories| - 1].files)|
  }

  /** A category's shuffled image files: `shuffle` only reorders, so the
    * list keeps its length. */
  function Shuffled(c: Entry, shuffle: seq<string> -> seq<string>): (r: seq<string>)
    requires forall xs :: multiset(shuffle(xs)) == multiset(xs)
    ensures |r| == |ImageFiles(c.files)|
    ensures multiset(r) == multiset(ImageFiles(c.files))
  {
    var r := shuffle(ImageFiles(c.files));
    assert |r| == |multiset(r)|;
    r
  }

  /** The copies of one category: its shuffled image files cut at
    * `int(n * ratio)`, the front to `train/`, the rest to `val/`. */
  function CategoryCopies(c: Entry, ratio: real, shuffle: seq<string> -> seq<string>): seq<Copy>
    requires 0.0 < ratio < 1.0
    requires forall xs :: multiset(shuffle(xs)) == multiset(xs)
  {
    var s := Shuffled(c, shuffle);
    var k := SplitIndex(|s|, ratio);
    CopiesFor("train", c.name, s[..k]) + CopiesFor("val", c.name, s[k..])
  }

  /** The copies of the categories, one category after another. */
  function AllCopies(categories: seq<Entry>, ratio: real, shuffle: seq<string> -> seq<string>): seq<Copy>
    requires 0.0 < ratio < 1.0
    requires forall xs :: multiset(shuffle(xs)) == multiset(xs)
  {
    if categories == [] then []
    else
      var n := |categories| - 1;
      AllCopies(categories[..n], ratio, shuffle) + CategoryCopies(categories[n], ratio, shuffle)
  }

  /** The files sent to `train/`: `int(n * ratio)` of each category. */
  function TrainTotal(categories: seq<Entry>, ratio: real): nat
    requires 0.0 < ratio < 1.0
  {
    if categories == [] then 0
    else
      var n := |categories| - 1;
      TrainTotal(categories[..n], ratio) + SplitIndex(|ImageFiles(categories[n].files)|, ratio)
  }

  /** Cutting a list in two and copying the parts: each copy names a file
    * of the list, and each file of the list is copied to one of the
    * splits. */
  lemma CutCopies(name: string, s: seq<string>, k: nat)
    requires k <= |s|
    ensures var r := CopiesFor("train", name, s[..k]) + CopiesFor("val", name, s[k..]);
            && |r| == |s|
            && (forall x :: x in r ==> x.category == name && x.filename in s)
            && (forall f :: f in s ==> Copy("train", name, f) in r || Copy("val", name, f) in r)
  {
    var r := CopiesFor("train", name, s[..k]) + CopiesFor("val", name, s[k..]);
    forall i | 0 <= i < |r| ensures r[i].category == name && r[i].filename == s[i] {
      if i >= k {
        assert r[i] == CopiesFor("val", name, s[k..])[i - k];
      }
    }
    forall f | f in s ensures Copy("train", name, f) in r || Copy("val", name, f) in r {
      var i :| 0 <= i < |s| && s[i] == f;
      assert r[i].filename == f;
    }
  }

  /** Every category copies each of its image files, as often as it is
    * listed, to one of the splits, and nothing else. */
  lemma CategoryCopiesMeaning(c: Entry, ratio: real, shuffle: seq<string> -> seq<string>)
    requires 0.0 < ratio < 1.0
    requires forall xs :: multiset(shuffle(xs)) == multiset(xs)
    ensures var r := CategoryCopies(c, ratio, shuffle);
            && |r| == |ImageFiles(c.files)|
            && (forall x :: x in r ==> x.category == c.name && IsImage(x.filename) && x.filename in c.files)
            && (forall f :: f in ImageFiles(c.files) ==> Copy("train", c.name, f) in r || Copy("val", c.name, f) in r)
  {
    var s := Shuffled(c, shuffle);
    var files := ImageFiles(c.files);
    CutCopies(c.name, s, SplitIndex(|s|, ratio));
    assert forall f :: f in s <==> f in files by {
      forall f ensures f in s <==> f in files {
        assert f in s <==> f in multiset(s);
        assert f in files <==> f in multiset(files);
      }
    }
  }

  datatype Stats = Stats(train: nat, val: nat)

  datatype Outcome =
    | Failed(error: Error)
    | Done(dirs: seq<seq<string>>, stats: Stats, copies: seq<Copy>)

  /** `main`: the checks, then for each category its split and copies. The
    * reported total `train + val` is the number of image files over all
    * categories. */
  method SplitClassify(rootIsDir: bool, ratio: real, root: seq<Entry>, shuffle: seq<string> -> seq<string>)
    returns (outcome: Outcome)
    requires forall xs :: multiset(shuffle(xs)) == multiset(xs)
    ensures outcome.Failed? <==> ValidateArguments(rootIsDir, ratio).Some? || Categories(root) == []
    ensures outcome.Failed? && ValidateArguments(rootIsDir, ratio).Some? ==>
              outcome.error == ValidateArguments(rootIsDir, ratio).value
    ensures outcome.Failed? && ValidateArguments(rootIsDir, ratio).None? ==> outcome.error == NoCategories
    ensures outcome.Done? ==>
              && outcome.dirs == DirsFor("train", Categories(root)) + DirsFor("val", Categories(root))
              && outcome.stats.train == TrainTotal(Categories(root), ratio)
              && outcome.stats.train + outcome.stats.val == TotalImages(Categories(root))
              && outcome.copies == AllCopies(Categories(root), ratio, shuffle)
              && |outcome.copies| == TotalImages(Categories(root))
  {
    var err := ValidateArguments(rootIsDir, ratio);
    if err.Some? {
      return Failed(err.value);
    }
    var categories := Categories(root);
    if categories == [] {
      return Failed(NoCategories);
    }
    var dirs := CreateDirectoryStructure(categories);
    var stats := Stats(0, 0);
    var copies: seq<Copy> := [];
    var i := 0;
    while i < |categories|
      invariant 0 <= i <= |categories|
      invariant stats.train == TrainTotal(categories[..i], ratio)
      invariant stats.train + stats.val == TotalImages(categories[..i])
      invariant copies == AllCopies(categories[..i], ratio, shuffle)
      invariant |copies| == TotalImages(categories[..i])
    {
      var c := categories[i];
      assert categories[..i + 1][..i] == categories[..i];
      var train, val := SplitCategoryFiles(c.files, ratio, shuffle);
      assert |train| + |val| == |ImageFiles(c.files)| by {
        assert |train + val| == |multiset(train + val)|;
      }
      copies := copies + CopiesFor("train", c.name, train) + CopiesFor("val", c.name, val);
      stats := Stats(stats.train + |train|, stats.val + |val|);
      i := i + 1;
    }
    assert categories[..i] == categories;
    return Done(dirs, stats, copies);
  }
}
