/** Comparing an image tree with a label tree by file stem: the sorted
  * recursive listings written to two list files, and the two stem-set
  * differences reported in sorted order. */
module CheckImageLabelConsistency {
  import opened Common
  import opened Sorting

  /** One step of `os.walk`: a directory and the names of its files. */
  datatype Dir = Dir(path: string, files: seq<string>)

  /** The paths one directory contributes: its files whose lower-cased name
    * ends with `ext`, in listing order. */
  function DirMatches(path: string, files: seq<string>, ext: string): seq<string> {
    if files == [] then []
    else
      var f := files[|files| - 1];
      DirMatches(path, files[..|files| - 1], ext) + (if EndsWith(Lower(f), ext) then [JoinPath(path, f)] else [])
  }

  /** The matching paths of the whole walk, before sorting. */
  function Collected(walk: seq<Dir>, ext: string): seq<string> {
    if walk == [] then []
    else
      var d := walk[|walk| - 1];
      Collected(walk[..|walk| - 1], ext) + DirMatches(d.path, d.files, ext)
  }

  /** File `k` of directory `path` matches `ext` and is listed as `p`. */
  predicate MatchAt(path: string, files: seq<string>, ext: string, p: string, k: int) {
    0 <= k < |files| && EndsWith(Lower(files[k]), ext) && p == JoinPath(path, files[k])
  }

  /** `p` is listed from file `k` of the `i`-th walked directory. */
  predicate ListedAt(walk: seq<Dir>, ext: string, p: string, i: int, k: int) {
    0 <= i < |walk| && MatchAt(walk[i].path, walk[i].files, ext, p, k)
  }

  ghost predicate Listed(walk: seq<Dir>, ext: string, p: string) {
    exists i, k :: ListedAt(walk, ext, p, i, k)
  }

  lemma {:induction false} DirMatchesContents(path: string, files: seq<string>, ext: string, p: string)
    ensures p in DirMatches(path, files, ext) <==> exists k :: MatchAt(path, files, ext, p, k)
  {
    if files != [] {
      var n := |files| - 1;
      var front := files[..n];
      DirMatchesContents(path, front, ext, p);
      if exists k :: MatchAt(path, files, ext, p, k) {
        var k :| MatchAt(path, files, ext, p, k);
        if k < n {
          assert front[k] == files[k];
          assert MatchAt(path, front, ext, p, k);
        }
      }
      if exists k :: MatchAt(path, front, ext, p, k) {
        var k :| MatchAt(path, front, ext, p, k);
        assert front[k] == files[k];
        assert MatchAt(path, files, ext, p, k);
      }
      if p !in DirMatches(path, front, ext) && p in DirMatches(path, files, ext) {
        assert MatchAt(path, files, ext, p, n);
      }
    }
  }

  lemma {:induction false} CollectedContents(walk: seq<Dir>, ext: string, p: string)
    ensures p in Collected(walk, ext) <==> Listed(walk, ext, p)
  {
    if walk != [] {
      var n := |walk| - 1;
      var front := walk[..n];
      var last := walk[n];
      CollectedContents(front, ext, p);
      DirMatchesContents(last.path, last.files, ext, p);
      assert Collected(walk, ext) == Collected(front, ext) + DirMatches(last.path, last.files, ext);
      if Listed(front, ext, p) {
        var i, k :| ListedAt(front, ext, p, i, k);
        assert front[i] == walk[i];
        assert ListedAt(walk, ext, p, i, k);
      }
      if p in DirMatches(last.path, last.files, ext) {
        var k :| MatchAt(last.path, last.files, ext, p, k);
        assert ListedAt(walk, ext, p, n, k);
      }
      if Listed(walk, ext, p) {
        var i, k :| ListedAt(walk, ext, p, i, k);
        if i < n {
          assert front[i] == walk[i];
          assert ListedAt(front, ext, p, i, k);
        } else {
          assert MatchAt(last.path, last.files, ext, p, k);
        }
      }
    }
  }

  /** `list_files_with_ext`: walks the tree, keeps the files whose
    * lower-cased name ends with `ext`, and returns their paths sorted. */
  method ListFilesWithExt(walk: seq<Dir>, ext: string) returns (result: seq<string>)
    ensures result == SortStrings(Collected(walk, ext))
  {
    var found: seq<string> := [];
    var i := 0;
    while i < |walk|
      invariant 0 <= i <= |walk|
      invariant found == Collected(walk[..i], ext)
    {
      var d := walk[i];
      var j := 0;
      ghost var before := found;
      while j < |d.files|
        invariant 0 <= j <= |d.files|
        invariant found == before + DirMatches(d.path, d.files[..j], ext)
      {
        var f := d.files[j];
        assert d.files[..j + 1][..j] == d.files[..j];
        if EndsWith(Lower(f), ext) {
          found := found + [JoinPath(d.path, f)];
        }
        j := j + 1;
      }
      assert d.files[..j] == d.files;
      assert walk[..i + 1][..i] == walk[..i];
      i := i + 1;
    }
    assert walk[..i] == walk;
    result := SortStrings(found);
  }

  /** The listing holds exactly the walked files whose lower-cased name ends
    * with `ext` (so `A.JPG` counts as `.jpg`), in sorted order. */
  lemma ListingMeaning(walk: seq<Dir>, ext: string, p: string)
    ensures SortedStrings(SortStrings(Collected(walk, ext)))
    ensures p in SortStrings(Collected(walk, ext)) <==> Listed(walk, ext, p)
  {
    var c := Collected(walk, ext);
    assert p in SortStrings(c) <==> p in multiset(SortStrings(c));
    CollectedContents(walk, ext, p);
  }

  // ------------------------------------------------------------------
  // The list files
  // ------------------------------------------------------------------

  /** The contents of a list file: each path followed by a newline. */
  function ListText(paths: seq<string>): string {
    if paths == [] then "" else paths[0] + "\n" + ListText(paths[1..])
  }

  lemma {:induction false} ListTextAppend(paths: seq<string>, p: string)
    ensures ListText(paths + [p]) == ListText(paths) + p + "\n"
  {
    if paths != [] {
      assert (paths + [p])[1..] == paths[1..] + [p];
      ListTextAppend(paths[1..], p);
    }
  }

  /** The lines of a text, each ended by a newline (a last line without one
    * still counts). */
  function SplitLines(s: string): seq<string>
    decreases |s|
  {
    if s == [] then []
    else
      var i := FirstIndexOf(s, '\n');
      if i == |s| then [s] else [s[..i]] + SplitLines(s[i + 1..])
  }

  /** Reading a list file back line by line gives the paths written, as
    * long as no path holds a newline. */
  lemma {:induction false} ListTextRoundTrip(paths: seq<string>)
    requires forall k, j :: 0 <= k < |paths| && 0 <= j < |paths[k]| ==> paths[k][j] != '\n'
    ensures SplitLines(ListText(paths)) == paths
  {
    if paths != [] {
      var p := paths[0];
      var rest := ListText(paths[1..]);
      var s := ListText(paths);
      assert s == p + "\n" + rest;
      var i := FirstIndexOf(s, '\n');
      assert s[|p|] == '\n';
      forall j | 0 <= j < |p| ensures s[j] != '\n' {
        assert s[j] == p[j];
      }
      assert i == |p|;
      assert s[..i] == p;
      assert s[i + 1..] == rest;
      ListTextRoundTrip(paths[1..]);
    }
  }

  /** Writes one list file, a path per line, in the listing's order. */
  method WriteList(paths: seq<string>) returns (text: string)
    ensures text == ListText(paths)
  {
    text := "";
    var i := 0;
    while i < |paths|
      invariant 0 <= i <= |paths|
      invariant text == ListText(paths[..i])
    {
      ListTextAppend(paths[..i], paths[i]);
      assert paths[..i + 1] == paths[..i] + [paths[i]];
      text := text + paths[i] + "\n";
      i := i + 1;
    }
    assert paths[..i] == paths;
  }

  // ------------------------------------------------------------------
  // Stem differences
  // ------------------------------------------------------------------

  /** The stems of the base names of the listed paths. */
  function Stems(paths: seq<string>): set<string> {
    set p | p in paths :: SplitExt(Basename(p)).0
  }

  /** File `k` of the `i`-th walked directory matches `ext` and has the
    * stem `stem`. */
  predicate StemAt(walk: seq<Dir>, ext: string, stem: string, i: int, k: int) {
    0 <= i < |walk| && 0 <= k < |walk[i].files|
      && EndsWith(Lower(walk[i].files[k]), ext) && SplitExt(walk[i].files[k]).0 == stem
  }

  lemma StemOfListed(walk: seq<Dir>, ext: string, p: string, i: int, k: int)
    requires forall i, k :: 0 <= i < |walk| && 0 <= k < |walk[i].files| ==> NoSlash(walk[i].files[k])
    requires ListedAt(walk, ext, p, i, k)
    ensures StemAt(walk, ext, SplitExt(Basename(p)).0, i, k)
  {
    BasenameOfJoin(walk[i].path, walk[i].files[k]);
  }

  /** Only base names are compared: a file contributes its own stem,
    * whatever sub-directory it sits in. */
  lemma StemsOfListing(walk: seq<Dir>, ext: string, stem: string)
    requires forall i, k :: 0 <= i < |walk| && 0 <= k < |walk[i].files| ==> NoSlash(walk[i].files[k])
    ensures stem in Stems(SortStrings(Collected(walk, ext))) <==> exists i, k :: StemAt(walk, ext, stem, i, k)
  {
    var listing := SortStrings(Collected(walk, ext));
    if stem in Stems(listing) {
      var p :| p in listing && SplitExt(Basename(p)).0 == stem;
      ListingMeaning(walk, ext, p);
      var i, k :| ListedAt(walk, ext, p, i, k);
      StemOfListed(walk, ext, p, i, k);
    }
    if exists i, k :: StemAt(walk, ext, stem, i, k) {
      var i, k :| StemAt(walk, ext, stem, i, k);
      var p := JoinPath(walk[i].path, walk[i].files[k]);
      assert ListedAt(walk, ext, p, i, k);
      ListingMeaning(walk, ext, p);
      StemOfListed(walk, ext, p, i, k);
      assert p in listing;
    }
  }

  /** Sorted with no repeats: the order in which a sorted set is printed. */
  predicate StrictlySorted(s: seq<string>) {
    SortedStrings(s) && forall i, j :: 0 <= i < j < |s| ==> s[i] != s[j]
  }

  /** Drops the repeats of a sorted list. */
  function Dedup(s: seq<string>): (r: seq<string>)
    requires SortedStrings(s)
    ensures StrictlySorted(r)
    ensures forall x :: x in r <==> x in s
  {
    if |s| <= 1 then s
    else
      var rest := Dedup(s[1..]);
      if s[0] == s[1] then rest
      else
        forall k | 1 <= k < |s| ensures s[0] != s[k] {
          if s[0] == s[k] {
            StrLeAntisym(s[0], s[1]);
          }
        }
        var r := [s[0]] + rest;
        forall i, j | 0 <= i < j < |r| ensures StrLe(r[i], r[j]) && r[i] != r[j] {
          if i == 0 {
            assert r[j] in s[1..];
          }
        }
        r
  }

  /** The stem of each listed path, in listing order. */
  function StemList(paths: seq<string>): (r: seq<string>)
    ensures forall x :: x in r <==> x in Stems(paths)
  {
    if paths == [] then []
    else
      var n := |paths| - 1;
      var r := StemList(paths[..n]) + [SplitExt(Basename(paths[n])).0];
      assert forall p :: p in paths <==> p in paths[..n] || p == paths[n];
      r
  }

  /** The names of `names` not in `others`, in order. */
  function Missing(names: seq<string>, others: set<string>): (r: seq<string>)
    ensures forall x :: x in r <==> x in names && x !in others
  {
    if names == [] then []
    else
      var n := |names| - 1;
      assert forall x :: x in names <==> x in names[..n] || x == names[n];
      Missing(names[..n], others) + (if names[n] in others then [] else [names[n]])
  }

  /** The stems of `these` missing from `others`, sorted, as
    * `sorted(these_names - other_names)`. */
  function OnlyIn(these: seq<string>, others: seq<string>): (r: seq<string>)
    ensures StrictlySorted(r)
    ensures forall x :: x in r <==> x in Stems(these) && x !in Stems(others)
  {
    var missing := Missing(StemList(these), Stems(others));
    var sorted := SortStrings(missing);
    forall x ensures x in sorted <==> x in missing {
      SortStringsMembers(missing, x);
    }
    Dedup(sorted)
  }

  /** What the comparison prints. */
  datatype Line = OnlyImagesHeader | OnlyLabelsHeader | Name(text: string) | OneToOne

  function NameLines(names: seq<string>, ext: string): (r: seq<Line>)
    ensures |r| == |names|
    ensures forall i :: 0 <= i < |names| ==> r[i] == Name(names[i] + ext)
  {
    if names == [] then [] else NameLines(names[..|names| - 1], ext) + [Name(names[|names| - 1] + ext)]
  }

  /** The printed report: the image-only stems with `.jpg`, the label-only
    * stems with `.txt`, each under its header and only when there are
    * any, then the one-to-one message when there were none. */
  function Report(imgPaths: seq<string>, labelPaths: seq<string>): seq<Line> {
    ReportOf(OnlyIn(imgPaths, labelPaths), OnlyIn(labelPaths, imgPaths))
  }

  function ReportOf(onlyImg: seq<string>, onlyLabel: seq<string>): seq<Line> {
    (if onlyImg != [] then [OnlyImagesHeader] + NameLines(onlyImg, ".jpg") else [])
      + (if onlyLabel != [] then [OnlyLabelsHeader] + NameLines(onlyLabel, ".txt") else [])
      + (if onlyImg == [] && onlyLabel == [] then [OneToOne] else [])
  }

  /** Name lines under a header never carry the one-to-one message. */
  lemma NoOneToOneUnder(header: Line, names: seq<string>, ext: string)
    requires header != OneToOne
    ensures OneToOne !in [header] + NameLines(names, ext)
  {
    var a := [header] + NameLines(names, ext);
    forall i | 0 <= i < |a| ensures a[i] != OneToOne {
      if i > 0 {
        assert a[i] == NameLines(names, ext)[i - 1];
      }
    }
  }

  /** Listings of `A - B` and of `B - A` are both empty exactly when the
    * two sets are equal. */
  lemma EmptyDifferences(a: seq<string>, b: seq<string>, sa: set<string>, sb: set<string>)
    requires forall x :: x in a <==> x in sa && x !in sb
    requires forall x :: x in b <==> x in sb && x !in sa
    ensures a == [] && b == [] ==> sa == sb
    ensures sa == sb ==> a == [] && b == []
  {
    if a == [] && b == [] {
      forall x ensures x in sa <==> x in sb {
        assert x !in a && x !in b;
      }
    }
    assert a != [] ==> a[0] in sa && a[0] !in sb;
    assert b != [] ==> b[0] in sb && b[0] !in sa;
  }

  /** The two differences share no stem, and the one-to-one message is
    * printed exactly when the two stem sets are equal, and is then all
    * that is printed. */
  lemma ReportMeaning(imgPaths: seq<string>, labelPaths: seq<string>)
    ensures forall x :: !(x in OnlyIn(imgPaths, labelPaths) && x in OnlyIn(labelPaths, imgPaths))
    ensures OneToOne in Report(imgPaths, labelPaths) <==> Stems(imgPaths) == Stems(labelPaths)
    ensures Stems(imgPaths) == Stems(labelPaths) ==> Report(imgPaths, labelPaths) == [OneToOne]
  {
    var onlyImg := OnlyIn(imgPaths, labelPaths);
    var onlyLabel := OnlyIn(labelPaths, imgPaths);
    EmptyDifferences(onlyImg, onlyLabel, Stems(imgPaths), Stems(labelPaths));
    var a := if onlyImg != [] then [OnlyImagesHeader] + NameLines(onlyImg, ".jpg") else [];
    var b := if onlyLabel != [] then [OnlyLabelsHeader] + NameLines(onlyLabel, ".txt") else [];
    NoOneToOneUnder(OnlyImagesHeader, onlyImg, ".jpg");
    NoOneToOneUnder(OnlyLabelsHeader, onlyLabel, ".txt");
    assert OneToOne !in a + b;
  }

  /** `main`: lists both trees, writes the two list files, and prints the
    * report. */
  method Check(imgWalk: seq<Dir>, labelWalk: seq<Dir>)
    returns (imgList: string, labelList: string, output: seq<Line>)
    ensures imgList == ListText(SortStrings(Collected(imgWalk, ".jpg")))
    ensures labelList == ListText(SortStrings(Collected(labelWalk, ".txt")))
    ensures output == Report(SortStrings(Collected(imgWalk, ".jpg")), SortStrings(Collected(labelWalk, ".txt")))
  {
    var imgPaths := ListFilesWithExt(imgWalk, ".jpg");
    var labelPaths := ListFilesWithExt(labelWalk, ".txt");
    imgList := WriteList(imgPaths);
    labelList := WriteList(labelPaths);
    var onlyImg := OnlyIn(imgPaths, labelPaths);
    var onlyLabel := OnlyIn(labelPaths, imgPaths);
    output := PrintReport(onlyImg, onlyLabel);
  }

  /** The printing part of `main`, given the two sorted differences. */
  method PrintReport(onlyImg: seq<string>, onlyLabel: seq<string>) returns (output: seq<Line>)
    ensures output == ReportOf(onlyImg, onlyLabel)
  {
    output := [];
    if onlyImg != [] {
      output := output + [OnlyImagesHeader];
      var names := PrintNames(onlyImg, ".jpg");
      output := output + names;
    }
    if onlyLabel != [] {
      output := output + [OnlyLabelsHeader];
      var names := PrintNames(onlyLabel, ".txt");
      output := output + names;
    }
    if onlyImg == [] && onlyLabel == [] {
      output := output + [OneToOne];
    }
  }

  /** `for n in sorted(...): print(n + ext)`. */
  method PrintNames(names: seq<string>, ext: string) returns (lines: seq<Line>)
    ensures lines == NameLines(names, ext)
  {
    lines := [];
    var i := 0;
    while i < |names|
      invariant 0 <= i <= |names|
      invariant lines == NameLines(names[..i], ext)
    {
      assert names[..i + 1][..i] == names[..i];
      lines := lines + [Name(names[i] + ext)];
      i := i + 1;
    }
    assert names[..i] == names;
  }
}
