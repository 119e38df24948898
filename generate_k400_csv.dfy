/** Kinetics-400 style `train.csv` / `val.csv` for a root directory with
  * one sub-directory of videos per class: the sorted classes numbered from
  * 0, the globbed video paths, the shuffled split and the space-delimited
  * CSV rows. */
module GenerateK400Csv {
  import opened Common
  import opened Sorting
  import CreateMmaciton2Annfile

  type Entry = CreateMmaciton2Annfile.Entry
  type Sample = CreateMmaciton2Annfile.Sample

  /** `glob(join(cls_dir, "*.*"))` matches a name with a dot in it that does
    * not start with a dot. */
  predicate Globbed(name: string) {
    name != [] && name[0] != '.' && exists i :: 0 <= i < |name| && name[i] == '.'
  }

  /** `v.lower().endswith(('.mp4', '.avi', '.mov', '.mkv'))` on the whole
    * path. */
  predicate IsVideoPath(p: string) {
    CreateMmaciton2Annfile.IsVideo(p)
  }

  function ClassPath(rootDir: string, cls: string, name: string): string {
    JoinPath(JoinPath(rootDir, cls), name)
  }

  /** The samples one class directory contributes, in glob order. */
  function ClassSamples(rootDir: string, cls: string, classId: nat, listing: seq<string>): seq<Sample> {
    if listing == [] then []
    else
      var name := listing[|listing| - 1];
      var p := ClassPath(rootDir, cls, name);
      ClassSamples(rootDir, cls, classId, listing[..|listing| - 1])
        + (if Globbed(name) && IsVideoPath(p) then [CreateMmaciton2Annfile.Sample(p, classId)] else [])
  }

  /** `video_paths` before the shuffle: the classes in sorted order, class
    * `classes[i]` with index `i`. */
  function VideoPaths(rootDir: string, root: seq<Entry>, classes: seq<string>): seq<Sample> {
    if classes == [] then []
    else
      var n := |classes| - 1;
      VideoPaths(rootDir, root, classes[..n])
        + ClassSamples(rootDir, classes[n], n, CreateMmaciton2Annfile.ListingOf(root, classes[n]))
  }

  lemma {:induction false} ClassSamplesContents(rootDir: string, cls: string, classId: nat, listing: seq<string>, s: Sample)
    ensures s in ClassSamples(rootDir, cls, classId, listing) <==>
              s.classId == classId
              && exists name :: name in listing && Globbed(name) && s.relPath == ClassPath(rootDir, cls, name)
                                && IsVideoPath(s.relPath)
  {
    if listing != [] {
      var n := |listing| - 1;
      ClassSamplesContents(rootDir, cls, classId, listing[..n], s);
      assert listing == listing[..n] + [listing[n]];
    }
  }

  /** A sample is exactly a globbed video path below some class directory,
    * paired with that class's index in the sorted class list. */
  lemma {:induction false} VideoPathsContents(rootDir: string, root: seq<Entry>, classes: seq<string>, s: Sample)
    ensures s in VideoPaths(rootDir, root, classes) <==>
              s.classId < |classes|
              && exists name :: name in CreateMmaciton2Annfile.ListingOf(root, classes[s.classId]) && Globbed(name)
                                && s.relPath == ClassPath(rootDir, classes[s.classId], name) && IsVideoPath(s.relPath)
  {
    if classes != [] {
      var n := |classes| - 1;
      VideoPathsContents(rootDir, root, classes[..n], s);
      ClassSamplesContents(rootDir, classes[n], n, CreateMmaciton2Annfile.ListingOf(root, classes[n]), s);
      if s.classId < n {
        assert classes[..n][s.classId] == classes[s.classId];
      }
    }
  }

  /** The glob-and-filter loop for one class. */
  method CollectClass(rootDir: string, cls: string, classId: nat, listing: seq<string>) returns (samples: seq<Sample>)
    ensures samples == ClassSamples(rootDir, cls, classId, listing)
  {
    samples := [];
    var i := 0;
    while i < |listing|
      invariant 0 <= i <= |listing|
      invariant samples == ClassSamples(rootDir, cls, classId, listing[..i])
    {
      assert listing[..i + 1][..i] == listing[..i];
      var name := listing[i];
      var video := JoinPath(JoinPath(rootDir, cls), name);
      if Globbed(name) && IsVideoPath(video) {
        samples := samples + [CreateMmaciton2Annfile.Sample(video, classId)];
      }
      i := i + 1;
    }
    assert listing[..i] == listing;
  }

  /** `{cls: idx for idx, cls in enumerate(classes)}` for distinct
    * classes. */
  function ClassToIdx(classes: seq<string>): (m: map<string, nat>)
    requires forall i, j :: 0 <= i < j < |classes| ==> classes[i] != classes[j]
    ensures forall c :: c in m <==> c in classes
    ensures forall i :: 0 <= i < |classes| ==> classes[i] in m && m[classes[i]] == i
  {
    var m := map i | 0 <= i < |classes| :: classes[i] := i;
    assert forall i :: 0 <= i < |classes| ==> classes[i] in m && m[classes[i]] == i by {
      forall i | 0 <= i < |classes| ensures classes[i] in m && m[classes[i]] == i {
        forall j | 0 <= j < |classes| && classes[j] == classes[i] ensures j == i {
        }
      }
    }
    m
  }

  /** The class loop: `class_to_idx` sends `classes[i]` to `i`. */
  method CollectVideos(rootDir: string, root: seq<Entry>) returns (videoPaths: seq<Sample>, classToIdx: map<string, nat>)
    requires CreateMmaciton2Annfile.UniqueNames(root)
    ensures videoPaths == VideoPaths(rootDir, root, CreateMmaciton2Annfile.ClassDirs(root))
    ensures var classes := CreateMmaciton2Annfile.ClassDirs(root);
            (forall c :: c in classToIdx <==> c in classes)
            && forall i :: 0 <= i < |classes| ==> classes[i] in classToIdx && classToIdx[classes[i]] == i
  {
    var classes := SortStrings(CreateMmaciton2Annfile.DirNames(root));
    CreateMmaciton2Annfile.DirNamesOnce(root);
    SortedDistinct(CreateMmaciton2Annfile.DirNames(root));
    classToIdx := ClassToIdx(classes);
    videoPaths := ClassLoop(rootDir, root, classes, classToIdx);
  }

  /** The loop over the sorted classes, each globbed under its index. */
  method ClassLoop(rootDir: string, root: seq<Entry>, classes: seq<string>, classToIdx: map<string, nat>)
    returns (videoPaths: seq<Sample>)
    requires forall i :: 0 <= i < |classes| ==> classes[i] in classToIdx && classToIdx[classes[i]] == i
    ensures videoPaths == VideoPaths(rootDir, root, classes)
  {
    videoPaths := [];
    var k := 0;
    while k < |classes|
      invariant 0 <= k <= |classes|
      invariant videoPaths == VideoPaths(rootDir, root, classes[..k])
    {
      assert classes[..k + 1][..k] == classes[..k];
      var cls := classes[k];
      var more := CollectClass(rootDir, cls, classToIdx[cls], CreateMmaciton2Annfile.ListingOf(root, cls));
      videoPaths := videoPaths + more;
      k := k + 1;
    }
    assert classes[..k] == classes;
  }

  // ------------------------------------------------------------------
  // CSV rows
  // ------------------------------------------------------------------

  /** A field `csv.writer` quotes under its minimal quoting: it holds the
    * delimiter, the quote character or a line-end character. */
  predicate NeedsQuotes(f: string) {
    exists i :: 0 <= i < |f| && (f[i] == ' ' || f[i] == '"' || f[i] == '\r' || f[i] == '\n')
  }

  /** Every quote character doubled. */
  function Double(s: string): string {
    if s == [] then [] else (if s[0] == '"' then "\"\"" else [s[0]]) + Double(s[1..])
  }

  function Undouble(t: string): string {
    if t == [] then []
    else if |t| >= 2 && t[0] == '"' && t[1] == '"' then "\"" + Undouble(t[2..])
    else [t[0]] + Undouble(t[1..])
  }

  lemma {:induction false} UndoubleDouble(s: string)
    ensures Undouble(Double(s)) == s
  {
    if s != [] {
      UndoubleDouble(s[1..]);
      var d := Double(s[1..]);
      if s[0] == '"' {
        assert Double(s) == "\"\"" + d;
        assert Double(s)[2..] == d;
      } else {
        assert Double(s) == [s[0]] + d;
        assert Double(s)[1..] == d;
      }
      assert s == [s[0]] + s[1..];
    }
  }

  function QuoteField(f: string): string {
    if NeedsQuotes(f) then "\"" + Double(f) + "\"" else f
  }

  /** How a CSV reader takes a field back. */
  function ReadField(t: string): string {
    if |t| >= 2 && t[0] == '"' && t[|t| - 1] == '"' then Undouble(t[1..|t| - 1]) else t
  }

  /** A written field reads back as itself, quoted or not. */
  lemma FieldRoundTrip(f: string)
    ensures ReadField(QuoteField(f)) == f
  {
    if NeedsQuotes(f) {
      var q := QuoteField(f);
      assert q[1..|q| - 1] == Double(f);
      UndoubleDouble(f);
    } else {
      assert !(|f| >= 2 && f[0] == '"');
    }
  }

  /** `writer.writerow([video_path, label])` with `delimiter=" "` and the
    * writer's `\r\n` line terminator. */
  function Row(s: Sample): string {
    QuoteField(s.relPath) + " " + IntToString(s.classId) + "\r\n"
  }

  function CsvText(rows: seq<Sample>): string {
    if rows == [] then "" else CsvText(rows[..|rows| - 1]) + Row(rows[|rows| - 1])
  }

  /** A row whose path has no whitespace and no quote splits back into the
    * path and the label. */
  lemma RowReadsBack(s: Sample)
    requires IsWord(s.relPath)
    requires forall i :: 0 <= i < |s.relPath| ==> s.relPath[i] != '"'
    ensures var t := Tokens(Row(s));
            |t| == 2 && t[0] == s.relPath && ParseInt(t[1]) == Some(s.classId as int)
  {
    IntToStringChars(s.classId);
    assert JoinSpace([s.relPath, IntToString(s.classId)]) == s.relPath + " " + IntToString(s.classId) by {
      assert [s.relPath, IntToString(s.classId)][1..] == [IntToString(s.classId)];
    }
    TokensOfJoin([s.relPath, IntToString(s.classId)], "\r\n");
    ParseIntOfToString(s.classId);
  }

  method WriteCsv(data: seq<Sample>) returns (text: string)
    ensures text == CsvText(data)
  {
    text := "";
    var i := 0;
    while i < |data|
      invariant 0 <= i <= |data|
      invariant text == CsvText(data[..i])
    {
      assert data[..i + 1][..i] == data[..i];
      text := text + Row(data[i]);
      i := i + 1;
    }
    assert data[..i] == data;
  }

  // ------------------------------------------------------------------
  // generate_kinetics_style_csv
  // ------------------------------------------------------------------

  /** The two files written: a path and its text each. */
  datatype Output = Output(trainCsv: string, trainText: string, valCsv: string, valText: string)

  /** `generate_kinetics_style_csv`, with `random.shuffle`'s result as
    * `shuffled`; `output_dir` defaults to `root_dir`. */
  method GenerateKineticsStyleCsv(rootDir: string, root: seq<Entry>, trainRatio: real, outputDir: Option<string>,
                                  shuffled: seq<Sample>)
    returns (out: Output, trainData: seq<Sample>, valData: seq<Sample>)
    requires CreateMmaciton2Annfile.UniqueNames(root)
    requires multiset(shuffled) == multiset(VideoPaths(rootDir, root, CreateMmaciton2Annfile.ClassDirs(root)))
    ensures trainData + valData == shuffled
    ensures |trainData| == CreateMmaciton2Annfile.PrefixLength(|shuffled|, CreateMmaciton2Annfile.TrainSize(|shuffled|, trainRatio))
    ensures var dir := if outputDir.Some? then outputDir.value else rootDir;
            out == Output(JoinPath(dir, "train.csv"), CsvText(trainData), JoinPath(dir, "val.csv"), CsvText(valData))
  {
    var dir := rootDir;
    if outputDir.Some? {
      dir := outputDir.value;
    }
    var videoPaths, classToIdx := CollectVideos(rootDir, root);
    assert |shuffled| == |videoPaths| by {
      assert |shuffled| == |multiset(shuffled)|;
    }
    trainData, valData := CreateMmaciton2Annfile.SplitDataset(videoPaths, trainRatio, shuffled);
    var trainText := WriteCsv(trainData);
    var valText := WriteCsv(valData);
    out := Output(JoinPath(dir, "train.csv"), trainText, JoinPath(dir, "val.csv"), valText);
  }
}
