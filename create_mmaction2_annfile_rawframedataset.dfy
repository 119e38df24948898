/** The annotation file of an MMAction2 raw-frame dataset: one line
  * `{class}/{item1}[/{item2}] {frames} {label}` per directory of numbered
  * `.jpg` frames, two or three levels below the root. */
module CreateMmaction2AnnfileRawFrameDataset {
  import opened Common
  import opened Sorting
  import opened DirTree

  // ------------------------------------------------------------------
  // Counting frames
  // ------------------------------------------------------------------

  /** A frame file: its lower-cased name ends in `.jpg` and the name
    * without those four characters is all digits. */
  predicate FrameName(f: string) {
    |f| >= 4 && EndsWith(Lower(f), ".jpg") && AllDigits(f[..|f| - 4])
  }

  /** `count_frames_in_directory`: the number of regular files with a frame
    * name; 0 when the path is not a directory. */
  function CountFrames(isDir: bool, d: Dir): nat {
    if !isDir then 0 else |Filter(FileNames(d), FrameName)|
  }

  lemma CountFramesMeaning(isDir: bool, d: Dir)
    ensures !isDir ==> CountFrames(isDir, d) == 0
    ensures CountFrames(isDir, d) <= |d.entries|
    ensures CountFrames(isDir, d) > 0 <==> isDir && exists e :: e in d.entries && e.File? && FrameName(e.name)
  {
    var names := FileNames(d);
    FilterMapContents(d.entries, (e: Entry) => if e.File? then Some(e.name) else None);
    FilterContents(names, FrameName);
    var frames := Filter(names, FrameName);
    assert frames != [] ==> frames[0] in frames;
  }

  // ------------------------------------------------------------------
  // The annotation lines
  // ------------------------------------------------------------------

  /** One annotation: the frame directory below the root, as components,
    * its frame count and its class label. */
  datatype Ann = Ann(path: seq<string>, count: nat, classId: nat)

  /** The lines for the level-2 directories `names` (in order) of `d1`. */
  function Level2Lines(cls: string, item1: string, classId: nat, d1: Dir, names: seq<string>): seq<Ann> {
    if names == [] then []
    else
      var n := names[|names| - 1];
      Level2Lines(cls, item1, classId, d1, names[..|names| - 1]) + Level2Block(cls, item1, classId, d1, n)
  }

  /** The line of level-2 directory `item2` of `d1`, if it has frames. */
  function Level2Block(cls: string, item1: string, classId: nat, d1: Dir, item2: string): seq<Ann> {
    match Lookup(d1.entries, item2)
    case Some(d2) => if CountFrames(true, d2) > 0 then [Ann([cls, item1, item2], CountFrames(true, d2), classId)] else []
    case None => []
  }

  /** A level-1 directory with frames is one line and its sub-directories
    * are not looked at; otherwise its sub-directories with frames are. */
  function ItemLines(cls: string, item1: string, classId: nat, d1: Dir): seq<Ann> {
    var c := CountFrames(true, d1);
    if c > 0 then [Ann([cls, item1], c, classId)] else Level2Lines(cls, item1, classId, d1, SubdirNames(d1))
  }

  function ClassLines(cls: string, classId: nat, dc: Dir, names: seq<string>): seq<Ann> {
    if names == [] then []
    else
      var n := names[|names| - 1];
      ClassLines(cls, classId, dc, names[..|names| - 1]) + ItemBlock(cls, classId, dc, n)
  }

  /** The lines of level-1 directory `item1` of class directory `dc`. */
  function ItemBlock(cls: string, classId: nat, dc: Dir, item1: string): seq<Ann> {
    match Lookup(dc.entries, item1)
    case Some(d1) => ItemLines(cls, item1, classId, d1)
    case None => []
  }

  /** The lines of the classes `classes`, class `classes[i]` labelled `i`. */
  function AnnotationsOf(root: Dir, classes: seq<string>): seq<Ann> {
    if classes == [] then []
    else
      var n := |classes| - 1;
      AnnotationsOf(root, classes[..n]) + ClassBlock(root, classes[n], n)
  }

  /** The lines of class directory `cls` with label `classId`. */
  function ClassBlock(root: Dir, cls: string, classId: nat): seq<Ann> {
    match Lookup(root.entries, cls)
    case Some(dc) => ClassLines(cls, classId, dc, SubdirNames(dc))
    case None => []
  }

  lemma {:induction false} Level2LinesMeaning(cls: string, item1: string, classId: nat, d1: Dir, names: seq<string>)
    ensures forall a :: a in Level2Lines(cls, item1, classId, d1, names) ==>
              a.count > 0 && a.classId == classId && |a.path| == 3 && a.path[..2] == [cls, item1] && a.path[2] in names
    ensures forall n :: n in names && Lookup(d1.entries, n).Some? && CountFrames(true, Lookup(d1.entries, n).value) > 0 ==>
              Ann([cls, item1, n], CountFrames(true, Lookup(d1.entries, n).value), classId) in Level2Lines(cls, item1, classId, d1, names)
  {
    if names != [] {
      var k := |names| - 1;
      Level2LinesMeaning(cls, item1, classId, d1, names[..k]);
      assert names == names[..k] + [names[k]];
    }
  }

  /** A level-1 directory with frames gives exactly its own line; every
    * line names the class and the item first. */
  lemma ItemLinesShape(cls: string, item1: string, classId: nat, d1: Dir)
    ensures CountFrames(true, d1) > 0 ==> ItemLines(cls, item1, classId, d1) == [Ann([cls, item1], CountFrames(true, d1), classId)]
    ensures forall a :: a in ItemLines(cls, item1, classId, d1) ==>
              a.count > 0 && a.classId == classId && 2 <= |a.path| <= 3 && a.path[0] == cls && a.path[1] == item1
  {
    Level2LinesMeaning(cls, item1, classId, d1, SubdirNames(d1));
    forall a | a in ItemLines(cls, item1, classId, d1) && |a.path| == 3 && a.path[..2] == [cls, item1]
      ensures a.path[0] == cls && a.path[1] == item1
    {
      assert a.path[..2][0] == a.path[0] && a.path[..2][1] == a.path[1];
    }
  }

  /** A level-1 directory without frames gives one line per level-2
    * sub-directory with frames, and no other. */
  lemma ItemLinesMeaning(cls: string, item1: string, classId: nat, d1: Dir)
    requires CountFrames(true, d1) == 0
    ensures forall n :: (Lookup(d1.entries, n).Some? && CountFrames(true, Lookup(d1.entries, n).value) > 0) <==>
              exists a :: a in ItemLines(cls, item1, classId, d1) && a.path == [cls, item1, n]
  {
    var names := SubdirNames(d1);
    Level2LinesMeaning(cls, item1, classId, d1, names);
    forall n ensures (Lookup(d1.entries, n).Some? && CountFrames(true, Lookup(d1.entries, n).value) > 0) <==>
                     exists a :: a in ItemLines(cls, item1, classId, d1) && a.path == [cls, item1, n] {
      DirNamesFound(d1.entries, n);
      assert n in names <==> n in multiset(names);
      if exists a :: a in ItemLines(cls, item1, classId, d1) && a.path == [cls, item1, n] {
        var a :| a in ItemLines(cls, item1, classId, d1) && a.path == [cls, item1, n];
        Level2Exact(cls, item1, classId, d1, names, a);
      }
    }
  }

  /** The line of a level-2 directory carries that directory's count. */
  lemma {:induction false} Level2Exact(cls: string, item1: string, classId: nat, d1: Dir, names: seq<string>, a: Ann)
    requires a in Level2Lines(cls, item1, classId, d1, names)
    ensures |a.path| == 3 && Lookup(d1.entries, a.path[2]).Some? && a.count == CountFrames(true, Lookup(d1.entries, a.path[2]).value)
  {
    Level2LinesMeaning(cls, item1, classId, d1, names);
    var k := |names| - 1;
    if a !in Level2Lines(cls, item1, classId, d1, names[..k]) {
      assert a.path[2] == names[k];
    } else {
      Level2Exact(cls, item1, classId, d1, names[..k], a);
    }
  }

  /** What an item block holds: lines of its class with frames, naming the
    * item second. */
  predicate ClassLine(a: Ann, cls: string, classId: nat) {
    a.count > 0 && a.classId == classId && 2 <= |a.path| <= 3 && a.path[0] == cls
  }

  lemma ItemBlockMeaning(cls: string, classId: nat, dc: Dir, item1: string)
    ensures forall a :: a in ItemBlock(cls, classId, dc, item1) ==> ClassLine(a, cls, classId) && a.path[1] == item1
  {
    match Lookup(dc.entries, item1)
    case Some(d1) => ItemLinesShape(cls, item1, classId, d1);
    case None =>
  }

  lemma {:induction false} ClassLinesMeaning(cls: string, classId: nat, dc: Dir, names: seq<string>)
    ensures forall a :: a in ClassLines(cls, classId, dc, names) ==> ClassLine(a, cls, classId) && a.path[1] in names
  {
    if names != [] {
      var k := |names| - 1;
      var front := ClassLines(cls, classId, dc, names[..k]);
      var block := ItemBlock(cls, classId, dc, names[k]);
      ClassLinesMeaning(cls, classId, dc, names[..k]);
      ItemBlockMeaning(cls, classId, dc, names[k]);
      assert ClassLines(cls, classId, dc, names) == front + block;
      forall a | a in front + block ensures ClassLine(a, cls, classId) && a.path[1] in names {
        if a in front {
          assert a.path[1] in names[..k];
        }
      }
    }
  }

  /** A class block holds lines of its class only. */
  lemma ClassBlockMeaning(root: Dir, cls: string, classId: nat)
    ensures forall a :: a in ClassBlock(root, cls, classId) ==> ClassLine(a, cls, classId)
  {
    match Lookup(root.entries, cls)
    case Some(dc) => ClassLinesMeaning(cls, classId, dc, SubdirNames(dc));
    case None =>
  }

  /** A line as the whole file promises it: frames, and the class whose
    * position is its label named first. */
  predicate LabelledLine(a: Ann, classes: seq<string>) {
    a.count > 0 && 2 <= |a.path| <= 3 && a.classId < |classes| && a.path[0] == classes[a.classId]
  }

  /** Every line has frames, names its class first, and carries that
    * class's position as label; labels never decrease down the file, so
    * the lines come class by class in sorted class order. */
  lemma {:induction false} AnnotationsMeaning(root: Dir, classes: seq<string>)
    ensures forall a :: a in AnnotationsOf(root, classes) ==> LabelledLine(a, classes)
    ensures forall i, j :: 0 <= i <= j < |AnnotationsOf(root, classes)| ==>
              AnnotationsOf(root, classes)[i].classId <= AnnotationsOf(root, classes)[j].classId
  {
    if classes != [] {
      var n := |classes| - 1;
      var front := AnnotationsOf(root, classes[..n]);
      var last := ClassBlock(root, classes[n], n);
      AnnotationsMeaning(root, classes[..n]);
      ClassBlockMeaning(root, classes[n], n);
      var all := AnnotationsOf(root, classes);
      assert all == front + last;
      forall a | a in all ensures LabelledLine(a, classes) {
        if a in front {
          assert LabelledLine(a, classes[..n]);
          assert classes[..n][a.classId] == classes[a.classId];
        } else {
          assert ClassLine(a, classes[n], n);
        }
      }
      forall i | 0 <= i < |front| ensures all[i].classId < n {
        assert all[i] == front[i] && front[i] in front;
        assert LabelledLine(front[i], classes[..n]);
      }
      forall i | |front| <= i < |all| ensures all[i].classId == n {
        assert all[i] == last[i - |front|] && last[i - |front|] in last;
      }
      forall i, j | 0 <= i <= j < |all| ensures all[i].classId <= all[j].classId {
        if j < |front| {
          assert all[i] == front[i] && all[j] == front[j];
        }
      }
    }
  }

  // ------------------------------------------------------------------
  // The file
  // ------------------------------------------------------------------

  /** `'/'.join(parts)`. */
  function JoinSlash(parts: seq<string>): string {
    if parts == [] then ""
    else if |parts| == 1 then parts[0]
    else parts[0] + "/" + JoinSlash(parts[1..])
  }

  function LineText(a: Ann): string {
    JoinSpace([JoinSlash(a.path), IntToString(a.count), IntToString(a.classId)])
  }

  function FileText(lines: seq<Ann>): string {
    if lines == [] then "" else FileText(lines[..|lines| - 1]) + LineText(lines[|lines| - 1]) + "\n"
  }

  /** When the directory names hold no whitespace, a line splits back into
    * the frame directory, its frame count and its label. */
  lemma LineReadsBack(a: Ann)
    requires IsWord(JoinSlash(a.path))
    ensures var t := Tokens(LineText(a) + "\n");
            |t| == 3 && t[0] == JoinSlash(a.path) && ParseInt(t[1]) == Some(a.count as int) && ParseInt(t[2]) == Some(a.classId as int)
  {
    IntToStringChars(a.count);
    IntToStringChars(a.classId);
    TokensOfJoin([JoinSlash(a.path), IntToString(a.count), IntToString(a.classId)], "\n");
    ParseIntOfToString(a.count);
    ParseIntOfToString(a.classId);
  }

  // ------------------------------------------------------------------
  // generate_rawframes_annotation
  // ------------------------------------------------------------------

  /** The level-2 loop for one level-1 directory without frames. */
  method Level2Annotations(cls: string, item1: string, classId: nat, d1: Dir) returns (lines: seq<Ann>)
    ensures lines == Level2Lines(cls, item1, classId, d1, SubdirNames(d1))
  {
    lines := Level2Loop(cls, item1, classId, d1, SortStrings(DirNames(d1.entries)));
  }

  /** The loop over the sorted level-2 names. */
  method Level2Loop(cls: string, item1: string, classId: nat, d1: Dir, names: seq<string>) returns (lines: seq<Ann>)
    ensures lines == Level2Lines(cls, item1, classId, d1, names)
  {
    lines := [];
    var i := 0;
    while i < |names|
      invariant 0 <= i <= |names|
      invariant lines == Level2Lines(cls, item1, classId, d1, names[..i])
    {
      assert names[..i + 1][..i] == names[..i];
      var more := Level2Item(cls, item1, classId, d1, names[i]);
      lines := lines + more;
      i := i + 1;
    }
    assert names[..i] == names;
  }

  /** The line of one level-2 directory, when it has frames. */
  method Level2Item(cls: string, item1: string, classId: nat, d1: Dir, item2: string) returns (more: seq<Ann>)
    ensures more == Level2Block(cls, item1, classId, d1, item2)
  {
    var d2 := Lookup(d1.entries, item2);
    more := [];
    if d2.Some? {
      var c := CountFrames(true, d2.value);
      if c > 0 {
        more := [Ann([cls, item1, item2], c, classId)];
      }
    }
  }

  /** The lines of one level-1 directory: its own line when it has frames,
    * otherwise those of its level-2 directories. */
  method ItemAnnotations(cls: string, classId: nat, dc: Dir, item1: string) returns (more: seq<Ann>)
    ensures more == ItemBlock(cls, classId, dc, item1)
  {
    var d1 := Lookup(dc.entries, item1);
    more := [];
    if d1.Some? {
      var c := CountFrames(true, d1.value);
      if c > 0 {
        more := [Ann([cls, item1], c, classId)];
      } else {
        more := Level2Annotations(cls, item1, classId, d1.value);
      }
    }
  }

  /** The level-1 loop for one class directory. */
  method ClassAnnotations(cls: string, classId: nat, dc: Dir) returns (lines: seq<Ann>)
    ensures lines == ClassLines(cls, classId, dc, SubdirNames(dc))
  {
    lines := ClassLoop(cls, classId, dc, SortStrings(DirNames(dc.entries)));
  }

  /** The loop over the sorted level-1 names. */
  method ClassLoop(cls: string, classId: nat, dc: Dir, names: seq<string>) returns (lines: seq<Ann>)
    ensures lines == ClassLines(cls, classId, dc, names)
  {
    lines := [];
    var i := 0;
    while i < |names|
      invariant 0 <= i <= |names|
      invariant lines == ClassLines(cls, classId, dc, names[..i])
    {
      assert names[..i + 1][..i] == names[..i];
      var more := ItemAnnotations(cls, classId, dc, names[i]);
      lines := lines + more;
      i := i + 1;
    }
    assert names[..i] == names;
  }

  /** The writing loop: each line followed by a newline. */
  method WriteAnnotations(annotations: seq<Ann>) returns (text: string)
    ensures text == FileText(annotations)
  {
    text := "";
    var k := 0;
    while k < |annotations|
      invariant 0 <= k <= |annotations|
      invariant text == FileText(annotations[..k])
    {
      assert annotations[..k + 1][..k] == annotations[..k];
      text := text + LineText(annotations[k]) + "\n";
      k := k + 1;
    }
    assert annotations[..k] == annotations;
  }

  /** The class loop: labels handed out in order as classes are first
    * seen, and each class's lines appended. */
  method AnnotateClasses(root: Dir, classNames: seq<string>) returns (annotations: seq<Ann>, classToLabel: map<string, nat>)
    requires forall i, j :: 0 <= i < j < |classNames| ==> classNames[i] != classNames[j]
    ensures annotations == AnnotationsOf(root, classNames)
    ensures forall c :: c in classToLabel <==> c in classNames
    ensures forall i :: 0 <= i < |classNames| ==> classNames[i] in classToLabel && classToLabel[classNames[i]] == i
  {
    annotations := [];
    classToLabel := map[];
    var currentLabelIdx := 0;
    var i := 0;
    while i < |classNames|
      invariant 0 <= i <= |classNames|
      invariant currentLabelIdx == i
      invariant annotations == AnnotationsOf(root, classNames[..i])
      invariant forall c :: c in classToLabel <==> c in classNames[..i]
      invariant forall j :: 0 <= j < i ==> classNames[j] in classToLabel && classToLabel[classNames[j]] == j
    {
      var className := classNames[i];
      assert className !in classNames[..i];
      if className !in classToLabel {
        PositionMapStep(classNames, i, classToLabel, classToLabel[className := currentLabelIdx]);
        classToLabel := classToLabel[className := currentLabelIdx];
        currentLabelIdx := currentLabelIdx + 1;
      }
      var more := AnnotateClass(root, className, classToLabel[className]);
      assert classNames[..i + 1][..i] == classNames[..i];
      annotations := annotations + more;
      i := i + 1;
    }
    assert classNames[..i] == classNames;
  }

  /** The lines of one class directory, when there is one of that name. */
  method AnnotateClass(root: Dir, className: string, classId: nat) returns (more: seq<Ann>)
    ensures more == ClassBlock(root, className, classId)
  {
    var dc := Lookup(root.entries, className);
    more := [];
    if dc.Some? {
      more := ClassAnnotations(className, classId, dc.value);
    }
  }

  datatype Outcome =
    | RootMissing
    | NoClasses
    | NoAnnotations                // nothing is written
    | Written(file: seq<string>, text: string, classToLabel: map<string, nat>)

  /** `generate_rawframes_annotation`: class `i` of the sorted class
    * directories gets label `i`; the file `root/output_filename` holds one
    * line per annotation and is written only when there is one. */
  method GenerateRawframesAnnotation(rootIsDir: bool, root: Dir, outputFilename: string)
    returns (outcome: Outcome)
    requires UniqueNames(root)
    ensures !rootIsDir <==> outcome == RootMissing
    ensures outcome == NoClasses <==> rootIsDir && SubdirNames(root) == []
    ensures outcome == NoAnnotations <==>
              rootIsDir && SubdirNames(root) != [] && AnnotationsOf(root, SubdirNames(root)) == []
    ensures outcome.Written? ==>
              var classes := SubdirNames(root);
              && outcome.file == [outputFilename]
              && outcome.text == FileText(AnnotationsOf(root, classes))
              && (forall c :: c in outcome.classToLabel <==> c in classes)
              && forall i :: 0 <= i < |classes| ==> classes[i] in outcome.classToLabel && outcome.classToLabel[classes[i]] == i
  {
    if !rootIsDir {
      return RootMissing;
    }
    var classNames := SortStrings(DirNames(root.entries));
    if classNames == [] {
      return NoClasses;
    }
    DirNamesDistinct(root.entries);
    SortedDistinct(DirNames(root.entries));
    var annotations, classToLabel := AnnotateClasses(root, classNames);
    if annotations == [] {
      return NoAnnotations;
    }
    var text := WriteAnnotations(annotations);
    return Written([outputFilename], text, classToLabel);
  }
}
