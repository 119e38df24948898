/** The video lists of an MMAction2 video-classification dataset: one
  * sub-directory per class, class `i` of the sorted class names labelled
  * `i`, and a shuffled train/val split written as `{path} {label}` lines. */
module CreateMmaciton2Annfile {
  import opened Common
  import opened Sorting

  /** An entry of the root directory: its name, whether it is a directory,
    * and (for a directory) the names `os.listdir` gives for it. */
  datatype Entry = Entry(name: string, isDir: bool, listing: seq<string>)

  predicate UniqueNames(root: seq<Entry>) {
    forall i, j :: 0 <= i < j < |root| ==> root[i].name != root[j].name
  }

  function DirNames(root: seq<Entry>): seq<string> {
    if root == [] then []
    else
      var e := root[|root| - 1];
      DirNames(root[..|root| - 1]) + (if e.isDir then [e.name] else [])
  }

  /** The sorted class directories. */
  function ClassDirs(root: seq<Entry>): seq<string> {
    SortStrings(DirNames(root))
  }

  /** What `os.listdir(join(root, name))` gives for the directory `name`. */
  function ListingOf(root: seq<Entry>, name: string): seq<string> {
    if root == [] then []
    else if root[0].isDir && root[0].name == name then root[0].listing
    else ListingOf(root[1..], name)
  }

  lemma {:induction false} DirNamesContents(root: seq<Entry>, name: string)
    ensures name in DirNames(root) <==> exists i :: 0 <= i < |root| && root[i].isDir && root[i].name == name
  {
    if root != [] {
      var n := |root| - 1;
      DirNamesContents(root[..n], name);
      assert root == root[..n] + [root[n]];
      if exists i :: 0 <= i < |root| && root[i].isDir && root[i].name == name {
        var i :| 0 <= i < |root| && root[i].isDir && root[i].name == name;
        if i < n {
          assert root[..n][i] == root[i];
        }
      }
      if exists i :: 0 <= i < n && root[..n][i].isDir && root[..n][i].name == name {
        var i :| 0 <= i < n && root[..n][i].isDir && root[..n][i].name == name;
        assert root[i] == root[..n][i];
      }
    }
  }

  lemma {:induction false} DirNamesOnce(root: seq<Entry>)
    requires UniqueNames(root)
    ensures forall x :: multiset(DirNames(root))[x] <= 1
  {
    if root != [] {
      var n := |root| - 1;
      DirNamesOnce(root[..n]);
      if root[n].isDir {
        DirNamesContents(root[..n], root[n].name);
        forall i | 0 <= i < n ensures root[..n][i].name != root[n].name {
        }
      }
    }
  }

  // ------------------------------------------------------------------
  // get_all_video_files
  // ------------------------------------------------------------------

  const VideoExtensions: seq<string> := [".mp4", ".avi", ".mov", ".mkv"]

  /** `fname.lower().endswith(exts)`. */
  predicate IsVideo(fname: string) {
    exists k :: 0 <= k < |VideoExtensions| && EndsWith(Lower(fname), VideoExtensions[k])
  }

  /** A listed video, `(rel_path, label)`. */
  datatype Sample = Sample(relPath: string, classId: nat)

  /** `os.path.join(class_name, fname)`. */
  function RelPath(className: string, fname: string): string {
    className + "/" + fname
  }

  function ClassVideos(className: string, classId: nat, listing: seq<string>): seq<Sample> {
    if listing == [] then []
    else
      var f := listing[|listing| - 1];
      ClassVideos(className, classId, listing[..|listing| - 1])
        + (if IsVideo(f) then [Sample(RelPath(className, f), classId)] else [])
  }

  /** The samples of `classes[..]`, class `classes[i]` labelled `i`, in
    * class order and listing order within a class. */
  function VideoList(root: seq<Entry>, classes: seq<string>): seq<Sample> {
    if classes == [] then []
    else
      var n := |classes| - 1;
      VideoList(root, classes[..n]) + ClassVideos(classes[n], n, ListingOf(root, classes[n]))
  }

  lemma {:induction false} ClassVideosContents(className: string, classId: nat, listing: seq<string>, s: Sample)
    ensures s in ClassVideos(className, classId, listing) <==>
              s.classId == classId && exists f :: f in listing && IsVideo(f) && s.relPath == RelPath(className, f)
  {
    if listing != [] {
      var n := |listing| - 1;
      ClassVideosContents(className, classId, listing[..n], s);
      assert listing == listing[..n] + [listing[n]];
    }
  }

  /** A sample is exactly a video file name of some class directory,
    * recorded as `{class}/{fname}` with that class's position as label. */
  lemma {:induction false} VideoListContents(root: seq<Entry>, classes: seq<string>, s: Sample)
    ensures s in VideoList(root, classes) <==>
              s.classId < |classes|
              && exists f :: f in ListingOf(root, classes[s.classId]) && IsVideo(f)
                             && s.relPath == RelPath(classes[s.classId], f)
  {
    if classes != [] {
      var n := |classes| - 1;
      VideoListContents(root, classes[..n], s);
      ClassVideosContents(classes[n], n, ListingOf(root, classes[n]), s);
      if s.classId < n {
        assert classes[..n][s.classId] == classes[s.classId];
      }
    }
  }

  /** The loop over one class directory's listing. */
  method CollectClass(className: string, classId: nat, listing: seq<string>) returns (samples: seq<Sample>)
    ensures samples == ClassVideos(className, classId, listing)
  {
    samples := [];
    var i := 0;
    while i < |listing|
      invariant 0 <= i <= |listing|
      invariant samples == ClassVideos(className, classId, listing[..i])
    {
      assert listing[..i + 1][..i] == listing[..i];
      var fname := listing[i];
      if IsVideo(fname) {
        samples := samples + [Sample(RelPath(className, fname), classId)];
      }
      i := i + 1;
    }
    assert listing[..i] == listing;
  }

  /** `get_all_video_files`: `label_map` sends the class at position `i` of
    * the sorted class directories to `i`. */
  method GetAllVideoFiles(root: seq<Entry>) returns (videoList: seq<Sample>, labelMap: map<string, nat>)
    requires UniqueNames(root)
    ensures videoList == VideoList(root, ClassDirs(root))
    ensures forall c :: c in labelMap <==> c in ClassDirs(root)
    ensures forall i :: 0 <= i < |ClassDirs(root)| ==> ClassDirs(root)[i] in labelMap && labelMap[ClassDirs(root)[i]] == i
  {
    var classDirs := SortStrings(DirNames(root));
    DirNamesOnce(root);
    SortedDistinct(DirNames(root));
    videoList := [];
    labelMap := map[];
    var idx := 0;
    while idx < |classDirs|
      invariant 0 <= idx <= |classDirs|
      invariant videoList == VideoList(root, classDirs[..idx])
      invariant forall c :: c in labelMap <==> c in classDirs[..idx]
      invariant forall i :: 0 <= i < idx ==> classDirs[i] in labelMap && labelMap[classDirs[i]] == i
    {
      videoList, labelMap := AddClass(root, classDirs, idx, videoList, labelMap);
      idx := idx + 1;
    }
    assert classDirs[..idx] == classDirs;
  }

  /** One turn of the loop over the sorted class directories: the class's
    * videos are appended and the class gets the next label. */
  method AddClass(root: seq<Entry>, classDirs: seq<string>, idx: nat,
                  videoList: seq<Sample>, labelMap: map<string, nat>)
    returns (videoList': seq<Sample>, labelMap': map<string, nat>)
    requires idx < |classDirs|
    requires forall i, j :: 0 <= i < j < |classDirs| ==> classDirs[i] != classDirs[j]
    requires videoList == VideoList(root, classDirs[..idx])
    requires forall c :: c in labelMap <==> c in classDirs[..idx]
    requires forall i :: 0 <= i < idx ==> classDirs[i] in labelMap && labelMap[classDirs[i]] == i
    ensures videoList' == VideoList(root, classDirs[..idx + 1])
    ensures forall c :: c in labelMap' <==> c in classDirs[..idx + 1]
    ensures forall i :: 0 <= i <= idx ==> classDirs[i] in labelMap' && labelMap'[classDirs[i]] == i
  {
    var className := classDirs[idx];
    assert classDirs[..idx + 1][..idx] == classDirs[..idx];
    PositionMapStep(classDirs, idx, labelMap, labelMap[className := idx]);
    labelMap' := labelMap[className := idx];
    var more := CollectClass(className, idx, ListingOf(root, className));
    videoList' := videoList + more;
  }

  // ------------------------------------------------------------------
  // split_dataset
  // ------------------------------------------------------------------

  /** How many items `xs[:k]` keeps of a list of `n`: a negative `k` counts
    * from the end. */
  function PrefixLength(n: nat, k: int): (p: nat)
    ensures p <= n
    ensures 0 <= k <= n ==> p == k
    ensures k > n ==> p == n
    ensures k < 0 ==> p == Max(0, n + k)
  {
    if k < 0 then (if n + k < 0 then 0 else n + k) else if k > n then n else k
  }

  /** `split_dataset`, with `random.shuffle`'s result given as `shuffled`:
    * `video_list[:int(n * ratio)]` and the rest. The ratio is not checked,
    * so a negative one takes the training set's end off the list. */
  method SplitDataset(videoList: seq<Sample>, trainRatio: real, shuffled: seq<Sample>)
    returns (trainList: seq<Sample>, valList: seq<Sample>)
    requires multiset(shuffled) == multiset(videoList)
    ensures trainList + valList == shuffled
    ensures multiset(trainList) + multiset(valList) == multiset(videoList)
    ensures |trainList| == PrefixLength(|videoList|, TrainSize(|videoList|, trainRatio))
    ensures 0.0 <= trainRatio <= 1.0 ==> |trainList| == TrainSize(|videoList|, trainRatio)
  {
    var n := |videoList|;
    assert |shuffled| == n by {
      assert |shuffled| == |multiset(shuffled)|;
    }
    var trainSize := TrainSize(n, trainRatio);
    var p := PrefixLength(n, trainSize);
    trainList := shuffled[..p];
    valList := shuffled[p..];
    assert trainList + valList == shuffled;
  }

  /** `int(len(video_list) * train_ratio)`: within the list for a ratio in
    * `[0, 1]`. */
  function TrainSize(n: nat, ratio: real): (k: int)
    ensures 0.0 <= ratio <= 1.0 ==> 0 <= k <= n
    ensures ratio < 0.0 && n > 0 ==> k <= 0
  {
    if 0.0 <= ratio <= 1.0 then ScaleWithin(n, ratio); Trunc(n as real * ratio)
    else if ratio < 0.0 then NegativeScale(n, ratio); Trunc(n as real * ratio)
    else Trunc(n as real * ratio)
  }

  lemma NegativeScale(n: nat, r: real)
    requires r < 0.0
    ensures Trunc(n as real * r) <= 0
  {
    assert n as real * r <= 0.0;
  }

  lemma ScaleWithin(n: nat, r: real)
    requires 0.0 <= r <= 1.0
    ensures 0 <= Trunc(n as real * r) <= n
  {
    var x := n as real * r;
    if r == 0.0 {
      assert x == 0.0;
      TruncBelow(x, n);
    } else if r < 1.0 {
      ScaleBelow(n as real, r);
      TruncBelow(x, n);
    } else {
      assert x == n as real;
      TruncBelow(x, n);
    }
  }

  // ------------------------------------------------------------------
  // The files
  // ------------------------------------------------------------------

  /** `f"{rel_path} {label}\n"` for each sample. */
  function ListText(samples: seq<Sample>): string {
    if samples == [] then ""
    else ListText(samples[..|samples| - 1]) + SampleLine(samples[|samples| - 1]) + "\n"
  }

  function SampleLine(s: Sample): string {
    JoinSpace([s.relPath, IntToString(s.classId)])
  }

  /** `f"{label} {class_name}\n"` for each class in sorted order. */
  function LabelMapText(classes: seq<string>): string {
    if classes == [] then ""
    else
      var n := |classes| - 1;
      LabelMapText(classes[..n]) + JoinSpace([IntToString(n), classes[n]]) + "\n"
  }

  /** A list line splits back into the path and the label when the path
    * has no whitespace. */
  lemma SampleLineReadsBack(s: Sample)
    requires IsWord(s.relPath)
    ensures var t := Tokens(SampleLine(s) + "\n");
            |t| == 2 && t[0] == s.relPath && ParseInt(t[1]) == Some(s.classId as int)
  {
    IntToStringChars(s.classId);
    TokensOfJoin([s.relPath, IntToString(s.classId)], "\n");
    ParseIntOfToString(s.classId);
  }

  lemma JoinTwo(a: string, b: string)
    ensures JoinSpace([a, b]) == a + " " + b
  {
    assert [a, b][1..] == [b];
  }

  /** `write_list_file`. */
  method WriteListFile(listData: seq<Sample>) returns (text: string)
    ensures text == ListText(listData)
  {
    text := "";
    var i := 0;
    while i < |listData|
      invariant 0 <= i <= |listData|
      invariant text == ListText(listData[..i])
    {
      assert listData[..i + 1][..i] == listData[..i];
      JoinTwo(listData[i].relPath, IntToString(listData[i].classId));
      text := text + listData[i].relPath + " " + IntToString(listData[i].classId) + "\n";
      i := i + 1;
    }
    assert listData[..i] == listData;
  }

  /** The label-map loop of `main`, over `label_map.items()` in insertion
    * order, which is the sorted class order. */
  method WriteLabelMap(classes: seq<string>, labelMap: map<string, nat>) returns (text: string)
    requires forall i :: 0 <= i < |classes| ==> classes[i] in labelMap && labelMap[classes[i]] == i
    ensures text == LabelMapText(classes)
  {
    text := "";
    var i := 0;
    while i < |classes|
      invariant 0 <= i <= |classes|
      invariant text == LabelMapText(classes[..i])
    {
      assert classes[..i + 1][..i] == classes[..i];
      JoinTwo(IntToString(i), classes[i]);
      text := text + IntToString(labelMap[classes[i]]) + " " + classes[i] + "\n";
      i := i + 1;
    }
    assert classes[..i] == classes;
  }

  /** `os.path.basename(root_dir.rstrip('/'))` of the absolute root, given
    * as its components (`/` has none). */
  function RootName(rootAbs: seq<string>): string {
    if rootAbs == [] then "" else rootAbs[|rootAbs| - 1]
  }

  /** A file written inside the root: its name and its text. */
  datatype Written = Written(name: string, text: string)

  /** `main`: the label map first, then the train and the val list, all
    * three named after the root. */
  method CreateAnnfiles(rootAbs: seq<string>, root: seq<Entry>, trainRatio: real, shuffled: seq<Sample>)
    returns (files: seq<Written>, trainList: seq<Sample>, valList: seq<Sample>)
    requires UniqueNames(root)
    requires multiset(shuffled) == multiset(VideoList(root, ClassDirs(root)))
    ensures var name := RootName(rootAbs);
            files == [Written(name + "_label_map.txt", LabelMapText(ClassDirs(root))),
                      Written(name + "_train_list_videos.txt", ListText(trainList)),
                      Written(name + "_val_list_videos.txt", ListText(valList))]
    ensures trainList + valList == shuffled
    ensures |trainList| == PrefixLength(|shuffled|, TrainSize(|shuffled|, trainRatio))
  {
    var rootName := RootName(rootAbs);
    var videoList, labelMap := GetAllVideoFiles(root);
    assert |shuffled| == |videoList| by {
      assert |shuffled| == |multiset(shuffled)|;
    }
    var mapText := WriteLabelMap(ClassDirs(root), labelMap);
    trainList, valList := SplitDataset(videoList, trainRatio, shuffled);
    var trainText := WriteListFile(trainList);
    var valText := WriteListFile(valList);
    files := [Written(rootName + "_label_map.txt", mapText),
              Written(rootName + "_train_list_videos.txt", trainText),
              Written(rootName + "_val_list_videos.txt", valText)];
  }
}
