/** Splitting the sub-folders of a folder into two parts of given size:
  * the sorted sub-folder list, the checks, the shuffled split and the
  * default output folder. */
module SplitFilesByCount {
  import opened Common
  import opened Sorting

  /** An entry of the source folder: its name and whether it is a
    * directory. */
  datatype Entry = Entry(name: string, isDir: bool)

  function DirNames(entries: seq<Entry>): seq<string> {
    if entries == [] then []
    else
      var e := entries[|entries| - 1];
      DirNames(entries[..|entries| - 1]) + (if e.isDir then [e.name] else [])
  }

  lemma {:induction false} DirNamesContents(entries: seq<Entry>, name: string)
    ensures name in DirNames(entries) <==> Entry(name, true) in entries
  {
    if entries != [] {
      var n := |entries| - 1;
      DirNamesContents(entries[..n], name);
      assert entries == entries[..n] + [entries[n]];
    }
  }

  /** `get_all_subfolders`: the directory names, sorted. */
  function Subfolders(entries: seq<Entry>): seq<string> {
    SortStrings(DirNames(entries))
  }

  /** The sub-folders are exactly the immediate directories, in sorted
    * order, whatever order the folder was listed in. */
  lemma SubfoldersMeaning(entries: seq<Entry>, name: string)
    ensures SortedStrings(Subfolders(entries))
    ensures name in Subfolders(entries) <==> Entry(name, true) in entries
  {
    assert name in Subfolders(entries) <==> name in multiset(Subfolders(entries));
    DirNamesContents(entries, name);
  }

  method GetAllSubfolders(entries: seq<Entry>) returns (subfolders: seq<string>)
    ensures subfolders == Subfolders(entries)
  {
    var names: seq<string> := [];
    var i := 0;
    while i < |entries|
      invariant 0 <= i <= |entries|
      invariant names == DirNames(entries[..i])
    {
      assert entries[..i + 1][..i] == entries[..i];
      if entries[i].isDir {
        names := names + [entries[i].name];
      }
      i := i + 1;
    }
    assert entries[..i] == entries;
    subfolders := SortStrings(names);
  }

  datatype Part = Part1 | Part2

  datatype Outcome =
    | SourceMissing      // FileNotFoundError
    | NoSubfolders       // ValueError
    | BadCount           // ValueError
    | Split(first: seq<string>, second: seq<string>, copies: seq<(Part, string)>)

  function CopiesTo(part: Part, names: seq<string>): (r: seq<(Part, string)>)
    ensures |r| == |names|
    ensures forall i :: 0 <= i < |names| ==> r[i] == (part, names[i])
  {
    seq(|names|, i requires 0 <= i < |names| => (part, names[i]))
  }

  /** `split_files`, with `random.shuffle`'s result given as `shuffled`, a
    * reordering of the sub-folders. The checks come before any folder is
    * created or copied. */
  method SplitFiles(sourceExists: bool, entries: seq<Entry>, count: int, shuffled: seq<string>)
    returns (outcome: Outcome)
    requires multiset(shuffled) == multiset(Subfolders(entries))
    ensures outcome == SourceMissing <==> !sourceExists
    ensures outcome == NoSubfolders <==> sourceExists && Subfolders(entries) == []
    ensures outcome == BadCount <==>
              sourceExists && Subfolders(entries) != [] && (count < 0 || count > |Subfolders(entries)|)
    ensures outcome.Split? <==> sourceExists && Subfolders(entries) != [] && 0 <= count <= |Subfolders(entries)|
    ensures outcome.Split? ==>
              && 0 <= count <= |shuffled|
              && outcome.first == shuffled[..count]
              && outcome.second == shuffled[count..]
              && outcome.copies == CopiesTo(Part1, outcome.first) + CopiesTo(Part2, outcome.second)
  {
    if !sourceExists {
      return SourceMissing;
    }
    var all := GetAllSubfolders(entries);
    if all == [] {
      return NoSubfolders;
    }
    var total := |all|;
    if count < 0 || count > total {
      return BadCount;
    }
    assert |shuffled| == |multiset(shuffled)| == total;
    var first := shuffled[..count];
    var second := shuffled[count..];
    var copies: seq<(Part, string)> := [];
    var i := 0;
    while i < |first|
      invariant 0 <= i <= |first|
      invariant copies == CopiesTo(Part1, first[..i])
    {
      copies := copies + [(Part1, first[i])];
      i := i + 1;
    }
    assert first[..i] == first;
    ghost var firstCopies := copies;
    i := 0;
    while i < |second|
      invariant 0 <= i <= |second|
      invariant copies == firstCopies + CopiesTo(Part2, second[..i])
    {
      copies := copies + [(Part2, second[i])];
      i := i + 1;
    }
    assert second[..i] == second;
    return Split(first, second, copies);
  }

  /** The two parts have sizes `count` and `total - count`, share no
    * sub-folder, and together hold every sub-folder exactly once. */
  lemma PartsPartition(entries: seq<Entry>, count: nat, shuffled: seq<string>)
    requires forall i, j :: 0 <= i < j < |entries| ==> entries[i].name != entries[j].name
    requires multiset(shuffled) == multiset(Subfolders(entries))
    requires count <= |Subfolders(entries)|
    ensures |shuffled| == |Subfolders(entries)|
    ensures |shuffled[..count]| == count && |shuffled[count..]| == |Subfolders(entries)| - count
    ensures multiset(shuffled[..count]) + multiset(shuffled[count..]) == multiset(Subfolders(entries))
    ensures forall x :: !(x in shuffled[..count] && x in shuffled[count..])
  {
    assert |shuffled| == |multiset(shuffled)|;
    assert shuffled == shuffled[..count] + shuffled[count..];
    NoDuplicateSubfolders(entries);
    forall x ensures !(x in shuffled[..count] && x in shuffled[count..]) {
      assert multiset(shuffled)[x] == multiset(shuffled[..count])[x] + multiset(shuffled[count..])[x];
    }
  }

  /** A folder lists each name once, so no sub-folder is listed twice. */
  lemma NoDuplicateSubfolders(entries: seq<Entry>)
    requires forall i, j :: 0 <= i < j < |entries| ==> entries[i].name != entries[j].name
    ensures forall x :: multiset(Subfolders(entries))[x] <= 1
  {
    DirNamesOnce(entries);
  }

  lemma {:induction false} DirNamesOnce(entries: seq<Entry>)
    requires forall i, j :: 0 <= i < j < |entries| ==> entries[i].name != entries[j].name
    ensures forall x :: multiset(DirNames(entries))[x] <= 1
  {
    if entries != [] {
      var n := |entries| - 1;
      DirNamesOnce(entries[..n]);
      if entries[n].isDir {
        var x := entries[n].name;
        DirNamesContents(entries[..n], x);
        forall i | 0 <= i < n ensures entries[..n][i] != Entry(x, true) {
          assert entries[..n][i].name == entries[i].name;
        }
      }
    }
  }

  /** `Path(source).parent / f"{Path(source).name}_split"` for a source
    * given by its components (`.` has none, and its name is empty). */
  function DefaultOutput(source: seq<string>): (r: seq<string>)
    ensures |r| == if source == [] then 1 else |source|
  {
    if source == [] then ["_split"] else source[..|source| - 1] + [source[|source| - 1] + "_split"]
  }

  /** The default output folder sits beside the source, is named after it
    * with `_split`, and is never the source itself. */
  lemma DefaultOutputBeside(source: seq<string>)
    requires source != []
    ensures DefaultOutput(source)[..|source| - 1] == source[..|source| - 1]
    ensures DefaultOutput(source)[|source| - 1] == source[|source| - 1] + "_split"
    ensures DefaultOutput(source) != source
  {
    var r := DefaultOutput(source);
    assert |r[|source| - 1]| == |source[|source| - 1]| + 6;
  }
}
