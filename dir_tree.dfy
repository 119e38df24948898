/** A directory tree as `os.listdir` and `os.path.isdir` see it: each
  * directory lists regular files and sub-directories, in listing order. */
module DirTree {
  import opened Common
  import opened Sorting

  /** A directory as `os.listdir` lists it: regular files and
    * sub-directories, in listing order. */
  datatype Dir = Dir(entries: seq<Entry>)
  datatype Entry = File(name: string) | Folder(name: string, content: Dir)

  /** A directory lists each name once. */
  predicate UniqueNames(d: Dir) {
    forall i, j :: 0 <= i < j < |d.entries| ==> d.entries[i].name != d.entries[j].name
  }

  function FileNames(d: Dir): seq<string> {
    FilterMap(d.entries, (e: Entry) => if e.File? then Some(e.name) else None)
  }

  /** Every name `os.listdir` gives, files and directories alike. */
  function EntryNames(d: Dir): (r: seq<string>)
    ensures |r| == |d.entries|
    ensures forall i :: 0 <= i < |r| ==> r[i] == d.entries[i].name
  {
    seq(|d.entries|, i requires 0 <= i < |d.entries| => d.entries[i].name)
  }

  /** The names of the sub-directories, in listing order. */
  function DirNames(entries: seq<Entry>): seq<string> {
    if entries == [] then []
    else
      var e := entries[|entries| - 1];
      DirNames(entries[..|entries| - 1]) + (if e.Folder? then [e.name] else [])
  }

  /** The sub-directory called `name`, if there is one. */
  function Lookup(entries: seq<Entry>, name: string): Option<Dir> {
    if entries == [] then None
    else if entries[0].Folder? && entries[0].name == name then Some(entries[0].content)
    else Lookup(entries[1..], name)
  }

  /** `sorted(d for d in os.listdir(p) if isdir(join(p, d)))`. */
  function SubdirNames(d: Dir): seq<string> {
    SortStrings(DirNames(d.entries))
  }

  lemma {:induction false} DirNamesFound(entries: seq<Entry>, name: string)
    ensures name in DirNames(entries) <==> Lookup(entries, name).Some?
  {
    if entries != [] {
      var n := |entries| - 1;
      DirNamesFound(entries[..n], name);
      LookupSplit(entries[..n], entries[n], name);
      assert entries[..n] + [entries[n]] == entries;
    }
  }

  lemma {:induction false} LookupSplit(front: seq<Entry>, e: Entry, name: string)
    ensures Lookup(front + [e], name) ==
              if Lookup(front, name).Some? then Lookup(front, name)
              else if e.Folder? && e.name == name then Some(e.content) else None
  {
    if front != [] {
      assert (front + [e])[1..] == front[1..] + [e];
      LookupSplit(front[1..], e, name);
    }
  }

  /** A directory lists each sub-directory name once. */
  lemma {:induction false} DirNamesDistinct(entries: seq<Entry>)
    requires forall i, j :: 0 <= i < j < |entries| ==> entries[i].name != entries[j].name
    ensures forall x :: multiset(DirNames(entries))[x] <= 1
  {
    if entries != [] {
      var n := |entries| - 1;
      DirNamesDistinct(entries[..n]);
      if entries[n].Folder? {
        var x := entries[n].name;
        DirNamesFound(entries[..n], x);
        LookupNamed(entries[..n], x);
        forall i | 0 <= i < n ensures entries[..n][i].name != x {
        }
      }
    }
  }

  /** A sub-directory found by name is listed under that name. */
  lemma {:induction false} LookupNamed(entries: seq<Entry>, name: string)
    ensures Lookup(entries, name).Some? ==> exists i :: 0 <= i < |entries| && entries[i].name == name
  {
    if entries != [] && !(entries[0].Folder? && entries[0].name == name) {
      LookupNamed(entries[1..], name);
      forall i | 0 <= i < |entries[1..]| && entries[1..][i].name == name ensures entries[i + 1].name == name {
      }
    }
  }

  /** One triple of `os.walk`, without the sub-directory names. */
  datatype Visit = Visit(dirpath: string, filenames: seq<string>)

  /** `os.walk(path)` top-down: the directory itself, then each
    * sub-directory's walk in listing order. */
  function Walk(d: Dir, path: string): seq<Visit>
    decreases d, 1
  {
    [Visit(path, FileNames(d))] + WalkEntries(d.entries, path)
  }

  function WalkEntries(entries: seq<Entry>, path: string): seq<Visit>
    decreases entries, 0
  {
    if entries == [] then []
    else
      (if entries[0].Folder? then Walk(entries[0].content, JoinPath(path, entries[0].name)) else [])
        + WalkEntries(entries[1..], path)
  }

  // ------------------------------------------------------------------
  // Emptying an output directory before a walk
  // ------------------------------------------------------------------

  /** `shutil.rmtree(out)` takes the directory `path` with it: `out` is
    * `path` itself or a directory above it, the paths compared as
    * written. */
  predicate SetupRemoves(out: string, path: string) {
    out != [] && (path == out || StartsWith(path, JoinPath(out, "")))
  }

  /** The directory `path` once `rmtree(out)` (skipped when `keep`) and
    * `makedirs(out)` have run: the output itself comes back empty, and a
    * directory inside it is gone (`None`). */
  function AfterSetup(tree: Dir, path: string, out: string, keep: bool): Option<Dir> {
    if keep || !SetupRemoves(out, path) then Some(tree)
    else if path == out then Some(Dir([]))
    else None
  }

  /** `os.walk(path)`, which yields nothing for a directory that does not
    * exist. */
  function WalkPresent(d: Option<Dir>, path: string): seq<Visit> {
    match d
    case None => []
    case Some(t) => Walk(t, path)
  }

  /** Only the output itself or a directory above it is removed: a sibling
    * whose name merely starts with the output's is not. */
  lemma SetupRemovesExamples()
    ensures SetupRemoves("data", "data/videos") && SetupRemoves("data/", "data/videos")
    ensures SetupRemoves("videos", "videos")
    ensures !SetupRemoves("data/v", "data/videos") && !SetupRemoves("data/out", "data/videos")
  {
    assert JoinPath("data", "") == "data/";
    assert "data/videos"[..5] == "data/";
    assert JoinPath("data/v", "") == "data/v/";
    assert "data/videos"[..7] != "data/v/" by {
      assert "data/videos"[6] == 'i';
    }
    assert "data/videos"[..9] != "data/out/" by {
      assert "data/videos"[5] == 'v';
    }
  }

  /** Unless kept, a removed input holds no file when it is walked. */
  lemma RemovedInputHasNoFiles(tree: Dir, path: string, out: string)
    requires SetupRemoves(out, path)
    ensures forall v :: v in WalkPresent(AfterSetup(tree, path, out, false), path) ==> v.filenames == []
  {
    if path == out {
      assert Walk(Dir([]), path) == [Visit(path, [])];
    }
  }
}
