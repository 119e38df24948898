/** Renaming the numbered `.jpg` files of a folder to `img_00001.jpg`,
  * `img_00002.jpg`, … in the order of their numbers. */
module RenameFilenames {
  import opened Common
  import opened Sorting

  // ------------------------------------------------------------------
  // Selection and sort key
  // ------------------------------------------------------------------

  /** `f.lower().endswith('.jpg')`. */
  predicate Selected(f: string) {
    EndsWith(Lower(f), ".jpg")
  }

  /** The start of the run of digits that ends at position `j`. */
  function RunStart(s: string, j: nat): (k: nat)
    requires j <= |s|
    ensures k <= j
    ensures forall i :: k <= i < j ==> IsDigit(s[i])
    ensures k == 0 || !IsDigit(s[k - 1])
  {
    if j > 0 && IsDigit(s[j - 1]) then RunStart(s, j - 1) else j
  }

  /** `int(re.search(r'(\d+)\.jpg$', x).group(1))`: the leftmost match
    * starts at the beginning of the run of digits just before a final,
    * case-sensitive `.jpg`. `None` is the `AttributeError` of a name the
    * pattern does not match. */
  function JpgKey(name: string): Option<nat> {
    if |name| >= 4 && EndsWith(name, ".jpg") then
      var e := |name| - 4;
      var k := RunStart(name, e);
      if k < e then Some(DigitsValue(name[k..e])) else None
    else None
  }

  /** A name with an upper-case `.JPG` (or any other casing) passes the
    * selection but has no key, so the sort raises. */
  lemma UpperCaseRaises(name: string)
    requires Selected(name) && !EndsWith(name, ".jpg")
    ensures JpgKey(name).None?
  {
  }

  /** A name has a key exactly when a digit comes right before a final
    * lower-case `.jpg`. */
  lemma JpgKeyExists(name: string)
    ensures JpgKey(name).Some? <==> EndsWith(name, ".jpg") && |name| >= 5 && IsDigit(name[|name| - 5])
  {
    if |name| >= 4 && EndsWith(name, ".jpg") {
      var e := |name| - 4;
      assert RunStart(name, e) < e <==> e > 0 && IsDigit(name[e - 1]);
    }
  }

  function KeyValue(name: string): int {
    match JpgKey(name)
    case Some(v) => v
    case None => 0
  }

  /** `files` after `files.sort(...)`: `None` when some key raises (every
    * key is computed before the sort), else the selection stably sorted
    * on the key. */
  function SortedSelection(listing: seq<string>): Option<seq<string>> {
    var files := Filter(listing, Selected);
    if forall f :: f in files ==> JpgKey(f).Some? then Some(SortByKey(files, KeyValue)) else None
  }

  /** The sort raises exactly when a selected name has no key; otherwise it
    * orders exactly the selected names, each once per listing, by key. */
  lemma SortedSelectionMeaning(listing: seq<string>)
    ensures var r := SortedSelection(listing);
            && (r.None? <==> exists f :: f in listing && Selected(f) && JpgKey(f).None?)
            && (r.Some? ==>
                  && multiset(r.value) == multiset(Filter(listing, Selected))
                  && (forall f :: f in r.value <==> f in listing && Selected(f))
                  && forall i, j :: 0 <= i < j < |r.value| ==> KeyValue(r.value[i]) <= KeyValue(r.value[j]))
  {
    FilterContents(listing, Selected);
    var r := SortedSelection(listing);
    if r.Some? {
      assert forall f :: f in r.value <==> f in multiset(r.value);
    }
  }

  // ------------------------------------------------------------------
  // New names
  // ------------------------------------------------------------------

  /** `f"{prefix}{'{:05d}.jpg'.format(i)}"`. */
  function NewName(prefix: string, i: nat): string {
    prefix + ZeroPad(i, 5) + ".jpg"
  }

  /** No two positions get the same new name. */
  lemma NewNamesDistinct(prefix: string, i: nat, j: nat)
    requires i != j
    ensures NewName(prefix, i) != NewName(prefix, j)
  {
    var a := ZeroPad(i, 5);
    var b := ZeroPad(j, 5);
    if NewName(prefix, i) == NewName(prefix, j) {
      var x := NewName(prefix, i);
      assert |a| == |b|;
      assert x[|prefix|..|x| - 4] == a;
      assert NewName(prefix, j)[|prefix|..|x| - 4] == b;
      ZeroPadInjective(i, j, 5);
    }
  }

  lemma {:induction false} RunStartOfDigits(s: string, lo: nat, j: nat)
    requires lo <= j <= |s|
    requires lo == 0 || !IsDigit(s[lo - 1])
    requires forall i :: lo <= i < j ==> IsDigit(s[i])
    ensures RunStart(s, j) == lo
    decreases j
  {
    if j > lo {
      RunStartOfDigits(s, lo, j - 1);
    }
  }

  /** A renamed file keeps its number: with a prefix that does not end in a
    * digit (such as `img_`), the key of the `i`-th new name is `i`, so a
    * second run keeps the order. */
  lemma NewNameKey(prefix: string, i: nat)
    requires prefix == [] || !IsDigit(prefix[|prefix| - 1])
    ensures JpgKey(NewName(prefix, i)) == Some(i)
  {
    ZeroPadRoundTrip(i, 5);
    KeyOfDigits(prefix, ZeroPad(i, 5));
  }

  /** A run of digits between a prefix that does not end in a digit and a
    * final `.jpg` is the key. */
  lemma KeyOfDigits(prefix: string, z: string)
    requires AllDigits(z)
    requires prefix == [] || !IsDigit(prefix[|prefix| - 1])
    ensures JpgKey(prefix + z + ".jpg") == Some(DigitsValue(z))
  {
    var name := prefix + z + ".jpg";
    var e := |name| - 4;
    assert name[e..] == ".jpg";
    assert name[|prefix|..e] == z;
    forall k | |prefix| <= k < e ensures IsDigit(name[k]) {
      assert name[k] == z[k - |prefix|];
    }
    if |prefix| > 0 {
      assert name[|prefix| - 1] == prefix[|prefix| - 1];
    }
    RunStartOfDigits(name, |prefix|, e);
  }

  // ------------------------------------------------------------------
  // The renames
  // ------------------------------------------------------------------

  /** The renames the loop performs: the `i`-th file (from 1) of the
    * order gets `NewName(prefix, i)`. */
  function Plan(order: seq<string>, prefix: string): (r: seq<(string, string)>)
    ensures |r| == |order|
    ensures forall i :: 0 <= i < |order| ==> r[i] == (order[i], NewName(prefix, i + 1))
  {
    seq(|order|, i requires 0 <= i < |order| => (order[i], NewName(prefix, i + 1)))
  }

  /** `os.rename(src, dst)` on a folder mapping names to file contents: the
    * content moves, and whatever `dst` held is overwritten. */
  function Moved(files: map<string, nat>, src: string, dst: string): map<string, nat>
    requires src in files
  {
    (files - {src})[dst := files[src]]
  }

  /** The folder after the renames, one after another; a missing source
    * changes nothing (the loop never meets one). */
  function ApplyRenames(files: map<string, nat>, plan: seq<(string, string)>): map<string, nat> {
    if plan == [] then files
    else
      var n := |plan| - 1;
      var before := ApplyRenames(files, plan[..n]);
      if plan[n].0 in before then Moved(before, plan[n].0, plan[n].1) else before
  }

  predicate Distinct(s: seq<string>) {
    forall i, j :: 0 <= i < j < |s| ==> s[i] != s[j]
  }

  /** No rename lands on a name that a later rename still has to move. */
  predicate NoOverlap(plan: seq<(string, string)>) {
    forall i, j :: 0 <= i < j < |plan| ==> plan[i].1 != plan[j].0
  }

  /** Without such a landing, no file is lost: after the first `k`
    * renames, each renamed content sits under its new name and each file
    * still to rename is where it was. */
  lemma {:induction false} RenamesKeepContents(files: map<string, nat>, plan: seq<(string, string)>, k: nat)
    requires k <= |plan|
    requires forall i :: 0 <= i < |plan| ==> plan[i].0 in files
    requires forall i, j :: 0 <= i < j < |plan| ==> plan[i].0 != plan[j].0 && plan[i].1 != plan[j].1
    requires NoOverlap(plan)
    ensures var after := ApplyRenames(files, plan[..k]);
            && (forall i :: 0 <= i < k ==> plan[i].1 in after && after[plan[i].1] == files[plan[i].0])
            && (forall j :: k <= j < |plan| ==> plan[j].0 in after && after[plan[j].0] == files[plan[j].0])
  {
    if k > 0 {
      RenamesKeepContents(files, plan, k - 1);
      assert plan[..k][..k - 1] == plan[..k - 1];
    }
  }

  /** The docstring's case is safe: when no listed name starts with the
    * non-empty prefix, no rename lands on a file still to be renamed. */
  lemma FreshPrefixNoOverlap(order: seq<string>, prefix: string)
    requires prefix != []
    requires forall f :: f in order ==> !StartsWith(f, prefix)
    ensures NoOverlap(Plan(order, prefix))
  {
    var plan := Plan(order, prefix);
    forall i, j | 0 <= i < j < |plan| ensures plan[i].1 != plan[j].0 {
      assert StartsWith(NewName(prefix, i + 1), prefix);
      assert order[j] in order;
    }
  }

  /** A landing does lose a file: with the listing `1.jpg`,
    * `img_00001.jpg` (both number 1, so the stable sort keeps them), the
    * first rename overwrites `img_00001.jpg`, and the folder ends with the
    * content of `1.jpg` alone. */
  lemma ClobberExample()
    ensures JpgKey("1.jpg") == Some(1)
    ensures JpgKey("img_00001.jpg") == Some(1)
    ensures ApplyRenames(map["1.jpg" := 10, "img_00001.jpg" := 20], Plan(["1.jpg", "img_00001.jpg"], "img_"))
            == map["img_00002.jpg" := 10]
  {
    ExampleKeys();
    ExampleNames();
    var files := map["1.jpg" := 10, "img_00001.jpg" := 20];
    var plan := Plan(["1.jpg", "img_00001.jpg"], "img_");
    assert plan[0] == ("1.jpg", "img_00001.jpg");
    assert plan[1] == ("img_00001.jpg", "img_00002.jpg");
    assert plan[..1][..0] == [];
    var first := Moved(files, "1.jpg", "img_00001.jpg");
    assert first == map["img_00001.jpg" := 10];
    assert ApplyRenames(files, plan[..1]) == first;
    assert plan[..2] == plan;
  }

  /** The new names of the first two positions under `img_`. */
  lemma ExampleNames()
    ensures NewName("img_", 1) == "img_00001.jpg"
    ensures NewName("img_", 2) == "img_00002.jpg"
  {
    assert DigitChar(1) == '1' && DigitChar(2) == '2';
    assert seq(4, _ => '0') == "0000";
    assert ZeroPad(1, 5) == "00001";
    assert ZeroPad(2, 5) == "00002";
    assert "img_" + "00001" + ".jpg" == "img_00001.jpg";
    assert "img_" + "00002" + ".jpg" == "img_00002.jpg";
  }

  /** Both names of the example have the number 1. */
  lemma ExampleKeys()
    ensures JpgKey("1.jpg") == Some(1)
    ensures JpgKey("img_00001.jpg") == Some(1)
  {
    assert RunStart("1.jpg", 1) == 0;
    assert "1.jpg"[0..1] == "1";
    ExampleNames();
    NewNameKey("img_", 1);
  }

  /** The target folder: each name holds a file content. */
  class Folder {
    var files: map<string, nat>

    constructor(files: map<string, nat>)
      ensures this.files == files
    {
      this.files := files;
    }

    /** `os.rename(old_path, new_path)`. */
    method Rename(src: string, dst: string)
      requires src in files
      modifies this
      ensures files == Moved(old(files), src, dst)
    {
      files := (files - {src})[dst := files[src]];
    }
  }

  /** The rename loop: the planned renames, one after another. */
  method RunPlan(folder: Folder, plan: seq<(string, string)>)
    requires forall j :: 0 <= j < |plan| ==> plan[j].0 in folder.files
    requires forall i, j :: 0 <= i < j < |plan| ==> plan[i].0 != plan[j].0
    modifies folder
    ensures folder.files == ApplyRenames(old(folder.files), plan)
  {
    ghost var start := folder.files;
    var i := 0;
    while i < |plan|
      invariant 0 <= i <= |plan|
      invariant folder.files == ApplyRenames(start, plan[..i])
      invariant forall j :: i <= j < |plan| ==> plan[j].0 in folder.files
    {
      assert plan[..i + 1][..i] == plan[..i];
      var (oldName, newName) := plan[i];
      folder.Rename(oldName, newName);
      i := i + 1;
    }
    assert plan[..i] == plan;
  }

  datatype Outcome = KeyRaised | Renamed(plan: seq<(string, string)>)

  /** `rename_files(folder_path, prefix)` with the default format: the sort
    * raises before any rename, else every selected file is renamed in key
    * order. `listing` is `os.listdir(folder_path)`, each name once. */
  method RenameFiles(folder: Folder, listing: seq<string>, prefix: string) returns (outcome: Outcome)
    requires forall n :: n in folder.files <==> n in listing
    requires Distinct(listing)
    modifies folder
    ensures SortedSelection(listing).None? ==> outcome == KeyRaised && folder.files == old(folder.files)
    ensures SortedSelection(listing).Some? ==>
              outcome == Renamed(Plan(SortedSelection(listing).value, prefix))
              && folder.files == ApplyRenames(old(folder.files), outcome.plan)
  {
    var sorted := SortedSelection(listing);
    if sorted.None? {
      return KeyRaised;
    }
    var files := sorted.value;
    FilterDistinct(listing);
    SortedSelectionMeaning(listing);
    MultisetDistinct(Filter(listing, Selected), files);
    var plan := Plan(files, prefix);
    RunPlan(folder, plan);
    return Renamed(plan);
  }

  lemma {:induction false} FilterDistinct(listing: seq<string>)
    requires Distinct(listing)
    ensures Distinct(Filter(listing, Selected))
  {
    if listing != [] {
      var n := |listing| - 1;
      FilterDistinct(listing[..n]);
      FilterContents(listing[..n], Selected);
      assert listing[n] !in listing[..n];
    }
  }

  lemma MultisetDistinct(a: seq<string>, b: seq<string>)
    requires Distinct(a) && multiset(a) == multiset(b)
    ensures Distinct(b)
  {
    forall x | x in multiset(a) ensures multiset(a)[x] == 1 {
      var i :| 0 <= i < |a| && a[i] == x;
      assert a == a[..i] + [x] + a[i + 1..];
      assert x !in a[..i] && x !in a[i + 1..];
    }
    forall i, j | 0 <= i < j < |b| ensures b[i] != b[j] {
      var x := b[i];
      assert b == b[..j] + b[j..];
      assert x in b[..j];
      assert multiset(b[..j])[x] >= 1;
      assert x in multiset(a) by {
        assert b[i] in multiset(b);
      }
      assert multiset(b) == multiset(b[..j]) + multiset(b[j..]);
      assert multiset(b[j..])[x] == 0;
      assert b[j] == b[j..][0];
    }
  }
}
