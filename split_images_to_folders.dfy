/** Dealing the images of one folder out, in sorted order, into `n`
  * numbered folders of near-equal size. */
module SplitImagesToFolders {
  import opened Common
  import opened Sorting

  /** The suffixes of the glob patterns `*.jpg`, `*.JPG`, … ; each pattern
    * is tried in both cases and matching is case-sensitive. */
  const ImageSuffixes: set<string> :=
    {".jpg", ".jpeg", ".png", ".bmp", ".tiff", ".tif", ".gif",
     ".JPG", ".JPEG", ".PNG", ".BMP", ".TIFF", ".TIF", ".GIF"}

  /** A name some pattern matches: `*` does not match a leading dot. */
  predicate Globbed(name: string) {
    name != [] && name[0] != '.' && exists suffix :: suffix in ImageSuffixes && EndsWith(name, suffix)
  }

  /** `get_image_files` over the names of the input folder: the matching
    * names, sorted (the folder prefix they share does not change the
    * order). */
  function ImageFiles(names: seq<string>): (r: seq<string>)
    ensures SortedStrings(r)
    ensures forall x :: x in r <==> x in names && Globbed(x)
  {
    var found := Filter(names, Globbed);
    FilterContents(names, Globbed);
    assert forall x :: x in SortStrings(found) <==> x in multiset(SortStrings(found));
    SortStrings(found)
  }

  // ------------------------------------------------------------------
  // Part sizes
  // ------------------------------------------------------------------

  /** `files_per_split + (1 if i < remainder else 0)`. */
  function PartSize(n: nat, k: nat, i: nat): nat
    requires k > 0
  {
    n / k + (if i < n % k then 1 else 0)
  }

  /** `start_idx` before part `i`: the sizes of the parts before it. */
  function PartStart(n: nat, k: nat, i: nat): nat
    requires k > 0
  {
    if i == 0 then 0 else PartStart(n, k, i - 1) + PartSize(n, k, i - 1)
  }

  /** The sizes the run uses and the dry run prints, one per folder. */
  function Sizes(n: nat, k: nat): (r: seq<nat>)
    requires k > 0
    ensures |r| == k
    ensures forall i :: 0 <= i < k ==> r[i] == PartSize(n, k, i)
  {
    seq(k, i requires 0 <= i < k => PartSize(n, k, i))
  }

  /** Sizes never grow from one part to the next and differ by at most
    * one: the first `n % k` parts hold the extra file. */
  lemma SizesBalanced(n: nat, k: nat, i: nat, j: nat)
    requires k > 0 && i <= j
    ensures PartSize(n, k, j) <= PartSize(n, k, i) <= PartSize(n, k, j) + 1
  {
  }

  lemma {:induction false} PartStartClosed(n: nat, k: nat, i: nat)
    requires k > 0
    ensures PartStart(n, k, i) == i * (n / k) + Min(i, n % k)
  {
    if i > 0 {
      PartStartClosed(n, k, i - 1);
      assert i * (n / k) == (i - 1) * (n / k) + n / k;
    }
  }

  /** The parts together hold all `n` files. */
  lemma SizesSum(n: nat, k: nat)
    requires k > 0
    ensures PartStart(n, k, k) == n
  {
    PartStartClosed(n, k, k);
    assert n == k * (n / k) + n % k;
  }

  lemma {:induction false} PartStartMonotone(n: nat, k: nat, i: nat, j: nat)
    requires k > 0 && i <= j
    ensures PartStart(n, k, i) <= PartStart(n, k, j)
    decreases j - i
  {
    if i < j {
      PartStartMonotone(n, k, i, j - 1);
    }
  }

  /** Position `p` lies in the range of part `i`. */
  predicate InPart(n: nat, k: nat, i: int, p: nat)
    requires k > 0
  {
    0 <= i < k && PartStart(n, k, i) <= p < PartStart(n, k, i + 1)
  }

  /** Every position `0 <= p < n` lies in some part from `i` on, once it
    * is not before part `i`. */
  lemma {:induction false} PartFrom(n: nat, k: nat, p: nat, i: nat)
    requires k > 0 && p < n && i < k && PartStart(n, k, i) <= p
    ensures exists q :: i <= q && InPart(n, k, q, p)
    decreases k - i
  {
    if PartStart(n, k, i + 1) <= p {
      assert i + 1 < k by {
        SizesSum(n, k);
      }
      PartFrom(n, k, p, i + 1);
    } else {
      assert InPart(n, k, i, p);
    }
  }

  /** Every position `0 <= p < n` lies in exactly one part's range. */
  lemma PartOfPosition(n: nat, k: nat, p: nat)
    requires k > 0 && p < n
    ensures exists i :: InPart(n, k, i, p)
    ensures forall i, j :: InPart(n, k, i, p) && InPart(n, k, j, p) ==> i == j
  {
    PartFrom(n, k, p, 0);
    forall a, b | a < b && InPart(n, k, a, p) && InPart(n, k, b, p)
      ensures false
    {
      PartStartMonotone(n, k, a + 1, b);
    }
  }

  // ------------------------------------------------------------------
  // The run
  // ------------------------------------------------------------------

  /** Folder `i` (from 0) is `{input_dir_name}{i+1}`. */
  function FolderName(inputName: string, i: nat): string {
    inputName + IntToString(i + 1)
  }

  /** A file moved into the folder of part `part` (from 0). */
  datatype Move = Move(name: string, part: nat)

  /** The files go, in sorted order, into consecutive parts: file `j` into
    * the part whose range holds `j`. */
  predicate DealtOut(files: seq<string>, k: nat, moves: seq<Move>)
    requires k > 0
  {
    && |moves| == |files|
    && forall j :: 0 <= j < |moves| ==>
         && moves[j].name == files[j]
         && moves[j].part < k
         && PartStart(|files|, k, moves[j].part) <= j < PartStart(|files|, k, moves[j].part + 1)
  }

  /** The split loop of `split_images_to_folders`. */
  method Deal(files: seq<string>, k: nat) returns (moves: seq<Move>)
    requires k > 0
    ensures DealtOut(files, k, moves)
  {
    var n := |files|;
    moves := [];
    var start := 0;
    var i := 0;
    while i < k
      invariant 0 <= i <= k
      invariant start == PartStart(n, k, i) == |moves| <= n
      invariant forall j :: 0 <= j < |moves| ==>
                  && moves[j].name == files[j]
                  && moves[j].part < i
                  && PartStart(n, k, moves[j].part) <= j < PartStart(n, k, moves[j].part + 1)
    {
      PartStartMonotone(n, k, i + 1, k);
      SizesSum(n, k);
      var end := start + PartSize(n, k, i);
      assert end <= n;
      var current := files[start..end];
      var m := 0;
      while m < |current|
        invariant 0 <= m <= |current| == end - start
        invariant end <= n
        invariant |moves| == start + m
        invariant forall j :: 0 <= j < |moves| ==>
                    && moves[j].name == files[j]
                    && moves[j].part <= i
                    && PartStart(n, k, moves[j].part) <= j < PartStart(n, k, moves[j].part + 1)
      {
        moves := moves + [Move(current[m], i)];
        m := m + 1;
      }
      start := end;
      i := i + 1;
    }
    SizesSum(n, k);
  }

  /** Where the folders go: `output_base_dir`, or else the parent of the
    * absolute input path (given as its components). */
  function OutputBase(outputBase: Option<seq<string>>, inputAbs: seq<string>): seq<string> {
    if outputBase.Some? then outputBase.value
    else if inputAbs == [] then [] else inputAbs[..|inputAbs| - 1]
  }

  function InputName(inputAbs: seq<string>): string {
    if inputAbs == [] then "" else inputAbs[|inputAbs| - 1]
  }

  datatype Outcome =
    | BadSplits                    // num_splits <= 0
    | Plan(sizes: seq<nat>)        // --dry_run
    | InputMissing
    | NoImages
    | Done(base: seq<string>, folders: seq<string>, sizes: seq<nat>, moves: seq<Move>)

  /** `main`: `num_splits` is checked first; a dry run lists the folder
    * sizes (none when there are no images, and the input is not checked);
    * the real run creates `num_splits` folders and deals the files out. */
  method SplitImagesRun(inputExists: bool, inputAbs: seq<string>, names: seq<string>, numSplits: int,
                        outputBase: Option<seq<string>>, dryRun: bool)
    returns (outcome: Outcome)
    ensures outcome == BadSplits <==> numSplits <= 0
    ensures outcome.Plan? <==> numSplits > 0 && dryRun
    ensures outcome.Plan? ==>
              outcome.sizes == if ImageFiles(names) == [] then [] else Sizes(|ImageFiles(names)|, numSplits)
    ensures outcome == InputMissing <==> numSplits > 0 && !dryRun && !inputExists
    ensures outcome.Done? <==> numSplits > 0 && !dryRun && inputExists && ImageFiles(names) != []
    ensures outcome == NoImages <==> numSplits > 0 && !dryRun && inputExists && ImageFiles(names) == []
    ensures outcome.Done? ==>
              && numSplits > 0
              && outcome.base == OutputBase(outputBase, inputAbs)
              && outcome.folders == seq(numSplits, i requires 0 <= i < numSplits => FolderName(InputName(inputAbs), i))
              && outcome.sizes == Sizes(|ImageFiles(names)|, numSplits)
              && DealtOut(ImageFiles(names), numSplits, outcome.moves)
  {
    if numSplits <= 0 {
      return BadSplits;
    }
    var files := ImageFiles(names);
    if dryRun {
      if files == [] {
        return Plan([]);
      }
      return Plan(Sizes(|files|, numSplits));
    }
    if !inputExists {
      return InputMissing;
    }
    if files == [] {
      return NoImages;
    }
    var base := OutputBase(outputBase, inputAbs);
    var folders := seq(numSplits, i requires 0 <= i < numSplits => FolderName(InputName(inputAbs), i));
    var moves := Deal(files, numSplits);
    return Done(base, folders, Sizes(|files|, numSplits), moves);
  }
}
