/** Moving a random share of the sub-folders of one folder into another:
  * the sorted sub-folder list, the number to move, and the moves with
  * their conflict renaming. */
module MoveSubfoldersByRatio {
  import opened Common
  import opened Sorting

  /** An entry of the source folder: its name and whether it is a
    * directory. */
  datatype Entry = Entry(name: string, isDir: bool)

  predicate Listed(e: Entry, includeHidden: bool) {
    (includeHidden || !StartsWith(e.name, ".")) && e.isDir
  }

  function Names(entries: seq<Entry>, includeHidden: bool): seq<string> {
    if entries == [] then []
    else
      var e := entries[|entries| - 1];
      Names(entries[..|entries| - 1], includeHidden) + (if Listed(e, includeHidden) then [e.name] else [])
  }

  /** `list_subdirectories`: the directory names, hidden ones only with
    * `include_hidden`, sorted. */
  function Subdirectories(entries: seq<Entry>, includeHidden: bool): seq<string> {
    SortStrings(Names(entries, includeHidden))
  }

  lemma {:induction false} NamesContents(entries: seq<Entry>, includeHidden: bool, name: string)
    ensures name in Names(entries, includeHidden) <==>
              Entry(name, true) in entries && (includeHidden || !StartsWith(name, "."))
  {
    if entries != [] {
      var n := |entries| - 1;
      NamesContents(entries[..n], includeHidden, name);
      assert entries == entries[..n] + [entries[n]];
    }
  }

  lemma SubdirectoriesMeaning(entries: seq<Entry>, includeHidden: bool, name: string)
    ensures SortedStrings(Subdirectories(entries, includeHidden))
    ensures name in Subdirectories(entries, includeHidden) <==>
              Entry(name, true) in entries && (includeHidden || !StartsWith(name, "."))
  {
    var s := Subdirectories(entries, includeHidden);
    assert name in s <==> name in multiset(s);
    NamesContents(entries, includeHidden, name);
  }

  /** `list_subdirectories`. */
  method ListSubdirectories(entries: seq<Entry>, includeHidden: bool) returns (subdirs: seq<string>)
    ensures subdirs == Subdirectories(entries, includeHidden)
  {
    var names: seq<string> := [];
    var i := 0;
    while i < |entries|
      invariant 0 <= i <= |entries|
      invariant names == Names(entries[..i], includeHidden)
    {
      var e := entries[i];
      assert entries[..i + 1][..i] == entries[..i];
      if (includeHidden || !StartsWith(e.name, ".")) && e.isDir {
        names := names + [e.name];
      }
      i := i + 1;
    }
    assert entries[..i] == entries;
    subdirs := SortStrings(names);
  }

  /** `k = max(1, int(round(total * ratio)))`, capped at `total`. */
  function MoveCount(total: nat, ratio: real): int {
    var k := Max(1, Round(total as real * ratio));
    if k > total then total else k
  }

  /** At least one and at most all of the sub-folders are moved. */
  lemma MoveCountBounds(total: nat, ratio: real)
    requires total >= 1
    ensures 1 <= MoveCount(total, ratio) <= total
  {
  }

  // ------------------------------------------------------------------
  // Conflict renaming
  // ------------------------------------------------------------------

  /** `f"{base}_{idx}"`. */
  function Suffixed(base: string, idx: int): string {
    base + "_" + IntToString(idx)
  }

  lemma SuffixedInjective(base: string, a: int, b: int)
    requires Suffixed(base, a) == Suffixed(base, b)
    ensures a == b
  {
    assert IntToString(a) == Suffixed(base, a)[|base| + 1..];
    assert IntToString(b) == Suffixed(base, b)[|base| + 1..];
    ParseIntOfToString(a);
    ParseIntOfToString(b);
  }

  /** `base_1 … base_n` are `n` different names. */
  lemma {:induction false} SuffixedCount(base: string, n: nat)
    ensures |set j | 1 <= j <= n :: Suffixed(base, j)| == n
  {
    if n > 0 {
      SuffixedCount(base, n - 1);
      var before := set j | 1 <= j <= n - 1 :: Suffixed(base, j);
      var all := set j | 1 <= j <= n :: Suffixed(base, j);
      assert all == before + {Suffixed(base, n)};
      if Suffixed(base, n) in before {
        var j :| 1 <= j <= n - 1 && Suffixed(base, j) == Suffixed(base, n);
        SuffixedInjective(base, j, n);
      }
    }
  }

  /** When `base_1 … base_n` all exist, there are at least `n` entries. */
  lemma TakenBound(base: string, dest: set<string>, n: nat)
    requires forall j :: 1 <= j <= n ==> Suffixed(base, j) in dest
    ensures n <= |dest|
  {
    var taken := set j | 1 <= j <= n :: Suffixed(base, j);
    SuffixedCount(base, n);
    assert taken <= dest;
    SubsetSize(taken, dest);
  }

  lemma SubsetSize(a: set<string>, b: set<string>)
    requires a <= b
    ensures |a| <= |b|
  {
    assert b == a + (b - a);
  }

  /** The first `base_i`, `i >= idx`, that does not exist, given that
    * `base_1 … base_{idx-1}` all do. */
  function FreeFrom(base: string, dest: set<string>, idx: nat): (r: string)
    requires idx >= 1
    requires forall j :: 1 <= j < idx ==> Suffixed(base, j) in dest
    ensures r !in dest
    ensures exists i :: i >= idx && r == Suffixed(base, i) && forall j :: 1 <= j < i ==> Suffixed(base, j) in dest
    decreases |dest| + 1 - idx
  {
    TakenBound(base, dest, idx - 1);
    var candidate := Suffixed(base, idx);
    if candidate !in dest then candidate
    else
      TakenBound(base, dest, idx);
      FreeFrom(base, dest, idx + 1)
  }

  /** The conflict rename: the smallest `i >= 1` with `base_i` free. */
  function FreeName(base: string, dest: set<string>): (r: string)
    ensures r !in dest
    ensures exists i :: i >= 1 && r == Suffixed(base, i) && forall j :: 1 <= j < i ==> Suffixed(base, j) in dest
  {
    FreeFrom(base, dest, 1)
  }

  /** The renaming loop of `move_subfolders`. */
  method RenameOnConflict(base: string, dest: set<string>) returns (target: string)
    ensures target == FreeName(base, dest)
  {
    var idx := 1;
    target := Suffixed(base, idx);
    while target in dest
      invariant idx >= 1
      invariant target == Suffixed(base, idx)
      invariant forall j :: 1 <= j < idx ==> Suffixed(base, j) in dest
      invariant FreeFrom(base, dest, idx) == FreeName(base, dest)
      decreases |dest| + 1 - idx
    {
      TakenBound(base, dest, idx);
      idx := idx + 1;
      target := Suffixed(base, idx);
    }
  }

  // ------------------------------------------------------------------
  // The moves
  // ------------------------------------------------------------------

  datatype Step =
    | Moved(name: string, target: string)
    | Skipped(name: string)                 // clash, renaming off
    | Failed(name: string, target: string)  // shutil.move raised

  predicate IsMove(s: Step) { s.Moved? }

  /** Where `name` goes in a destination holding `dest`, or `None` when it
    * is skipped. */
  function TargetFor(name: string, dest: set<string>, rename: bool): Option<string> {
    if name !in dest then Some(name)
    else if rename then Some(FreeName(name, dest))
    else None
  }

  /** What happens to `name` in a destination holding `dest`;
    * `failing` are the names whose move raises. */
  function StepOf(name: string, dest: set<string>, rename: bool, failing: set<string>): Step {
    match TargetFor(name, dest, rename)
    case None => Skipped(name)
    case Some(t) => if name in failing then Failed(name, t) else Moved(name, t)
  }

  /** The destination after a step: a move adds its target. */
  function After(s: Step, dest: set<string>): set<string> {
    if s.Moved? then dest + {s.target} else dest
  }

  /** The steps for `selected`, in order, each seeing the destination as the
    * earlier moves left it. */
  function Steps(selected: seq<string>, dest: set<string>, rename: bool, failing: set<string>): seq<Step>
    decreases |selected|
  {
    if selected == [] then []
    else
      var s := StepOf(selected[0], dest, rename, failing);
      [s] + Steps(selected[1..], After(s, dest), rename, failing)
  }

  function MovedCount(steps: seq<Step>): (n: nat)
    ensures n <= |steps|
  {
    if steps == [] then 0 else (if steps[0].Moved? then 1 else 0) + MovedCount(steps[1..])
  }

  /** One step per selected folder; a move never lands on an existing
    * entry (nor on an earlier move's target); with renaming off a clash
    * is skipped; the moved count never exceeds the number selected. */
  lemma {:induction false} StepsMeaning(selected: seq<string>, dest: set<string>, rename: bool, failing: set<string>)
    ensures |Steps(selected, dest, rename, failing)| == |selected|
    ensures MovedCount(Steps(selected, dest, rename, failing)) <= |selected|
    ensures forall i :: 0 <= i < |selected| ==> Steps(selected, dest, rename, failing)[i].name == selected[i]
    ensures forall s :: s in Steps(selected, dest, rename, failing) && s.Moved? ==> s.target !in dest
    ensures forall i, j ::
              (0 <= i < j < |selected| && Steps(selected, dest, rename, failing)[i].Moved?
               && Steps(selected, dest, rename, failing)[j].Moved?) ==>
              Steps(selected, dest, rename, failing)[i].target != Steps(selected, dest, rename, failing)[j].target
    ensures !rename ==> forall i :: 0 <= i < |selected| && selected[i] in dest ==>
              Steps(selected, dest, rename, failing)[i] == Skipped(selected[i])
    decreases |selected|
  {
    if selected != [] {
      var name := selected[0];
      var steps := Steps(selected, dest, rename, failing);
      var next := After(steps[0], dest);
      StepsMeaning(selected[1..], next, rename, failing);
      var rest := Steps(selected[1..], next, rename, failing);
      assert steps == [steps[0]] + rest;
      forall i | 1 <= i < |selected| ensures steps[i] == rest[i - 1] && selected[i] == selected[1..][i - 1] {
      }
      if steps[0].Moved? {
        forall j | 1 <= j < |selected| && steps[j].Moved? ensures steps[j].target != steps[0].target {
          assert rest[j - 1] in rest;
        }
      }
    }
  }

  /** The move loop of `move_subfolders`. */
  method MoveSelected(selected: seq<string>, dest: set<string>, rename: bool, failing: set<string>)
    returns (steps: seq<Step>, moved: nat)
    ensures steps == Steps(selected, dest, rename, failing)
    ensures moved == MovedCount(steps)
  {
    steps := [];
    moved := 0;
    var current := dest;
    var i := 0;
    while i < |selected|
      invariant 0 <= i <= |selected|
      invariant Steps(selected, dest, rename, failing) == steps + Steps(selected[i..], current, rename, failing)
      invariant moved == MovedCount(steps)
    {
      steps, moved, current := MoveOne(selected, i, dest, rename, failing, steps, moved, current);
      i := i + 1;
    }
  }

  /** One pass of the move loop, at position `i`. */
  method MoveOne(selected: seq<string>, i: nat, dest: set<string>, rename: bool, failing: set<string>,
                 steps: seq<Step>, moved: nat, current: set<string>)
    returns (steps': seq<Step>, moved': nat, current': set<string>)
    requires i < |selected|
    requires Steps(selected, dest, rename, failing) == steps + Steps(selected[i..], current, rename, failing)
    requires moved == MovedCount(steps)
    ensures Steps(selected, dest, rename, failing) == steps' + Steps(selected[i + 1..], current', rename, failing)
    ensures moved' == MovedCount(steps')
  {
    StepsFrom(selected, i, current, rename, failing);
    var step := NextStep(selected[i], current, rename, failing);
    current', moved' := current, moved;
    if step.Moved? {
      current' := current + {step.target};
      moved' := moved + 1;
    }
    MovedCountAppend(steps, step);
    steps' := steps + [step];
  }

  /** The steps from position `i` on: the step of `selected[i]`, then those
    * after it. */
  lemma StepsFrom(selected: seq<string>, i: nat, dest: set<string>, rename: bool, failing: set<string>)
    requires i < |selected|
    ensures Steps(selected[i..], dest, rename, failing)
            == [StepOf(selected[i], dest, rename, failing)]
               + Steps(selected[i + 1..], After(StepOf(selected[i], dest, rename, failing), dest), rename, failing)
  {
    assert selected[i..][1..] == selected[i + 1..];
  }

  /** The body of the move loop for one folder. */
  method NextStep(name: string, current: set<string>, rename: bool, failing: set<string>) returns (step: Step)
    ensures step == StepOf(name, current, rename, failing)
  {
    if name in current {
      if rename {
        var target := RenameOnConflict(name, current);
        step := if name in failing then Failed(name, target) else Moved(name, target);
      } else {
        step := Skipped(name);
      }
    } else {
      step := if name in failing then Failed(name, name) else Moved(name, name);
    }
  }

  lemma {:induction false} MovedCountAppend(steps: seq<Step>, s: Step)
    ensures MovedCount(steps + [s]) == MovedCount(steps) + (if s.Moved? then 1 else 0)
  {
    if steps != [] {
      assert (steps + [s])[1..] == steps[1..] + [s];
      MovedCountAppend(steps[1..], s);
    }
  }

  predicate DistinctIndices(indices: seq<nat>, n: nat) {
    (forall i :: 0 <= i < |indices| ==> indices[i] < n)
    && (forall i, j :: 0 <= i < j < |indices| ==> indices[i] != indices[j])
  }

  datatype Outcome =
    | SourceMissing                 // ValueError
    | NothingToMove
    | Planned(k: nat, selected: seq<string>)
    | Done(k: nat, selected: seq<string>, steps: seq<Step>, moved: nat)

  /** `move_subfolders` with `random.sample`'s choice as the positions
    * `draw`; `ratio` has passed `valid_ratio`. */
  method MoveSubfolders(sourceIsDir: bool, entries: seq<Entry>, ratio: real, includeHidden: bool, dryRun: bool,
                        rename: bool, dest: set<string>, draw: seq<nat>, failing: set<string>)
    returns (outcome: Outcome)
    requires 0.0 < ratio < 1.0
    requires var subs := Subdirectories(entries, includeHidden);
             subs != [] ==> |draw| == MoveCount(|subs|, ratio) && DistinctIndices(draw, |subs|)
    ensures outcome == SourceMissing <==> !sourceIsDir
    ensures outcome == NothingToMove <==> sourceIsDir && Subdirectories(entries, includeHidden) == []
    ensures outcome.Done? <==> sourceIsDir && Subdirectories(entries, includeHidden) != [] && !dryRun
    ensures outcome.Planned? || outcome.Done? ==>
              var subs := Subdirectories(entries, includeHidden);
              && outcome.k == MoveCount(|subs|, ratio) && 1 <= outcome.k <= |subs|
              && |outcome.selected| == outcome.k
              && forall i :: 0 <= i < outcome.k ==> outcome.selected[i] == subs[draw[i]]
    ensures outcome.Planned? <==> sourceIsDir && Subdirectories(entries, includeHidden) != [] && dryRun
    ensures outcome.Done? ==>
              && outcome.steps == Steps(outcome.selected, dest, rename, failing)
              && outcome.moved == MovedCount(outcome.steps) <= outcome.k
  {
    if !sourceIsDir {
      return SourceMissing;
    }
    var subdirs := ListSubdirectories(entries, includeHidden);
    var total := |subdirs|;
    if total == 0 {
      return NothingToMove;
    }
    var k := MoveCount(total, ratio);
    MoveCountBounds(total, ratio);
    var selected := seq(k, j requires 0 <= j < k => subdirs[draw[j]]);
    if dryRun {
      return Planned(k, selected);
    }
    var steps, moved := MoveSelected(selected, dest, rename, failing);
    StepsMeaning(selected, dest, rename, failing);
    return Done(k, selected, steps, moved);
  }
}
