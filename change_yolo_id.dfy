/** Renumbering one class id in YOLO label files: lines whose first token is
  * the old id get the new id, every other line is kept as it was. */
module ChangeYoloId {
  import opened Common
  import YoloFormat

  /** The first token of `line` is `str(id)` (a plain textual match, so `00`
    * or `0.0` do not match `0`). Splitting the stripped line gives the same
    * tokens as splitting the line itself. */
  predicate Matches(line: string, id: int) {
    Tokens(line) != [] && Tokens(line)[0] == IntToString(id)
  }

  /** The line `process_label_file` writes in place of `line`. */
  function RewriteLine(line: string, oldId: int, newId: int): string {
    if Matches(line, oldId) then
      JoinSpace([IntToString(newId)] + Tokens(line)[1..]) + "\n"
    else line
  }

  function RewriteLines(lines: seq<string>, oldId: int, newId: int): (r: seq<string>)
    ensures |r| == |lines|
  {
    seq(|lines|, i requires 0 <= i < |lines| => RewriteLine(lines[i], oldId, newId))
  }

  predicate AnyMatch(lines: seq<string>, id: int) {
    exists i :: 0 <= i < |lines| && Matches(lines[i], id)
  }

  /** `process_label_file` on a file read as `file` (`None`: reading or
    * decoding failed, which the function catches and reports as `False`).
    * Returns whether the file was rewritten and, if so, its new lines. */
  method ProcessLabelFile(file: Option<seq<string>>, oldId: int, newId: int)
    returns (modified: bool, written: seq<string>)
    ensures modified <==> file.Some? && AnyMatch(file.value, oldId)
    ensures modified ==> written == RewriteLines(file.value, oldId, newId)
    ensures !modified ==> written == []
  {
    if file.None? {
      return false, [];
    }
    var lines := file.value;
    var newLines: seq<string> := [];
    modified := false;
    var i := 0;
    while i < |lines|
      invariant 0 <= i <= |lines|
      invariant newLines == RewriteLines(lines[..i], oldId, newId)
      invariant modified <==> AnyMatch(lines[..i], oldId)
    {
      var line := lines[i];
      StepLine(lines, i, oldId, newId);
      StripMeaning(line);
      BlankIffNoTokens(line);
      if Strip(line) == [] {
        newLines := newLines + [line];
      } else {
        var parts := Tokens(line);
        if parts[0] == IntToString(oldId) {
          newLines := newLines + [JoinSpace([IntToString(newId)] + parts[1..]) + "\n"];
          modified := true;
        } else {
          newLines := newLines + [line];
        }
      }
      i := i + 1;
    }
    assert lines[..i] == lines;
    if modified {
      written := newLines;
    } else {
      written := [];
    }
  }

  lemma StepLine(lines: seq<string>, i: nat, oldId: int, newId: int)
    requires i < |lines|
    ensures RewriteLines(lines[..i + 1], oldId, newId) == RewriteLines(lines[..i], oldId, newId) + [RewriteLine(lines[i], oldId, newId)]
    ensures AnyMatch(lines[..i + 1], oldId) <==> AnyMatch(lines[..i], oldId) || Matches(lines[i], oldId)
  {
    assert forall j :: 0 <= j < i ==> lines[..i + 1][j] == lines[..i][j];
    assert lines[..i + 1][i] == lines[i];
  }

  /** The line count is kept, and every line that does not start with the
    * old id (blank lines included) is kept byte for byte. */
  lemma OtherLinesKept(lines: seq<string>, oldId: int, newId: int)
    ensures |RewriteLines(lines, oldId, newId)| == |lines|
    ensures forall i :: 0 <= i < |lines| && !Matches(lines[i], oldId) ==> RewriteLines(lines, oldId, newId)[i] == lines[i]
    ensures forall i :: 0 <= i < |lines| && IsBlank(lines[i]) ==> RewriteLines(lines, oldId, newId)[i] == lines[i]
  {
    forall i | 0 <= i < |lines| && IsBlank(lines[i]) ensures !Matches(lines[i], oldId) {
      BlankIffNoTokens(lines[i]);
    }
  }

  /** A rewritten line reads back as the new id followed by the line's
    * remaining tokens. */
  lemma RewrittenTokens(line: string, oldId: int, newId: int)
    requires Matches(line, oldId)
    ensures Tokens(RewriteLine(line, oldId, newId)) == [IntToString(newId)] + Tokens(line)[1..]
  {
    var parts := [IntToString(newId)] + Tokens(line)[1..];
    TokensAreWords(line);
    YoloFormat.IntToStringIsWord(newId);
    forall k | 0 <= k < |parts| ensures IsWord(parts[k]) {
      if k > 0 {
        assert parts[k] == Tokens(line)[k];
      }
    }
    assert IsBlank("\n");
    TokensOfJoin(parts, "\n");
  }

  /** `str` is injective on ints, so different ids never match each other's
    * text. */
  lemma IdTextInjective(a: int, b: int)
    requires a != b
    ensures IntToString(a) != IntToString(b)
  {
    ParseIntOfToString(a);
    ParseIntOfToString(b);
  }

  /** With distinct ids a second run finds nothing to change: the file is not
    * rewritten and `False` is returned. */
  lemma SecondRunChangesNothing(lines: seq<string>, oldId: int, newId: int)
    requires oldId != newId
    ensures !AnyMatch(RewriteLines(lines, oldId, newId), oldId)
  {
    var out := RewriteLines(lines, oldId, newId);
    forall i | 0 <= i < |out| ensures !Matches(out[i], oldId) {
      if Matches(lines[i], oldId) {
        RewrittenTokens(lines[i], oldId, newId);
        IdTextInjective(oldId, newId);
      }
    }
  }

  /** A `.txt` file found by the walk: its name and its lines as read. */
  datatype LabelFile = LabelFile(name: string, content: Option<seq<string>>)

  function ModifiedCount(files: seq<LabelFile>, oldId: int): (n: nat)
    ensures n <= |files|
  {
    if files == [] then 0
    else
      var last := files[|files| - 1];
      ModifiedCount(files[..|files| - 1], oldId)
        + (if last.content.Some? && AnyMatch(last.content.value, oldId) then 1 else 0)
  }

  /** The names and new lines of the files `process_label_file` rewrites,
    * in order: those read that hold the old id. */
  function Rewritten(files: seq<LabelFile>, oldId: int, newId: int): seq<(string, seq<string>)> {
    if files == [] then []
    else
      var last := files[|files| - 1];
      Rewritten(files[..|files| - 1], oldId, newId)
        + if last.content.Some? && AnyMatch(last.content.value, oldId)
          then [(last.name, RewriteLines(last.content.value, oldId, newId))]
          else []
  }

  /** One rewritten file per modified file; each names a file that was
    * read and holds the old id, with its lines rewritten, so that (with
    * distinct ids) none of them holds the old id any more. */
  lemma {:induction false} RewrittenMeaning(files: seq<LabelFile>, oldId: int, newId: int)
    ensures |Rewritten(files, oldId, newId)| == ModifiedCount(files, oldId)
    ensures forall r :: r in Rewritten(files, oldId, newId) ==>
              exists f :: f in files && f.name == r.0 && f.content.Some? && AnyMatch(f.content.value, oldId)
                          && r.1 == RewriteLines(f.content.value, oldId, newId)
    ensures oldId != newId ==> forall r :: r in Rewritten(files, oldId, newId) ==> !AnyMatch(r.1, oldId)
  {
    if files != [] {
      var n := |files| - 1;
      RewrittenMeaning(files[..n], oldId, newId);
      var last := files[n];
      assert last in files;
      forall r | r in Rewritten(files[..n], oldId, newId)
        ensures exists f :: f in files && f.name == r.0 && f.content.Some? && AnyMatch(f.content.value, oldId)
                            && r.1 == RewriteLines(f.content.value, oldId, newId)
      {
        var f :| f in files[..n] && f.name == r.0 && f.content.Some? && AnyMatch(f.content.value, oldId)
                 && r.1 == RewriteLines(f.content.value, oldId, newId);
        assert f in files;
      }
      if oldId != newId && last.content.Some? && AnyMatch(last.content.value, oldId) {
        SecondRunChangesNothing(last.content.value, oldId, newId);
      }
    }
  }

  predicate IsTxtFile(f: LabelFile) {
    EndsWith(f.name, ".txt")
  }

  /** One more walked name: a `.txt` file adds one to the scanned count
    * and, when it holds the old id, one to the modified count. */
  lemma WalkStep(names: seq<LabelFile>, i: nat, oldId: int, newId: int)
    requires i < |names|
    ensures var f := names[i];
            Filter(names[..i + 1], IsTxtFile)
              == if IsTxtFile(f) then Filter(names[..i], IsTxtFile) + [f] else Filter(names[..i], IsTxtFile)
    ensures var f := names[i];
            ModifiedCount(Filter(names[..i + 1], IsTxtFile), oldId)
              == ModifiedCount(Filter(names[..i], IsTxtFile), oldId)
                 + (if IsTxtFile(f) && f.content.Some? && AnyMatch(f.content.value, oldId) then 1 else 0)
    ensures var f := names[i];
            Rewritten(Filter(names[..i + 1], IsTxtFile), oldId, newId)
              == Rewritten(Filter(names[..i], IsTxtFile), oldId, newId)
                 + (if IsTxtFile(f) && f.content.Some? && AnyMatch(f.content.value, oldId)
                    then [(f.name, RewriteLines(f.content.value, oldId, newId))] else [])
  {
    var f := names[i];
    assert names[..i + 1] == names[..i] + [f];
    FilterSnoc(names[..i], f, IsTxtFile);
    var before := Filter(names[..i], IsTxtFile);
    assert (before + [f])[..|before|] == before;
  }

  /** The loop of `main` over the walked names: every `.txt` file counts as
    * scanned, and those `process_label_file` reports as changed as
    * modified; their new contents are returned in walk order. */
  method ChangeIds(names: seq<LabelFile>, oldId: int, newId: int)
    returns (total: nat, modifiedFiles: nat, rewritten: seq<(string, seq<string>)>)
    ensures total == |Filter(names, IsTxtFile)|
    ensures modifiedFiles == ModifiedCount(Filter(names, IsTxtFile), oldId)
    ensures modifiedFiles <= total
    ensures rewritten == Rewritten(Filter(names, IsTxtFile), oldId, newId)
    ensures |rewritten| == modifiedFiles
  {
    total, modifiedFiles, rewritten := 0, 0, [];
    var i := 0;
    while i < |names|
      invariant 0 <= i <= |names|
      invariant total == |Filter(names[..i], IsTxtFile)|
      invariant modifiedFiles == ModifiedCount(Filter(names[..i], IsTxtFile), oldId)
      invariant rewritten == Rewritten(Filter(names[..i], IsTxtFile), oldId, newId)
      invariant |rewritten| == modifiedFiles
    {
      WalkStep(names, i, oldId, newId);
      RewrittenMeaning(Filter(names[..i + 1], IsTxtFile), oldId, newId);
      var f := names[i];
      if IsTxtFile(f) {
        total := total + 1;
        var changed, lines := ProcessLabelFile(f.content, oldId, newId);
        if changed {
          modifiedFiles := modifiedFiles + 1;
          rewritten := rewritten + [(f.name, lines)];
        }
      }
      i := i + 1;
    }
    assert names[..i] == names;
  }
}
