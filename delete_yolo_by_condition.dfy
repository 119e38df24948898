/** Deleting YOLO samples whose label satisfies count conditions: the
  * `count OP N` condition language, the per-label selection rule and the
  * loop that removes (or backs up) each selected label with its image. */
module DeleteYoloByCondition {
  import opened Common

  // ------------------------------------------------------------------
  // Counting annotations
  // ------------------------------------------------------------------

  /** `count_annotations` on the lines of an existing file: the lines that
    * are not empty once stripped. */
  function NonBlankCount(lines: seq<string>): (n: nat)
    ensures n <= |lines|
  {
    if lines == [] then 0
    else NonBlankCount(lines[..|lines| - 1]) + (if Strip(lines[|lines| - 1]) == [] then 0 else 1)
  }

  predicate AllBlank(lines: seq<string>) {
    forall i :: 0 <= i < |lines| ==> IsBlank(lines[i])
  }

  predicate NoneBlank(lines: seq<string>) {
    forall i :: 0 <= i < |lines| ==> !IsBlank(lines[i])
  }

  lemma BlankSnoc(lines: seq<string>)
    requires lines != []
    ensures AllBlank(lines) <==> AllBlank(lines[..|lines| - 1]) && IsBlank(lines[|lines| - 1])
    ensures NoneBlank(lines) <==> NoneBlank(lines[..|lines| - 1]) && !IsBlank(lines[|lines| - 1])
  {
    var k := |lines| - 1;
    var front := lines[..k];
    assert forall i :: 0 <= i < k ==> front[i] == lines[i];
    if AllBlank(front) && IsBlank(lines[k]) {
      forall i | 0 <= i < |lines| ensures IsBlank(lines[i]) {
        if i < k {
          assert front[i] == lines[i];
        }
      }
    }
    if NoneBlank(front) && !IsBlank(lines[k]) {
      forall i | 0 <= i < |lines| ensures !IsBlank(lines[i]) {
        if i < k {
          assert front[i] == lines[i];
        }
      }
    }
  }

  /** No line counts exactly when every line is blank; all lines count
    * exactly when none is. */
  lemma {:induction false} NonBlankCountMeaning(lines: seq<string>)
    ensures NonBlankCount(lines) == 0 <==> AllBlank(lines)
    ensures NonBlankCount(lines) == |lines| <==> NoneBlank(lines)
  {
    if lines != [] {
      var k := |lines| - 1;
      NonBlankCountMeaning(lines[..k]);
      StripBlank(lines[k]);
      BlankSnoc(lines);
    }
  }

  /** `count_annotations(label_file)`: a missing file counts 0. */
  function AnnotationCount(file: Option<seq<string>>): nat {
    if file.None? then 0 else NonBlankCount(file.value)
  }

  // ------------------------------------------------------------------
  // The paired image
  // ------------------------------------------------------------------

  /** `get_image_extensions()`: lower- and upper-case spellings, in this
    * order. */
  const ImageExtensions: seq<string> :=
    [".jpg", ".jpeg", ".png", ".bmp", ".JPG", ".JPEG", ".PNG", ".BMP"]

  /** `find_corresponding_image`: tries each extension in order and returns
    * the first image name that exists. */
  method FindCorrespondingImage(labelName: string, images: set<string>) returns (image: Option<string>)
    ensures image == FirstWithExtension(PathStem(labelName), ImageExtensions, images)
  {
    image := FindWithExtension(PathStem(labelName), ImageExtensions, images);
  }

  // ------------------------------------------------------------------
  // Count conditions
  // ------------------------------------------------------------------

  datatype Op = Ge | Le | Eq | Ne | Gt | Lt

  /** A parsed condition `count OP value`. */
  datatype Condition = Condition(op: Op, value: int)

  /** The operators in the order `parse_condition` searches for them. */
  const Ops: seq<Op> := [Ge, Le, Eq, Ne, Gt, Lt]

  function OpText(op: Op): (t: string)
    ensures t != []
  {
    match op
    case Ge => ">=" case Le => "<=" case Eq => "==" case Ne => "!=" case Gt => ">" case Lt => "<"
  }

  /** The closure `parse_condition` returns, applied to a count. */
  predicate Holds(c: Condition, count: int) {
    match c.op
    case Ge => count >= c.value
    case Le => count <= c.value
    case Eq => count == c.value
    case Ne => count != c.value
    case Gt => count > c.value
    case Lt => count < c.value
  }

  /** The first operator of `ops` whose text occurs anywhere in `text`. */
  function FirstOp(text: string, ops: seq<Op>): (r: Option<nat>)
    ensures r.Some? ==> r.value < |ops| && Contains(text, OpText(ops[r.value]))
    ensures r.Some? ==> forall j :: 0 <= j < r.value ==> !Contains(text, OpText(ops[j]))
    ensures r.None? <==> forall j :: 0 <= j < |ops| ==> !Contains(text, OpText(ops[j]))
  {
    if ops == [] then None
    else if Contains(text, OpText(ops[0])) then Some(0)
    else
      var r := FirstOp(text, ops[1..]);
      assert forall j :: 1 <= j < |ops| ==> ops[j] == ops[1..][j - 1];
      if r.None? then None else Some(r.value + 1)
  }

  /** `parse_condition(s)`; `None` stands for the `ValueError` it raises:
    * no leading `count`, no operator, or a value that `int()` rejects. */
  function ParseCondition(s: string): (r: Option<Condition>)
    ensures r.Some? ==> StartsWith(Strip(s), "count")
    ensures r.Some? ==> Contains(Strip(Strip(s)[5..]), OpText(r.value.op))
  {
    var t := Strip(s);
    if !StartsWith(t, "count") then None
    else ParseComparison(Strip(t[5..]))
  }

  /** The part of `parse_condition` after `count`: the first operator found,
    * then `int()` of the stripped text between it and its next occurrence. */
  function ParseComparison(rest: string): (r: Option<Condition>)
    ensures r.Some? ==> Contains(rest, OpText(r.value.op))
  {
    var k := FirstOp(rest, Ops);
    if k.None? then None
    else
      var op := Ops[k.value];
      var v := ParseInt(Strip(SecondField(rest, OpText(op))));
      if v.None? then None else Some(Condition(op, v.value))
  }

  /** Condition parsing reads back the plain spelling `count>=3`. */
  function FormatCondition(c: Condition): string {
    "count" + (OpText(c.op) + IntToString(c.value))
  }

  predicate IsOpChar(ch: char) {
    ch == '<' || ch == '>' || ch == '=' || ch == '!'
  }

  /** An operator text occurs nowhere in text free of operator characters. */
  lemma NoOpInPlain(d: string, op: Op)
    requires forall i :: 0 <= i < |d| ==> !IsOpChar(d[i])
    ensures !Contains(d, OpText(op))
  {
    var q := OpText(op);
    forall j | 0 <= j <= |d| - |q|
      ensures !OccursAt(d, q, j)
    {
      assert d[j..j + |q|][0] == d[j];
    }
  }

  /** Position of `op` in the search order. */
  function OpIndex(op: Op): (k: nat)
    ensures k < |Ops| && Ops[k] == op
  {
    match op
    case Ge => 0 case Le => 1 case Eq => 2 case Ne => 3 case Gt => 4 case Lt => 5
  }

  predicate Plain(d: string) {
    d != [] && forall i :: 0 <= i < |d| ==> !IsOpChar(d[i]) && !IsSpace(d[i])
  }

  /** The operator text `q` cannot occur in `a + d`, given how `q` compares
    * with the first two characters of `a + d`. */
  lemma AbsentFromOpThenPlain(a: string, d: string, q: string)
    requires 1 <= |a| <= 2 && 1 <= |q| <= 2 && Plain(d)
    requires forall i :: 0 <= i < |q| ==> IsOpChar(q[i])
    requires a[0] != q[0] || (|q| == 2 && (if |a| == 2 then a[1] else d[0]) != q[1])
    requires |a| == 2 ==> a[1] != q[0] || (|q| == 2 && d[0] != q[1])
    ensures !Contains(a + d, q)
  {
    var t := a + d;
    forall i | 0 <= i <= |t| - |q|
      ensures !OccursAt(t, q, i)
    {
      var w := t[i..i + |q|];
      assert w[0] == t[i];
      if |q| == 2 {
        assert w[1] == t[i + 1];
      }
      if i >= |a| {
        assert t[i] == d[i - |a|];
      }
    }
  }

  /** In `OP value`, no operator searched before `OP` occurs: the two-character
    * operators come first, and a one-character one cannot be mistaken for
    * the start of another. */
  lemma EarlierOpsAbsent(op: Op, d: string)
    requires Plain(d)
    ensures forall j :: 0 <= j < OpIndex(op) ==> !Contains(OpText(op) + d, OpText(Ops[j]))
  {
    var a := OpText(op);
    forall j | 0 <= j < OpIndex(op)
      ensures !Contains(a + d, OpText(Ops[j]))
    {
      AbsentFromOpThenPlain(a, d, OpText(Ops[j]));
    }
  }

  /** In `OP value` the operator search stops at `OP`, and the text after it
    * is the value. */
  lemma FindsFormattedOp(op: Op, d: string)
    requires Plain(d)
    ensures FirstOp(OpText(op) + d, Ops) == Some(OpIndex(op))
    ensures SecondField(OpText(op) + d, OpText(op)) == d
  {
    var a := OpText(op);
    var rest := a + d;
    EarlierOpsAbsent(op, d);
    assert OccursAt(rest, a, 0);
    assert Contains(rest, a);
    assert Find(rest, a) == Some(0);
    assert rest[|a|..] == d;
    NoOpInPlain(d, op);
  }

  /** `str(v)` has neither operator characters nor spaces. */
  lemma ValueIsPlain(v: int)
    ensures Plain(IntToString(v))
  {
    IntToStringChars(v);
  }

  /** Unspaced text after `count` survives both strips unchanged. */
  lemma CountPrefix(rest: string)
    requires forall i :: 0 <= i < |rest| ==> !IsSpace(rest[i])
    ensures Strip("count" + rest) == "count" + rest
  {
    var s := "count" + rest;
    forall i | 0 <= i < |s| ensures !IsSpace(s[i]) {
      if i >= 5 {
        assert s[i] == rest[i - 5];
      }
    }
    StripUnspaced(s);
  }

  /** `OP value` contains no whitespace. */
  lemma ComparisonUnspaced(c: Condition)
    ensures forall i :: 0 <= i < |OpText(c.op) + IntToString(c.value)| ==> !IsSpace((OpText(c.op) + IntToString(c.value))[i])
  {
    var a := OpText(c.op);
    var d := IntToString(c.value);
    ValueIsPlain(c.value);
    forall i | 0 <= i < |a + d| ensures !IsSpace((a + d)[i]) {
      if i >= |a| {
        assert (a + d)[i] == d[i - |a|];
      }
    }
  }

  /** `parse_condition` inverts `FormatCondition`. */
  lemma ParseFormatRoundTrip(c: Condition)
    ensures ParseCondition(FormatCondition(c)) == Some(c)
  {
    var rest := OpText(c.op) + IntToString(c.value);
    var s := "count" + rest;
    assert s[5..] == rest && StartsWith(s, "count");
    ComparisonUnspaced(c);
    CountPrefix(rest);
    StripUnspaced(rest);
    ComparisonRoundTrip(c);
  }

  lemma ComparisonRoundTrip(c: Condition)
    ensures ParseComparison(OpText(c.op) + IntToString(c.value)) == Some(c)
  {
    var d := IntToString(c.value);
    var rest := OpText(c.op) + d;
    ValueIsPlain(c.value);
    FindsFormattedOp(c.op, d);
    var k := FirstOp(rest, Ops);
    assert k == Some(OpIndex(c.op));
    var op := Ops[k.value];
    assert op == c.op;
    StripUnspaced(d);
    ParseIntOfToString(c.value);
    var v := ParseInt(Strip(SecondField(rest, OpText(op))));
    assert v == Some(c.value);
  }

  /** `parse_condition` is applied to every `--condition`; one failure stops
    * the script before any file is touched. */
  function ParseConditions(args: seq<string>): (r: Option<seq<Condition>>)
    ensures r.Some? ==> |r.value| == |args| && forall i :: 0 <= i < |args| ==> ParseCondition(args[i]) == Some(r.value[i])
    ensures r.None? ==> exists i :: 0 <= i < |args| && ParseCondition(args[i]).None?
  {
    MapAll(args, ParseCondition)
  }

  /** `combined_condition` on a label with stem `stem` and `count` non-blank
    * lines; an empty `keepSuffix` stands for an absent or empty
    * `--keep_suffix`. */
  predicate Selected(conds: seq<Condition>, keepSuffix: string, stem: string, count: int) {
    (forall c :: c in conds ==> Holds(c, count)) && (keepSuffix == [] || !EndsWith(stem, keepSuffix))
  }

  // ------------------------------------------------------------------
  // Deleting
  // ------------------------------------------------------------------

  /** A directory entry of `labels/` and the lines of that file. */
  datatype LabelEntry = LabelEntry(name: string, lines: seq<string>)

  /** What `delete_files` does to one file; with `Backup*` the file moves to
    * the same name under `backup/labels` or `backup/images`. */
  datatype Effect = RemoveLabel(labelName: string) | RemoveImage(image: string)
                  | BackupLabel(labelName: string) | BackupImage(image: string)

  datatype DeleteOutcome = MissingDirectory | Deleted(labels: nat, images: nat, effects: seq<Effect>)

  /** `labels_dir.glob('*.txt')` keeps these entries. */
  predicate IsLabelFile(e: LabelEntry) {
    EndsWith(e.name, ".txt")
  }

  predicate LabelSelected(e: LabelEntry, conds: seq<Condition>, keepSuffix: string) {
    IsLabelFile(e) && Selected(conds, keepSuffix, PathStem(e.name), AnnotationCount(Some(e.lines)))
  }

  function PairedImage(e: LabelEntry, images: set<string>): Option<string> {
    FirstWithExtension(PathStem(e.name), ImageExtensions, images)
  }

  /** What a real run does for one selected label. */
  function EntryEffects(e: LabelEntry, image: Option<string>, backup: bool): seq<Effect> {
    if backup then [BackupLabel(e.name)] + (if image.Some? then [BackupImage(image.value)] else [])
    else [RemoveLabel(e.name)] + (if image.Some? then [RemoveImage(image.value)] else [])
  }

  /** The selected labels among `entries`, in listing order. */
  function SelectedLabels(entries: seq<LabelEntry>, conds: seq<Condition>, keepSuffix: string): seq<LabelEntry> {
    Filter(entries, e => LabelSelected(e, conds, keepSuffix))
  }

  function WithImage(selected: seq<LabelEntry>, images: set<string>): seq<LabelEntry> {
    Filter(selected, e => PairedImage(e, images).Some?)
  }

  function AllEffects(selected: seq<LabelEntry>, images: set<string>, backup: bool): seq<Effect> {
    if selected == [] then []
    else
      var last := selected[|selected| - 1];
      AllEffects(selected[..|selected| - 1], images, backup) + EntryEffects(last, PairedImage(last, images), backup)
  }

  /** The whole of `delete_files`, as the loop below computes it. */
  function DeleteSpec(labelsDirExists: bool, imagesDirExists: bool, entries: seq<LabelEntry>, images: set<string>,
                      conds: seq<Condition>, keepSuffix: string, dryRun: bool, backup: bool): DeleteOutcome
  {
    if !labelsDirExists || !imagesDirExists then MissingDirectory
    else
      var selected := SelectedLabels(entries, conds, keepSuffix);
      Deleted(|selected|, |WithImage(selected, images)|,
              if dryRun then [] else AllEffects(selected, images, backup))
  }

  /** One more listed entry adds itself to the selection when selected, and
    * then its image and its effects. */
  lemma DeleteStep(entries: seq<LabelEntry>, i: nat, conds: seq<Condition>, keepSuffix: string,
                   images: set<string>, backup: bool)
    requires i < |entries|
    ensures var e := entries[i];
            var before := SelectedLabels(entries[..i], conds, keepSuffix);
            var after := SelectedLabels(entries[..i + 1], conds, keepSuffix);
            && |after| == |before| + (if LabelSelected(e, conds, keepSuffix) then 1 else 0)
            && |WithImage(after, images)| == |WithImage(before, images)|
                 + (if LabelSelected(e, conds, keepSuffix) && PairedImage(e, images).Some? then 1 else 0)
            && AllEffects(after, images, backup) == AllEffects(before, images, backup)
                 + (if LabelSelected(e, conds, keepSuffix) then EntryEffects(e, PairedImage(e, images), backup) else [])
  {
    var e := entries[i];
    var before := SelectedLabels(entries[..i], conds, keepSuffix);
    assert entries[..i + 1] == entries[..i] + [e];
    FilterSnoc(entries[..i], e, x => LabelSelected(x, conds, keepSuffix));
    if LabelSelected(e, conds, keepSuffix) {
      FilterSnoc(before, e, x => PairedImage(x, images).Some?);
      assert (before + [e])[..|before|] == before;
    }
  }

  /** `delete_files`: refuses a missing `labels/` or `images/`, then visits
    * the `*.txt` entries in listing order and, for each selected label,
    * removes it and its image, moves both to the backup directory, or (in
    * dry-run) only counts them. */
  method DeleteFiles(labelsDirExists: bool, imagesDirExists: bool, entries: seq<LabelEntry>, images: set<string>,
                     conds: seq<Condition>, keepSuffix: string, dryRun: bool, backup: bool)
    returns (outcome: DeleteOutcome)
    ensures outcome == DeleteSpec(labelsDirExists, imagesDirExists, entries, images, conds, keepSuffix, dryRun, backup)
  {
    if !labelsDirExists || !imagesDirExists {
      return MissingDirectory;
    }
    var deletedLabels := 0;
    var deletedImages := 0;
    var effects: seq<Effect> := [];
    var i := 0;
    while i < |entries|
      invariant 0 <= i <= |entries|
      invariant deletedLabels == |SelectedLabels(entries[..i], conds, keepSuffix)|
      invariant deletedImages == |WithImage(SelectedLabels(entries[..i], conds, keepSuffix), images)|
      invariant effects == if dryRun then [] else AllEffects(SelectedLabels(entries[..i], conds, keepSuffix), images, backup)
    {
      var e := entries[i];
      DeleteStep(entries, i, conds, keepSuffix, images, backup);
      var selected, hasImage, more := VisitEntry(e, images, conds, keepSuffix, dryRun, backup);
      effects := effects + more;
      if selected {
        deletedLabels := deletedLabels + 1;
        if hasImage {
          deletedImages := deletedImages + 1;
        }
      }
      i := i + 1;
    }
    assert entries[..|entries|] == entries;
    return Deleted(deletedLabels, deletedImages, effects);
  }

  /** One label of the loop: whether it is selected, whether it has an
    * image, and what a real run does to the two. */
  method VisitEntry(e: LabelEntry, images: set<string>, conds: seq<Condition>, keepSuffix: string,
                    dryRun: bool, backup: bool)
    returns (selected: bool, hasImage: bool, effects: seq<Effect>)
    ensures selected == LabelSelected(e, conds, keepSuffix)
    ensures hasImage == PairedImage(e, images).Some?
    ensures effects == if dryRun || !selected then [] else EntryEffects(e, PairedImage(e, images), backup)
  {
    selected := IsLabelFile(e) && Selected(conds, keepSuffix, PathStem(e.name), NonBlankCount(e.lines));
    var image := FindCorrespondingImage(e.name, images);
    hasImage := image.Some?;
    effects := [];
    if selected && !dryRun {
      effects := EntryEffects(e, image, backup);
    }
  }

  /** Every deleted image belongs to a deleted label, every deleted label was
    * listed, and a dry run reports the same numbers as a real one. */
  lemma DeleteCounts(labelsDirExists: bool, imagesDirExists: bool, entries: seq<LabelEntry>, images: set<string>,
                     conds: seq<Condition>, keepSuffix: string, backup: bool)
    requires labelsDirExists && imagesDirExists
    ensures var run := DeleteSpec(labelsDirExists, imagesDirExists, entries, images, conds, keepSuffix, false, backup);
            var dry := DeleteSpec(labelsDirExists, imagesDirExists, entries, images, conds, keepSuffix, true, backup);
            run.Deleted? && dry.Deleted? && dry.effects == []
            && run.images <= run.labels <= |entries|
            && dry.labels == run.labels && dry.images == run.images
  {
    var selected := SelectedLabels(entries, conds, keepSuffix);
    FilterContents(entries, e => LabelSelected(e, conds, keepSuffix));
    FilterContents(selected, e => PairedImage(e, images).Some?);
  }

  /** A label is deleted iff it is a `*.txt` entry meeting every condition
    * and not protected by the keep suffix; with no conditions and no keep
    * suffix every label goes. */
  lemma SelectionRule(entries: seq<LabelEntry>, conds: seq<Condition>, keepSuffix: string, e: LabelEntry)
    ensures e in SelectedLabels(entries, conds, keepSuffix) <==>
              e in entries && EndsWith(e.name, ".txt")
              && (forall c :: c in conds ==> Holds(c, NonBlankCount(e.lines)))
              && (keepSuffix == [] || !EndsWith(PathStem(e.name), keepSuffix))
    ensures conds == [] && keepSuffix == [] ==> SelectedLabels(entries, conds, keepSuffix) == Filter(entries, IsLabelFile)
  {
    FilterContents(entries, e => LabelSelected(e, conds, keepSuffix));
    if conds == [] && keepSuffix == [] {
      SameFilter(entries, e => LabelSelected(e, conds, keepSuffix), IsLabelFile);
    }
  }

  lemma {:induction false} SameFilter<A>(xs: seq<A>, p: A -> bool, q: A -> bool)
    requires forall x :: p(x) == q(x)
    ensures Filter(xs, p) == Filter(xs, q)
  {
    if xs != [] {
      SameFilter(xs[..|xs| - 1], p, q);
    }
  }

  /** A real run touches only selected labels and their paired images; with a
    * backup directory it only moves, without one it only removes. */
  lemma {:induction false} EffectsTouchSelected(selected: seq<LabelEntry>, images: set<string>, backup: bool, f: Effect)
    requires f in AllEffects(selected, images, backup)
    ensures (f.RemoveLabel? || f.BackupLabel?) ==> exists e :: e in selected && e.name == f.labelName
    ensures (f.RemoveImage? || f.BackupImage?) ==> f.image in images
    ensures backup <==> (f.BackupLabel? || f.BackupImage?)
  {
    if selected != [] {
      var front := selected[..|selected| - 1];
      var last := selected[|selected| - 1];
      if f in AllEffects(front, images, backup) {
        EffectsTouchSelected(front, images, backup, f);
      } else {
        assert f in EntryEffects(last, PairedImage(last, images), backup);
      }
    }
  }
}
