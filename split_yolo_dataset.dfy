/** Sampling image/label pairs out of a flat YOLO folder: the candidate
  * stems, the sample size and the copies. */
module SplitYoloDataset {
  import opened Common

  /** `Path(images).glob('*.jpg')` over the names of `images/`: the names
    * ending in `.jpg`, case-sensitively. `pathlib` does not skip hidden
    * names, so `.jpg` itself matches. */
  predicate GlobJpg(name: string) {
    EndsWith(name, ".jpg")
  }

  /** The candidate stems: the `Path.stem` of every matched image, in
    * listing order, whose `labels/{stem}.txt` exists. */
  function Candidates(images: seq<string>, labelFiles: set<string>): seq<string> {
    if images == [] then []
    else
      var f := images[|images| - 1];
      Candidates(images[..|images| - 1], labelFiles)
        + (if GlobJpg(f) && PathStem(f) + ".txt" in labelFiles then [PathStem(f)] else [])
  }

  /** The stem of a globbed name is the name without `.jpg`, and is not
    * empty; the one exception is `.jpg` itself, a hidden name whose stem is
    * the whole name. */
  lemma GlobStem(name: string)
    requires GlobJpg(name)
    ensures name == ".jpg" ==> PathStem(name) == ".jpg"
    ensures name != ".jpg" ==> PathStem(name) != [] && PathStem(name) + ".jpg" == name
  {
    if name != ".jpg" {
      var stem := name[..|name| - 4];
      assert name == stem + ".jpg";
      StemSuffixOfJoin(stem, ".jpg");
    }
  }

  /** The globbed names with stem `s`: `{s}.jpg` for a non-empty `s`, and
    * also `.jpg` when `s` is `.jpg`. */
  lemma StemOfGlobbed(name: string, s: string)
    requires GlobJpg(name)
    ensures PathStem(name) == s <==> (s != [] && name == s + ".jpg") || (s == ".jpg" && name == ".jpg")
  {
    GlobStem(name);
    if name != ".jpg" && s != [] && name == s + ".jpg" {
      assert PathStem(name) + ".jpg" == s + ".jpg";
      assert PathStem(name) == (s + ".jpg")[..|s|];
    }
  }

  /** How often the source's `valid_pairs` holds `s`: once per listed
    * `{s}.jpg`, once more per listed `.jpg` when `s` is `.jpg`, and never
    * without `labels/{s}.txt`. */
  function ExpectedCount(images: seq<string>, labelFiles: set<string>, s: string): nat {
    if s + ".txt" !in labelFiles then 0
    else (if s != [] then multiset(images)[s + ".jpg"] else 0)
         + (if s == ".jpg" then multiset(images)[".jpg"] else 0)
  }

  lemma {:induction false} CandidatesCount(images: seq<string>, labelFiles: set<string>)
    ensures |Candidates(images, labelFiles)| <= |images|
    ensures forall s :: multiset(Candidates(images, labelFiles))[s] == ExpectedCount(images, labelFiles, s)
  {
    if images != [] {
      var n := |images| - 1;
      var front := images[..n];
      var f := images[n];
      CandidatesCount(front, labelFiles);
      assert images == front + [f];
      forall s ensures multiset(Candidates(images, labelFiles))[s] == ExpectedCount(images, labelFiles, s) {
        CandidatesCountStep(front, f, labelFiles, s);
      }
    }
  }

  /** One more listed name changes the count of `s` as `ExpectedCount`
    * says. */
  lemma CandidatesCountStep(front: seq<string>, f: string, labelFiles: set<string>, s: string)
    requires multiset(Candidates(front, labelFiles))[s] == ExpectedCount(front, labelFiles, s)
    ensures multiset(Candidates(front + [f], labelFiles))[s] == ExpectedCount(front + [f], labelFiles, s)
  {
    var images := front + [f];
    assert images[..|images| - 1] == front;
    var added := if GlobJpg(f) && PathStem(f) + ".txt" in labelFiles then [PathStem(f)] else [];
    assert Candidates(images, labelFiles) == Candidates(front, labelFiles) + added;
    assert multiset(images) == multiset(front) + multiset{f};
    if GlobJpg(f) {
      StemOfGlobbed(f, s);
    }
  }

  /** A stem is a candidate exactly when `labels/{stem}.txt` exists and
    * `{stem}.jpg` is listed, or the stem is `.jpg` and `.jpg` is listed. */
  lemma CandidatesContents(images: seq<string>, labelFiles: set<string>)
    ensures |Candidates(images, labelFiles)| <= |images|
    ensures forall s :: s in Candidates(images, labelFiles) <==>
              s + ".txt" in labelFiles
              && ((s != [] && s + ".jpg" in images) || (s == ".jpg" && ".jpg" in images))
  {
    CandidatesCount(images, labelFiles);
    var c := Candidates(images, labelFiles);
    forall s ensures s in c <==>
                     s + ".txt" in labelFiles
                     && ((s != [] && s + ".jpg" in images) || (s == ".jpg" && ".jpg" in images)) {
      assert (s in c) == (multiset(c)[s] > 0);
      assert (s + ".jpg" in images) == (multiset(images)[s + ".jpg"] > 0);
      assert (".jpg" in images) == (multiset(images)[".jpg"] > 0);
      assert multiset(c)[s] == ExpectedCount(images, labelFiles, s);
    }
  }

  /** A sequence repeats no element exactly when its multiset counts every
    * element at most once. */
  lemma {:induction false} DistinctCounts(xs: seq<string>)
    ensures (forall i, j :: 0 <= i < j < |xs| ==> xs[i] != xs[j]) <==> forall x :: multiset(xs)[x] <= 1
  {
    if forall i, j :: 0 <= i < j < |xs| ==> xs[i] != xs[j] {
      if xs != [] {
        var n := |xs| - 1;
        var front := xs[..n];
        var y := xs[n];
        assert forall i, j :: 0 <= i < j < |front| ==> front[i] != front[j] by {
          forall i, j | 0 <= i < j < |front| ensures front[i] != front[j] {
            assert front[i] == xs[i] && front[j] == xs[j];
          }
        }
        DistinctCounts(front);
        assert y !in front by {
          forall i | 0 <= i < |front| ensures front[i] != y {
            assert front[i] == xs[i];
          }
        }
        assert xs == front + [y];
        assert multiset(xs) == multiset(front) + multiset{y};
      }
    } else {
      var i, j :| 0 <= i < j < |xs| && xs[i] == xs[j];
      var x := xs[j];
      assert xs == xs[..j] + [x] + xs[j + 1..];
      assert multiset(xs) == multiset(xs[..j]) + multiset{x} + multiset(xs[j + 1..]);
      assert xs[..j][i] == x;
      assert multiset(xs[..j])[x] >= 1;
      assert multiset(xs)[x] >= 2;
    }
  }

  /** With distinct names in `images/`, the candidates repeat a stem exactly
    * when both `.jpg` and `.jpg.jpg` are listed and `labels/.jpg.txt`
    * exists: both names have the stem `.jpg`. */
  lemma CandidatesDistinct(images: seq<string>, labelFiles: set<string>)
    requires forall i, j :: 0 <= i < j < |images| ==> images[i] != images[j]
    ensures (forall i, j :: 0 <= i < j < |Candidates(images, labelFiles)| ==>
               Candidates(images, labelFiles)[i] != Candidates(images, labelFiles)[j])
            <==> !HiddenTwin(images, labelFiles)
  {
    var c := Candidates(images, labelFiles);
    CandidatesCount(images, labelFiles);
    DistinctCounts(images);
    DistinctCounts(c);
    if HiddenTwin(images, labelFiles) {
      TwinCount(images, labelFiles);
      assert multiset(c)[".jpg"] == ExpectedCount(images, labelFiles, ".jpg");
    } else {
      forall s ensures multiset(c)[s] <= 1 {
        assert multiset(c)[s] == ExpectedCount(images, labelFiles, s);
        SingleCount(images, labelFiles, s);
      }
    }
  }

  lemma TwinCount(images: seq<string>, labelFiles: set<string>)
    requires HiddenTwin(images, labelFiles)
    ensures ExpectedCount(images, labelFiles, ".jpg") >= 2
  {
    assert ".jpg" + ".jpg" == ".jpg.jpg";
    assert ".jpg" + ".txt" == ".jpg.txt";
    assert multiset(images)[".jpg"] >= 1;
    assert multiset(images)[".jpg.jpg"] >= 1;
  }

  lemma SingleCount(images: seq<string>, labelFiles: set<string>, s: string)
    requires forall x :: multiset(images)[x] <= 1
    requires !HiddenTwin(images, labelFiles)
    ensures ExpectedCount(images, labelFiles, s) <= 1
  {
    if s == ".jpg" && s + ".txt" in labelFiles {
      assert ".jpg" + ".jpg" == ".jpg.jpg";
      assert ".jpg" + ".txt" == ".jpg.txt";
      assert ".jpg" !in images || ".jpg.jpg" !in images;
    }
  }

  /** Both `.jpg` and `.jpg.jpg` are listed and `labels/.jpg.txt` exists. */
  predicate HiddenTwin(images: seq<string>, labelFiles: set<string>) {
    ".jpg" in images && ".jpg.jpg" in images && ".jpg.txt" in labelFiles
  }

  /** The listing `.jpg`, `.jpg.jpg` with `labels/.jpg.txt` gives the stem
    * `.jpg` twice, so the sample can pick the same pair twice. */
  lemma HiddenTwinRepeats()
    ensures Candidates([".jpg", ".jpg.jpg"], {".jpg.txt"}) == [".jpg", ".jpg"]
  {
    GlobStem(".jpg");
    GlobStem(".jpg.jpg");
    assert PathStem(".jpg.jpg") == ".jpg" by {
      assert PathStem(".jpg.jpg") + ".jpg" == ".jpg.jpg";
      assert PathStem(".jpg.jpg") == (".jpg.jpg")[..4];
    }
    var ims := [".jpg", ".jpg.jpg"];
    var labels := {".jpg.txt"};
    assert ".jpg" + ".txt" == ".jpg.txt";
    assert GlobJpg(".jpg") && GlobJpg(".jpg.jpg");
    assert ims[..1] == [".jpg"];
    assert [".jpg"][..0] == [];
    assert Candidates([".jpg"], labels) == [".jpg"];
    assert Candidates(ims, labels) == Candidates(ims[..1], labels) + [".jpg"];
  }

  /** The sample size before `min`: `int(n * ratio)` when a ratio is given
    * (it overrides `num_samples`), else `num_samples`; neither is the
    * `ValueError`. */
  function SampleSize(n: nat, ratio: Option<real>, numSamples: Option<int>): Option<int> {
    if ratio.Some? then Some(Trunc(n as real * ratio.value))
    else if numSamples.None? then None
    else numSamples
  }

  predicate DistinctIndices(indices: seq<nat>, n: nat) {
    (forall i :: 0 <= i < |indices| ==> indices[i] < n)
    && (forall i, j :: 0 <= i < j < |indices| ==> indices[i] != indices[j])
  }

  datatype Copy = CopyImage(image: string) | CopyLabel(labelName: string)

  function CopiesOf(selected: seq<string>): seq<Copy> {
    if selected == [] then []
    else
      var s := selected[|selected| - 1];
      CopiesOf(selected[..|selected| - 1]) + [CopyImage(s + ".jpg"), CopyLabel(s + ".txt")]
  }

  lemma {:induction false} CopiesShape(selected: seq<string>)
    ensures |CopiesOf(selected)| == 2 * |selected|
    ensures forall i :: 0 <= i < |selected| ==>
              CopiesOf(selected)[2 * i] == CopyImage(selected[i] + ".jpg")
              && CopiesOf(selected)[2 * i + 1] == CopyLabel(selected[i] + ".txt")
  {
    if selected != [] {
      var n := |selected| - 1;
      CopiesShape(selected[..n]);
      forall i | 0 <= i < n
        ensures CopiesOf(selected)[2 * i] == CopiesOf(selected[..n])[2 * i]
        ensures CopiesOf(selected)[2 * i + 1] == CopiesOf(selected[..n])[2 * i + 1]
      {
      }
    }
  }

  datatype Outcome =
    | NoAmount            // ValueError: neither ratio nor num_samples
    | NegativeSample      // ValueError from random.sample
    | Sampled(selected: seq<string>, copies: seq<Copy>)
      // FileNotFoundError from `shutil.copy2`: `images/{stem}.jpg` is not
      // there, which happens for the stem of the hidden name `.jpg`
    | MissingImage(selected: seq<string>, copies: seq<Copy>)

  /** `split_yolo_dataset` with the sample's positions given as `draw`. The
    * two target directories are created before any check, so they exist
    * whatever the outcome. */
  method SplitYoloDatasetRun(images: seq<string>, labelFiles: set<string>,
                             ratio: Option<real>, numSamples: Option<int>, draw: seq<nat>)
    returns (created: seq<string>, outcome: Outcome)
    requires var n := |Candidates(images, labelFiles)|;
             var size := SampleSize(n, ratio, numSamples);
             size.None? || size.value < 0 || (|draw| == Min(size.value, n) && DistinctIndices(draw, n))
    ensures created == ["images", "labels"]
    ensures outcome == NoAmount <==> ratio.None? && numSamples.None?
    ensures var size := SampleSize(|Candidates(images, labelFiles)|, ratio, numSamples);
            outcome == NegativeSample <==> size.Some? && size.value < 0
    ensures outcome.Sampled? || outcome.MissingImage? ==>
              var cands := Candidates(images, labelFiles);
              var size := SampleSize(|cands|, ratio, numSamples).value;
              && |outcome.selected| == Min(size, |cands|)
              && (forall i :: 0 <= i < |outcome.selected| ==> outcome.selected[i] == cands[draw[i]])
    ensures outcome.Sampled? <==>
              !outcome.NoAmount? && !outcome.NegativeSample?
              && forall s :: s in outcome.selected ==> s + ".jpg" in images
    ensures outcome.Sampled? ==> outcome.copies == CopiesOf(outcome.selected)
    ensures outcome.MissingImage? ==>
              var j := |outcome.copies| / 2;
              && j < |outcome.selected|
              && outcome.selected[j] + ".jpg" !in images
              && (forall t :: 0 <= t < j ==> outcome.selected[t] + ".jpg" in images)
              && outcome.copies == CopiesOf(outcome.selected[..j])
  {
    created := ["images", "labels"];
    var valid: seq<string> := [];
    var i := 0;
    while i < |images|
      invariant 0 <= i <= |images|
      invariant valid == Candidates(images[..i], labelFiles)
    {
      var f := images[i];
      assert images[..i + 1][..i] == images[..i];
      if GlobJpg(f) {
        var stem := PathStem(f);
        if stem + ".txt" in labelFiles {
          valid := valid + [stem];
        }
      }
      i := i + 1;
    }
    assert images[..i] == images;
    var size := SampleSize(|valid|, ratio, numSamples);
    if size.None? {
      return created, NoAmount;
    }
    var k := Min(size.value, |valid|);
    if k < 0 {
      return created, NegativeSample;
    }
    var selected := seq(k, j requires 0 <= j < k => valid[draw[j]]);
    var copies, complete := CopyPairs(selected, images);
    if !complete {
      return created, MissingImage(selected, copies);
    }
    return created, Sampled(selected, copies);
  }

  /** The copy loop: each stem's image, then its label, until
    * `shutil.copy2` finds no `images/{stem}.jpg`. */
  method CopyPairs(selected: seq<string>, images: seq<string>) returns (copies: seq<Copy>, complete: bool)
    ensures complete <==> forall s :: s in selected ==> s + ".jpg" in images
    ensures complete ==> copies == CopiesOf(selected)
    ensures !complete ==>
              var j := |copies| / 2;
              && j < |selected|
              && selected[j] + ".jpg" !in images
              && (forall t :: 0 <= t < j ==> selected[t] + ".jpg" in images)
              && copies == CopiesOf(selected[..j])
  {
    copies := [];
    var j := 0;
    while j < |selected| && selected[j] + ".jpg" in images
      invariant 0 <= j <= |selected|
      invariant copies == CopiesOf(selected[..j])
      invariant forall t :: 0 <= t < j ==> selected[t] + ".jpg" in images
    {
      assert selected[..j + 1][..j] == selected[..j];
      copies := copies + [CopyImage(selected[j] + ".jpg"), CopyLabel(selected[j] + ".txt")];
      j := j + 1;
    }
    CopiesShape(selected[..j]);
    if j < |selected| {
      assert selected[j] in selected;
      return copies, false;
    }
    assert selected[..j] == selected;
    forall s | s in selected ensures s + ".jpg" in images {
      var t :| 0 <= t < |selected| && selected[t] == s;
    }
    return copies, true;
  }

  /** Every sampled stem is a candidate; unless both `.jpg` and `.jpg.jpg`
    * are listed with `labels/.jpg.txt`, distinct names in `images/` give a
    * sample of distinct stems; and only the stem `.jpg` can lack its
    * `images/{stem}.jpg`. */
  lemma SampleDistinct(images: seq<string>, labelFiles: set<string>, draw: seq<nat>)
    requires forall i, j :: 0 <= i < j < |images| ==> images[i] != images[j]
    requires DistinctIndices(draw, |Candidates(images, labelFiles)|)
    ensures var cands := Candidates(images, labelFiles);
            var sel := seq(|draw|, i requires 0 <= i < |draw| => cands[draw[i]]);
            && (!HiddenTwin(images, labelFiles) ==> forall i, j :: 0 <= i < j < |sel| ==> sel[i] != sel[j])
            && (forall s :: s in sel ==> s in cands && s + ".txt" in labelFiles)
            && (forall s :: s in sel && s + ".jpg" !in images ==> s == ".jpg" && ".jpg" in images)
  {
    CandidatesContents(images, labelFiles);
    CandidatesDistinct(images, labelFiles);
    var cands := Candidates(images, labelFiles);
    var sel := seq(|draw|, i requires 0 <= i < |draw| => cands[draw[i]]);
    forall s | s in sel ensures s in cands {
      var i :| 0 <= i < |sel| && sel[i] == s;
      assert cands[draw[i]] in cands;
    }
  }
}
