/** Turning a folder of numbered `.jpg` frames into one or more videos of
  * at most `chunk` frames each: the letterbox arithmetic of
  * `resize_with_padding`, the frame order, the chunking and the names of
  * the videos. */
module GenerateVideoFromImages {
  import opened Common
  import opened Sorting

  // ------------------------------------------------------------------
  // resize_with_padding
  // ------------------------------------------------------------------

  /** The scaled size of the image and the black border on each side. */
  datatype Letterbox = Letterbox(newW: int, newH: int, top: int, bottom: int, left: int, right: int)

  /** `p // 2` and `p - p // 2`: Python's floor division by a positive
    * divisor agrees with Dafny's `/`. */
  function Halves(p: int): (r: (int, int))
    ensures r.0 + r.1 == p
    ensures r.0 <= r.1 <= r.0 + 1
  {
    (p / 2, p - p / 2)
  }

  /** `resize_with_padding` on a `w`×`h` image and a `tw`×`th` target:
    * scale by `min(tw / w, th / h)`, truncate, pad the rest. `None` is the
    * error `cv2.resize` raises when a scaled side is not positive. */
  function ResizeWithPadding(w: int, h: int, tw: int, th: int): (r: Option<Letterbox>)
    requires w > 0 && h > 0
  {
    Pad(ScaledSide(w, Scale(w, h, tw, th)), ScaledSide(h, Scale(w, h, tw, th)), tw, th)
  }

  /** `min(tw / w, th / h)`. */
  function Scale(w: int, h: int, tw: int, th: int): real
    requires w > 0 && h > 0
  {
    MinR(tw as real / w as real, th as real / h as real)
  }

  /** `int(side * scale)`. */
  function ScaledSide(side: int, scale: real): int {
    Trunc(side as real * scale)
  }

  /** The letterbox of an image scaled to `newW`×`newH`, or the error when
    * a side is not positive. */
  function Pad(newW: int, newH: int, tw: int, th: int): Option<Letterbox> {
    if newW <= 0 || newH <= 0 then None
    else
      var vertical := Halves(th - newH);
      var horizontal := Halves(tw - newW);
      Some(Letterbox(newW, newH, vertical.0, vertical.1, horizontal.0, horizontal.1))
  }

  /** Padding a scaled size that fits, one side exactly, gives borders that
    * make up the rest of each side, split as evenly as they can be. */
  lemma PadMeaning(newW: int, newH: int, tw: int, th: int)
    requires tw <= 0 || th <= 0 ==> newW <= 0 || newH <= 0
    requires tw > 0 && th > 0 ==> newW <= tw && newH <= th && (newW == tw || newH == th)
    ensures var r := Pad(newW, newH, tw, th);
            && (tw <= 0 || th <= 0 ==> r.None?)
            && (r.Some? ==>
                  && 0 < r.value.newW <= tw && 0 < r.value.newH <= th
                  && (r.value.newW == tw || r.value.newH == th)
                  && r.value.top + r.value.newH + r.value.bottom == th
                  && r.value.left + r.value.newW + r.value.right == tw
                  && 0 <= r.value.top <= r.value.bottom <= r.value.top + 1
                  && 0 <= r.value.left <= r.value.right <= r.value.left + 1)
  {
  }

  lemma ScaleToSide(side: int, target: int)
    requires side > 0
    ensures side as real * (target as real / side as real) == target as real
  {
  }

  lemma ScaleWithin(side: int, scale: real, bound: real)
    requires side > 0 && scale <= bound / side as real
    ensures side as real * scale <= bound
  {
    assert side as real * scale <= side as real * (bound / side as real);
  }

  /** With a positive target, both scaled sides are positive and fit, and
    * one of them fills its side exactly. */
  lemma ScaledFits(w: int, h: int, tw: int, th: int)
    requires w > 0 && h > 0 && tw > 0 && th > 0
    ensures var scale := Scale(w, h, tw, th);
            && 0.0 < w as real * scale <= tw as real
            && 0.0 < h as real * scale <= th as real
            && (w as real * scale == tw as real || h as real * scale == th as real)
  {
    var sw := tw as real / w as real;
    var sh := th as real / h as real;
    var scale := MinR(sw, sh);
    assert scale > 0.0;
    ScaleWithin(w, scale, tw as real);
    ScaleWithin(h, scale, th as real);
    if scale == sw {
      ScaleToSide(w, tw);
    } else {
      ScaleToSide(h, th);
    }
  }

  /** A non-positive target side makes the scale non-positive, and with it
    * both scaled sides. */
  lemma ScaledNonPositive(w: int, h: int, tw: int, th: int)
    requires w > 0 && h > 0 && (tw <= 0 || th <= 0)
    ensures var scale := Scale(w, h, tw, th);
            w as real * scale <= 0.0 && h as real * scale <= 0.0
  {
    var scale := MinR(tw as real / w as real, th as real / h as real);
    assert scale <= 0.0;
    assert w as real * scale == -(w as real * -scale);
    assert h as real * scale == -(h as real * -scale);
  }

  lemma TruncNonPositive(x: real)
    requires x <= 0.0
    ensures Trunc(x) <= 0
  {
  }

  lemma TruncExact(x: real, n: int)
    requires x == n as real
    ensures Trunc(x) == n
  {
  }

  /** The scaled image fits the target, one side exactly, the borders
    * make up the rest of each side and the two borders of a side differ
    * by at most one (the extra pixel at the bottom or right). A
    * non-positive target, or a scaled side that truncates to nothing, is
    * the error. */
  lemma LetterboxMeaning(w: int, h: int, tw: int, th: int)
    requires w > 0 && h > 0
    ensures var r := ResizeWithPadding(w, h, tw, th);
            && (tw <= 0 || th <= 0 ==> r.None?)
            && (r.Some? ==>
                  && 0 < r.value.newW <= tw && 0 < r.value.newH <= th
                  && (r.value.newW == tw || r.value.newH == th)
                  && r.value.top + r.value.newH + r.value.bottom == th
                  && r.value.left + r.value.newW + r.value.right == tw
                  && 0 <= r.value.top <= r.value.bottom <= r.value.top + 1
                  && 0 <= r.value.left <= r.value.right <= r.value.left + 1)
  {
    var scale := Scale(w, h, tw, th);
    ScaledSidesMeaning(w, h, tw, th);
    PadMeaning(ScaledSide(w, scale), ScaledSide(h, scale), tw, th);
  }

  /** The truncated scaled sides: not positive for a non-positive target,
    * otherwise within the target and one of them equal to it. */
  lemma ScaledSidesMeaning(w: int, h: int, tw: int, th: int)
    requires w > 0 && h > 0
    ensures var scale := Scale(w, h, tw, th);
            var newW := ScaledSide(w, scale);
            var newH := ScaledSide(h, scale);
            && (tw <= 0 || th <= 0 ==> newW <= 0 || newH <= 0)
            && (tw > 0 && th > 0 ==> newW <= tw && newH <= th && (newW == tw || newH == th))
  {
    var scale := Scale(w, h, tw, th);
    var x := w as real * scale;
    var y := h as real * scale;
    if tw <= 0 || th <= 0 {
      ScaledNonPositive(w, h, tw, th);
      TruncNonPositive(x);
    } else {
      ScaledFits(w, h, tw, th);
      TruncBelow(x, tw);
      TruncBelow(y, th);
      if x == tw as real {
        TruncExact(x, tw);
      } else {
        TruncExact(y, th);
      }
    }
  }

  // ------------------------------------------------------------------
  // The frames
  // ------------------------------------------------------------------

  /** `glob(join(folder, "*.jpg"))`: case-sensitive, and `*` does not match
    * a leading dot. */
  predicate Globbed(name: string) {
    name != [] && name[0] != '.' && EndsWith(name, ".jpg")
  }

  function GlobPaths(folder: string, names: seq<string>): (r: seq<string>)
    ensures forall p :: p in r <==> exists f :: f in names && Globbed(f) && p == JoinPath(folder, f)
  {
    if names == [] then []
    else
      var n := |names| - 1;
      var front := GlobPaths(folder, names[..n]);
      assert names == names[..n] + [names[n]];
      front + if Globbed(names[n]) then [JoinPath(folder, names[n])] else []
  }

  /** The sort key `int(splitext(basename(x))[0])`; `None` is the
    * `ValueError` of a stem that is not an integer. */
  function FrameKey(path: string): Option<int> {
    ParseInt(Strip(SplitExt(Basename(path)).0))
  }

  /** The frame number of a path whose key does not raise. */
  function KeyValue(path: string): int {
    match FrameKey(path)
    case Some(v) => v
    case None => 0
  }

  /** `image_files` after the sort: `None` when some key raises (Python
    * computes every key before sorting), otherwise the globbed paths stably
    * sorted on their frame number. */
  function ImageFiles(folder: string, names: seq<string>): Option<seq<string>> {
    var paths := GlobPaths(folder, names);
    if forall p :: p in paths ==> FrameKey(p).Some? then Some(SortByKey(paths, KeyValue)) else None
  }

  /** The sort raises exactly when some globbed name has no integer stem;
    * otherwise it keeps every globbed path, as often as it is globbed, in
    * non-decreasing frame-number order. */
  lemma ImageFilesMeaning(folder: string, names: seq<string>)
    ensures var r := ImageFiles(folder, names);
            var paths := GlobPaths(folder, names);
            && (r.None? <==> exists p :: p in paths && FrameKey(p).None?)
            && (r.Some? ==>
                  && multiset(r.value) == multiset(paths)
                  && forall i, j :: 0 <= i < j < |r.value| ==>
                       FrameKey(r.value[i]).Some? && FrameKey(r.value[j]).Some?
                       && FrameKey(r.value[i]).value <= FrameKey(r.value[j]).value)
  {
    var paths := GlobPaths(folder, names);
    var r := ImageFiles(folder, names);
    if r.Some? {
      forall i | 0 <= i < |r.value| ensures FrameKey(r.value[i]).Some? {
        assert r.value[i] in multiset(paths);
      }
    }
  }

  // ------------------------------------------------------------------
  // Chunks
  // ------------------------------------------------------------------

  /** `math.ceil(total / chunk_size)` for a positive chunk size, and the
    * empty `range` of a negative one. */
  function NumChunks(n: nat, c: int): (r: nat)
    requires c != 0
  {
    if c > 0 then (n + c - 1) / c else 0
  }

  /** `image_files[start:end]` of chunk `i`. */
  function Chunk(files: seq<string>, c: nat, i: nat): seq<string>
    requires c > 0
  {
    var start := Min(i * c, |files|);
    var end := Min((i + 1) * c, |files|);
    files[start..end]
  }

  /** The chunks up to `k`, one after another. */
  function ChunksUpTo(files: seq<string>, c: nat, k: nat): seq<string>
    requires c > 0
  {
    if k == 0 then [] else ChunksUpTo(files, c, k - 1) + Chunk(files, c, k - 1)
  }

  lemma {:induction false} ChunksUpToPrefix(files: seq<string>, c: nat, k: nat)
    requires c > 0
    ensures ChunksUpTo(files, c, k) == files[..Min(k * c, |files|)]
  {
    if k > 0 {
      ChunksUpToPrefix(files, c, k - 1);
      assert (k - 1) * c + c == k * c;
    }
  }

  /** `k = ceil(n / c)` chunks of `c` reach the end, `k - 1` do not. */
  lemma CeilBounds(n: nat, c: nat)
    requires c > 0
    ensures NumChunks(n, c) * c >= n
    ensures NumChunks(n, c) > 0 ==> (NumChunks(n, c) - 1) * c < n
  {
    var q := (n + c - 1) / c;
    var r := (n + c - 1) % c;
    assert n + c - 1 == q * c + r;
    assert (q - 1) * c == q * c - c;
  }

  lemma ChunkSize(files: seq<string>, c: nat, i: nat)
    requires c > 0 && i < NumChunks(|files|, c)
    ensures 0 < |Chunk(files, c, i)| <= c
    ensures i < NumChunks(|files|, c) - 1 ==> |Chunk(files, c, i)| == c
  {
    var n := |files|;
    var k := NumChunks(n, c);
    CeilBounds(n, c);
    MulMono(i, k - 1, c);
    assert (i + 1) * c == i * c + c;
    if i < k - 1 {
      MulMono(i + 1, k - 1, c);
    }
  }

  /** The chunks partition the frames: in order they make up the whole
    * list, every one is non-empty (so the `if not chunk_files` guard never
    * fires), all but the last hold exactly `chunk_size` frames and the last
    * at most that. */
  lemma ChunksPartition(files: seq<string>, c: nat)
    requires c > 0
    ensures ChunksUpTo(files, c, NumChunks(|files|, c)) == files
    ensures forall i :: 0 <= i < NumChunks(|files|, c) ==> 0 < |Chunk(files, c, i)| <= c
    ensures forall i :: 0 <= i < NumChunks(|files|, c) - 1 ==> |Chunk(files, c, i)| == c
  {
    ChunksUpToPrefix(files, c, NumChunks(|files|, c));
    CeilBounds(|files|, c);
    forall i | 0 <= i < NumChunks(|files|, c) ensures 0 < |Chunk(files, c, i)| <= c {
      ChunkSize(files, c, i);
    }
    forall i | 0 <= i < NumChunks(|files|, c) - 1 ensures |Chunk(files, c, i)| == c {
      ChunkSize(files, c, i);
    }
  }

  lemma MulMono(a: int, b: int, c: nat)
    requires a <= b
    ensures a * c <= b * c
  {
  }

  /** The file of chunk `i`: the output name itself when there is a single
    * chunk, else `{base}_{i+1}{ext}`. */
  function OutName(output: string, numChunks: nat, i: nat): string {
    if numChunks == 1 then output
    else
      var (base, ext) := SplitExtPath(output);
      base + "_" + IntToString(i + 1) + ext
  }

  /** Different chunks never write to the same file. */
  lemma OutNamesDistinct(output: string, numChunks: nat, i: nat, j: nat)
    requires i < numChunks && j < numChunks && i != j
    ensures OutName(output, numChunks, i) != OutName(output, numChunks, j)
  {
    var base := SplitExtPath(output).0;
    var ext := SplitExtPath(output).1;
    var a := IntToString(i + 1);
    var b := IntToString(j + 1);
    ParseIntOfToString(i + 1);
    ParseIntOfToString(j + 1);
    assert a != b;
    if base + "_" + a + ext == base + "_" + b + ext {
      CancelAround(base + "_", a, b, ext);
    }
  }

  /** Equal words with a common prefix and suffix have equal middles. */
  lemma CancelAround(p: string, a: string, b: string, q: string)
    requires p + a + q == p + b + q
    ensures a == b
  {
    var x := p + a + q;
    assert |a| == |b|;
    assert x[|p|..|p| + |a|] == a;
    assert (p + b + q)[|p|..|p| + |b|] == b;
  }

  // ------------------------------------------------------------------
  // main
  // ------------------------------------------------------------------

  /** The command-line settings every video shares. */
  datatype Settings = Settings(output: string, fps: int, width: int, height: int, pad: bool)

  /** One video: its file and the frames that could be read, in order;
    * each is resized (stretched, or letterboxed when `pad`) to the
    * settings' `width`×`height`. */
  datatype Video = Video(outName: string, frames: seq<string>, settings: Settings)

  /** The size `cv2.imread` reports for a frame it reads: a decoded image
    * has at least one pixel each way. */
  type Size = s: (int, int) | s.0 > 0 && s.1 > 0 witness (1, 1)

  /** The frames `cv2.imread` can read, with their width and height. */
  type Images = map<string, Size>

  /** `cv2.resize` accepts a frame of this size: stretching needs a
    * positive target, letterboxing positive scaled sides. */
  predicate Resizes(size: Size, st: Settings) {
    if st.pad then ResizeWithPadding(size.0, size.1, st.width, st.height).Some?
    else st.width > 0 && st.height > 0
  }

  /** A readable frame that `cv2.resize` rejects. */
  predicate Rejected(p: string, images: Images, st: Settings) {
    p in images && !Resizes(images[p], st)
  }

  /** A thin frame letterboxed into the default 224×224 target truncates
    * to no rows at all, so `cv2.resize` raises on a frame that reads
    * fine. */
  lemma ThinFrameRejected()
    ensures Rejected("1.jpg", map["1.jpg" := (1000, 1)], Settings("output.mp4", 30, 224, 224, true))
  {
    var scale := Scale(1000, 1, 224, 224);
    assert scale == 224.0 / 1000.0;
    assert ScaledSide(1, scale) == 0;
  }

  /** The frames `cv2.imread` reads, in order; unreadable ones are
    * skipped. */
  function ReadableFrames(chunk: seq<string>, images: Images): seq<string> {
    if chunk == [] then []
    else
      var n := |chunk| - 1;
      ReadableFrames(chunk[..n], images) + if chunk[n] in images then [chunk[n]] else []
  }

  lemma {:induction false} ReadableFramesContents(chunk: seq<string>, images: Images)
    ensures forall p :: p in ReadableFrames(chunk, images) <==> p in chunk && p in images
  {
    if chunk != [] {
      var n := |chunk| - 1;
      ReadableFramesContents(chunk[..n], images);
      assert chunk == chunk[..n] + [chunk[n]];
    }
  }

  /** The frames written to one video, and the frame `cv2.resize` raised
    * on, if any; after it no further frame is read. */
  datatype Pass = Pass(frames: seq<string>, failed: Option<string>)

  /** The frame loop over `chunk`. */
  function FramePass(chunk: seq<string>, images: Images, st: Settings): Pass {
    if chunk == [] then Pass([], None)
    else
      var n := |chunk| - 1;
      var p := FramePass(chunk[..n], images, st);
      if p.failed.Some? || chunk[n] !in images then p
      else if Resizes(images[chunk[n]], st) then Pass(p.frames + [chunk[n]], None)
      else Pass(p.frames, Some(chunk[n]))
  }

  /** The loop raises exactly when a readable frame of the chunk is
    * rejected; otherwise it writes every readable frame. */
  lemma {:induction false} FramePassClean(chunk: seq<string>, images: Images, st: Settings)
    ensures var r := FramePass(chunk, images, st);
            && (r.failed.None? <==> forall p :: p in chunk ==> !Rejected(p, images, st))
            && (r.failed.None? ==> r.frames == ReadableFrames(chunk, images))
  {
    if chunk != [] {
      var n := |chunk| - 1;
      var front := chunk[..n];
      FramePassClean(front, images, st);
      assert chunk == front + [chunk[n]];
      var p := FramePass(front, images, st);
      if p.failed.Some? {
        assert forall q :: q in front ==> q in chunk;
      } else if chunk[n] !in images || Resizes(images[chunk[n]], st) {
        assert forall q :: q in chunk ==> q in front || q == chunk[n];
      } else {
        assert chunk[n] in chunk;
      }
    }
  }

  /** When the loop raises, it is on the first rejected frame, having
    * written the readable frames before it. */
  lemma {:induction false} FramePassFirstRejected(chunk: seq<string>, images: Images, st: Settings)
    ensures var r := FramePass(chunk, images, st);
            r.failed.Some? ==>
              exists j :: 0 <= j < |chunk| && chunk[j] == r.failed.value && Rejected(chunk[j], images, st)
                          && r.frames == ReadableFrames(chunk[..j], images)
                          && forall p :: p in chunk[..j] ==> !Rejected(p, images, st)
  {
    if chunk != [] {
      var n := |chunk| - 1;
      var front := chunk[..n];
      FramePassFirstRejected(front, images, st);
      var p := FramePass(front, images, st);
      if p.failed.Some? {
        var j :| 0 <= j < |front| && front[j] == p.failed.value && Rejected(front[j], images, st)
                 && p.frames == ReadableFrames(front[..j], images)
                 && forall q :: q in front[..j] ==> !Rejected(q, images, st);
        assert chunk[j] == front[j] && chunk[..j] == front[..j];
      } else if chunk[n] in images && !Resizes(images[chunk[n]], st) {
        FramePassClean(front, images, st);
        assert chunk[..n] == front;
      }
    }
  }

  /** The loop raises exactly when a readable frame of the chunk is
    * rejected, and then on the first such frame, having written the
    * readable frames before it; otherwise it writes every readable
    * frame. */
  lemma FramePassMeaning(chunk: seq<string>, images: Images, st: Settings)
    ensures var r := FramePass(chunk, images, st);
            && (r.failed.None? <==> forall p :: p in chunk ==> !Rejected(p, images, st))
            && (r.failed.None? ==> r.frames == ReadableFrames(chunk, images))
            && (r.failed.Some? ==>
                  exists j :: 0 <= j < |chunk| && chunk[j] == r.failed.value && Rejected(chunk[j], images, st)
                              && r.frames == ReadableFrames(chunk[..j], images)
                              && forall p :: p in chunk[..j] ==> !Rejected(p, images, st))
  {
    FramePassClean(chunk, images, st);
    FramePassFirstRejected(chunk, images, st);
  }

  /** The frame loop ends in the pass of the whole chunk once a prefix has
    * raised. */
  lemma {:induction false} FramePassStops(chunk: seq<string>, k: nat, images: Images, st: Settings)
    requires k <= |chunk| && FramePass(chunk[..k], images, st).failed.Some?
    ensures FramePass(chunk, images, st) == FramePass(chunk[..k], images, st)
  {
    if k < |chunk| {
      var n := |chunk| - 1;
      assert chunk[..n][..k] == chunk[..k];
      FramePassStops(chunk[..n], k, images, st);
    } else {
      assert chunk[..k] == chunk;
    }
  }

  /** What the chunk loop has done so far: the videos opened, in order,
    * and the frame that raised, if any. */
  datatype Progress = Progress(videos: seq<Video>, failed: Option<string>)

  /** The video of chunk `i`, if any: a chunk whose first frame cannot be
    * read writes nothing. */
  function ChunkVideo(files: seq<string>, c: nat, images: Images, st: Settings, i: nat): Progress
    requires c > 0
  {
    var chunk := Chunk(files, c, i);
    if chunk != [] && chunk[0] in images then
      var pass := FramePass(chunk, images, st);
      Progress([Video(OutName(st.output, NumChunks(|files|, c), i), pass.frames, st)], pass.failed)
    else Progress([], None)
  }

  /** The videos of chunks `0 .. k-1`, stopping at the first that raises. */
  function VideosUpTo(files: seq<string>, c: nat, images: Images, st: Settings, k: nat): Progress
    requires c > 0
  {
    if k == 0 then Progress([], None)
    else
      var p := VideosUpTo(files, c, images, st, k - 1);
      if p.failed.Some? then p
      else
        var q := ChunkVideo(files, c, images, st, k - 1);
        Progress(p.videos + q.videos, q.failed)
  }

  /** One more chunk after a loop that has not raised. */
  lemma VideosUpToStep(files: seq<string>, c: nat, images: Images, st: Settings, k: nat)
    requires c > 0 && VideosUpTo(files, c, images, st, k).failed.None?
    ensures var q := ChunkVideo(files, c, images, st, k);
            VideosUpTo(files, c, images, st, k + 1)
              == Progress(VideosUpTo(files, c, images, st, k).videos + q.videos, q.failed)
  {
  }

  datatype Outcome =
    | BadFrameName        // int() of a stem raises ValueError
    | NoImages
    | ZeroChunkSize       // math.ceil(total / 0) raises ZeroDivisionError
    | ResizeError(written: seq<Video>, frame: string)   // cv2.resize raises on `frame`
    | Videos(videos: seq<Video>)

  /** `main`, with the frames `cv2.imread` can read given as `images`. */
  function Run(folder: string, names: seq<string>, st: Settings, chunkSize: int, images: Images): Outcome {
    match ImageFiles(folder, names)
    case None => BadFrameName
    case Some(files) =>
      if files == [] then NoImages
      else if chunkSize == 0 then ZeroChunkSize
      else if chunkSize < 0 then Videos([])
      else
        var p := VideosUpTo(files, chunkSize, images, st, NumChunks(|files|, chunkSize));
        if p.failed.Some? then ResizeError(p.videos, p.failed.value) else Videos(p.videos)
  }

  /** Chunk `i` is read to the end without a rejected frame: it is skipped
    * as a whole, or none of its readable frames is rejected. */
  predicate ChunkResizes(files: seq<string>, c: nat, images: Images, st: Settings, i: nat)
    requires c > 0
  {
    var chunk := Chunk(files, c, i);
    chunk == [] || chunk[0] !in images || forall p :: p in chunk ==> !Rejected(p, images, st)
  }

  /** A chunk raises exactly when it is not skipped and holds a rejected
    * frame, and then names such a frame. */
  lemma ChunkVideoFails(files: seq<string>, c: nat, images: Images, st: Settings, i: nat)
    requires c > 0
    ensures var q := ChunkVideo(files, c, images, st, i);
            && (q.failed.None? <==> ChunkResizes(files, c, images, st, i))
            && (q.failed.Some? ==> Rejected(q.failed.value, images, st))
  {
    var chunk := Chunk(files, c, i);
    FramePassClean(chunk, images, st);
    FramePassFirstRejected(chunk, images, st);
  }

  lemma ChunkVideoMeaning(files: seq<string>, c: nat, images: Images, st: Settings, i: nat)
    requires c > 0
    ensures var q := ChunkVideo(files, c, images, st, i);
            && (q.failed.None? <==> ChunkResizes(files, c, images, st, i))
            && (q.failed.Some? ==> Rejected(q.failed.value, images, st))
            && forall v :: v in q.videos ==>
                 && v.settings == st
                 && v.outName == OutName(st.output, NumChunks(|files|, c), i)
                 && v.frames == FramePass(Chunk(files, c, i), images, st).frames
                 && (q.failed.None? ==> v.frames != [] && v.frames == ReadableFrames(Chunk(files, c, i), images))
  {
    var chunk := Chunk(files, c, i);
    FramePassMeaning(chunk, images, st);
    if chunk != [] && chunk[0] in images {
      ReadableFramesContents(chunk, images);
      assert chunk[0] in ReadableFrames(chunk, images);
    }
  }

  /** The chunk loop raises exactly when some chunk that is not skipped
    * holds a rejected frame, and then names such a frame. */
  lemma {:induction false} VideosFailMeaning(files: seq<string>, c: nat, images: Images, st: Settings, k: nat)
    requires c > 0
    ensures var p := VideosUpTo(files, c, images, st, k);
            && (p.failed.None? <==> forall i :: 0 <= i < k ==> ChunkResizes(files, c, images, st, i))
            && (p.failed.Some? ==> Rejected(p.failed.value, images, st))
  {
    if k > 0 {
      VideosFailMeaning(files, c, images, st, k - 1);
      var front := VideosUpTo(files, c, images, st, k - 1);
      if front.failed.None? {
        VideosUpToStep(files, c, images, st, k - 1);
        ChunkVideoFails(files, c, images, st, k - 1);
        assert (forall i :: 0 <= i < k ==> ChunkResizes(files, c, images, st, i))
          <==> (forall i :: 0 <= i < k - 1 ==> ChunkResizes(files, c, images, st, i))
               && ChunkResizes(files, c, images, st, k - 1);
      } else {
        assert VideosUpTo(files, c, images, st, k) == front;
        var i :| 0 <= i < k - 1 && !ChunkResizes(files, c, images, st, i);
      }
    }
  }

  /** `main` raises in `cv2.resize` exactly when the frames sort, there
    * are some, the chunk size is positive and some chunk that is not
    * skipped holds a rejected frame; the frame it names is such a frame. */
  lemma RunResizeErrorMeaning(folder: string, names: seq<string>, st: Settings, chunkSize: int, images: Images)
    ensures var r := Run(folder, names, st, chunkSize, images);
            var files := ImageFiles(folder, names);
            && (r.ResizeError? <==>
                  && files.Some? && files.value != [] && chunkSize > 0
                  && exists i :: 0 <= i < NumChunks(|files.value|, chunkSize)
                                 && !ChunkResizes(files.value, chunkSize, images, st, i))
            && (r.ResizeError? ==> Rejected(r.frame, images, st))
  {
    var files := ImageFiles(folder, names);
    if files.Some? && files.value != [] && chunkSize > 0 {
      VideosFailMeaning(files.value, chunkSize, images, st, NumChunks(|files.value|, chunkSize));
    }
  }

  /** `v` is the video of chunk `i`: named after the chunk, with the shared
    * settings and the frames written before the frame loop ended; when
    * the chunk loop ran to the end (`complete`), a frame and all the
    * readable frames of the chunk. */
  predicate VideoOfChunk(v: Video, files: seq<string>, c: nat, images: Images, st: Settings, i: nat, complete: bool)
    requires c > 0
  {
    && v.settings == st
    && v.outName == OutName(st.output, NumChunks(|files|, c), i)
    && v.frames == FramePass(Chunk(files, c, i), images, st).frames
    && (complete ==> v.frames != [] && v.frames == ReadableFrames(Chunk(files, c, i), images))
  }

  /** Every video opened is the video of one of the chunks, complete when
    * nothing raised. */
  lemma {:induction false} VideosMeaning(files: seq<string>, c: nat, images: Images, st: Settings, k: nat)
    requires c > 0
    ensures var p := VideosUpTo(files, c, images, st, k);
            forall v :: v in p.videos ==>
              exists i :: 0 <= i < k && VideoOfChunk(v, files, c, images, st, i, p.failed.None?)
  {
    if k > 0 {
      VideosMeaning(files, c, images, st, k - 1);
      var front := VideosUpTo(files, c, images, st, k - 1);
      assert var q := VideosUpTo(files, c, images, st, k - 1);
             forall v :: v in q.videos ==>
               exists i :: 0 <= i < k - 1 && VideoOfChunk(v, files, c, images, st, i, q.failed.None?);
      var p := VideosUpTo(files, c, images, st, k);
      if front.failed.None? {
        var last := ChunkVideo(files, c, images, st, k - 1);
        VideosUpToStep(files, c, images, st, k - 1);
        ChunkVideoMeaning(files, c, images, st, k - 1);
        forall v: Video | v in front.videos + last.videos
          ensures exists i :: 0 <= i < k && VideoOfChunk(v, files, c, images, st, i, p.failed.None?)
        {
          if v in last.videos {
            assert VideoOfChunk(v, files, c, images, st, k - 1, p.failed.None?);
          } else {
            assert v in front.videos;
            var i :| 0 <= i < k - 1 && VideoOfChunk(v, files, c, images, st, i, front.failed.None?);
            assert VideoOfChunk(v, files, c, images, st, i, p.failed.None?);
          }
        }
      } else {
        assert p == front;
        forall v: Video | v in front.videos
          ensures exists i :: 0 <= i < k && VideoOfChunk(v, files, c, images, st, i, false)
        {
          var i :| 0 <= i < k - 1 && VideoOfChunk(v, files, c, images, st, i, front.failed.None?);
        }
      }
    }
  }

  /** With a single chunk every video keeps the given output name. */
  lemma SingleChunkName(files: seq<string>, c: nat, images: Images, st: Settings, k: nat)
    requires c > 0 && NumChunks(|files|, c) == 1
    ensures forall v :: v in VideosUpTo(files, c, images, st, k).videos ==> v.outName == st.output
  {
    VideosMeaning(files, c, images, st, k);
  }

  method CollectReadable(chunk: seq<string>, images: Images, st: Settings) returns (pass: Pass)
    ensures pass == FramePass(chunk, images, st)
  {
    var frames: seq<string> := [];
    var i := 0;
    while i < |chunk|
      invariant 0 <= i <= |chunk|
      invariant FramePass(chunk[..i], images, st) == Pass(frames, None)
    {
      assert chunk[..i + 1][..i] == chunk[..i];
      if chunk[i] in images {
        if !Resizes(images[chunk[i]], st) {
          FramePassStops(chunk, i + 1, images, st);
          return Pass(frames, Some(chunk[i]));
        }
        frames := frames + [chunk[i]];
      }
      i := i + 1;
    }
    assert chunk[..i] == chunk;
    return Pass(frames, None);
  }

  /** One pass of the chunk loop: slice, name, read and resize. */
  method WriteChunk(files: seq<string>, c: nat, images: Images, st: Settings, chunkIdx: nat)
    returns (more: Progress)
    requires c > 0
    ensures more == ChunkVideo(files, c, images, st, chunkIdx)
  {
    assert (chunkIdx + 1) * c == chunkIdx * c + c;
    var start := Min(chunkIdx * c, |files|);
    var end := Min((chunkIdx + 1) * c, |files|);
    var chunkFiles := files[start..end];
    more := Progress([], None);
    if chunkFiles != [] && chunkFiles[0] in images {
      var outName := OutName(st.output, NumChunks(|files|, c), chunkIdx);
      var pass := CollectReadable(chunkFiles, images, st);
      more := Progress([Video(outName, pass.frames, st)], pass.failed);
    }
  }

  /** The chunk loop of `main`; an exception ends it. */
  method WriteChunks(files: seq<string>, c: nat, images: Images, st: Settings) returns (p: Progress)
    requires c > 0
    ensures p == VideosUpTo(files, c, images, st, NumChunks(|files|, c))
  {
    var numChunks := NumChunks(|files|, c);
    var videos: seq<Video> := [];
    var chunkIdx := 0;
    while chunkIdx < numChunks
      invariant 0 <= chunkIdx <= numChunks
      invariant VideosUpTo(files, c, images, st, chunkIdx) == Progress(videos, None)
    {
      var more := WriteChunk(files, c, images, st, chunkIdx);
      VideosUpToStep(files, c, images, st, chunkIdx);
      videos := videos + more.videos;
      chunkIdx := chunkIdx + 1;
      if more.failed.Some? {
        VideosStop(files, c, images, st, chunkIdx, numChunks);
        return Progress(videos, more.failed);
      }
    }
    return Progress(videos, None);
  }

  /** Once the loop has raised, later chunks change nothing. */
  lemma {:induction false} VideosStop(files: seq<string>, c: nat, images: Images, st: Settings, k: nat, m: nat)
    requires c > 0 && k <= m && VideosUpTo(files, c, images, st, k).failed.Some?
    ensures VideosUpTo(files, c, images, st, m) == VideosUpTo(files, c, images, st, k)
    decreases m - k
  {
    if k < m {
      VideosStop(files, c, images, st, k, m - 1);
    }
  }

  /** `main`: sort, give up on no frames, then write the chunks. */
  method GenerateVideos(folder: string, names: seq<string>, st: Settings, chunkSize: int, images: Images)
    returns (outcome: Outcome)
    ensures outcome == Run(folder, names, st, chunkSize, images)
  {
    var imageFiles := ImageFiles(folder, names);
    if imageFiles.None? {
      return BadFrameName;
    }
    var files := imageFiles.value;
    if files == [] {
      return NoImages;
    }
    if chunkSize == 0 {
      return ZeroChunkSize;
    }
    if chunkSize < 0 {
      return Videos([]);
    }
    var p := WriteChunks(files, chunkSize, images, st);
    if p.failed.Some? {
      return ResizeError(p.videos, p.failed.value);
    }
    return Videos(p.videos);
  }
}
