/** The YOLO tiler: each image is cut into four overlapping quadrants (and
  * optionally a centre tile); every annotation is re-projected into each
  * tile's frame, and a tile is written with the boxes that survive. */
module SplitImagesYolo {
  import opened Common
  import opened YoloFormat

  const SupportedImageExts: set<string> := {".jpg", ".jpeg", ".png", ".bmp", ".tif", ".tiff"}

  /** A named tile: pixel columns [x1, x2) and rows [y1, y2). */
  datatype Region = Region(name: string, x1: int, y1: int, x2: int, y2: int)

  /** A box by its pixel corners. */
  datatype Rect = Rect(x1: real, y1: real, x2: real, y2: real)

  /** `(is_valid, new_bbox, is_full)` of the re-projection. */
  datatype Reprojection = Rejected | Accepted(box: Box, isFull: bool)

  predicate InsideImage(reg: Region, width: int, height: int) {
    0 <= reg.x1 <= reg.x2 <= width && 0 <= reg.y1 <= reg.y2 <= height
  }

  predicate Covers(reg: Region, x: int, y: int) {
    reg.x1 <= x < reg.x2 && reg.y1 <= y < reg.y2
  }

  // ------------------------------------------------------------------
  // Regions
  // ------------------------------------------------------------------

  /** `int(size * ratio)`: the overlap in pixels along one axis. */
  function OverlapPixels(size: nat, ratio: real): int {
    Trunc(size as real * ratio)
  }

  /** `(mid - overlap // 2, mid + overlap // 2)`: where the far tiles begin
    * and the near tiles end along one axis. */
  function SplitPoints(size: nat, ratio: real): (int, int) {
    var overlap := OverlapPixels(size, ratio);
    (size / 2 - overlap / 2, size / 2 + overlap / 2)
  }

  /** The centre tile along one axis: as long as a near tile, centred on
    * `size // 2`, then clamped into `[0, size]`. */
  function CenterSpan(size: nat, ratio: real): (int, int) {
    var sub := SplitPoints(size, ratio).1;
    var lo := size / 2 - sub / 2;
    (Max(0, lo), Min(size, lo + sub))
  }

  const RegionNames: seq<string> := ["top_left", "top_right", "bottom_left", "bottom_right", "center"]

  /** The tiles of a `width` x `height` image, in their fixed order. */
  function CalculateSplitRegions(width: nat, height: nat, ratio: real, generateCenter: bool): (regions: seq<Region>)
    ensures |regions| == if generateCenter then 5 else 4
    ensures forall i :: 0 <= i < |regions| ==> regions[i].name == RegionNames[i]
  {
    var (left, right) := SplitPoints(width, ratio);
    var (top, bottom) := SplitPoints(height, ratio);
    var quadrants := [
      Region("top_left", 0, 0, right, bottom),
      Region("top_right", left, 0, width, bottom),
      Region("bottom_left", 0, top, right, height),
      Region("bottom_right", left, top, width, height)
    ];
    if generateCenter then
      var (cx1, cx2) := CenterSpan(width, ratio);
      var (cy1, cy2) := CenterSpan(height, ratio);
      quadrants + [Region("center", cx1, cy1, cx2, cy2)]
    else quadrants
  }

  lemma MulMono(a: real, b: real, c: real)
    requires 0.0 <= a && b <= c
    ensures a * b <= a * c
  {
  }

  /** With a ratio in [0, 0.5] the split points lie inside the image on
    * either side of the middle, and the band between them is the overlap
    * rounded down to an even number of pixels. */
  lemma SplitPointsBounds(size: nat, ratio: real)
    requires 0.0 <= ratio <= 0.5
    ensures 0 <= SplitPoints(size, ratio).0 <= size / 2 <= SplitPoints(size, ratio).1 <= size
    ensures SplitPoints(size, ratio).1 - SplitPoints(size, ratio).0 == 2 * (OverlapPixels(size, ratio) / 2)
    ensures 0 <= OverlapPixels(size, ratio) <= size / 2
  {
    HalfAtMost(size as real, ratio);
    OverlapHalf(size, size as real * ratio);
  }

  lemma HalfAtMost(s: real, ratio: real)
    requires 0.0 <= s && 0.0 <= ratio <= 0.5
    ensures 0.0 <= s * ratio <= s * 0.5
  {
    MulMono(s, 0.0, ratio);
    MulMono(s, ratio, 0.5);
  }

  /** Truncating an amount between zero and half the size gives at most
    * half the size. */
  lemma OverlapHalf(size: nat, x: real)
    requires 0.0 <= x <= size as real * 0.5
    ensures 0 <= Trunc(x) && 2 * Trunc(x) <= size
  {
    assert (2 * Trunc(x)) as real <= size as real;
  }

  /** With a ratio in [0, 0.5] the centre tile needs no clamping: it starts
    * `sub // 2` before the middle and is `sub` long, where `sub` is the
    * length of a near tile. */
  lemma CenterSpanUnclamped(size: nat, ratio: real)
    requires 0.0 <= ratio <= 0.5
    ensures var sub := SplitPoints(size, ratio).1;
      CenterSpan(size, ratio) == (size / 2 - sub / 2, size / 2 - sub / 2 + sub)
    ensures 0 <= CenterSpan(size, ratio).0 <= CenterSpan(size, ratio).1 <= size
  {
    SplitPointsBounds(size, ratio);
  }

  /** Every tile lies inside the image. */
  lemma RegionsInsideImage(width: nat, height: nat, ratio: real, generateCenter: bool)
    requires 0.0 <= ratio <= 0.5
    ensures var regions := CalculateSplitRegions(width, height, ratio, generateCenter);
      forall i :: 0 <= i < |regions| ==> InsideImage(regions[i], width, height)
  {
    SplitPointsBounds(width, ratio);
    SplitPointsBounds(height, ratio);
    if generateCenter {
      CenterSpanUnclamped(width, ratio);
      CenterSpanUnclamped(height, ratio);
    }
  }

  predicate CoveredByQuadrant(regions: seq<Region>, x: int, y: int)
    requires |regions| >= 4
  {
    exists i :: 0 <= i < 4 && Covers(regions[i], x, y)
  }

  /** Every pixel of the image lies in at least one of the four quadrants. */
  lemma QuadrantsCoverImage(width: nat, height: nat, ratio: real, generateCenter: bool)
    requires 0.0 <= ratio <= 0.5
    ensures var regions := CalculateSplitRegions(width, height, ratio, generateCenter);
      forall x, y :: 0 <= x < width && 0 <= y < height ==> CoveredByQuadrant(regions, x, y)
  {
    var regions := CalculateSplitRegions(width, height, ratio, generateCenter);
    SplitPointsBounds(width, ratio);
    SplitPointsBounds(height, ratio);
    forall x, y | 0 <= x < width && 0 <= y < height ensures CoveredByQuadrant(regions, x, y) {
      var (left, right) := SplitPoints(width, ratio);
      var (top, bottom) := SplitPoints(height, ratio);
      var col := if x < right then 0 else 1;
      var row := if y < bottom then 0 else 2;
      assert Covers(regions[col + row], x, y);
    }
  }

  /** Adjacent quadrants share exactly the overlap band: the top-left tile
    * ends `2 * (overlap // 2)` columns after the top-right tile begins. */
  lemma QuadrantOverlap(width: nat, height: nat, ratio: real, generateCenter: bool)
    requires 0.0 <= ratio <= 0.5
    ensures var regions := CalculateSplitRegions(width, height, ratio, generateCenter);
      regions[0].x2 - regions[1].x1 == 2 * (OverlapPixels(width, ratio) / 2)
      && regions[0].y2 - regions[2].y1 == 2 * (OverlapPixels(height, ratio) / 2)
  {
    SplitPointsBounds(width, ratio);
    SplitPointsBounds(height, ratio);
  }

  /** The centre tile has the size of the top-left tile and its middle is
    * within one pixel of the image's middle. */
  lemma CenterTileMatchesCorner(width: nat, height: nat, ratio: real)
    requires 0.0 <= ratio <= 0.5
    ensures var regions := CalculateSplitRegions(width, height, ratio, true);
      regions[4].x2 - regions[4].x1 == regions[0].x2 - regions[0].x1
      && regions[4].y2 - regions[4].y1 == regions[0].y2 - regions[0].y1
      && -1 <= regions[4].x1 + regions[4].x2 - width <= 1
      && -1 <= regions[4].y1 + regions[4].y2 - height <= 1
  {
    CenterSpanUnclamped(width, ratio);
    CenterSpanUnclamped(height, ratio);
  }

  // ------------------------------------------------------------------
  // Re-projecting one box
  // ------------------------------------------------------------------

  /** The box's corners in pixels of a `width` x `height` image. */
  function ToPixels(b: Box, width: int, height: int): Rect {
    var xc := b.xc * width as real;
    var yc := b.yc * height as real;
    var bw := b.w * width as real;
    var bh := b.h * height as real;
    Rect(xc - bw / 2.0, yc - bh / 2.0, xc + bw / 2.0, yc + bh / 2.0)
  }

  function ClipTo(p: Rect, reg: Region): Rect {
    Rect(MaxR(p.x1, reg.x1 as real), MaxR(p.y1, reg.y1 as real),
         MinR(p.x2, reg.x2 as real), MinR(p.y2, reg.y2 as real))
  }

  predicate IsEmptyRect(p: Rect) {
    p.x1 >= p.x2 || p.y1 >= p.y2
  }

  /** Clipped area over original area, or 0 when the original area is not
    * positive. */
  function AreaRatio(b: Box, width: int, height: int, reg: Region): real {
    var original := BoxArea(b, width, height);
    if original > 0.0 then RectArea(ClipTo(ToPixels(b, width, height), reg)) / original else 0.0
  }

  function RectArea(p: Rect): real {
    (p.x2 - p.x1) * (p.y2 - p.y1)
  }

  /** The box's area in pixels. */
  function BoxArea(b: Box, width: int, height: int): real {
    (b.w * width as real) * (b.h * height as real)
  }

  lemma RatioAtLeastOne(q: real, o: real)
    requires o > 0.0
    ensures q / o >= 1.0 <==> q >= o
    ensures q == o ==> q / o == 1.0
  {
    assert q / o * o == q;
  }

  function Clamp01(v: real): (r: real)
    ensures 0.0 <= r <= 1.0
    ensures 0.0 <= v <= 1.0 ==> r == v
  {
    MaxR(0.0, MinR(1.0, v))
  }

  /** The clipped box shifted to the tile's corner, divided by the tile's
    * size and clamped to the unit square. */
  function Normalise(c: Rect, reg: Region): (nb: Box)
    requires !IsEmptyRect(c) && reg.x1 < reg.x2 && reg.y1 < reg.y2
    ensures InUnitSquare(nb) && nb.w > 0.0 && nb.h > 0.0
  {
    var rw := (reg.x2 - reg.x1) as real;
    var rh := (reg.y2 - reg.y1) as real;
    var nx1 := c.x1 - reg.x1 as real;
    var ny1 := c.y1 - reg.y1 as real;
    var nx2 := c.x2 - reg.x1 as real;
    var ny2 := c.y2 - reg.y1 as real;
    DivPositive(nx2 - nx1, rw);
    DivPositive(ny2 - ny1, rh);
    Box(Clamp01((nx1 + nx2) / 2.0 / rw), Clamp01((ny1 + ny2) / 2.0 / rh),
        Clamp01((nx2 - nx1) / rw), Clamp01((ny2 - ny1) / rh))
  }

  predicate InUnitSquare(b: Box) {
    0.0 <= b.xc <= 1.0 && 0.0 <= b.yc <= 1.0 && 0.0 <= b.w <= 1.0 && 0.0 <= b.h <= 1.0
  }

  lemma DivPositive(d: real, r: real)
    requires 0.0 < d && 0.0 < r
    ensures d / r > 0.0
  {
  }

  /** A box is dropped from a tile when nothing of it is inside the tile or
    * less than a tenth of its area is; a kept box is normalised to the tile
    * and clamped to the unit square, has positive size, and is full exactly
    * when the area ratio reaches 1. */
  function ConvertBboxToRegion(b: Box, width: int, height: int, reg: Region): Reprojection {
    var c := ClipTo(ToPixels(b, width, height), reg);
    if IsEmptyRect(c) then Rejected
    else
      var ratio := AreaRatio(b, width, height, reg);
      if ratio < 0.1 then Rejected
      else
        Accepted(Normalise(c, reg),
                 ratio >= 1.0)
  }

  lemma ConvertBboxMeaning(b: Box, width: int, height: int, reg: Region)
    ensures var r := ConvertBboxToRegion(b, width, height, reg);
      && (r.Rejected? <==> IsEmptyRect(ClipTo(ToPixels(b, width, height), reg))
                           || AreaRatio(b, width, height, reg) < 0.1)
      && (r.Accepted? ==> InUnitSquare(r.box) && r.box.w > 0.0 && r.box.h > 0.0)
      && (r.Accepted? ==> (r.isFull <==> AreaRatio(b, width, height, reg) >= 1.0))
  {
  }

  lemma ProductEqualities(a: real, b: real, c: real, d: real)
    requires 0.0 < a <= c && 0.0 < b <= d
    ensures 0.0 < a * b <= c * d
    ensures a * b >= c * d ==> a == c && b == d
  {
    MulMono(a, b, d);
    MulMono(d, a, c);
    assert a * b <= a * d <= c * d;
    if a < c {
      assert a * d < c * d;
    }
    if b < d {
      assert a * b < a * d;
    }
  }

  /** Among boxes that overlap the tile, the area ratio reaches 1 exactly
    * when clipping removed nothing. */
  lemma RatioOneIffUnclipped(b: Box, width: int, height: int, reg: Region)
    requires !IsEmptyRect(ClipTo(ToPixels(b, width, height), reg))
    ensures var p := ToPixels(b, width, height);
      AreaRatio(b, width, height, reg) >= 1.0 <==> ClipTo(p, reg) == p
  {
    var p := ToPixels(b, width, height);
    BoxAreaOfPixels(b, width, height);
    ClippedRatioOne(p, reg);
  }

  lemma BoxAreaOfPixels(b: Box, width: int, height: int)
    ensures BoxArea(b, width, height) == RectArea(ToPixels(b, width, height))
  {
    var p := ToPixels(b, width, height);
    var bw := b.w * width as real;
    var bh := b.h * height as real;
    assert p.x2 - p.x1 == bw && p.y2 - p.y1 == bh;
  }

  /** Clipping a rectangle to a tile leaves a non-empty part of it whose
    * area is all of the rectangle's exactly when nothing was cut. */
  lemma ClippedRatioOne(p: Rect, reg: Region)
    requires !IsEmptyRect(ClipTo(p, reg))
    ensures RectArea(p) > 0.0
    ensures RectArea(ClipTo(p, reg)) / RectArea(p) >= 1.0 <==> ClipTo(p, reg) == p
  {
    var c := ClipTo(p, reg);
    assert p.x1 <= c.x1 < c.x2 <= p.x2 && p.y1 <= c.y1 < c.y2 <= p.y2;
    AreaFull(c, p);
  }

  /** A non-empty part of a rectangle has all of its area exactly when it
    * is the whole rectangle. */
  lemma AreaFull(c: Rect, p: Rect)
    requires p.x1 <= c.x1 < c.x2 <= p.x2 && p.y1 <= c.y1 < c.y2 <= p.y2
    ensures RectArea(p) > 0.0
    ensures RectArea(c) / RectArea(p) >= 1.0 <==> c == p
  {
    var cw, ch := c.x2 - c.x1, c.y2 - c.y1;
    var pw, ph := p.x2 - p.x1, p.y2 - p.y1;
    ProductEqualities(cw, ch, pw, ph);
    RatioAtLeastOne(RectArea(c), RectArea(p));
  }

  /** A kept box is full exactly when clipping to the tile removed nothing. */
  lemma FullIffUnclipped(b: Box, width: int, height: int, reg: Region)
    requires ConvertBboxToRegion(b, width, height, reg).Accepted?
    ensures var p := ToPixels(b, width, height);
      ConvertBboxToRegion(b, width, height, reg).isFull <==> ClipTo(p, reg) == p
  {
    ConvertBboxMeaning(b, width, height, reg);
    RatioOneIffUnclipped(b, width, height, reg);
  }

  lemma DivUnit(d: real, r: real)
    requires 0.0 <= d <= r && 0.0 < r
    ensures 0.0 <= d / r <= 1.0
  {
    assert d / r * r == d;
  }

  /** A rectangle inside the tile normalises without clamping. */
  lemma NormaliseInside(c: Rect, reg: Region)
    requires reg.x1 as real <= c.x1 < c.x2 <= reg.x2 as real && reg.y1 as real <= c.y1 < c.y2 <= reg.y2 as real
    ensures var rw := (reg.x2 - reg.x1) as real;
      var rh := (reg.y2 - reg.y1) as real;
      Normalise(c, reg) == Box(((c.x1 + c.x2) / 2.0 - reg.x1 as real) / rw, ((c.y1 + c.y2) / 2.0 - reg.y1 as real) / rh,
                               (c.x2 - c.x1) / rw, (c.y2 - c.y1) / rh)
  {
    var rw := (reg.x2 - reg.x1) as real;
    var rh := (reg.y2 - reg.y1) as real;
    DivUnit((c.x1 + c.x2) / 2.0 - reg.x1 as real, rw);
    DivUnit((c.y1 + c.y2) / 2.0 - reg.y1 as real, rh);
    DivUnit(c.x2 - c.x1, rw);
    DivUnit(c.y2 - c.y1, rh);
  }

  /** A box inside the tile is not clipped and keeps all of its area. */
  lemma InsideRatioOne(b: Box, width: int, height: int, reg: Region)
    requires var p := ToPixels(b, width, height);
      reg.x1 as real <= p.x1 < p.x2 <= reg.x2 as real && reg.y1 as real <= p.y1 < p.y2 <= reg.y2 as real
    ensures ClipTo(ToPixels(b, width, height), reg) == ToPixels(b, width, height)
    ensures AreaRatio(b, width, height, reg) == 1.0
  {
    var p := ToPixels(b, width, height);
    assert ClipTo(p, reg) == p;
    BoxAreaOfPixels(b, width, height);
    AreaFull(p, p);
    RatioAtLeastOne(RectArea(p), BoxArea(b, width, height));
  }

  /** The centre and size of a box's pixel rectangle. */
  lemma PixelExtent(b: Box, width: int, height: int)
    ensures var p := ToPixels(b, width, height);
      && (p.x1 + p.x2) / 2.0 == b.xc * width as real && (p.y1 + p.y2) / 2.0 == b.yc * height as real
      && p.x2 - p.x1 == b.w * width as real && p.y2 - p.y1 == b.h * height as real
  {
  }

  /** A box lying wholly inside the tile is kept, full, and becomes its
    * pixel box shifted by the tile's corner and divided by the tile's size:
    * the clamps change nothing. */
  lemma InsideMapsExactly(b: Box, width: int, height: int, reg: Region)
    requires var p := ToPixels(b, width, height);
      reg.x1 as real <= p.x1 < p.x2 <= reg.x2 as real && reg.y1 as real <= p.y1 < p.y2 <= reg.y2 as real
    ensures var rw := (reg.x2 - reg.x1) as real;
      var rh := (reg.y2 - reg.y1) as real;
      ConvertBboxToRegion(b, width, height, reg)
        == Accepted(Box((b.xc * width as real - reg.x1 as real) / rw,
                        (b.yc * height as real - reg.y1 as real) / rh,
                        b.w * width as real / rw,
                        b.h * height as real / rh), true)
  {
    var p := ToPixels(b, width, height);
    InsideRatioOne(b, width, height, reg);
    NormaliseInside(p, reg);
    PixelExtent(b, width, height);
  }

  /** A box entirely outside the tile is dropped. */
  lemma OutsideRejected(b: Box, width: int, height: int, reg: Region)
    requires var p := ToPixels(b, width, height);
      p.x2 <= reg.x1 as real || p.x1 >= reg.x2 as real || p.y2 <= reg.y1 as real || p.y1 >= reg.y2 as real
    ensures ConvertBboxToRegion(b, width, height, reg).Rejected?
  {
  }

  // ------------------------------------------------------------------
  // Reading a label file
  // ------------------------------------------------------------------

  /** The annotations of a label file's lines, or `None` when a line with
    * five or more tokens does not convert (the `ValueError` propagates). */
  function ParseLines(lines: seq<string>): Option<seq<Annotation>> {
    Collect(ParseEach(lines))
  }

  /** Every line read on its own. */
  function ParseEach(lines: seq<string>): seq<LineParse> {
    seq(|lines|, i requires 0 <= i < |lines| => ParseLabelLine(lines[i]))
  }

  /** The annotations of the line results, in order, up to the first
    * malformed one. */
  function Collect(rs: seq<LineParse>): Option<seq<Annotation>> {
    if rs == [] then Some([])
    else
      match Collect(rs[..|rs| - 1])
      case None => None
      case Some(front) =>
        match rs[|rs| - 1]
        case Short => Some(front)
        case Parsed(a) => Some(front + [a])
        case Malformed => None
  }

  /** A missing label file gives no annotations. */
  function ParseLabelFile(file: Option<seq<string>>): Option<seq<Annotation>> {
    if file.None? then Some([]) else ParseLines(file.value)
  }

  lemma {:induction false} CollectStaysFailed(rs: seq<LineParse>, more: seq<LineParse>)
    requires Collect(rs).None?
    ensures Collect(rs + more).None?
    decreases |more|
  {
    if more != [] {
      var all := rs + more;
      assert all[..|all| - 1] == rs + more[..|more| - 1];
      CollectStaysFailed(rs, more[..|more| - 1]);
    } else {
      assert rs + more == rs;
    }
  }

  lemma {:induction false} CollectFailsIff(rs: seq<LineParse>)
    ensures Collect(rs).None? <==> exists i :: 0 <= i < |rs| && rs[i].Malformed?
    decreases |rs|
  {
    if rs != [] {
      var front := rs[..|rs| - 1];
      CollectFailsIff(front);
      if exists i :: 0 <= i < |front| && front[i].Malformed? {
        var i :| 0 <= i < |front| && front[i].Malformed?;
        assert rs[i] == front[i];
      }
      if exists i :: 0 <= i < |rs| && rs[i].Malformed? {
        var i :| 0 <= i < |rs| && rs[i].Malformed?;
        if i < |front| { assert front[i] == rs[i]; }
      }
    }
  }

  /** Reading fails exactly when some line of five or more tokens does not
    * convert. */
  lemma ParseLinesFailsIff(lines: seq<string>)
    ensures ParseLines(lines).None? <==> exists i :: 0 <= i < |lines| && ParseLabelLine(lines[i]).Malformed?
  {
    var rs := ParseEach(lines);
    CollectFailsIff(rs);
    if exists i :: 0 <= i < |rs| && rs[i].Malformed? {
      var i :| 0 <= i < |rs| && rs[i].Malformed?;
      assert ParseLabelLine(lines[i]).Malformed?;
    }
    if exists i :: 0 <= i < |lines| && ParseLabelLine(lines[i]).Malformed? {
      var i :| 0 <= i < |lines| && ParseLabelLine(lines[i]).Malformed?;
      assert rs[i].Malformed?;
    }
  }

  /** Once a line has failed, reading the rest of the file cannot undo it. */
  lemma ParseLinesStaysFailed(lines: seq<string>, more: seq<string>)
    requires ParseLines(lines).None?
    ensures ParseLines(lines + more).None?
  {
    ParseLinesFailsIff(lines);
    ParseLinesFailsIff(lines + more);
    var i :| 0 <= i < |lines| && ParseLabelLine(lines[i]).Malformed?;
    assert (lines + more)[i] == lines[i];
  }

  lemma {:induction false} CollectFromParsed(rs: seq<LineParse>)
    requires Collect(rs).Some?
    ensures |Collect(rs).value| <= |rs|
    ensures forall a :: a in Collect(rs).value <==> exists i :: 0 <= i < |rs| && rs[i] == Parsed(a)
    decreases |rs|
  {
    if rs != [] {
      var n := |rs| - 1;
      var front := rs[..n];
      CollectFromParsed(front);
      forall a ensures a in Collect(rs).value <==> exists i :: 0 <= i < |rs| && rs[i] == Parsed(a) {
        if a in Collect(front).value {
          var i :| 0 <= i < |front| && front[i] == Parsed(a);
          assert rs[i] == front[i];
        }
        if exists i :: 0 <= i < |rs| && rs[i] == Parsed(a) {
          var i :| 0 <= i < |rs| && rs[i] == Parsed(a);
          if i < n { assert front[i] == rs[i]; }
        }
      }
    }
  }

  /** Each annotation read comes from a line of five or more tokens, in
    * file order, and every such line gives one. */
  lemma ParseLinesFromLines(lines: seq<string>)
    requires ParseLines(lines).Some?
    ensures |ParseLines(lines).value| <= |lines|
    ensures forall a :: a in ParseLines(lines).value <==>
      exists i :: 0 <= i < |lines| && ParseLabelLine(lines[i]) == Parsed(a)
  {
    var rs := ParseEach(lines);
    CollectFromParsed(rs);
    forall a ensures a in ParseLines(lines).value <==>
      exists i :: 0 <= i < |lines| && ParseLabelLine(lines[i]) == Parsed(a)
    {
      if a in ParseLines(lines).value {
        var i :| 0 <= i < |rs| && rs[i] == Parsed(a);
        assert ParseLabelLine(lines[i]) == Parsed(a);
      }
      if exists i :: 0 <= i < |lines| && ParseLabelLine(lines[i]) == Parsed(a) {
        var i :| 0 <= i < |lines| && ParseLabelLine(lines[i]) == Parsed(a);
        assert rs[i] == Parsed(a);
      }
    }
  }

  /** Lines that all parse give their annotations, in order. */
  lemma {:induction false} CollectAllParsed(anns: seq<Annotation>, rs: seq<LineParse>)
    requires |rs| == |anns|
    requires forall i :: 0 <= i < |rs| ==> rs[i] == Parsed(anns[i])
    ensures Collect(rs) == Some(anns)
    decreases |rs|
  {
    if rs != [] {
      var n := |rs| - 1;
      CollectAllParsed(anns[..n], rs[..n]);
      assert anns == anns[..n] + [anns[n]];
    }
  }

  /** The loop that reads a label file line by line. */
  method ReadAnnotations(file: Option<seq<string>>) returns (result: Option<seq<Annotation>>)
    ensures result == ParseLabelFile(file)
  {
    if file.None? {
      return Some([]);
    }
    var lines := file.value;
    ghost var rs := ParseEach(lines);
    var anns: seq<Annotation> := [];
    var i := 0;
    while i < |lines|
      invariant 0 <= i <= |lines|
      invariant Collect(rs[..i]) == Some(anns)
    {
      assert rs[..i + 1][..i] == rs[..i];
      assert rs[i] == ParseLabelLine(lines[i]);
      match ParseLabelLine(lines[i]) {
        case Short =>
        case Parsed(a) =>
          anns := anns + [a];
        case Malformed =>
          CollectStaysFailed(rs[..i + 1], rs[i + 1..]);
          assert rs[..i + 1] + rs[i + 1..] == rs;
          return None;
      }
      i := i + 1;
    }
    assert rs[..i] == rs;
    return Some(anns);
  }

  // ------------------------------------------------------------------
  // Tiles
  // ------------------------------------------------------------------

  /** A written tile: its image and label file names, its rectangle and the
    * annotations its label file lists. */
  datatype Tile = Tile(imageName: string, labelName: string, region: Region, labels: seq<Annotation>)

  /** What processing one image yields: nothing when the image cannot be
    * read, the `ValueError` of a malformed label line, or the tiles written. */
  datatype SplitOutcome = Unreadable | Raised | Written(tiles: seq<Tile>)

  /** The kept annotations of one tile, re-projected, in input order. */
  function ReprojectAll(anns: seq<Annotation>, width: int, height: int, reg: Region): seq<Annotation> {
    if anns == [] then []
    else
      var front := ReprojectAll(anns[..|anns| - 1], width, height, reg);
      var a := anns[|anns| - 1];
      match ConvertBboxToRegion(a.box, width, height, reg)
      case Rejected => front
      case Accepted(nb, _) => front + [Annotation(a.classId, nb)]
  }

  /** The tile keeps box `b` whole. */
  predicate KeptFull(b: Box, width: int, height: int, reg: Region) {
    var r := ConvertBboxToRegion(b, width, height, reg);
    r.Accepted? && r.isFull
  }

  /** Whether some annotation is kept whole by the tile. */
  function AnyFull(anns: seq<Annotation>, width: int, height: int, reg: Region): bool {
    if anns == [] then false
    else AnyFull(anns[..|anns| - 1], width, height, reg) || KeptFull(anns[|anns| - 1].box, width, height, reg)
  }

  /** The tiles written for an image: each region's, unless full boxes are
    * required and the region has none. */
  function TilesFor(stem: string, ext: string, anns: seq<Annotation>, width: int, height: int,
                    regions: seq<Region>, requireFull: bool): seq<Tile>
  {
    if regions == [] then []
    else
      var front := TilesFor(stem, ext, anns, width, height, regions[..|regions| - 1], requireFull);
      var reg := regions[|regions| - 1];
      if requireFull && !AnyFull(anns, width, height, reg) then front
      else front + [Tile(stem + "_" + reg.name + ext, stem + "_" + reg.name + ".txt", reg,
                         ReprojectAll(anns, width, height, reg))]
  }

  function LabelCount(tiles: seq<Tile>): nat {
    if tiles == [] then 0 else LabelCount(tiles[..|tiles| - 1]) + |tiles[|tiles| - 1].labels|
  }

  lemma TilesForSnoc(stem: string, ext: string, anns: seq<Annotation>, width: int, height: int,
                     regions: seq<Region>, requireFull: bool)
    requires regions != []
    ensures var reg := regions[|regions| - 1];
      var front := TilesFor(stem, ext, anns, width, height, regions[..|regions| - 1], requireFull);
      TilesFor(stem, ext, anns, width, height, regions, requireFull)
        == if requireFull && !AnyFull(anns, width, height, reg) then front
           else front + [Tile(stem + "_" + reg.name + ext, stem + "_" + reg.name + ".txt", reg,
                              ReprojectAll(anns, width, height, reg))]
  {
  }

  lemma LabelCountSnoc(tiles: seq<Tile>, t: Tile)
    ensures LabelCount(tiles + [t]) == LabelCount(tiles) + |t.labels|
  {
    assert (tiles + [t])[..|tiles|] == tiles;
  }

  /** The outcome of one image: `image` is its size when it can be read,
    * `labelFile` the lines of its label file when that exists. */
  function SplitSpec(stem: string, ext: string, image: Option<(nat, nat)>, labelFile: Option<seq<string>>,
                     ratio: real, generateCenter: bool, requireFull: bool): SplitOutcome
  {
    if image.None? then Unreadable
    else
      var anns := ParseLabelFile(labelFile);
      if anns.None? then Raised
      else
        var (width, height) := image.value;
        Written(TilesFor(stem, ext, anns.value, width, height,
                         CalculateSplitRegions(width, height, ratio, generateCenter), requireFull))
  }

  /** The lines of a tile's label file. */
  function LabelLines(labels: seq<Annotation>): seq<string> {
    seq(|labels|, i requires 0 <= i < |labels| => FormatFixedLine(labels[i]))
  }

  /** A full box is one that some annotation's re-projection marks full. */
  lemma {:induction false} AnyFullIff(anns: seq<Annotation>, width: int, height: int, reg: Region)
    ensures AnyFull(anns, width, height, reg) <==> exists i :: 0 <= i < |anns| && KeptFull(anns[i].box, width, height, reg)
    decreases |anns|
  {
    if anns != [] {
      var front := anns[..|anns| - 1];
      AnyFullIff(front, width, height, reg);
      if exists i :: 0 <= i < |front| && KeptFull(front[i].box, width, height, reg) {
        var i :| 0 <= i < |front| && KeptFull(front[i].box, width, height, reg);
        assert anns[i] == front[i];
      }
      if exists i :: 0 <= i < |anns| && KeptFull(anns[i].box, width, height, reg) {
        var i :| 0 <= i < |anns| && KeptFull(anns[i].box, width, height, reg);
        if i < |front| { assert front[i] == anns[i]; }
      }
    }
  }

  /** A tile's labels are at most the image's annotations, each normalised
    * into the unit square with positive size. */
  lemma {:induction false} ReprojectAllNormalised(anns: seq<Annotation>, width: int, height: int, reg: Region)
    ensures |ReprojectAll(anns, width, height, reg)| <= |anns|
    ensures forall k :: 0 <= k < |ReprojectAll(anns, width, height, reg)| ==>
      InUnitSquare(ReprojectAll(anns, width, height, reg)[k].box)
      && ReprojectAll(anns, width, height, reg)[k].box.w > 0.0
      && ReprojectAll(anns, width, height, reg)[k].box.h > 0.0
    decreases |anns|
  {
    if anns != [] {
      ReprojectAllNormalised(anns[..|anns| - 1], width, height, reg);
      ConvertBboxMeaning(anns[|anns| - 1].box, width, height, reg);
    }
  }

  /** Without the full-box requirement every region yields a tile, in
    * region order. */
  lemma {:induction false} EveryRegionTiled(stem: string, ext: string, anns: seq<Annotation>, width: int, height: int,
                                            regions: seq<Region>)
    ensures |TilesFor(stem, ext, anns, width, height, regions, false)| == |regions|
    ensures forall i :: 0 <= i < |regions| ==> TilesFor(stem, ext, anns, width, height, regions, false)[i].region == regions[i]
    decreases |regions|
  {
    if regions != [] {
      EveryRegionTiled(stem, ext, anns, width, height, regions[..|regions| - 1]);
    }
  }

  /** With the full-box requirement every written tile holds a full box. */
  lemma {:induction false} RequiredTilesHoldFullBox(stem: string, ext: string, anns: seq<Annotation>, width: int, height: int,
                                                    regions: seq<Region>)
    ensures forall t :: t in TilesFor(stem, ext, anns, width, height, regions, true) ==>
      AnyFull(anns, width, height, t.region)
    decreases |regions|
  {
    if regions != [] {
      RequiredTilesHoldFullBox(stem, ext, anns, width, height, regions[..|regions| - 1]);
    }
  }

  /** The regions, in order, that some annotation's re-projection marks
    * full. */
  function FullRegions(anns: seq<Annotation>, width: int, height: int, regions: seq<Region>): (r: seq<Region>)
    ensures |r| <= |regions|
    ensures forall reg :: reg in r <==> reg in regions && AnyFull(anns, width, height, reg)
  {
    if regions == [] then []
    else
      var front := FullRegions(anns, width, height, regions[..|regions| - 1]);
      var reg := regions[|regions| - 1];
      assert forall q :: q in regions <==> q in regions[..|regions| - 1] || q == reg;
      if AnyFull(anns, width, height, reg) then front + [reg] else front
  }

  /** With the full-box requirement the tiles are exactly one per region
    * holding a full box, in region order. */
  lemma {:induction false} RequiredTilesExactlyFullRegions(stem: string, ext: string, anns: seq<Annotation>,
                                                           width: int, height: int, regions: seq<Region>)
    ensures |TilesFor(stem, ext, anns, width, height, regions, true)| == |FullRegions(anns, width, height, regions)|
    ensures forall i :: 0 <= i < |FullRegions(anns, width, height, regions)| ==>
      TilesFor(stem, ext, anns, width, height, regions, true)[i].region == FullRegions(anns, width, height, regions)[i]
    decreases |regions|
  {
    if regions != [] {
      RequiredTilesExactlyFullRegions(stem, ext, anns, width, height, regions[..|regions| - 1]);
    }
  }

  /** The annotations as a reader sees them after `{:.6f}` formatting. */
  function Round6Labels(labels: seq<Annotation>): seq<Annotation> {
    seq(|labels|, i requires 0 <= i < |labels| => Annotation(labels[i].classId, Round6Box(labels[i].box)))
  }

  /** The label file written for a tile reads back, line by line, as its
    * annotations rounded to six decimals. */
  lemma LabelFileReadsBack(labels: seq<Annotation>)
    ensures ParseLabelFile(Some(LabelLines(labels))) == Some(Round6Labels(labels))
  {
    var lines := LabelLines(labels);
    var rs := ParseEach(lines);
    var anns := Round6Labels(labels);
    forall i | 0 <= i < |rs| ensures rs[i] == Parsed(anns[i]) {
      FixedLineRoundTrip(labels[i]);
    }
    CollectAllParsed(anns, rs);
  }

  // ------------------------------------------------------------------
  // The splitter object
  // ------------------------------------------------------------------

  class YoloImageSplitter {
    const overlapRatio: real
    const overwrite: bool
    const generateCenter: bool
    const requireFullBbox: bool
    var totalNewImages: nat
    var totalNewAnnotations: nat

    constructor (overlapRatio: real, overwrite: bool, generateCenter: bool, requireFullBbox: bool)
      ensures this.overlapRatio == overlapRatio && this.overwrite == overwrite
      ensures this.generateCenter == generateCenter && this.requireFullBbox == requireFullBbox
      ensures totalNewImages == 0 && totalNewAnnotations == 0
    {
      this.overlapRatio := overlapRatio;
      this.overwrite := overwrite;
      this.generateCenter := generateCenter;
      this.requireFullBbox := requireFullBbox;
      totalNewImages := 0;
      totalNewAnnotations := 0;
    }

    /** The checks made before any work: the three input directories exist,
      * the ratio is in [0, 0.5], and an existing output or export directory
      * (`Some(true)`) is only accepted with `overwrite`. */
    predicate ValidateInputs(rootExists: bool, imagesExist: bool, labelsExist: bool,
                             outputDir: Option<bool>, exportDir: Option<bool>)
      ensures ValidateInputs(rootExists, imagesExist, labelsExist, outputDir, exportDir) ==>
        rootExists && imagesExist && labelsExist && 0.0 <= overlapRatio <= 0.5
      ensures ValidateInputs(rootExists, imagesExist, labelsExist, outputDir, exportDir) ==>
        (outputDir == Some(true) || exportDir == Some(true) ==> overwrite)
    {
      rootExists && imagesExist && labelsExist && 0.0 <= overlapRatio <= 0.5
      && !(outputDir == Some(true) && !overwrite)
      && !(exportDir == Some(true) && !overwrite)
    }

    /** The inner loop over the annotations for one region. */
    method ReprojectRegion(anns: seq<Annotation>, width: int, height: int, reg: Region)
      returns (newAnns: seq<Annotation>, hasFull: bool)
      ensures newAnns == ReprojectAll(anns, width, height, reg)
      ensures hasFull == AnyFull(anns, width, height, reg)
    {
      newAnns, hasFull := [], false;
      var i := 0;
      while i < |anns|
        invariant 0 <= i <= |anns|
        invariant newAnns == ReprojectAll(anns[..i], width, height, reg)
        invariant hasFull == AnyFull(anns[..i], width, height, reg)
      {
        assert anns[..i + 1][..i] == anns[..i];
        var r := ConvertBboxToRegion(anns[i].box, width, height, reg);
        if r.Accepted? {
          newAnns := newAnns + [Annotation(anns[i].classId, r.box)];
          if r.isFull {
            hasFull := true;
          }
        }
        i := i + 1;
      }
      assert anns[..i] == anns;
    }

    /** The region loop of `split_image_and_labels`: a tile per region,
      * skipped when full boxes are required and the region has none; each
      * tile's labels are added to the annotation count. */
    method WriteTiles(stem: string, ext: string, anns: seq<Annotation>, width: int, height: int, regions: seq<Region>)
      returns (tiles: seq<Tile>)
      modifies this
      ensures tiles == TilesFor(stem, ext, anns, width, height, regions, requireFullBbox)
      ensures totalNewAnnotations == old(totalNewAnnotations) + LabelCount(tiles)
      ensures totalNewImages == old(totalNewImages)
    {
      tiles := [];
      var k := 0;
      while k < |regions|
        invariant 0 <= k <= |regions|
        invariant tiles == TilesFor(stem, ext, anns, width, height, regions[..k], requireFullBbox)
        invariant totalNewAnnotations == old(totalNewAnnotations) + LabelCount(tiles)
        invariant totalNewImages == old(totalNewImages)
      {
        var added;
        tiles, added := RegionTile(stem, ext, anns, width, height, regions, k, tiles);
        totalNewAnnotations := totalNewAnnotations + added;
        k := k + 1;
      }
      assert regions[..k] == regions;
    }

    /** The body of the region loop: region `k` adds its tile, with the
      * number of labels it holds, unless full boxes are required and it has
      * none. */
    method RegionTile(stem: string, ext: string, anns: seq<Annotation>, width: int, height: int, regions: seq<Region>,
                      k: nat, tiles: seq<Tile>)
      returns (tiles': seq<Tile>, added: nat)
      requires k < |regions|
      requires tiles == TilesFor(stem, ext, anns, width, height, regions[..k], requireFullBbox)
      ensures tiles' == TilesFor(stem, ext, anns, width, height, regions[..k + 1], requireFullBbox)
      ensures LabelCount(tiles') == LabelCount(tiles) + added
    {
      assert regions[..k + 1][..k] == regions[..k];
      var reg := regions[k];
      TilesForSnoc(stem, ext, anns, width, height, regions[..k + 1], requireFullBbox);
      var newAnns, hasFull := ReprojectRegion(anns, width, height, reg);
      if requireFullBbox && !hasFull {
        return tiles, 0;
      }
      var tile := Tile(stem + "_" + reg.name + ext, stem + "_" + reg.name + ".txt", reg, newAnns);
      LabelCountSnoc(tiles, tile);
      tiles' := tiles + [tile];
      added := |newAnns|;
    }

    /** `split_image_and_labels` for one image: `image` is its size when it
      * can be read, `labelFile` its label file's lines when that exists. */
    method SplitImageAndLabels(stem: string, ext: string, image: Option<(nat, nat)>, labelFile: Option<seq<string>>)
      returns (outcome: SplitOutcome)
      modifies this
      ensures outcome == SplitSpec(stem, ext, image, labelFile, overlapRatio, generateCenter, requireFullBbox)
      ensures outcome.Written? ==> totalNewImages == old(totalNewImages) + |outcome.tiles|
      ensures outcome.Written? ==> totalNewAnnotations == old(totalNewAnnotations) + LabelCount(outcome.tiles)
      ensures !outcome.Written? ==> totalNewImages == old(totalNewImages)
      ensures !outcome.Written? ==> totalNewAnnotations == old(totalNewAnnotations)
    {
      if image.None? {
        return Unreadable;
      }
      var (width, height) := image.value;
      var anns := ReadAnnotations(labelFile);
      if anns.None? {
        return Raised;
      }
      var regions := CalculateSplitRegions(width, height, overlapRatio, generateCenter);
      var tiles := WriteTiles(stem, ext, anns.value, width, height, regions);
      totalNewImages := totalNewImages + |tiles|;
      return Written(tiles);
    }
  }

  /** Validated settings give tiles inside the image that together cover
    * every pixel. */
  lemma ValidatedRegionsCoverImage(s: YoloImageSplitter, width: nat, height: nat,
                                   rootExists: bool, imagesExist: bool, labelsExist: bool,
                                   outputDir: Option<bool>, exportDir: Option<bool>)
    requires s.ValidateInputs(rootExists, imagesExist, labelsExist, outputDir, exportDir)
    ensures var regions := CalculateSplitRegions(width, height, s.overlapRatio, s.generateCenter);
      (forall i :: 0 <= i < |regions| ==> InsideImage(regions[i], width, height))
      && (forall x, y :: 0 <= x < width && 0 <= y < height ==> CoveredByQuadrant(regions, x, y))
  {
    RegionsInsideImage(width, height, s.overlapRatio, s.generateCenter);
    QuadrantsCoverImage(width, height, s.overlapRatio, s.generateCenter);
  }
}
