/** The YOLO label line `class x_center y_center width height`: how the
  * scripts read it and how the tiler writes it with six decimals. */
module YoloFormat {
  import opened Common

  /** A normalised YOLO box: centre and size as fractions of the image. */
  datatype Box = Box(xc: real, yc: real, w: real, h: real)

  datatype Annotation = Annotation(classId: int, box: Box)

  /** What one label line yields: nothing (fewer than five tokens), an
    * annotation, or the `ValueError` that `int()` or `float()` raises. */
  datatype LineParse = Short | Parsed(ann: Annotation) | Malformed

  /** `parts = line.strip().split()`; with at least five parts, the class is
    * `int(parts[0])` and the box `float(parts[1..5])`; later parts are
    * ignored. */
  function ParseLabelLine(line: string): (r: LineParse)
    ensures r.Short? <==> |Tokens(line)| < 5
    ensures r.Parsed? ==> ParseInt(Tokens(line)[0]) == Some(r.ann.classId)
    ensures r.Parsed? ==> ParseFloat(Tokens(line)[1]) == Some(r.ann.box.xc)
    ensures r.Parsed? ==> ParseFloat(Tokens(line)[2]) == Some(r.ann.box.yc)
    ensures r.Parsed? ==> ParseFloat(Tokens(line)[3]) == Some(r.ann.box.w)
    ensures r.Parsed? ==> ParseFloat(Tokens(line)[4]) == Some(r.ann.box.h)
  {
    var parts := Tokens(line);
    if |parts| < 5 then Short
    else
      var c := ParseInt(parts[0]);
      var x := ParseFloat(parts[1]);
      var y := ParseFloat(parts[2]);
      var w := ParseFloat(parts[3]);
      var h := ParseFloat(parts[4]);
      if c.Some? && x.Some? && y.Some? && w.Some? && h.Some? then
        Parsed(Annotation(c.value, Box(x.value, y.value, w.value, h.value)))
      else Malformed
  }

  // ------------------------------------------------------------------
  // '{:.6f}'
  // ------------------------------------------------------------------

  function AbsR(x: real): real { if x < 0.0 then -x else x }

  /** The number of millionths `'{:.6f}'` prints for `|x|`. */
  function Millionths(x: real): nat {
    var q := Round(AbsR(x) * 1000000.0);
    if q < 0 then 0 else q
  }

  /** `'{:.6f}'.format(x)`: sign, integer part, a dot, six decimals, rounded
    * half to even. */
  function Fixed6(x: real): string {
    (if x < 0.0 then "-" else "") + Unsigned6(Millionths(x))
  }

  /** `q` millionths written as `int.dddddd`. */
  function Unsigned6(q: nat): string {
    NatToString(q / 1000000) + "." + ZeroPad(q % 1000000, 6)
  }

  /** The value that reading `Fixed6(x)` back yields. */
  function Round6(x: real): real {
    var v := Millionths(x) as real / 1000000.0;
    if x < 0.0 then -v else v
  }

  function Round6Box(b: Box): Box {
    Box(Round6(b.xc), Round6(b.yc), Round6(b.w), Round6(b.h))
  }

  /** The tiler's label line `'{cid} {x:.6f} {y:.6f} {w:.6f} {h:.6f}\n'`. */
  function FormatFixedLine(a: Annotation): string {
    JoinSpace([IntToString(a.classId), Fixed6(a.box.xc), Fixed6(a.box.yc), Fixed6(a.box.w), Fixed6(a.box.h)]) + "\n"
  }

  /** Six decimals lose at most half a millionth. */
  lemma Round6Close(x: real)
    ensures -0.0000005 <= Round6(x) - x <= 0.0000005
  {
    var y := AbsR(x) * 1000000.0;
    var q := Round(y);
    assert y - 0.5 <= q as real <= y + 0.5;
    assert q >= 0 by {
      assert q as real > -1.0;
    }
    assert Millionths(x) == q;
    var v := q as real / 1000000.0;
    assert v - AbsR(x) == (q as real - y) / 1000000.0;
  }

  lemma {:induction false} NatToStringShort(n: nat, k: nat)
    requires 1 <= k
    requires (n as real) < Pow10(k)
    ensures |NatToString(n)| <= k
    decreases k
  {
    if n >= 10 {
      assert Pow10(1) == 10.0;
      assert k >= 2;
      assert ((n / 10) as real) < Pow10(k - 1) by {
        assert (n as real) < 10.0 * Pow10(k - 1);
        assert (n / 10) * 10 <= n;
      }
      NatToStringShort(n / 10, k - 1);
    }
  }

  lemma NoSpaceInDigits(s: string)
    requires DigitsOrEmpty(s)
    ensures forall i :: 0 <= i < |s| ==> !IsSpace(s[i]) && s[i] != '.' && s[i] != 'e' && s[i] != 'E'
  {
  }

  lemma {:induction false} FirstIndexAfter(a: string, c: char, b: string)
    requires forall j :: 0 <= j < |a| ==> a[j] != c
    ensures FirstIndexOf(a + [c] + b, c) == |a|
    decreases |a|
  {
    if a != [] {
      assert (a + [c] + b)[1..] == a[1..] + [c] + b;
      FirstIndexAfter(a[1..], c, b);
    }
  }

  /** A digit run, a dot and a digit run, read as a decimal. */
  lemma ParseDecimalOf(ip: string, fp: string)
    requires AllDigits(ip) && DigitsOrEmpty(fp)
    ensures ParseUnsignedDecimal(ip + "." + fp) == Some(DecimalValue(ip, fp))
  {
    var b := ip + "." + fp;
    NoSpaceInDigits(ip);
    FirstIndexAfter(ip, '.', fp);
    assert b[..|ip|] == ip;
    assert b[|ip| + 1..] == fp;
    assert DigitsOrEmpty(ip);
  }

  /** `float()` of text with no sign and no exponent is its decimal value,
    * and a leading minus negates it. */
  lemma ParseFloatPlain(b: string, neg: bool)
    requires b != [] && IsDigit(b[0])
    requires forall i :: 0 <= i < |b| ==> b[i] != 'e' && b[i] != 'E'
    requires ParseUnsignedDecimal(b).Some?
    ensures ParseFloat((if neg then "-" else "") + b)
            == Some(if neg then -ParseUnsignedDecimal(b).value else ParseUnsignedDecimal(b).value)
  {
    UnsignedFloatPlain(b);
    var s := (if neg then "-" else "") + b;
    if neg {
      assert s[0] == '-' && s[1..] == b;
    } else {
      assert s == b;
    }
  }

  /** Without an exponent the mantissa is the whole text. */
  lemma UnsignedFloatPlain(b: string)
    requires forall i :: 0 <= i < |b| ==> b[i] != 'e' && b[i] != 'E'
    ensures ParseUnsignedFloat(b) == ParseUnsignedDecimal(b)
  {
    assert ExponentIndex(b) == |b|;
    assert b[..|b|] == b;
    if ParseUnsignedDecimal(b).Some? {
      assert ScaleByPow10(ParseUnsignedDecimal(b).value, 0) == ParseUnsignedDecimal(b).value;
    }
  }

  lemma MillionthsSplit(q: nat)
    ensures (q / 1000000) as real + (q % 1000000) as real / 1000000.0 == q as real / 1000000.0
  {
  }

  lemma Unsigned6Facts(q: nat)
    ensures Unsigned6(q) != [] && IsDigit(Unsigned6(q)[0])
    ensures forall i :: 0 <= i < |Unsigned6(q)| ==> !IsSpace(Unsigned6(q)[i]) && Unsigned6(q)[i] != 'e' && Unsigned6(q)[i] != 'E'
    ensures ParseUnsignedDecimal(Unsigned6(q)) == Some(q as real / 1000000.0)
  {
    Unsigned6Chars(q);
    Unsigned6Value(q);
  }

  lemma Unsigned6Chars(q: nat)
    ensures Unsigned6(q) != [] && IsDigit(Unsigned6(q)[0])
    ensures forall i :: 0 <= i < |Unsigned6(q)| ==> !IsSpace(Unsigned6(q)[i]) && Unsigned6(q)[i] != 'e' && Unsigned6(q)[i] != 'E'
  {
    var ip := NatToString(q / 1000000);
    var fp := ZeroPad(q % 1000000, 6);
    assert AllDigits(ip) by { NatToStringRoundTrip(q / 1000000); }
    assert AllDigits(fp) by { ZeroPadRoundTrip(q % 1000000, 6); }
    var body := ip + "." + fp;
    forall i | 0 <= i < |body| ensures !IsSpace(body[i]) && body[i] != 'e' && body[i] != 'E' {
      if i < |ip| { assert body[i] == ip[i]; }
      else if i > |ip| { assert body[i] == fp[i - |ip| - 1]; }
    }
    assert body[0] == ip[0];
  }

  lemma Unsigned6Value(q: nat)
    ensures ParseUnsignedDecimal(Unsigned6(q)) == Some(q as real / 1000000.0)
  {
    var ip := NatToString(q / 1000000);
    var fp := ZeroPad(q % 1000000, 6);
    NatToStringRoundTrip(q / 1000000);
    SixDigits(q % 1000000);
    ParseDecimalOf(ip, fp);
    assert Unsigned6(q) == ip + "." + fp;
    assert DecimalValue(ip, fp) == (q / 1000000) as real + (q % 1000000) as real / 1000000.0;
    MillionthsSplit(q);
  }

  /** The six decimals of a count of millionths below a million. */
  lemma SixDigits(r: nat)
    requires r < 1000000
    ensures AllDigits(ZeroPad(r, 6)) && DigitsValue(ZeroPad(r, 6)) == r
    ensures |ZeroPad(r, 6)| == 6 && Pow10(|ZeroPad(r, 6)|) == 1000000.0
  {
    ZeroPadRoundTrip(r, 6);
    Pow10Six();
    NatToStringShort(r, 6);
  }

  lemma Pow10Six()
    ensures Pow10(6) == 1000000.0
  {
    assert Pow10(2) == 100.0;
    assert Pow10(4) == 10000.0;
  }

  lemma SignedUnsigned6(q: nat, neg: bool)
    ensures IsWord((if neg then "-" else "") + Unsigned6(q))
    ensures ParseFloat((if neg then "-" else "") + Unsigned6(q))
            == Some(if neg then -(q as real / 1000000.0) else q as real / 1000000.0)
  {
    var body := Unsigned6(q);
    Unsigned6Facts(q);
    var s := (if neg then "-" else "") + body;
    if neg {
      forall i | 0 <= i < |s| ensures !IsSpace(s[i]) {
        if i > 0 { assert s[i] == body[i - 1]; }
      }
    } else {
      assert s == body;
    }
    ParseFloatPlain(body, neg);
  }

  /** The text `Fixed6` writes, read by `float()`, gives `Round6(x)`. */
  lemma Fixed6RoundTrip(x: real)
    ensures IsWord(Fixed6(x))
    ensures ParseFloat(Fixed6(x)) == Some(Round6(x))
  {
    var q := Millionths(x);
    assert Fixed6(x) == (if x < 0.0 then "-" else "") + Unsigned6(q);
    assert Round6(x) == if x < 0.0 then -(q as real / 1000000.0) else q as real / 1000000.0;
    SignedUnsigned6(q, x < 0.0);
  }

  lemma IntToStringIsWord(i: int)
    ensures IsWord(IntToString(i))
  {
    var c := IntToString(i);
    if i < 0 {
      NatToStringRoundTrip(-i);
      NoSpaceInDigits(NatToString(-i));
      forall k | 0 <= k < |c| ensures !IsSpace(c[k]) {
        if k > 0 { assert c[k] == NatToString(-i)[k - 1]; }
      }
    } else {
      NatToStringRoundTrip(i);
      NoSpaceInDigits(NatToString(i));
    }
  }

  /** A line the tiler writes reads back as the same class and the box
    * rounded to six decimals. */
  lemma FixedLineRoundTrip(a: Annotation)
    ensures ParseLabelLine(FormatFixedLine(a)) == Parsed(Annotation(a.classId, Round6Box(a.box)))
  {
    var b := a.box;
    var parts := [IntToString(a.classId), Fixed6(b.xc), Fixed6(b.yc), Fixed6(b.w), Fixed6(b.h)];
    var line := FormatFixedLine(a);
    assert Tokens(line) == parts by {
      IntToStringIsWord(a.classId);
      Fixed6RoundTrip(b.xc);
      Fixed6RoundTrip(b.yc);
      Fixed6RoundTrip(b.w);
      Fixed6RoundTrip(b.h);
      assert line == JoinSpace(parts) + "\n";
      assert IsWord(parts[0]) && IsWord(parts[1]) && IsWord(parts[2]) && IsWord(parts[3]) && IsWord(parts[4]);
      forall k | 0 <= k < |parts| ensures IsWord(parts[k]) {
        if k == 0 { } else if k == 1 { } else if k == 2 { } else if k == 3 { } else { }
      }
      assert IsBlank("\n");
      TokensOfJoin(parts, "\n");
    }
    assert ParseInt(parts[0]) == Some(a.classId) by { ParseIntOfToString(a.classId); }
    assert ParseFloat(parts[1]) == Some(Round6(b.xc)) by { Fixed6RoundTrip(b.xc); }
    assert ParseFloat(parts[2]) == Some(Round6(b.yc)) by { Fixed6RoundTrip(b.yc); }
    assert ParseFloat(parts[3]) == Some(Round6(b.w)) by { Fixed6RoundTrip(b.w); }
    assert ParseFloat(parts[4]) == Some(Round6(b.h)) by { Fixed6RoundTrip(b.h); }
  }
}
