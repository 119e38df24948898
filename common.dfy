/** Shared vocabulary of the scripts: optional values, the parts of Python's
  * string, number and path behaviour that the scripts rely on. */
module Common {

  datatype Option<T> = None | Some(value: T)

  // ------------------------------------------------------------------
  // Characters and strings
  // ------------------------------------------------------------------

  /** `str.lower()` restricted to ASCII letters. */
  function LowerChar(c: char): char {
    if 'A' <= c <= 'Z' then (c as int + 32) as char else c
  }

  function Lower(s: string): string {
    seq(|s|, i requires 0 <= i < |s| => LowerChar(s[i]))
  }

  predicate EndsWith(s: string, suffix: string) {
    |suffix| <= |s| && s[|s| - |suffix|..] == suffix
  }

  predicate StartsWith(s: string, prefix: string) {
    |prefix| <= |s| && s[..|prefix|] == prefix
  }

  /** `s.replace(a, b)` for single characters: every `a` becomes `b`. */
  function ReplaceChar(s: string, a: char, b: char): (r: string)
    ensures |r| == |s|
  {
    seq(|s|, i requires 0 <= i < |s| => if s[i] == a then b else s[i])
  }

  /** Replacing distributes over concatenation. */
  lemma ReplaceCharAppend(s: string, t: string, a: char, b: char)
    ensures ReplaceChar(s + t, a, b) == ReplaceChar(s, a, b) + ReplaceChar(t, a, b)
  {
  }

  /** Text without the character is left as it is. */
  lemma ReplaceCharAbsent(s: string, a: char, b: char)
    requires a !in s
    ensures ReplaceChar(s, a, b) == s
  {
  }

  /** The ASCII whitespace that `str.split()` and `str.strip()` remove. */
  predicate IsSpace(c: char) {
    c == ' ' || c == '\t' || c == '\n' || c == '\r' || c == '\U{0B}' || c == '\U{0C}'
  }

  /** A line that `line.strip()` turns into the empty string. */
  predicate IsBlank(s: string) {
    forall i :: 0 <= i < |s| ==> IsSpace(s[i])
  }

  /** A token as `str.split()` yields it: non-empty, no whitespace inside. */
  predicate IsWord(t: string) {
    t != [] && forall i :: 0 <= i < |t| ==> !IsSpace(t[i])
  }

  /** Length of the run of non-space characters at the front of `s`. */
  function WordLen(s: string): (n: nat)
    ensures n <= |s|
    ensures s != [] && !IsSpace(s[0]) ==> n >= 1
    ensures forall i :: 0 <= i < n ==> !IsSpace(s[i])
    ensures n < |s| ==> IsSpace(s[n])
  {
    if s == [] || IsSpace(s[0]) then 0 else 1 + WordLen(s[1..])
  }

  /** `s.split()`: the maximal runs of non-whitespace characters, in order. */
  function Tokens(s: string): seq<string>
    decreases |s|
  {
    if s == [] then []
    else if IsSpace(s[0]) then Tokens(s[1..])
    else [s[..WordLen(s)]] + Tokens(s[WordLen(s)..])
  }

  /** `' '.join(parts)`. */
  function JoinSpace(parts: seq<string>): string {
    if parts == [] then ""
    else if |parts| == 1 then parts[0]
    else parts[0] + " " + JoinSpace(parts[1..])
  }

  lemma {:induction false} TokensAreWords(s: string)
    ensures forall k :: 0 <= k < |Tokens(s)| ==> IsWord(Tokens(s)[k])
    decreases |s|
  {
    if s == [] {
    } else if IsSpace(s[0]) {
      TokensAreWords(s[1..]);
    } else {
      TokensAreWords(s[WordLen(s)..]);
    }
  }

  /** A blank line has no tokens, and a line with no tokens is blank. */
  lemma {:induction false} BlankIffNoTokens(s: string)
    ensures IsBlank(s) <==> Tokens(s) == []
    decreases |s|
  {
    if s != [] {
      BlankIffNoTokens(s[1..]);
      if !IsSpace(s[0]) {
        assert !IsBlank(s);
      } else {
        assert IsBlank(s) <==> IsBlank(s[1..]) by {
          if IsBlank(s[1..]) {
            forall i | 0 <= i < |s| ensures IsSpace(s[i]) {
              if i > 0 { assert s[i] == s[1..][i - 1]; }
            }
          }
        }
      }
    }
  }

  lemma {:induction false} TokensOfBlankPrefix(w: string, rest: string)
    requires IsBlank(w)
    ensures Tokens(w + rest) == Tokens(rest)
    decreases |w|
  {
    if w != [] {
      assert (w + rest)[1..] == w[1..] + rest;
      TokensOfBlankPrefix(w[1..], rest);
    } else {
      assert w + rest == rest;
    }
  }

  lemma {:induction false} WordLenOfWord(w: string, rest: string)
    requires IsWord(w)
    requires rest == [] || IsSpace(rest[0])
    ensures WordLen(w + rest) == |w|
    decreases |w|
  {
    if |w| > 1 {
      assert (w + rest)[1..] == w[1..] + rest;
      WordLenOfWord(w[1..], rest);
    } else {
      assert (w + rest)[1..] == rest;
    }
  }

  /** A word followed by whitespace (or nothing) is the first token. */
  lemma TokensOfWordThen(w: string, rest: string)
    requires IsWord(w)
    requires rest == [] || IsSpace(rest[0])
    ensures Tokens(w + rest) == [w] + Tokens(rest)
  {
    WordLenOfWord(w, rest);
    assert (w + rest)[..|w|] == w;
    assert (w + rest)[|w|..] == rest;
  }

  /** Splitting a space-joined list of words followed by trailing whitespace
    * gives back the words: `(' '.join(parts) + '\n').split() == parts`. */
  lemma {:induction false} TokensOfJoin(parts: seq<string>, tail: string)
    requires forall k :: 0 <= k < |parts| ==> IsWord(parts[k])
    requires IsBlank(tail)
    ensures Tokens(JoinSpace(parts) + tail) == parts
    decreases |parts|
  {
    if parts == [] {
      TokensOfBlankPrefix(tail, "");
      assert tail + "" == tail;
      assert JoinSpace(parts) + tail == tail;
    } else if |parts| == 1 {
      assert JoinSpace(parts) + tail == parts[0] + tail;
      TokensOfWordThen(parts[0], tail);
      TokensOfBlankPrefix(tail, "");
      assert tail + "" == tail;
    } else {
      var later := JoinSpace(parts[1..]) + tail;
      var rest := " " + later;
      assert JoinSpace(parts) + tail == parts[0] + rest;
      TokensOfWordThen(parts[0], rest);
      TokensOfBlankPrefix(" ", later);
      TokensOfJoin(parts[1..], tail);
      assert Tokens(rest) == parts[1..];
      assert [parts[0]] + parts[1..] == parts;
    }
  }

  // ------------------------------------------------------------------
  // Integers as text
  // ------------------------------------------------------------------

  predicate IsDigit(c: char) { '0' <= c <= '9' }

  /** `str.isdigit()` on ASCII text: non-empty, digits only. */
  predicate AllDigits(s: string) {
    s != [] && forall i :: 0 <= i < |s| ==> IsDigit(s[i])
  }

  predicate DigitsOrEmpty(s: string) {
    forall i :: 0 <= i < |s| ==> IsDigit(s[i])
  }

  function DigitValue(c: char): nat
    requires IsDigit(c)
  {
    c as int - '0' as int
  }

  function DigitChar(d: nat): char
    requires d < 10
  {
    ('0' as int + d) as char
  }

  /** The value of a run of decimal digits (leading zeros allowed). */
  function DigitsValue(s: string): nat
    requires DigitsOrEmpty(s)
  {
    if s == [] then 0 else DigitsValue(s[..|s| - 1]) * 10 + DigitValue(s[|s| - 1])
  }

  /** `str(n)` for a natural number: decimal, no leading zero. */
  function NatToString(n: nat): string {
    if n < 10 then [DigitChar(n)] else NatToString(n / 10) + [DigitChar(n % 10)]
  }

  /** `str(i)` for any Python int. */
  function IntToString(i: int): string {
    if i < 0 then "-" + NatToString(-i) else NatToString(i)
  }

  /** `'{:0Wd}'.format(n)` for a natural number `n`. */
  function ZeroPad(n: nat, width: nat): string {
    var s := NatToString(n);
    if |s| >= width then s else seq(width - |s|, _ => '0') + s
  }

  /** Decimal printing is inverted by reading the digits back. */
  lemma {:induction false} NatToStringRoundTrip(n: nat)
    ensures AllDigits(NatToString(n))
    ensures DigitsValue(NatToString(n)) == n
    ensures n > 0 ==> NatToString(n)[0] != '0'
    decreases n
  {
    var s := NatToString(n);
    if n >= 10 {
      NatToStringRoundTrip(n / 10);
      assert s[..|s| - 1] == NatToString(n / 10);
      assert s[0] == NatToString(n / 10)[0];
    }
  }

  lemma {:induction false} LeadingZerosIgnored(z: nat, s: string)
    requires DigitsOrEmpty(s)
    ensures DigitsOrEmpty(seq(z, _ => '0') + s)
    ensures DigitsValue(seq(z, _ => '0') + s) == DigitsValue(s)
    decreases |s|
  {
    var zs: string := seq(z, _ => '0');
    if s == [] {
      assert zs + s == zs;
      ZerosValue(z);
    } else {
      var t := zs + s;
      assert t[..|t| - 1] == zs + s[..|s| - 1];
      LeadingZerosIgnored(z, s[..|s| - 1]);
    }
  }

  lemma {:induction false} ZerosValue(z: nat)
    ensures DigitsValue(seq(z, _ => '0')) == 0
    decreases z
  {
    if z > 0 {
      assert seq(z, _ => '0')[..z - 1] == seq(z - 1, _ => '0');
      ZerosValue(z - 1);
    }
  }

  /** Zero-padded numbers read back to themselves, so distinct numbers
    * print to distinct padded strings. */
  lemma ZeroPadRoundTrip(n: nat, width: nat)
    ensures AllDigits(ZeroPad(n, width))
    ensures DigitsValue(ZeroPad(n, width)) == n
    ensures |ZeroPad(n, width)| >= width
  {
    NatToStringRoundTrip(n);
    var s := NatToString(n);
    if |s| < width {
      LeadingZerosIgnored(width - |s|, s);
    }
  }

  lemma ZeroPadInjective(m: nat, n: nat, width: nat)
    requires ZeroPad(m, width) == ZeroPad(n, width)
    ensures m == n
  {
    ZeroPadRoundTrip(m, width);
    ZeroPadRoundTrip(n, width);
  }

  /** `int(s)` on a whitespace-free token: optional sign, then ASCII digits.
    * `None` stands for the `ValueError` Python raises. */
  function ParseInt(s: string): Option<int> {
    if |s| > 0 && (s[0] == '+' || s[0] == '-') then
      if AllDigits(s[1..]) then
        var v: int := DigitsValue(s[1..]);
        Some(if s[0] == '-' then -v else v)
      else None
    else if AllDigits(s) then Some(DigitsValue(s))
    else None
  }

  /** `int(str(i)) == i`. */
  lemma ParseIntOfToString(i: int)
    ensures ParseInt(IntToString(i)) == Some(i)
  {
    if i < 0 {
      NatToStringRoundTrip(-i);
      assert IntToString(i)[1..] == NatToString(-i);
    } else {
      NatToStringRoundTrip(i);
      assert IsDigit(NatToString(i)[0]);
    }
  }

  /** `str(i)` is a non-empty run of digits, with a minus sign in front for
    * a negative `i`. */
  lemma IntToStringChars(i: int)
    ensures IntToString(i) != []
    ensures forall k :: 0 <= k < |IntToString(i)| ==> IsDigit(IntToString(i)[k]) || (k == 0 && IntToString(i)[k] == '-')
  {
    if i < 0 {
      NatToStringRoundTrip(-i);
      forall k | 1 <= k < |IntToString(i)| ensures IsDigit(IntToString(i)[k]) {
        assert IntToString(i)[k] == NatToString(-i)[k - 1];
      }
    } else {
      NatToStringRoundTrip(i);
    }
  }

  // ------------------------------------------------------------------
  // Floats as text
  // ------------------------------------------------------------------

  function Pow10(n: nat): (r: real)
    ensures r >= 1.0
  {
    if n == 0 then 1.0 else 10.0 * Pow10(n - 1)
  }

  /** Index of the last occurrence of `c`, or -1. */
  function LastIndexOf(s: string, c: char): (i: int)
    ensures -1 <= i < |s|
    ensures i >= 0 ==> s[i] == c
    ensures forall j :: i < j < |s| ==> s[j] != c
  {
    if s == [] then -1
    else if s[|s| - 1] == c then |s| - 1
    else LastIndexOf(s[..|s| - 1], c)
  }

  /** Index of the first occurrence of `c`, or `|s|`. */
  function FirstIndexOf(s: string, c: char): (i: nat)
    ensures i <= |s|
    ensures i < |s| ==> s[i] == c
    ensures forall j :: 0 <= j < i ==> s[j] != c
  {
    if s == [] then 0
    else if s[0] == c then 0
    else 1 + FirstIndexOf(s[1..], c)
  }

  /** Digits with at most one decimal point and at least one digit:
    * `12`, `12.`, `.5`, `12.5`. */
  function ParseUnsignedDecimal(s: string): Option<real> {
    var dot := FirstIndexOf(s, '.');
    var whole := s[..dot];
    var frac := if dot < |s| then s[dot + 1..] else "";
    if DigitsOrEmpty(whole) && DigitsOrEmpty(frac) && |whole| + |frac| > 0 then
      Some(DecimalValue(whole, frac))
    else None
  }

  /** The value of the decimal `whole.frac`. */
  function DecimalValue(whole: string, frac: string): real
    requires DigitsOrEmpty(whole) && DigitsOrEmpty(frac)
  {
    DigitsValue(whole) as real + DigitsValue(frac) as real / Pow10(|frac|)
  }

  function ScaleByPow10(m: real, e: int): real {
    if e >= 0 then m * Pow10(e) else m / Pow10(-e)
  }

  /** Index of the first `e` or `E`, or `|s|`. */
  function ExponentIndex(s: string): (i: nat)
    ensures i <= |s|
    ensures i < |s| ==> s[i] == 'e' || s[i] == 'E'
    ensures forall j :: 0 <= j < i ==> s[j] != 'e' && s[j] != 'E'
  {
    if s == [] then 0
    else if s[0] == 'e' || s[0] == 'E' then 0
    else 1 + ExponentIndex(s[1..])
  }

  /** An unsigned decimal with an optional exponent. */
  function ParseUnsignedFloat(b: string): Option<real> {
    var e := ExponentIndex(b);
    var mant := ParseUnsignedDecimal(b[..e]);
    var exp := if e < |b| then ParseInt(b[e + 1..]) else Some(0);
    if mant.None? || exp.None? then None
    else Some(ScaleByPow10(mant.value, exp.value))
  }

  /** `float(s)` on a whitespace-free token: optional sign, a decimal and an
    * optional exponent. `None` stands for the `ValueError` Python raises. */
  function ParseFloat(s: string): Option<real> {
    if |s| > 0 && s[0] == '-' then
      var v := ParseUnsignedFloat(s[1..]);
      if v.None? then None else Some(-v.value)
    else if |s| > 0 && s[0] == '+' then ParseUnsignedFloat(s[1..])
    else ParseUnsignedFloat(s)
  }

  // ------------------------------------------------------------------
  // Python numbers
  // ------------------------------------------------------------------

  /** `int(x)` on a float: truncation toward zero. */
  function Trunc(x: real): (r: int)
    ensures x >= 0.0 ==> r as real <= x < r as real + 1.0
    ensures x < 0.0 ==> r as real - 1.0 < x <= r as real
  {
    if x >= 0.0 then x.Floor else -((-x).Floor)
  }

  /** `round(x)`: nearest integer, ties to the even neighbour. */
  function Round(x: real): (r: int)
    ensures x - 0.5 <= r as real <= x + 0.5
  {
    var f := x.Floor;
    var d := x - f as real;
    if d < 0.5 then f
    else if d > 0.5 then f + 1
    else if f % 2 == 0 then f else f + 1
  }

  /** The `valid_ratio` argument type: `float(value)` strictly between 0
    * and 1; `None` is the argument error. */
  function ValidRatio(value: string): (r: Option<real>)
    ensures r.Some? ==> 0.0 < r.value < 1.0
    ensures r.Some? <==> ParseFloat(Strip(value)).Some? && 0.0 < ParseFloat(Strip(value)).value < 1.0
  {
    var f := ParseFloat(Strip(value));
    if f.None? || f.value <= 0.0 || f.value >= 1.0 then None else f
  }

  /** The split point `int(n * ratio)` of a list of `n` items for a ratio
    * strictly between 0 and 1: never past the end, and short of it
    * whenever the list is not empty. */
  function SplitIndex(n: nat, ratio: real): (k: int)
    requires 0.0 < ratio < 1.0
    ensures 0 <= k <= n
    ensures n > 0 ==> k < n
  {
    SplitIndexBounds(n, ratio);
    Trunc(n as real * ratio)
  }

  lemma SplitIndexBounds(n: nat, ratio: real)
    requires 0.0 < ratio < 1.0
    ensures 0 <= Trunc(n as real * ratio) <= n
    ensures n > 0 ==> Trunc(n as real * ratio) < n
  {
    ScaleBelow(n as real, ratio);
    TruncBelow(n as real * ratio, n);
  }

  /** `int(x)` of a float in `[0, n]` is in `[0, n]`, and below `n` when `x`
    * is. */
  lemma TruncBelow(x: real, n: nat)
    requires 0.0 <= x <= n as real
    ensures 0 <= Trunc(x) <= n
    ensures x < n as real ==> Trunc(x) < n
  {
  }

  lemma ScaleBelow(x: real, r: real)
    requires x >= 0.0 && 0.0 < r < 1.0
    ensures 0.0 <= x * r <= x
    ensures x > 0.0 ==> x * r < x
  {
    assert x - x * r == x * (1.0 - r);
  }

  function Min(a: int, b: int): int { if a <= b then a else b }
  function Max(a: int, b: int): int { if a >= b then a else b }
  function MinR(a: real, b: real): real { if a <= b then a else b }
  function MaxR(a: real, b: real): real { if a >= b then a else b }

  // ------------------------------------------------------------------
  // Lists
  // ------------------------------------------------------------------

  /** The values `f` gives for the elements of `xs`, in order, skipping the
    * elements it gives nothing for. */
  function FilterMap<A, B>(xs: seq<A>, f: A -> Option<B>): seq<B> {
    if xs == [] then []
    else
      var front := FilterMap(xs[..|xs| - 1], f);
      match f(xs[|xs| - 1])
      case Some(b) => front + [b]
      case None => front
  }

  /** `[f(x) for x in xs]` where any failing `f(x)` aborts the whole list. */
  function MapAll<A, B>(xs: seq<A>, f: A -> Option<B>): (r: Option<seq<B>>)
    ensures r.Some? ==> |r.value| == |xs| && forall i :: 0 <= i < |xs| ==> f(xs[i]) == Some(r.value[i])
    ensures r.None? ==> exists i :: 0 <= i < |xs| && f(xs[i]).None?
  {
    if xs == [] then Some([])
    else
      var front := MapAll(xs[..|xs| - 1], f);
      var last := f(xs[|xs| - 1]);
      if front.None? then
        var i :| 0 <= i < |xs| - 1 && f(xs[..|xs| - 1][i]).None?;
        assert xs[..|xs| - 1][i] == xs[i];
        None
      else if last.None? then None
      else
        assert forall i :: 0 <= i < |xs| - 1 ==> xs[..|xs| - 1][i] == xs[i];
        Some(front.value + [last.value])
  }

  lemma {:induction false} FilterMapContents<A, B>(xs: seq<A>, f: A -> Option<B>)
    ensures |FilterMap(xs, f)| <= |xs|
    ensures forall b :: b in FilterMap(xs, f) <==> exists i :: 0 <= i < |xs| && f(xs[i]) == Some(b)
    decreases |xs|
  {
    if xs != [] {
      var n := |xs| - 1;
      var front := xs[..n];
      FilterMapContents(front, f);
      forall b ensures b in FilterMap(xs, f) <==> exists i :: 0 <= i < |xs| && f(xs[i]) == Some(b) {
        if b in FilterMap(front, f) {
          var i :| 0 <= i < |front| && f(front[i]) == Some(b);
          assert xs[i] == front[i];
        }
        if exists i :: 0 <= i < |xs| && f(xs[i]) == Some(b) {
          var i :| 0 <= i < |xs| && f(xs[i]) == Some(b);
          if i < n { assert front[i] == xs[i]; }
        }
      }
    }
  }

  /** The elements for which `p` holds, in order. */
  function Filter<A>(xs: seq<A>, p: A -> bool): seq<A> {
    if xs == [] then []
    else
      var front := Filter(xs[..|xs| - 1], p);
      if p(xs[|xs| - 1]) then front + [xs[|xs| - 1]] else front
  }

  /** Mapping the next of a list of distinct names to its position keeps the
    * map equal to "position among the names seen so far". */
  lemma PositionMapStep(classes: seq<string>, idx: nat, m: map<string, nat>, m': map<string, nat>)
    requires idx < |classes|
    requires forall i, j :: 0 <= i < j < |classes| ==> classes[i] != classes[j]
    requires forall c :: c in m <==> c in classes[..idx]
    requires forall i :: 0 <= i < idx ==> classes[i] in m && m[classes[i]] == i
    requires m' == m[classes[idx] := idx]
    ensures forall c :: c in m' <==> c in classes[..idx + 1]
    ensures forall i :: 0 <= i <= idx ==> classes[i] in m' && m'[classes[i]] == i
  {
    assert classes[..idx + 1] == classes[..idx] + [classes[idx]];
  }

  /** When every element maps to a value, nothing is dropped. */
  lemma {:induction false} FilterMapAll<A, B>(xs: seq<A>, ys: seq<B>, f: A -> Option<B>)
    requires |xs| == |ys|
    requires forall i :: 0 <= i < |xs| ==> f(xs[i]) == Some(ys[i])
    ensures FilterMap(xs, f) == ys
    decreases |xs|
  {
    if xs != [] {
      var n := |xs| - 1;
      FilterMapAll(xs[..n], ys[..n], f);
      assert ys == ys[..n] + [ys[n]];
    }
  }

  lemma FilterSnoc<A>(xs: seq<A>, x: A, p: A -> bool)
    ensures Filter(xs + [x], p) == if p(x) then Filter(xs, p) + [x] else Filter(xs, p)
  {
    assert (xs + [x])[..|xs|] == xs;
  }

  lemma {:induction false} FilterContents<A>(xs: seq<A>, p: A -> bool)
    ensures |Filter(xs, p)| <= |xs|
    ensures forall x :: x in Filter(xs, p) <==> x in xs && p(x)
    decreases |xs|
  {
    if xs != [] {
      var n := |xs| - 1;
      FilterContents(xs[..n], p);
      assert xs == xs[..n] + [xs[n]];
    }
  }

  /** `f(start + j, xs[j])` for each position `j` of `xs`. */
  function Numbered<A, B>(xs: seq<A>, start: nat, f: (nat, A) -> B): (r: seq<B>)
    ensures |r| == |xs|
  {
    seq(|xs|, j requires 0 <= j < |xs| => f(start + j, xs[j]))
  }

  lemma NumberedCons<A, B>(x: A, xs: seq<A>, start: nat, f: (nat, A) -> B)
    ensures Numbered([x] + xs, start, f) == [f(start, x)] + Numbered(xs, start + 1, f)
  {
    var l := Numbered([x] + xs, start, f);
    var r := [f(start, x)] + Numbered(xs, start + 1, f);
    forall j | 1 <= j < |l| ensures l[j] == r[j] {
      assert ([x] + xs)[j] == xs[j - 1];
      assert start + 1 + (j - 1) == start + j;
    }
  }

  /** The lists `f` gives for the elements of `xs`, one after another. */
  /** `set(xs)` as a list: each element once, the last occurrence kept. */
  function Dedup(xs: seq<string>): (r: seq<string>)
    ensures forall x :: x in r <==> x in xs
    ensures forall x :: multiset(r)[x] <= 1
  {
    if xs == [] then []
    else
      var rest := Dedup(xs[1..]);
      if xs[0] in rest then rest
      else
        assert forall x :: multiset([xs[0]] + rest)[x] == multiset([xs[0]])[x] + multiset(rest)[x];
        [xs[0]] + rest
  }

  function FlatMap<A, B>(xs: seq<A>, f: A -> seq<B>): seq<B> {
    if xs == [] then [] else FlatMap(xs[..|xs| - 1], f) + f(xs[|xs| - 1])
  }

  /** `y` is in the list `f` gives for the `k`th element of `xs`. */
  predicate InFlatPart<A, B(==)>(xs: seq<A>, f: A -> seq<B>, k: int, y: B) {
    0 <= k < |xs| && y in f(xs[k])
  }

  lemma {:induction false} FlatMapContents<A, B>(xs: seq<A>, f: A -> seq<B>, y: B)
    ensures y in FlatMap(xs, f) <==> exists k :: InFlatPart(xs, f, k, y)
    decreases |xs|
  {
    if xs != [] {
      var n := |xs| - 1;
      var front := xs[..n];
      FlatMapContents(front, f, y);
      if exists k :: InFlatPart(xs, f, k, y) {
        var k :| InFlatPart(xs, f, k, y);
        if k < n {
          assert front[k] == xs[k];
          assert InFlatPart(front, f, k, y);
        }
      }
      if exists k :: InFlatPart(front, f, k, y) {
        var k :| InFlatPart(front, f, k, y);
        assert xs[k] == front[k];
        assert InFlatPart(xs, f, k, y);
      }
      if y in f(xs[n]) {
        assert InFlatPart(xs, f, n, y);
      }
    }
  }

  /** Flattening distributes over concatenation. */
  lemma {:induction false} FlatMapAppend<A, B>(xs: seq<A>, ys: seq<A>, f: A -> seq<B>)
    ensures FlatMap(xs + ys, f) == FlatMap(xs, f) + FlatMap(ys, f)
    decreases |ys|
  {
    if ys != [] {
      var n := |ys| - 1;
      var zs := xs + ys;
      assert zs[..|zs| - 1] == xs + ys[..n];
      assert zs[|zs| - 1] == ys[n];
      FlatMapAppend(xs, ys[..n], f);
      calc {
        FlatMap(zs, f);
        FlatMap(xs + ys[..n], f) + f(ys[n]);
        (FlatMap(xs, f) + FlatMap(ys[..n], f)) + f(ys[n]);
        FlatMap(xs, f) + (FlatMap(ys[..n], f) + f(ys[n]));
        FlatMap(xs, f) + FlatMap(ys, f);
      }
    } else {
      assert xs + ys == xs;
    }
  }

  /** A non-empty list flattens to its first element's list, then the
    * rest. */
  lemma FlatMapCons<A, B>(xs: seq<A>, f: A -> seq<B>)
    requires xs != []
    ensures FlatMap(xs, f) == f(xs[0]) + FlatMap(xs[1..], f)
  {
    assert xs == [xs[0]] + xs[1..];
    FlatMapAppend([xs[0]], xs[1..], f);
    assert [xs[0]][..0] == [];
  }

  /** The first `i + 1` elements flatten to the first one's list, then
    * the tail's first `i`. */
  lemma FlatMapFirst<A, B>(xs: seq<A>, i: nat, f: A -> seq<B>)
    requires i < |xs|
    ensures FlatMap(xs[..i + 1], f) == f(xs[0]) + FlatMap(xs[1..][..i], f)
  {
    assert xs[..i + 1] == [xs[0]] + xs[1..][..i];
    FlatMapAppend([xs[0]], xs[1..][..i], f);
    assert [xs[0]][..0] == [];
  }

  // ------------------------------------------------------------------
  // Stripping and substrings
  // ------------------------------------------------------------------

  function StripStart(s: string): (r: string)
    ensures |r| <= |s| && r == s[|s| - |r|..]
    ensures r != [] ==> !IsSpace(r[0])
    ensures forall i :: 0 <= i < |s| - |r| ==> IsSpace(s[i])
  {
    if s != [] && IsSpace(s[0]) then StripStart(s[1..]) else s
  }

  function StripEnd(s: string): (r: string)
    ensures |r| <= |s| && r == s[..|r|]
    ensures r != [] ==> !IsSpace(r[|r| - 1])
    ensures forall i :: |r| <= i < |s| ==> IsSpace(s[i])
  {
    if s != [] && IsSpace(s[|s| - 1]) then StripEnd(s[..|s| - 1]) else s
  }

  /** `s.strip()`: the text without leading and trailing whitespace. */
  function Strip(s: string): string {
    StripEnd(StripStart(s))
  }

  /** `s.strip()` is empty exactly for the lines `IsBlank` describes, and
    * otherwise starts and ends with a non-space character of `s`. */
  lemma StripMeaning(s: string)
    ensures Strip(s) == [] <==> IsBlank(s)
    ensures Strip(s) != [] ==> !IsSpace(Strip(s)[0]) && !IsSpace(Strip(s)[|Strip(s)| - 1])
    ensures exists a :: OccursAt(s, Strip(s), a)
  {
    StripBlank(s);
    StripEnds(s);
    StripWithin(s);
  }

  lemma StripEnds(s: string)
    ensures Strip(s) != [] ==> !IsSpace(Strip(s)[0]) && !IsSpace(Strip(s)[|Strip(s)| - 1])
  {
    var t := StripStart(s);
    var r := StripEnd(t);
    if r != [] {
      assert r[0] == t[0];
    }
  }

  lemma StripWithin(s: string)
    ensures exists a :: OccursAt(s, Strip(s), a)
  {
    var t := StripStart(s);
    var a := |s| - |t|;
    StripOccurs(s, t, StripEnd(t), a);
    assert Strip(s) == StripEnd(t);
    assert OccursAt(s, Strip(s), a);
  }

  lemma StripBlank(s: string)
    ensures Strip(s) == [] <==> IsBlank(s)
  {
    var t := StripStart(s);
    if StripEnd(t) == [] {
      assert t == [];
    } else {
      assert !IsSpace(s[|s| - |t|]);
    }
  }

  lemma StripOccurs(s: string, t: string, r: string, a: int)
    requires 0 <= a <= |s| && t == s[a..]
    requires |r| <= |t| && r == t[..|r|]
    ensures OccursAt(s, r, a)
  {
    assert s[a..a + |r|] == s[a..][..|r|];
  }

  /** Text without whitespace at either end is left alone by `strip()`. */
  lemma StripUnspaced(s: string)
    requires forall i :: 0 <= i < |s| ==> !IsSpace(s[i])
    ensures Strip(s) == s
  {
  }

  /** `pattern` occurs in `s` starting at index `j`. */
  predicate OccursAt(s: string, pattern: string, j: int) {
    0 <= j && j + |pattern| <= |s| && s[j..j + |pattern|] == pattern
  }

  lemma OccursShift(s: string, pattern: string, j: int)
    requires j >= 1 && s != []
    ensures OccursAt(s, pattern, j) <==> OccursAt(s[1..], pattern, j - 1)
  {
    if j + |pattern| <= |s| {
      SliceOfTail(s, j, j + |pattern|);
    }
  }

  lemma SliceOfTail(s: string, i: int, k: int)
    requires 1 <= i <= k <= |s|
    ensures s[1..][i - 1..k - 1] == s[i..k]
  {
    assert |s[1..][i - 1..k - 1]| == |s[i..k]|;
    forall m | 0 <= m < k - i ensures s[1..][i - 1..k - 1][m] == s[i..k][m] {
      assert s[1..][i - 1 + m] == s[i + m];
    }
  }

  /** Where `pattern` first occurs in `s` (`s.find(pattern)`), if anywhere. */
  function Find(s: string, pattern: string): (r: Option<nat>)
    requires pattern != []
    ensures r.Some? ==> OccursAt(s, pattern, r.value)
    ensures r.Some? ==> forall j :: 0 <= j < r.value ==> !OccursAt(s, pattern, j)
    ensures r.None? ==> forall j :: !OccursAt(s, pattern, j)
    decreases |s|
  {
    if |s| < |pattern| then None
    else if s[..|pattern|] == pattern then Some(0)
    else
      var rest := Find(s[1..], pattern);
      assert !OccursAt(s, pattern, 0);
      assert forall j :: j >= 1 ==> (OccursAt(s, pattern, j) <==> OccursAt(s[1..], pattern, j - 1)) by {
        forall j | j >= 1 {
          OccursShift(s, pattern, j);
        }
      }
      if rest.None? then None else Some(rest.value + 1)
  }

  /** `pattern in s`. */
  predicate Contains(s: string, pattern: string)
    requires pattern != []
  {
    Find(s, pattern).Some?
  }

  /** `s.split(pattern)[1]` when `pattern in s`: the text between the first
    * occurrence of `pattern` and the next one (or the end). */
  function SecondField(s: string, pattern: string): (r: string)
    requires pattern != [] && Contains(s, pattern)
    ensures exists i :: OccursAt(s, pattern, i) && OccursAt(s, r, i + |pattern|)
    ensures forall j :: 0 <= j < |r| - |pattern| + 1 ==> !OccursAt(r, pattern, j)
  {
    var i := Find(s, pattern).value;
    var rest := s[i + |pattern|..];
    var next := Find(rest, pattern);
    var r := if next.None? then rest else rest[..next.value];
    assert OccursAt(s, r, i + |pattern|) by {
      assert r == rest[..|r|];
      assert s[i + |pattern|..i + |pattern| + |r|] == rest[..|r|];
    }
    forall j | 0 <= j < |r| - |pattern| + 1
      ensures !OccursAt(r, pattern, j)
    {
      assert r[j..j + |pattern|] == rest[j..j + |pattern|];
      assert !OccursAt(rest, pattern, j);
    }
    r
  }

  /** The first `stem + ext` over `exts`, in list order, that is one of the
    * `existing` names: the loop the scripts run to pair a label with its
    * image. */
  function FirstWithExtension(stem: string, exts: seq<string>, existing: set<string>): (r: Option<string>)
    ensures r.Some? ==> r.value in existing
    ensures r.Some? ==> exists k :: 0 <= k < |exts| && r.value == stem + exts[k] && forall j :: 0 <= j < k ==> stem + exts[j] !in existing
    ensures r.None? <==> forall k :: 0 <= k < |exts| ==> stem + exts[k] !in existing
  {
    if exts == [] then None
    else if stem + exts[0] in existing then Some(stem + exts[0])
    else
      var r := FirstWithExtension(stem, exts[1..], existing);
      assert forall k :: 1 <= k < |exts| ==> exts[k] == exts[1..][k - 1];
      r
  }

  /** The loop behind `FirstWithExtension`: try each extension in turn and
    * stop at the first name that exists. */
  method FindWithExtension(stem: string, exts: seq<string>, existing: set<string>) returns (found: Option<string>)
    ensures found == FirstWithExtension(stem, exts, existing)
  {
    var k := 0;
    while k < |exts|
      invariant 0 <= k <= |exts|
      invariant FirstWithExtension(stem, exts, existing) == FirstWithExtension(stem, exts[k..], existing)
    {
      if stem + exts[k] in existing {
        return Some(stem + exts[k]);
      }
      assert exts[k..][1..] == exts[k + 1..];
      k := k + 1;
    }
    return None;
  }

  // ------------------------------------------------------------------
  // File names
  // ------------------------------------------------------------------

  /** `os.path.join(dir, name)` for a relative file name. */
  function JoinPath(dir: string, name: string): string {
    if dir == [] || dir[|dir| - 1] == '/' then dir + name else dir + "/" + name
  }

  /** Joining names to one directory keeps distinct names distinct. */
  lemma JoinPathInjective(dir: string, a: string, b: string)
    requires JoinPath(dir, a) == JoinPath(dir, b)
    ensures a == b
  {
    var d := if dir == [] || dir[|dir| - 1] == '/' then dir else dir + "/";
    assert JoinPath(dir, a) == d + a && JoinPath(dir, b) == d + b;
    assert a == (d + a)[|d|..];
    assert b == (d + b)[|d|..];
  }

  /** `os.path.dirname(p)`: up to the last slash, trailing slashes removed
    * unless that leaves nothing but slashes. */
  function Dirname(p: string): string {
    var head := p[..LastIndexOf(p, '/') + 1];
    if head != [] && exists k :: 0 <= k < |head| && head[k] != '/' then StripSlashes(head) else head
  }

  function StripSlashes(s: string): string {
    if s != [] && s[|s| - 1] == '/' then StripSlashes(s[..|s| - 1]) else s
  }

  /** `os.path.basename(p)`: the text after the last slash. */
  function Basename(p: string): string {
    p[LastIndexOf(p, '/') + 1..]
  }

  predicate NoSlash(name: string) {
    forall i :: 0 <= i < |name| ==> name[i] != '/'
  }

  /** The base name of a joined path is the name that was joined. */
  lemma BasenameOfJoin(dir: string, name: string)
    requires NoSlash(name)
    ensures Basename(JoinPath(dir, name)) == name
  {
    var p := JoinPath(dir, name);
    var cut := |p| - |name|;
    assert p[cut..] == name;
    forall j | cut <= j < |p| ensures p[j] != '/' {
      assert p[j] == name[j - cut];
    }
    if cut > 0 {
      assert p[cut - 1] == '/';
    }
  }

  /** `Path(name).suffix`: from the last dot, unless that dot opens the name
    * or closes it. */
  function PathSuffix(name: string): string {
    var i := LastIndexOf(name, '.');
    if 0 < i < |name| - 1 then name[i..] else ""
  }

  /** `Path(name).stem`: the name without `PathSuffix`. */
  function PathStem(name: string): string {
    var i := LastIndexOf(name, '.');
    if 0 < i < |name| - 1 then name[..i] else name
  }

  lemma StemAndSuffix(name: string)
    ensures PathStem(name) + PathSuffix(name) == name
  {
  }

  /** `os.path.splitext(name)` for a name without directory part: splits at
    * the last dot unless only dots precede it. */
  function SplitExt(name: string): (string, string) {
    var i := LastIndexOf(name, '.');
    if i >= 0 && exists j :: 0 <= j < i && name[j] != '.' then (name[..i], name[i..])
    else (name, "")
  }

  /** `os.path.splitext(p)` on a path: the extension is taken from the
    * last path component only. */
  function SplitExtPath(p: string): (r: (string, string))
    ensures r.0 + r.1 == p
  {
    var ext := SplitExt(Basename(p)).1;
    (p[..|p| - |ext|], p[|p| - |ext|..])
  }

  /** A lower-case extension as the scripts list them: a dot, then at least
    * one character, no further dot. */
  predicate IsExtension(ext: string) {
    |ext| >= 2 && ext[0] == '.' && forall i :: 1 <= i < |ext| ==> ext[i] != '.'
  }

  /** Appending an extension to a non-empty stem is undone by `PathStem` and
    * `PathSuffix`. */
  lemma {:induction false} StemSuffixOfJoin(stem: string, ext: string)
    requires stem != []
    requires IsExtension(ext)
    ensures PathSuffix(stem + ext) == ext
    ensures PathStem(stem + ext) == stem
  {
    var name := stem + ext;
    var i := LastIndexOf(name, '.');
    assert name[|stem|] == '.';
    forall j | |stem| < j < |name| ensures name[j] != '.' {
      assert name[j] == ext[j - |stem|];
    }
    assert name[i..] == ext;
    assert name[..i] == stem;
  }
}
