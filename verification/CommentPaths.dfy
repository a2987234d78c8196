/** Materialised paths as text: three-digit segments joined by dots, and how such texts compare. */
module CommentPaths {
  import opened Options

  const MAX_SEGMENT := 999

  datatype Result<+T> = Ok(value: T) | Err(error: CommentError)

  datatype CommentError = WrongPost | TooDeep | BadSegment | TooManySiblings

  // ----- segments

  function Digit(d: nat): (c: char)
    requires d < 10
    ensures c as int == '0' as int + d
  {
    ('0' as int + d) as char
  }

  /** `f"{n:03d}"`. */
  function Pad(n: nat): (s: string)
    requires n <= MAX_SEGMENT
    ensures |s| == 3 && s[0] == Digit(n / 100) && s[1] == Digit(n / 10 % 10) && s[2] == Digit(n % 10)
  {
    [Digit(n / 100), Digit(n / 10 % 10), Digit(n % 10)]
  }

  predicate IsDigit(c: char) { '0' <= c <= '9' }

  /** `int(s)` on a text of digits; anything else is a `ValueError`. */
  function ParseInt(s: string): Option<nat> {
    if s == "" || exists c | c in s :: !IsDigit(c) then None else Some(Number(s))
  }

  function Number(s: string): nat
    requires forall c | c in s :: IsDigit(c)
  {
    if s == "" then 0
    else
      var n := |s| - 1;
      assert s[n] in s && IsDigit(s[n]) && forall c | c in s[..n] :: c in s;
      Number(s[..n]) * 10 + (s[n] as int - '0' as int)
  }

  lemma PadParses(n: nat)
    requires n <= MAX_SEGMENT
    ensures ParseInt(Pad(n)) == Some(n)
  {
    var s := Pad(n);
    assert forall c | c in s :: IsDigit(c);
    assert s[..2][..1] == s[..1] && s[..1][..0] == "";
    assert Number(s[..1]) == n / 100;
    assert Number(s[..2]) == n / 100 * 10 + n / 10 % 10;
    assert Number(s) == n;
  }

  /** `path.split(".")[-1]`. */
  function LastSegment(path: string): string {
    if path == "" then ""
    else
      var n := |path| - 1;
      if path[n] == '.' then "" else LastSegment(path[..n]) + [path[n]]
  }

  lemma {:induction false} PlainSegment(s: string)
    requires '.' !in s
    ensures LastSegment(s) == s
  {
    if s == "" {
    } else {
      assert s[|s| - 1] in s && forall c | c in s[..|s| - 1] :: c in s;
      PlainSegment(s[..|s| - 1]);
    }
  }

  lemma {:induction false} SegmentAfterDot(front: string, s: string)
    requires '.' !in s
    ensures LastSegment(front + "." + s) == s
  {
    var path := front + "." + s;
    if s == "" {
      assert path[|path| - 1] == '.';
    } else {
      var n := |s| - 1;
      assert path[..|path| - 1] == front + "." + s[..n];
      assert s[n] in s && forall c | c in s[..n] :: c in s;
      SegmentAfterDot(front, s[..n]);
    }
  }

  /** `_next_segment`: the highest last segment, if all of them are numbers. */
  function Highest(paths: seq<string>): Option<nat> {
    if paths == [] then Some(0)
    else
      var before := Highest(paths[..|paths| - 1]);
      var last := ParseInt(LastSegment(paths[|paths| - 1]));
      if before.None? || last.None? then None
      else Some(if before.value < last.value then last.value else before.value)
  }

  function NextOf(paths: seq<string>): Result<string> {
    match Highest(paths)
    case None => Err(BadSegment)
    case Some(n) => if n + 1 > MAX_SEGMENT then Err(TooManySiblings) else Ok(Pad(n + 1))
  }

  method NextSegment(paths: seq<string>) returns (segment: Result<string>)
    ensures segment == NextOf(paths)
  {
    if paths == [] {
      return Ok("001");
    }
    var highest := 0;
    for k := 0 to |paths|
      invariant Highest(paths[..k]) == Some(highest)
    {
      assert paths[..k + 1][..k] == paths[..k];
      var value := ParseInt(LastSegment(paths[k]));
      if value.None? {
        BadStays(paths, k + 1);
        return Err(BadSegment);
      }
      if highest < value.value {
        highest := value.value;
      }
    }
    assert paths[..|paths|] == paths;
    segment := if highest + 1 > MAX_SEGMENT then Err(TooManySiblings) else Ok(Pad(highest + 1));
  }

  lemma {:induction false} BadStays(paths: seq<string>, k: nat)
    requires k <= |paths| && Highest(paths[..k]) == None
    ensures Highest(paths) == None
    decreases |paths|
  {
    if k < |paths| {
      assert paths[..|paths| - 1][..k] == paths[..k];
      BadStays(paths[..|paths| - 1], k);
    } else {
      assert paths[..k] == paths;
    }
  }

  // ----- whole paths

  predicate Segments(ns: seq<nat>) {
    ns != [] && forall i | 0 <= i < |ns| :: 1 <= ns[i] <= MAX_SEGMENT
  }

  function Encode(ns: seq<nat>): string
    requires Segments(ns)
  {
    if |ns| == 1 then Pad(ns[0]) else Pad(ns[0]) + "." + Encode(ns[1..])
  }

  lemma {:induction false} EncodeReply(ns: seq<nat>, n: nat)
    requires Segments(ns) && 1 <= n <= MAX_SEGMENT
    ensures Encode(ns + [n]) == Encode(ns) + "." + Pad(n)
  {
    if |ns| == 1 {
      assert (ns + [n])[1..] == [n];
    } else {
      assert (ns + [n])[1..] == ns[1..] + [n];
      EncodeReply(ns[1..], n);
      assert Pad(ns[0]) + "." + (Encode(ns[1..]) + "." + Pad(n)) == Pad(ns[0]) + "." + Encode(ns[1..]) + "." + Pad(n);
    }
  }

  function Dots(s: string): nat {
    if s == "" then 0 else (if s[0] == '.' then 1 else 0) + Dots(s[1..])
  }

  /** The `depth` property. */
  function Depth(path: string): nat {
    if path == "" then 0 else Dots(path) + 1
  }

  lemma {:induction false} DotsAppend(a: string, b: string)
    ensures Dots(a + b) == Dots(a) + Dots(b)
  {
    if a == "" {
      assert a + b == b;
    } else {
      assert (a + b)[1..] == a[1..] + b;
      DotsAppend(a[1..], b);
    }
  }

  lemma {:induction false} NoDots(s: string)
    requires '.' !in s
    ensures Dots(s) == 0
  {
    if s == "" {
    } else {
      assert s[0] in s && forall c | c in s[1..] :: c in s;
      NoDots(s[1..]);
    }
  }

  lemma {:induction false} DepthIsLength(ns: seq<nat>)
    requires Segments(ns)
    ensures Depth(Encode(ns)) == |ns|
  {
    NoDots(Pad(ns[0]));
    if |ns| == 1 {
    } else {
      DepthIsLength(ns[1..]);
      DotsAppend(Pad(ns[0]) + ".", Encode(ns[1..]));
      DotsAppend(Pad(ns[0]), ".");
      assert Dots(".") == 1;
    }
  }

  // ----- comparing paths

  /** Comparison of texts character by character. */
  predicate TextLess(a: string, b: string) {
    b != "" && (a == "" || a[0] < b[0] || (a[0] == b[0] && TextLess(a[1..], b[1..])))
  }

  /** Comparison of segment lists number by number. */
  predicate Less(xs: seq<nat>, ys: seq<nat>) {
    ys != [] && (xs == [] || xs[0] < ys[0] || (xs[0] == ys[0] && Less(xs[1..], ys[1..])))
  }

  lemma {:induction false} CommonText(p: string, a: string, b: string)
    ensures TextLess(p + a, p + b) <==> TextLess(a, b)
  {
    if p == "" {
      assert p + a == a && p + b == b;
    } else {
      assert (p + a)[1..] == p[1..] + a && (p + b)[1..] == p[1..] + b;
      CommonText(p[1..], a, b);
    }
  }

  lemma {:induction false} DifferingText(s: string, t: string, a: string, b: string)
    requires |s| == |t| && s != t
    ensures TextLess(s + a, t + b) <==> TextLess(s, t)
  {
    if s[0] != t[0] {
    } else {
      assert (s + a)[1..] == s[1..] + a && (t + b)[1..] == t[1..] + b;
      assert s == [s[0]] + s[1..] && t == [t[0]] + t[1..];
      DifferingText(s[1..], t[1..], a, b);
    }
  }

  lemma ThreeCharacters(s: string, t: string)
    requires |s| == 3 && |t| == 3
    ensures TextLess(s, t) <==>
      s[0] < t[0] || (s[0] == t[0] && (s[1] < t[1] || (s[1] == t[1] && s[2] < t[2])))
  {
    var s1, t1 := s[1..], t[1..];
    var s2, t2 := s1[1..], t1[1..];
    assert TextLess(s2, t2) <==> s2[0] < t2[0];
    assert TextLess(s1, t1) <==> s1[0] < t1[0] || (s1[0] == t1[0] && TextLess(s2, t2));
  }

  lemma ThreeDigits(x: nat)
    requires x <= MAX_SEGMENT
    ensures x == 100 * (x / 100) + 10 * (x / 10 % 10) + x % 10
    ensures x / 100 < 10
  {
  }

  lemma PadOrder(x: nat, y: nat)
    requires x <= MAX_SEGMENT && y <= MAX_SEGMENT
    ensures TextLess(Pad(x), Pad(y)) <==> x < y
    ensures Pad(x) == Pad(y) <==> x == y
  {
    PadParses(x);
    PadParses(y);
    ThreeCharacters(Pad(x), Pad(y));
    ThreeDigits(x);
    ThreeDigits(y);
    DigitsOrder(x / 100, x / 10 % 10, x % 10, y / 100, y / 10 % 10, y % 10);
    hide TextLess, ParseInt;
  }

  lemma DigitsOrder(a: nat, b: nat, c: nat, d: nat, e: nat, f: nat)
    requires a < 10 && b < 10 && c < 10 && d < 10 && e < 10 && f < 10
    ensures 100 * a + 10 * b + c < 100 * d + 10 * e + f <==> a < d || (a == d && (b < e || (b == e && c < f)))
    ensures Digit(a) < Digit(d) <==> a < d
    ensures Digit(b) < Digit(e) <==> b < e
    ensures Digit(c) < Digit(f) <==> c < f
    ensures Digit(a) == Digit(d) <==> a == d
    ensures Digit(b) == Digit(e) <==> b == e
  {
  }

  /** Fixed-width segments: texts compare exactly as the lists of numbers they stand for. */
  lemma {:induction false} PathsCompare(xs: seq<nat>, ys: seq<nat>)
    requires Segments(xs) && Segments(ys)
    ensures TextLess(Encode(xs), Encode(ys)) <==> Less(xs, ys)
  {
    var s, t := Pad(xs[0]), Pad(ys[0]);
    var a := if |xs| == 1 then "" else "." + Encode(xs[1..]);
    var b := if |ys| == 1 then "" else "." + Encode(ys[1..]);
    assert Encode(xs) == s + a && Encode(ys) == t + b;
    PadOrder(xs[0], ys[0]);
    if xs[0] != ys[0] {
      DifferingText(s, t, a, b);
    } else {
      CommonText(s, a, b);
      if |xs| > 1 && |ys| > 1 {
        CommonText(".", Encode(xs[1..]), Encode(ys[1..]));
        PathsCompare(xs[1..], ys[1..]);
      }
    }
  }
}
