/** The bisection-then-interpolation root finder of the rating engine. */
module RootFinder {
  import opened Options
  import opened RealAlgebra

  predicate Below(x: real, y: real) { x < y }

  /** Instantiated on demand, through `Raise`. */
  ghost predicate StrictlyIncreasing(f: real -> real) {
    forall x, y {:trigger Below(x, y)} | Below(x, y) :: f(x) < f(y)
  }

  lemma Raise(f: real -> real, x: real, y: real)
    requires StrictlyIncreasing(f) && x <= y
    ensures f(x) <= f(y)
    ensures x < y ==> f(x) < f(y)
  {
    assert x < y ==> Below(x, y);
  }

  /** The search without its cached end values: the specification of `Solve`. */
  function Bisect(f: real -> real, target: real, left: real, right: real): real
    decreases (right - left).Floor
  {
    if right - left > 2.0 then
      var middle := (left + right) / 2.0;
      if f(middle) > target then Bisect(f, target, left, middle)
      else if f(middle) < target then Bisect(f, target, middle, right)
      else middle
    else
      Interpolate(f, target, left, right)
  }

  /** The point of the chord at a given ratio. */
  function Chord(left: real, right: real, ratio: real): real {
    left * (1.0 - ratio) + right * ratio
  }

  /** The last step: an end point, or the chord between the ends. No division by zero is possible. */
  function Interpolate(f: real -> real, target: real, left: real, right: real): real {
    if target <= f(left) then left
    else if target >= f(right) then right
    else
      var ratio := (target - f(left)) / (f(right) - f(left));
      Chord(left, right, ratio)
  }

  /** The loop as written, which evaluates each retained end point once. */
  method Solve(f: real -> real, target: real, low: real, high: real) returns (root: real)
    ensures root == Bisect(f, target, low, high)
  {
    var left, right := low, high;
    var leftY: Option<real>, rightY: Option<real> := None, None;
    while right - left > 2.0
      invariant Bisect(f, target, left, right) == Bisect(f, target, low, high)
      invariant leftY.Some? ==> leftY.value == f(left)
      invariant rightY.Some? ==> rightY.value == f(right)
      decreases (right - left).Floor
    {
      var middle := (left + right) / 2.0;
      var value := f(middle);
      if value > target {
        right, rightY := middle, Some(value);
      } else if value < target {
        left, leftY := middle, Some(value);
      } else {
        return middle;
      }
    }
    if leftY.None? {
      leftY := Some(f(left));
    }
    if target <= leftY.value {
      return left;
    }
    if rightY.None? {
      rightY := Some(f(right));
    }
    if target >= rightY.value {
      return right;
    }
    var ratio := (target - leftY.value) / (rightY.value - leftY.value);
    return left * (1.0 - ratio) + right * ratio;
  }

  /** A chord point at a ratio between 0 and 1 lies between the ends, and moves with the ratio. */
  lemma ChordPoint(left: real, right: real, r: real, s: real)
    requires left <= right && 0.0 <= r <= s <= 1.0
    ensures left <= Chord(left, right, r) <= Chord(left, right, s) <= right
  {
    var width := right - left;
    assert left * (1.0 - r) + right * r == left + width * r;
    assert left * (1.0 - s) + right * s == left + width * s;
    MulOrder(width, 0.0, r);
    MulOrder(width, r, s);
    MulOrder(width, s, 1.0);
  }

  /** Ratios order like the targets they come from. */
  lemma RatioOrder(a: real, b: real, s: real, t: real)
    requires a < s <= t < b
    ensures 0.0 < (s - a) / (b - a) <= (t - a) / (b - a) < 1.0
  {
    DivOrder(s - a, t - a, b - a);
    StrictDivOrder(t - a, b - a);
  }

  lemma StrictDivOrder(x: real, c: real)
    requires 0.0 < x < c
    ensures x / c < 1.0
  {
    var q := x / c;
    assert q * c == x;
    MulStrictOrder(c, q, 1.0);
  }

  lemma InteriorChord(left: real, right: real, r: real)
    requires left < right && 0.0 < r < 1.0
    ensures left < Chord(left, right, r) < right
  {
    var width := right - left;
    var step := Times(width, r);
    assert left * (1.0 - r) + right * r == left + step;
    assert Times(width, 1.0 - r) == width - step;
  }

  /**
   * Where an answer may lie: inside the bounds, at a bound exactly when the target is out of reach
   * there, and otherwise within 2 of a sign change on each side.
   */
  ghost predicate Lands(f: real -> real, target: real, left: real, right: real, r: real) {
    && left <= r <= right
    && (r == left <==> target <= f(left) || left == right)
    && (r == right <==> target >= f(right) || left == right)
    && (r != left ==> f(r - 2.0) <= target)
    && (r != right ==> target <= f(r + 2.0))
  }

  lemma InterpolateLands(f: real -> real, target: real, left: real, right: real)
    requires StrictlyIncreasing(f) && left <= right <= left + 2.0
    ensures Lands(f, target, left, right, Interpolate(f, target, left, right))
  {
    var r := Interpolate(f, target, left, right);
    Raise(f, left, right);
    if f(left) < target < f(right) {
      RatioOrder(f(left), f(right), target, target);
      var ratio := (target - f(left)) / (f(right) - f(left));
      InteriorChord(left, right, ratio);
      assert left < r < right by {
        hide Chord;
        assert r == Chord(left, right, ratio);
      }
    } else {
      assert r == left || r == right;
    }
    Raise(f, r - 2.0, left);
    Raise(f, right, r + 2.0);
  }

  /** Halving the bounds loses nothing: the guarantees hold against the bounds of the whole search. */
  lemma {:induction false} BisectBrackets(f: real -> real, target: real, left: real, right: real)
    requires StrictlyIncreasing(f) && left <= right
    ensures Lands(f, target, left, right, Bisect(f, target, left, right))
    decreases (right - left).Floor
  {
    if right - left > 2.0 {
      var middle := (left + right) / 2.0;
      Raise(f, left, middle);
      Raise(f, middle, right);
      if f(middle) > target {
        BisectBrackets(f, target, left, middle);
      } else if f(middle) < target {
        BisectBrackets(f, target, middle, right);
      } else {
        Raise(f, middle - 2.0, middle);
        Raise(f, middle, middle + 2.0);
      }
    } else {
      InterpolateLands(f, target, left, right);
    }
  }

  /** Two searches over the same bounds keep the order of their targets, wherever their paths part. */
  lemma {:induction false} BisectMonotone(f: real -> real, s: real, t: real, left: real, right: real)
    requires StrictlyIncreasing(f) && left <= right && s <= t
    ensures Bisect(f, s, left, right) <= Bisect(f, t, left, right)
    decreases (right - left).Floor
  {
    if right - left > 2.0 {
      var middle := (left + right) / 2.0;
      BisectBrackets(f, s, left, middle);
      BisectBrackets(f, t, middle, right);
      if t < f(middle) {
        BisectMonotone(f, s, t, left, middle);
      } else if s > f(middle) {
        BisectMonotone(f, s, t, middle, right);
      }
    } else {
      BisectBrackets(f, s, left, right);
      BisectBrackets(f, t, left, right);
      if f(left) < s && t < f(right) {
        RatioOrder(f(left), f(right), s, t);
        ChordPoint(left, right, (s - f(left)) / (f(right) - f(left)), (t - f(left)) / (f(right) - f(left)));
      }
    }
  }

  /**
   * The order of targets is kept exactly when the bounds are in order. A ceiling below the valid
   * range inverts them, and then a stronger result gets the lower value.
   */
  lemma OrderNeedsOrderedBounds(f: real -> real, left: real, right: real)
    requires StrictlyIncreasing(f)
    ensures left <= right <==>
      forall s, t | s <= t :: Bisect(f, s, left, right) <= Bisect(f, t, left, right)
  {
    if left <= right {
      forall s, t | s <= t ensures Bisect(f, s, left, right) <= Bisect(f, t, left, right) {
        BisectMonotone(f, s, t, left, right);
      }
    } else {
      var s, t := f(left), f(left) + 1.0;
      Raise(f, right, left);
      assert Bisect(f, s, left, right) == left && Bisect(f, t, left, right) == right;
      assert s <= t && !(Bisect(f, s, left, right) <= Bisect(f, t, left, right));
    }
  }

  // ----- where the search is exact

  /** A straight rising line between two bounds. */
  ghost predicate Straight(f: real -> real, slope: real, offset: real, left: real, right: real) {
    slope > 0.0 && forall x | left <= x <= right :: f(x) == Times(slope, x) + offset
  }

  lemma ChordOfLine(slope: real, offset: real, target: real, left: real, right: real)
    requires slope > 0.0 && left < right
    ensures var a, b := Times(slope, left) + offset, Times(slope, right) + offset;
      b - a != 0.0 && Times(slope, Chord(left, right, (target - a) / (b - a))) + offset == target
  {
    var width := right - left;
    var a, b := Times(slope, left) + offset, Times(slope, right) + offset;
    assert b - a == slope * width;
    MulStrictOrder(slope, left, right);
    var ratio := (target - a) / (b - a);
    assert ratio * (b - a) == target - a;
    assert Chord(left, right, ratio) == left + width * ratio;
    assert slope * (left + width * ratio) == slope * left + ratio * (slope * width);
  }

  /** On a straight line the interpolation hits the target, and hence so does the whole search. */
  lemma {:induction false} StraightExact(f: real -> real, slope: real, offset: real, target: real, left: real, right: real)
    requires Straight(f, slope, offset, left, right) && left < right && f(left) <= target <= f(right)
    ensures left <= Bisect(f, target, left, right) <= right && f(Bisect(f, target, left, right)) == target
    decreases (right - left).Floor
  {
    if right - left <= 2.0 {
      ChordOfLine(slope, offset, target, left, right);
      if f(left) < target < f(right) {
        RatioOrder(f(left), f(right), target, target);
        var ratio := (target - f(left)) / (f(right) - f(left));
        ChordPoint(left, right, ratio, ratio);
        hide Chord, Times;
        assert Interpolate(f, target, left, right) == Chord(left, right, ratio);
      }
    } else {
      var middle := (left + right) / 2.0;
      if f(middle) > target {
        StraightExact(f, slope, offset, target, left, middle);
      } else if f(middle) < target {
        StraightExact(f, slope, offset, target, middle, right);
      }
    }
  }
}
