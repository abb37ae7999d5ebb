/** Clamped piecewise-linear interpolation over a breakpoint table.

    This is the semantics every animated channel of the home carousel relies on:
    an animated value `interpolate`d over an `inputRange` of breakpoints and an
    `outputRange` of control values, with `extrapolate: 'clamp'`. Between two
    neighbouring breakpoints the output is the straight line through the two
    control values; left of the first breakpoint it is the first control value,
    right of the last one it is the last control value.
 */
module Interpolation {

  /** Breakpoints strictly increase. */
  ghost predicate Increasing(xs: seq<real>) {
    forall i, j :: 0 <= i < j < |xs| ==> xs[i] < xs[j]
  }

  /** A breakpoint table the interpolation accepts: at least two breakpoints,
      strictly increasing, one control value per breakpoint. */
  ghost predicate Table(xs: seq<real>, ys: seq<real>) {
    |xs| == |ys| >= 2 && Increasing(xs)
  }

  function Min(a: real, b: real): real { if a <= b then a else b }
  function Max(a: real, b: real): real { if a <= b then b else a }

  /** The straight line through (x0, y0) and (x1, y1), evaluated at x. */
  function Lerp(x0: real, x1: real, y0: real, y1: real, x: real): (r: real)
    requires x0 < x1
    ensures x == x0 ==> r == y0
    ensures x == x1 ==> r == y1
  {
    y0 + (x - x0) / (x1 - x0) * (y1 - y0)
  }

  /** Clamped interpolation of the table (xs, ys) at x. */
  function Interp(xs: seq<real>, ys: seq<real>, x: real): (r: real)
    requires Table(xs, ys)
    ensures x <= xs[0] ==> r == ys[0]
    ensures x >= xs[|xs| - 1] ==> r == ys[|ys| - 1]
    decreases |xs|
  {
    if x <= xs[0] then ys[0]
    else if x <= xs[1] then Lerp(xs[0], xs[1], ys[0], ys[1], x)
    else if |xs| == 2 then ys[1]
    else Interp(xs[1..], ys[1..], x)
  }

  /** The segment [xs[k], xs[k+1]] that holds x, for x inside the table. */
  function SegmentOf(xs: seq<real>, x: real): (k: nat)
    requires |xs| >= 2 && Increasing(xs)
    requires xs[0] <= x <= xs[|xs| - 1]
    ensures k + 1 < |xs| && xs[k] <= x <= xs[k + 1]
    decreases |xs|
  {
    if x <= xs[1] || |xs| == 2 then 0
    else 1 + SegmentOf(xs[1..], x)
  }

  // ---------------------------------------------------------------------------
  // Sequence transformations used to state symmetry

  function Reverse(ys: seq<real>): (r: seq<real>)
    ensures |r| == |ys|
    ensures forall k :: 0 <= k < |ys| ==> r[k] == ys[|ys| - 1 - k]
  {
    seq(|ys|, k requires 0 <= k < |ys| => ys[|ys| - 1 - k])
  }

  function Negate(ys: seq<real>): (r: seq<real>)
    ensures |r| == |ys|
    ensures forall k :: 0 <= k < |ys| ==> r[k] == -ys[k]
  {
    seq(|ys|, k requires 0 <= k < |ys| => -ys[k])
  }

  /** The breakpoints reflected in the point c, listed left to right again. */
  function MirrorAbout(xs: seq<real>, c: real): (r: seq<real>)
    ensures |r| == |xs|
    ensures forall k :: 0 <= k < |xs| ==> r[k] == 2.0 * c - xs[|xs| - 1 - k]
  {
    seq(|xs|, k requires 0 <= k < |xs| => 2.0 * c - xs[|xs| - 1 - k])
  }

  /** The breakpoints moved right by c. */
  function Shift(xs: seq<real>, c: real): (r: seq<real>)
    ensures |r| == |xs|
    ensures forall k :: 0 <= k < |xs| ==> r[k] == xs[k] + c
  {
    seq(|xs|, k requires 0 <= k < |xs| => xs[k] + c)
  }

  /** Control values never increase from index j onwards. */
  ghost predicate NonIncreasingFrom(ys: seq<real>, j: nat) {
    forall a, b :: j <= a <= b < |ys| ==> ys[b] <= ys[a]
  }

  // ---------------------------------------------------------------------------
  // Facts about one straight segment

  lemma LerpWithin(x0: real, x1: real, y0: real, y1: real, x: real)
    requires x0 < x1 && x0 <= x <= x1
    ensures Min(y0, y1) <= Lerp(x0, x1, y0, y1, x) <= Max(y0, y1)
  {
    var d := x1 - x0;
    var t := (x - x0) / d;
    assert t * d == x - x0;
    assert 0.0 <= t;
    assert t <= 1.0;
    var e := y1 - y0;
    if y0 <= y1 {
      MulSigns(1.0 - t, e);
      MulSigns(t, e);
    } else {
      MulSigns(1.0 - t, -e);
      MulSigns(t, -e);
    }
  }

  /** The product of two non-negative reals is non-negative, and positive
      when both are. */
  lemma MulSigns(a: real, b: real)
    requires 0.0 <= a && 0.0 <= b
    ensures 0.0 <= a * b
    ensures 0.0 < a && 0.0 < b ==> 0.0 < a * b
  {
  }

  /** Strictly inside a segment, the line lies strictly above a floor that
      both ends respect and the end it moves towards clears. */
  lemma LerpAbove(x0: real, x1: real, y0: real, y1: real, x: real, lo: real)
    requires x0 < x1 && x0 <= x <= x1 && lo <= y0 && lo <= y1
    requires (x0 < x && lo < y1) || (x < x1 && lo < y0)
    ensures lo < Lerp(x0, x1, y0, y1, x)
  {
    var d := x1 - x0;
    var t := (x - x0) / d;
    assert t * d == x - x0;
    assert 0.0 <= t <= 1.0;
    assert Lerp(x0, x1, y0, y1, x) - lo == (1.0 - t) * (y0 - lo) + t * (y1 - lo);
    MulSigns(1.0 - t, y0 - lo);
    MulSigns(t, y1 - lo);
    if x0 < x && lo < y1 {
      assert 0.0 < t;
    } else {
      assert t < 1.0;
    }
  }

  lemma LerpNonIncreasing(x0: real, x1: real, y0: real, y1: real, xa: real, xb: real)
    requires x0 < x1 && xa <= xb && y1 <= y0
    ensures Lerp(x0, x1, y0, y1, xb) <= Lerp(x0, x1, y0, y1, xa)
  {
    var ta := (xa - x0) / (x1 - x0);
    var tb := (xb - x0) / (x1 - x0);
    assert ta <= tb;
    assert (tb - ta) * (y1 - y0) <= 0.0;
    assert tb * (y1 - y0) <= ta * (y1 - y0);
  }

  lemma LerpMirror(x0: real, x1: real, y0: real, y1: real, x: real, c: real)
    requires x0 < x1
    ensures Lerp(x0, x1, y0, y1, x) == Lerp(2.0 * c - x1, 2.0 * c - x0, y1, y0, 2.0 * c - x)
  {
    var d := x1 - x0;
    var t := (x - x0) / d;
    assert (2.0 * c - x - (2.0 * c - x1)) / (2.0 * c - x0 - (2.0 * c - x1)) == (x1 - x) / d;
    assert (x1 - x) / d == (d - (x - x0)) / d == d / d - (x - x0) / d;
  }

  // ---------------------------------------------------------------------------
  // The interpolation, characterised

  /** On every segment the interpolation is the straight line through the
      segment's two control points (segments are closed: the line of either
      neighbour gives the same value at a shared breakpoint). */
  lemma {:induction false} InterpOnSegment(xs: seq<real>, ys: seq<real>, k: nat, x: real)
    requires Table(xs, ys)
    requires k + 1 < |xs| && xs[k] <= x <= xs[k + 1]
    ensures Interp(xs, ys, x) == Lerp(xs[k], xs[k + 1], ys[k], ys[k + 1], x)
    decreases |xs|
  {
    if k == 0 {
    } else {
      assert xs[0] < xs[k];
      if x <= xs[1] {
        assert k == 1 && x == xs[1];
      } else {
        assert |xs| > 2;
        InterpOnSegment(xs[1..], ys[1..], k - 1, x);
      }
    }
  }

  /** At a breakpoint the interpolation returns that breakpoint's control value. */
  lemma InterpAtBreakpoint(xs: seq<real>, ys: seq<real>, j: nat)
    requires Table(xs, ys) && j < |xs|
    ensures Interp(xs, ys, xs[j]) == ys[j]
  {
    if j + 1 < |xs| {
      InterpOnSegment(xs, ys, j, xs[j]);
    }
  }

  /** The result stays within any bounds that hold every control value. */
  lemma InterpWithin(xs: seq<real>, ys: seq<real>, lo: real, hi: real, x: real)
    requires Table(xs, ys)
    requires forall k :: 0 <= k < |ys| ==> lo <= ys[k] <= hi
    ensures lo <= Interp(xs, ys, x) <= hi
  {
    if xs[0] < x < xs[|xs| - 1] {
      var k := SegmentOf(xs, x);
      InterpOnSegment(xs, ys, k, x);
      LerpWithin(xs[k], xs[k + 1], ys[k], ys[k + 1], x);
    }
  }

  /** Strictly between the outer breakpoints the result clears a floor that
      every inner control value clears and the outer ones respect. */
  lemma InterpAboveInside(xs: seq<real>, ys: seq<real>, lo: real, x: real)
    requires Table(xs, ys) && |xs| >= 3
    requires forall k :: 0 <= k < |ys| ==> lo <= ys[k]
    requires forall k :: 0 < k < |ys| - 1 ==> lo < ys[k]
    requires xs[0] < x < xs[|xs| - 1]
    ensures lo < Interp(xs, ys, x)
  {
    var n := |xs|;
    var k := SegmentOf(xs, x);
    InterpOnSegment(xs, ys, k, x);
    if k == 0 {
      LerpAbove(xs[0], xs[1], ys[0], ys[1], x, lo);
    } else if x < xs[k + 1] {
      LerpAbove(xs[k], xs[k + 1], ys[k], ys[k + 1], x, lo);
    } else {
      assert k + 1 < n - 1;
      LerpAbove(xs[k], xs[k + 1], ys[k], ys[k + 1], x, lo);
    }
  }

  /** Dropping the first breakpoint changes nothing at or right of the second. */
  lemma InterpTail(xs: seq<real>, ys: seq<real>, x: real)
    requires Table(xs, ys) && |xs| > 2 && x >= xs[1]
    ensures Interp(xs, ys, x) == Interp(xs[1..], ys[1..], x)
  {
    if x == xs[1] {
      InterpAtBreakpoint(xs, ys, 1);
    }
  }

  /** Negating every control value negates the result. */
  lemma {:induction false} InterpNegate(xs: seq<real>, ys: seq<real>, x: real)
    requires Table(xs, ys)
    ensures Interp(xs, Negate(ys), x) == -Interp(xs, ys, x)
    decreases |xs|
  {
    if x <= xs[0] || x <= xs[1] || |xs| == 2 {
    } else {
      assert Negate(ys)[1..] == Negate(ys[1..]);
      InterpNegate(xs[1..], ys[1..], x);
    }
  }

  /** Moving every breakpoint right by c moves the whole curve right by c. */
  lemma {:induction false} InterpShift(xs: seq<real>, ys: seq<real>, c: real, x: real)
    requires Table(xs, ys)
    ensures Table(Shift(xs, c), ys)
    ensures Interp(Shift(xs, c), ys, x + c) == Interp(xs, ys, x)
    decreases |xs|
  {
    var sx := Shift(xs, c);
    ShiftIncreasing(xs, c);
    assert sx[0] == xs[0] + c && sx[1] == xs[1] + c;
    if x <= xs[0] {
    } else if x <= xs[1] {
      LerpShift(xs[0], xs[1], ys[0], ys[1], x, c);
    } else if |xs| == 2 {
    } else {
      assert sx[1..] == Shift(xs[1..], c);
      InterpShift(xs[1..], ys[1..], c, x);
      assert Interp(sx, ys, x + c) == Interp(sx[1..], ys[1..], x + c);
    }
  }

  /** Moving a segment and the point right by c leaves its value alone. */
  lemma LerpShift(x0: real, x1: real, y0: real, y1: real, x: real, c: real)
    requires x0 < x1
    ensures Lerp(x0 + c, x1 + c, y0, y1, x + c) == Lerp(x0, x1, y0, y1, x)
  {
    assert (x1 + c) - (x0 + c) == x1 - x0;
    assert (x + c) - (x0 + c) == x - x0;
  }

  /** Shifted increasing breakpoints stay increasing. */
  lemma ShiftIncreasing(xs: seq<real>, c: real)
    requires Increasing(xs)
    ensures Increasing(Shift(xs, c))
  {
    var sx := Shift(xs, c);
    forall i, j | 0 <= i < j < |xs| ensures sx[i] < sx[j] {
      assert xs[i] < xs[j];
    }
  }

  /** Reflecting the table in the point c (breakpoints mirrored, control
      values reversed) reflects the interpolation: the value at x is the
      reflected table's value at 2c - x. */
  lemma InterpMirror(xs: seq<real>, ys: seq<real>, c: real, x: real)
    requires Table(xs, ys)
    ensures Table(MirrorAbout(xs, c), Reverse(ys))
    ensures Interp(xs, ys, x) == Interp(MirrorAbout(xs, c), Reverse(ys), 2.0 * c - x)
  {
    var n := |xs|;
    var mx, ry := MirrorAbout(xs, c), Reverse(ys);
    MirrorIncreasing(xs, c);
    if x <= xs[0] {
      assert 2.0 * c - x >= mx[n - 1];
    } else if x >= xs[n - 1] {
      assert 2.0 * c - x <= mx[0];
    } else {
      MirrorInside(xs, ys, c, x);
    }
  }

  /** Mirrored breakpoints still rise strictly. */
  lemma MirrorIncreasing(xs: seq<real>, c: real)
    requires Increasing(xs)
    ensures Increasing(MirrorAbout(xs, c))
  {
    var n, mx := |xs|, MirrorAbout(xs, c);
    forall i, j | 0 <= i < j < n ensures mx[i] < mx[j] {
      assert xs[n - 1 - j] < xs[n - 1 - i];
    }
  }

  /** The mirror property strictly inside the table, segment by segment. */
  lemma MirrorInside(xs: seq<real>, ys: seq<real>, c: real, x: real)
    requires Table(xs, ys) && xs[0] < x < xs[|xs| - 1]
    requires Table(MirrorAbout(xs, c), Reverse(ys))
    ensures Interp(xs, ys, x) == Interp(MirrorAbout(xs, c), Reverse(ys), 2.0 * c - x)
  {
    var n := |xs|;
    var mx, ry := MirrorAbout(xs, c), Reverse(ys);
    var k := SegmentOf(xs, x);
    var m := n - 2 - k;
    InterpOnSegment(xs, ys, k, x);
    assert mx[m] == 2.0 * c - xs[k + 1] && mx[m + 1] == 2.0 * c - xs[k];
    assert ry[m] == ys[k + 1] && ry[m + 1] == ys[k];
    InterpOnSegment(mx, ry, m, 2.0 * c - x);
    LerpMirror(xs[k], xs[k + 1], ys[k], ys[k + 1], x, c);
  }

  /** Where the control values never increase from breakpoint j onwards, the
      interpolation never increases right of xs[j]. */
  lemma {:induction false} InterpNonIncreasing(xs: seq<real>, ys: seq<real>, j: nat, x1: real, x2: real)
    requires Table(xs, ys) && j < |xs| && NonIncreasingFrom(ys, j)
    requires xs[j] <= x1 <= x2
    ensures Interp(xs, ys, x2) <= Interp(xs, ys, x1)
    decreases |xs|
  {
    var n := |xs|;
    if j > 0 {
      assert xs[1] <= xs[j];
      if n == 2 {
      } else {
        InterpTail(xs, ys, x1);
        InterpTail(xs, ys, x2);
        InterpNonIncreasing(xs[1..], ys[1..], j - 1, x1, x2);
      }
    } else if x1 <= xs[0] {
      InterpWithin(xs, ys, ys[n - 1], ys[0], x2);
    } else if x1 <= xs[1] {
      if x2 <= xs[1] {
        LerpNonIncreasing(xs[0], xs[1], ys[0], ys[1], x1, x2);
      } else {
        LerpWithin(xs[0], xs[1], ys[0], ys[1], x1);
        if n > 2 {
          InterpWithin(xs[1..], ys[1..], ys[n - 1], ys[1], x2);
        }
      }
    } else if n > 2 {
      InterpNonIncreasing(xs[1..], ys[1..], 0, x1, x2);
    }
  }
}
