/** The home screen's event carousel (app/index.tsx).

    Every event card, and the blurred backdrop image behind it, is drawn with
    a transform that depends only on the horizontal scroll offset. Each
    channel of that transform is the clamped interpolation of the offset over
    five breakpoints centred on the card: (index - 2) * STEP ... (index + 2) * STEP.
    Angles ('25deg') are reals in degrees.
 */
module Carousel {
  import opened Interpolation

  /** Gap between two neighbouring cards. */
  const SPACING: real := 20.0
  /** Height of the arc the receding cards sink along. */
  const ARC: real := 48.0
  /** Largest card width. */
  const MAX_CARD_W: real := 280.0

  /** Card width for a window of the given width: 65% of it, at most 280. */
  function CardWidth(windowWidth: real): (w: real)
    requires windowWidth >= 0.0
    ensures 0.0 <= w <= MAX_CARD_W
    ensures w <= windowWidth
    ensures w <= windowWidth * 0.65
    ensures w == windowWidth * 0.65 || w == MAX_CARD_W
  {
    Min(windowWidth * 0.65, MAX_CARD_W)
  }

  /** Distance between two card centres. */
  function StepFor(windowWidth: real): (step: real)
    requires windowWidth >= 0.0
    ensures SPACING <= step <= MAX_CARD_W + SPACING
  {
    CardWidth(windowWidth) + SPACING
  }

  /** The scroll offset at which card `index` sits in the centre. */
  function Centre(index: int, step: real): real {
    index as real * step
  }

  /** The five breakpoints of card `index`: breakpoint k is the offset at
      which card index + k - 2 sits in the centre. */
  function Breakpoints(index: int, step: real): (xs: seq<real>)
    ensures |xs| == 5
    ensures forall k :: 0 <= k < 5 ==> xs[k] == Centre(index + k - 2, step)
  {
    [ (index - 2) as real * step,
      (index - 1) as real * step,
      index as real * step,
      (index + 1) as real * step,
      (index + 2) as real * step ]
  }

  /** The same breakpoints, written as distances from the card's centre. */
  lemma BreakpointsAroundCentre(index: int, step: real)
    ensures var c := Centre(index, step);
      Breakpoints(index, step) == [c - 2.0 * step, c - step, c, c + step, c + 2.0 * step]
  {
    var i, c, xs := index as real, Centre(index, step), Breakpoints(index, step);
    assert xs[0] == (i - 2.0) * step == c - 2.0 * step;
    assert xs[1] == (i - 1.0) * step == c - step;
    assert xs[3] == (i + 1.0) * step == c + step;
    assert xs[4] == (i + 2.0) * step == c + 2.0 * step;
    assert xs == [xs[0], xs[1], xs[2], xs[3], xs[4]];
  }

  // Control values of each channel, one per breakpoint.
  const SCALE_OUT: seq<real> := [0.8, 0.9, 1.0, 0.9, 0.8]
  const ROTATE_Y_OUT: seq<real> := [25.0, 12.0, 0.0, -12.0, -25.0]
  const TRANSLATE_Y_OUT: seq<real> := [ARC, ARC * 0.6, 0.0, ARC * 0.6, ARC]
  const TRANSLATE_X_OUT: seq<real> := [40.0, 25.0, 0.0, -25.0, -40.0]
  const OPACITY_OUT: seq<real> := [0.6, 0.8, 1.0, 0.8, 0.6]
  const BG_OPACITY_OUT: seq<real> := [0.0, 0.5, 0.8, 0.5, 0.0]
  const BG_SCALE_OUT: seq<real> := [1.1, 1.2, 1.3, 1.2, 1.1]

  datatype CardTransform = CardTransform(
    scale: real, rotateY: real, translateY: real, translateX: real, opacity: real)

  datatype BackdropTransform = BackdropTransform(opacity: real, scale: real)

  /** The transform every card has when it is in the centre. */
  const CENTRED: CardTransform := CardTransform(1.0, 0.0, 0.0, 0.0, 1.0)

  /** The breakpoints rise strictly exactly when the step is positive. */
  lemma BreakpointsIncreasing(index: int, step: real)
    ensures Increasing(Breakpoints(index, step)) <==> step > 0.0
  {
    var xs := Breakpoints(index, step);
    BreakpointsAroundCentre(index, step);
    if Increasing(xs) {
      assert xs[0] < xs[1];
    }
  }

  /** Every window width gives breakpoints that rise strictly. */
  lemma StepKeepsBreakpointsIncreasing(windowWidth: real, index: int)
    requires windowWidth >= 0.0
    ensures Increasing(Breakpoints(index, StepFor(windowWidth)))
  {
    BreakpointsIncreasing(index, StepFor(windowWidth));
  }

  /** One channel of card `index`: its control values interpolated at `offset`. */
  function Channel(index: int, step: real, out: seq<real>, offset: real): (v: real)
    requires step > 0.0 && |out| == 5
    ensures offset <= Centre(index - 2, step) ==> v == out[0]
    ensures offset >= Centre(index + 2, step) ==> v == out[4]
    ensures offset == Centre(index, step) ==> v == out[2]
  {
    var xs := Breakpoints(index, step);
    BreakpointsIncreasing(index, step);
    InterpAtBreakpoint(xs, out, 2);
    Interp(xs, out, offset)
  }

  /** The transform of event card `index` at scroll offset `offset`. */
  function CardTransformAt(index: int, step: real, offset: real): (t: CardTransform)
    requires step > 0.0
    ensures 0.8 <= t.scale <= 1.0
    ensures -25.0 <= t.rotateY <= 25.0
    ensures 0.0 <= t.translateY <= ARC
    ensures -40.0 <= t.translateX <= 40.0
    ensures 0.6 <= t.opacity <= 1.0
  {
    var xs := Breakpoints(index, step);
    BreakpointsIncreasing(index, step);
    InterpWithin(xs, SCALE_OUT, 0.8, 1.0, offset);
    InterpWithin(xs, ROTATE_Y_OUT, -25.0, 25.0, offset);
    InterpWithin(xs, TRANSLATE_Y_OUT, 0.0, ARC, offset);
    InterpWithin(xs, TRANSLATE_X_OUT, -40.0, 40.0, offset);
    InterpWithin(xs, OPACITY_OUT, 0.6, 1.0, offset);
    CardTransform(
      Channel(index, step, SCALE_OUT, offset),
      Channel(index, step, ROTATE_Y_OUT, offset),
      Channel(index, step, TRANSLATE_Y_OUT, offset),
      Channel(index, step, TRANSLATE_X_OUT, offset),
      Channel(index, step, OPACITY_OUT, offset))
  }

  /** The transform of the blurred backdrop image of event `index`. */
  function BackdropAt(index: int, step: real, offset: real): (b: BackdropTransform)
    requires step > 0.0
    ensures 0.0 <= b.opacity <= 0.8
    ensures 1.1 <= b.scale <= 1.3
  {
    var xs := Breakpoints(index, step);
    BreakpointsIncreasing(index, step);
    InterpWithin(xs, BG_OPACITY_OUT, 0.0, 0.8, offset);
    InterpWithin(xs, BG_SCALE_OUT, 1.1, 1.3, offset);
    BackdropTransform(
      Channel(index, step, BG_OPACITY_OUT, offset),
      Channel(index, step, BG_SCALE_OUT, offset))
  }

  function Abs(x: real): real { if x < 0.0 then -x else x }

  // ---------------------------------------------------------------------------
  // Properties

  /** At the centre of card index + j - 2 a channel of card `index` takes its
      j-th control value. */
  lemma ChannelAtBreakpoint(index: int, step: real, out: seq<real>, j: nat)
    requires step > 0.0 && |out| == 5 && j < 5
    ensures Channel(index, step, out, Centre(index + j - 2, step)) == out[j]
  {
    var xs := Breakpoints(index, step);
    BreakpointsIncreasing(index, step);
    assert xs[j] == Centre(index + j - 2, step);
    InterpAtBreakpoint(xs, out, j);
  }

  /** The centred card is drawn full size, flat, unshifted and opaque; its
      backdrop is at its brightest and largest. */
  lemma CentreIdentity(index: int, step: real)
    requires step > 0.0
    ensures CardTransformAt(index, step, Centre(index, step)) == CENTRED
    ensures BackdropAt(index, step, Centre(index, step)) == BackdropTransform(0.8, 1.3)
  {
    var xs := Breakpoints(index, step);
    BreakpointsIncreasing(index, step);
    InterpAtBreakpoint(xs, SCALE_OUT, 2);
    InterpAtBreakpoint(xs, ROTATE_Y_OUT, 2);
    InterpAtBreakpoint(xs, TRANSLATE_Y_OUT, 2);
    InterpAtBreakpoint(xs, TRANSLATE_X_OUT, 2);
    InterpAtBreakpoint(xs, OPACITY_OUT, 2);
    InterpAtBreakpoint(xs, BG_OPACITY_OUT, 2);
    InterpAtBreakpoint(xs, BG_SCALE_OUT, 2);
  }

  /** Seen from the centre of card `index`, the next card (index + 1) is drawn
      with its breakpoint-1 values, turned +12 degrees and shifted +25; the
      previous card mirrors that. */
  lemma NeighbourCards(index: int, step: real)
    requires step > 0.0
    ensures CardTransformAt(index + 1, step, Centre(index, step))
         == CardTransform(0.9, 12.0, ARC * 0.6, 25.0, 0.8)
    ensures CardTransformAt(index - 1, step, Centre(index, step))
         == CardTransform(0.9, -12.0, ARC * 0.6, -25.0, 0.8)
  {
    ChannelAtBreakpoint(index + 1, step, SCALE_OUT, 1);
    ChannelAtBreakpoint(index + 1, step, ROTATE_Y_OUT, 1);
    ChannelAtBreakpoint(index + 1, step, TRANSLATE_Y_OUT, 1);
    ChannelAtBreakpoint(index + 1, step, TRANSLATE_X_OUT, 1);
    ChannelAtBreakpoint(index + 1, step, OPACITY_OUT, 1);
    ChannelAtBreakpoint(index - 1, step, SCALE_OUT, 3);
    ChannelAtBreakpoint(index - 1, step, ROTATE_Y_OUT, 3);
    ChannelAtBreakpoint(index - 1, step, TRANSLATE_Y_OUT, 3);
    ChannelAtBreakpoint(index - 1, step, TRANSLATE_X_OUT, 3);
    ChannelAtBreakpoint(index - 1, step, OPACITY_OUT, 3);
  }

  /** Two steps or more from the centre nothing is extrapolated: every channel
      holds its outermost control value. */
  lemma Clamping(index: int, step: real, offset: real)
    requires step > 0.0
    ensures offset <= Centre(index - 2, step) ==>
      CardTransformAt(index, step, offset) == CardTransform(0.8, 25.0, ARC, 40.0, 0.6)
      && BackdropAt(index, step, offset) == BackdropTransform(0.0, 1.1)
    ensures offset >= Centre(index + 2, step) ==>
      CardTransformAt(index, step, offset) == CardTransform(0.8, -25.0, ARC, -40.0, 0.6)
      && BackdropAt(index, step, offset) == BackdropTransform(0.0, 1.1)
  {
    BreakpointsIncreasing(index, step);
  }

  /** A card is at rest (smallest, faintest, its backdrop hidden) exactly
      when the offset is two steps or more from its centre. */
  lemma AtRestIff(index: int, step: real, offset: real)
    requires step > 0.0
    ensures var far := Abs(offset - Centre(index, step)) >= 2.0 * step;
      && (CardTransformAt(index, step, offset).scale == 0.8 <==> far)
      && (CardTransformAt(index, step, offset).opacity == 0.6 <==> far)
      && (BackdropAt(index, step, offset).opacity == 0.0 <==> far)
      && (BackdropAt(index, step, offset).scale == 1.1 <==> far)
  {
    var xs := Breakpoints(index, step);
    BreakpointsIncreasing(index, step);
    BreakpointsAroundCentre(index, step);
    if xs[0] < offset < xs[4] {
      InterpAboveInside(xs, SCALE_OUT, 0.8, offset);
      InterpAboveInside(xs, OPACITY_OUT, 0.6, offset);
      InterpAboveInside(xs, BG_OPACITY_OUT, 0.0, offset);
      InterpAboveInside(xs, BG_SCALE_OUT, 1.1, offset);
    }
  }

  /** Every card follows the same curve, moved to its own centre: card
      `index` at `offset` looks like card 0 at `offset - index * step`. */
  lemma SameCurveForEveryCard(index: int, step: real, offset: real)
    requires step > 0.0
    ensures CardTransformAt(index, step, offset)
         == CardTransformAt(0, step, offset - Centre(index, step))
    ensures BackdropAt(index, step, offset)
         == BackdropAt(0, step, offset - Centre(index, step))
  {
    var c := Centre(index, step);
    var xs, base := Breakpoints(index, step), Breakpoints(0, step);
    BreakpointsIncreasing(0, step);
    BreakpointsAroundCentre(index, step);
    BreakpointsAroundCentre(0, step);
    assert xs == Shift(base, c);
    var x := offset - c;
    assert x + c == offset;
    InterpShift(base, SCALE_OUT, c, x);
    InterpShift(base, ROTATE_Y_OUT, c, x);
    InterpShift(base, TRANSLATE_Y_OUT, c, x);
    InterpShift(base, TRANSLATE_X_OUT, c, x);
    InterpShift(base, OPACITY_OUT, c, x);
    InterpShift(base, BG_OPACITY_OUT, c, x);
    InterpShift(base, BG_SCALE_OUT, c, x);
  }

  /** Breakpoints of card `index` are symmetric about its centre. */
  lemma BreakpointsSelfMirror(index: int, step: real)
    ensures MirrorAbout(Breakpoints(index, step), Centre(index, step)) == Breakpoints(index, step)
  {
    BreakpointsAroundCentre(index, step);
  }

  /** A channel whose control values read the same backwards takes the same
      value at the same distance either side of the centre. */
  lemma ChannelMirror(index: int, step: real, out: seq<real>, d: real)
    requires step > 0.0 && |out| == 5 && Reverse(out) == out
    ensures Channel(index, step, out, Centre(index, step) + d)
         == Channel(index, step, out, Centre(index, step) - d)
  {
    var c := Centre(index, step);
    BreakpointsIncreasing(index, step);
    BreakpointsSelfMirror(index, step);
    assert 2.0 * c - (c + d) == c - d;
    InterpMirror(Breakpoints(index, step), out, c, c + d);
  }

  /** A channel whose control values read backwards are their negation takes
      opposite values at the same distance either side of the centre. */
  lemma ChannelAntiMirror(index: int, step: real, out: seq<real>, d: real)
    requires step > 0.0 && |out| == 5 && Reverse(out) == Negate(out)
    ensures Channel(index, step, out, Centre(index, step) + d)
         == -Channel(index, step, out, Centre(index, step) - d)
  {
    var c := Centre(index, step);
    BreakpointsIncreasing(index, step);
    BreakpointsSelfMirror(index, step);
    assert 2.0 * c - (c + d) == c - d;
    InterpMirror(Breakpoints(index, step), out, c, c + d);
    InterpNegate(Breakpoints(index, step), out, c - d);
  }

  /** Scale, opacity and vertical offset are the same at the same distance
      either side of the centre; rotation and horizontal offset change sign. */
  lemma Mirror(index: int, step: real, d: real)
    requires step > 0.0
    ensures var c := Centre(index, step);
      var p, m := CardTransformAt(index, step, c + d), CardTransformAt(index, step, c - d);
      && p.scale == m.scale && p.opacity == m.opacity && p.translateY == m.translateY
      && p.rotateY == -m.rotateY && p.translateX == -m.translateX
    ensures var c := Centre(index, step);
      BackdropAt(index, step, c + d) == BackdropAt(index, step, c - d)
  {
    Palindrome5(SCALE_OUT);
    Palindrome5(OPACITY_OUT);
    Palindrome5(TRANSLATE_Y_OUT);
    Palindrome5(BG_OPACITY_OUT);
    Palindrome5(BG_SCALE_OUT);
    AntiPalindrome5(ROTATE_Y_OUT);
    AntiPalindrome5(TRANSLATE_X_OUT);
    ChannelMirror(index, step, SCALE_OUT, d);
    ChannelMirror(index, step, OPACITY_OUT, d);
    ChannelMirror(index, step, TRANSLATE_Y_OUT, d);
    ChannelMirror(index, step, BG_OPACITY_OUT, d);
    ChannelMirror(index, step, BG_SCALE_OUT, d);
    ChannelAntiMirror(index, step, ROTATE_Y_OUT, d);
    ChannelAntiMirror(index, step, TRANSLATE_X_OUT, d);
  }

  /** A mirrored channel whose control values never increase from the centre
      outwards never increases with the distance from the centre. */
  lemma ChannelAttenuates(index: int, step: real, out: seq<real>, o1: real, o2: real)
    requires step > 0.0 && |out| == 5 && Reverse(out) == out && NonIncreasingFrom(out, 2)
    requires Abs(o1 - Centre(index, step)) <= Abs(o2 - Centre(index, step))
    ensures Channel(index, step, out, o2) <= Channel(index, step, out, o1)
  {
    var c := Centre(index, step);
    var d1, d2 := Abs(o1 - c), Abs(o2 - c);
    // Fold both offsets onto the right half, where the centre is breakpoint 2.
    ChannelMirror(index, step, out, d1);
    ChannelMirror(index, step, out, d2);
    assert o1 == c + d1 || o1 == c - d1;
    assert o2 == c + d2 || o2 == c - d2;
    BreakpointsIncreasing(index, step);
    InterpNonIncreasing(Breakpoints(index, step), out, 2, c + d1, c + d2);
  }

  /** A mirrored channel whose control values never decrease from the centre
      outwards never decreases with the distance from the centre. */
  lemma ChannelRisesAway(index: int, step: real, out: seq<real>, o1: real, o2: real)
    requires step > 0.0 && |out| == 5 && Reverse(out) == out
    requires forall a, b :: 2 <= a <= b < 5 ==> out[a] <= out[b]
    requires Abs(o1 - Centre(index, step)) <= Abs(o2 - Centre(index, step))
    ensures Channel(index, step, out, o1) <= Channel(index, step, out, o2)
  {
    var low := Negate(out);
    assert Reverse(low) == low by {
      forall k | 0 <= k < 5 ensures Reverse(low)[k] == low[k] {
        assert Reverse(out)[k] == out[k];
      }
    }
    ChannelAttenuates(index, step, low, o1, o2);
    BreakpointsIncreasing(index, step);
    InterpNegate(Breakpoints(index, step), out, o1);
    InterpNegate(Breakpoints(index, step), out, o2);
  }

  /** A five-entry table whose outer and inner pairs agree reads the same backwards. */
  lemma Palindrome5(ys: seq<real>)
    requires |ys| == 5 && ys[0] == ys[4] && ys[1] == ys[3]
    ensures Reverse(ys) == ys
  {
    var r := Reverse(ys);
    assert r[0] == ys[0] && r[1] == ys[1] && r[2] == ys[2] && r[3] == ys[3] && r[4] == ys[4];
  }

  /** A five-entry table that is zero in the middle and whose pairs are
      opposite reads as its own negation backwards. */
  lemma AntiPalindrome5(ys: seq<real>)
    requires |ys| == 5 && ys[0] == -ys[4] && ys[1] == -ys[3] && ys[2] == 0.0
    ensures Reverse(ys) == Negate(ys)
  {
    var r, n := Reverse(ys), Negate(ys);
    assert r[0] == n[0] && r[1] == n[1] && r[2] == n[2] && r[3] == n[3] && r[4] == n[4];
  }

  /** A five-entry table falling from the middle entry outwards. */
  lemma FallsFromCentre(ys: seq<real>)
    requires |ys| == 5 && ys[4] <= ys[3] <= ys[2]
    ensures NonIncreasingFrom(ys, 2)
  {
  }

  /** The card tables read the same backwards; scale and opacity fall from
      the centre outwards and translateY rises. */
  lemma CardTableShapes()
    ensures Reverse(SCALE_OUT) == SCALE_OUT && NonIncreasingFrom(SCALE_OUT, 2)
    ensures Reverse(OPACITY_OUT) == OPACITY_OUT && NonIncreasingFrom(OPACITY_OUT, 2)
    ensures Reverse(TRANSLATE_Y_OUT) == TRANSLATE_Y_OUT
    ensures forall a, b :: 2 <= a <= b < 5 ==> TRANSLATE_Y_OUT[a] <= TRANSLATE_Y_OUT[b]
  {
    Palindrome5(SCALE_OUT);
    Palindrome5(OPACITY_OUT);
    Palindrome5(TRANSLATE_Y_OUT);
    FallsFromCentre(SCALE_OUT);
    FallsFromCentre(OPACITY_OUT);
  }

  /** Moving away from the centre (in either direction) a card never grows,
      never brightens and never rises. */
  lemma Attenuation(index: int, step: real, o1: real, o2: real)
    requires step > 0.0
    requires Abs(o1 - Centre(index, step)) <= Abs(o2 - Centre(index, step))
    ensures var t1, t2 := CardTransformAt(index, step, o1), CardTransformAt(index, step, o2);
      t2.scale <= t1.scale && t2.opacity <= t1.opacity && t1.translateY <= t2.translateY
  {
    CardTableShapes();
    ChannelAttenuates(index, step, SCALE_OUT, o1, o2);
    ChannelAttenuates(index, step, OPACITY_OUT, o1, o2);
    ChannelRisesAway(index, step, TRANSLATE_Y_OUT, o1, o2);
  }

  /** Moving away from the centre a backdrop never brightens and never grows. */
  lemma BackdropAttenuation(index: int, step: real, o1: real, o2: real)
    requires step > 0.0
    requires Abs(o1 - Centre(index, step)) <= Abs(o2 - Centre(index, step))
    ensures var b1, b2 := BackdropAt(index, step, o1), BackdropAt(index, step, o2);
      b2.opacity <= b1.opacity && b2.scale <= b1.scale
  {
    Palindrome5(BG_OPACITY_OUT);
    Palindrome5(BG_SCALE_OUT);
    FallsFromCentre(BG_OPACITY_OUT);
    FallsFromCentre(BG_SCALE_OUT);
    ChannelAttenuates(index, step, BG_OPACITY_OUT, o1, o2);
    ChannelAttenuates(index, step, BG_SCALE_OUT, o1, o2);
  }

  /** As the offset grows a card turns and slides steadily one way. */
  lemma TurnMonotone(index: int, step: real, o1: real, o2: real)
    requires step > 0.0 && o1 <= o2
    ensures var t1, t2 := CardTransformAt(index, step, o1), CardTransformAt(index, step, o2);
      t2.rotateY <= t1.rotateY && t2.translateX <= t1.translateX
  {
    var xs := Breakpoints(index, step);
    BreakpointsIncreasing(index, step);
    assert xs[0] <= o1 || o1 <= xs[0];
    if o1 <= xs[0] {
      // Left of the table the values are clamped; compare from the first breakpoint.
      InterpNonIncreasing(xs, ROTATE_Y_OUT, 0, xs[0], Max(o2, xs[0]));
      InterpNonIncreasing(xs, TRANSLATE_X_OUT, 0, xs[0], Max(o2, xs[0]));
    } else {
      InterpNonIncreasing(xs, ROTATE_Y_OUT, 0, o1, o2);
      InterpNonIncreasing(xs, TRANSLATE_X_OUT, 0, o1, o2);
    }
  }
}
