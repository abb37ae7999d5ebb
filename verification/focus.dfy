/** The home screen's scroll listener (app/index.tsx): which card is in focus,
    and the `bgColors` state that follows it.

    The listener rounds offset / STEP to the nearest integer the way
    JavaScript's Math.round does (halves go up), and if the event list has an
    entry at that index it stores that entry's colours in `bgColors`. Nothing
    on screen reads `bgColors`: the gradient overlay has fixed colours.
    It fires on every scroll event; there is no comparison with the previous
    index and no clamping of out-of-range indices.
 */
module Focus {
  import opened Interpolation
  import opened Carousel

  /** An event of the carousel; only the fields the home screen's logic reads. */
  datatype EventCardType = EventCardType(id: string, colors: seq<string>)

  /** The mock event list (data/events.ts): ids and colour pairs. */
  const EVENTS: seq<EventCardType> := [
    EventCardType("1", ["#1a1a2e", "#0f3460"]),
    EventCardType("2", ["#1b4332", "#2d6a4f"]),
    EventCardType("3", ["#1e3a5f", "#2a5a8a"]),
    EventCardType("4", ["#1a472a", "#2c6b3f"]),
    EventCardType("5", ["#1b3a2f", "#2e5c4a"]),
    EventCardType("6", ["#2b1d4e", "#4a3572"]),
    EventCardType("7", ["#1a1f3a", "#2d3561"]),
    EventCardType("8", ["#2b0d0d", "#4a1616"]),
    EventCardType("9", ["#0d1f2d", "#1a3a4f"]),
    EventCardType("10", ["#1d2d1a", "#354d2f"])
  ]

  /** The home screen's state: the `bgColors` colours. */
  datatype Home = Home(bgColors: seq<string>)

  /** Math.round: the integer nearest to x, halves rounded up. */
  function Round(x: real): (n: int)
    ensures n as real - 0.5 <= x < n as real + 0.5
  {
    (x + 0.5).Floor
  }

  /** Only one integer lies in the half-open window around x. */
  lemma RoundUnique(x: real, n: int)
    requires n as real - 0.5 <= x < n as real + 0.5
    ensures Round(x) == n
  {
  }

  /** The index the scroll listener computes: the card whose snap window
      [(i - 1/2) * step, (i + 1/2) * step) holds the offset. */
  function FocusIndex(offsetX: real, step: real): (i: int)
    requires step > 0.0
    ensures (i as real - 0.5) * step <= offsetX < (i as real + 0.5) * step
  {
    var n := Round(offsetX / step);
    ScaleWindow(offsetX, step, n as real - 0.5, n as real + 0.5);
    n
  }

  /** A quotient o / s in [lo, hi) with s positive puts o in [lo * s, hi * s). */
  lemma ScaleWindow(o: real, s: real, lo: real, hi: real)
    requires s > 0.0 && lo <= o / s < hi
    ensures lo * s <= o < hi * s
  {
    var q := o / s;
    assert q * s == o;
    MulSigns(q - lo, s);
    MulSigns(hi - q, s);
    assert 0.0 < hi - q;
    assert 0.0 < (hi - q) * s;
    assert (hi - q) * s == hi * s - o;
  }

  /** Two distinct card centres are at least one step apart. */
  lemma StepsApart(i: int, j: int, s: real)
    requires i != j && s > 0.0
    ensures Abs(Centre(i, s) - Centre(j, s)) >= s
    ensures Centre(i, s) - Centre(j, s) == (i - j) as real * s
  {
    assert Centre(i, s) - Centre(j, s) == (i as real - j as real) * s;
    if i > j {
      MulSigns((i - j) as real - 1.0, s);
    } else {
      MulSigns((j - i) as real - 1.0, s);
    }
  }

  /** The focused card's centre is at least as near the offset as any other card's. */
  lemma FocusIsNearest(offsetX: real, step: real, j: int)
    requires step > 0.0
    ensures Abs(offsetX - Centre(FocusIndex(offsetX, step), step)) <= Abs(offsetX - Centre(j, step))
  {
    var i := FocusIndex(offsetX, step);
    var e := offsetX - Centre(i, step);
    assert -0.5 * step <= e < 0.5 * step;
    if j != i {
      StepsApart(i, j, step);
    }
  }

  /** The focused card is the largest, the most opaque and the highest card
      on screen. */
  lemma FocusedCardStandsOut(offsetX: real, step: real, j: int)
    requires step > 0.0
    ensures var f := FocusIndex(offsetX, step);
      var tf, tj := CardTransformAt(f, step, offsetX), CardTransformAt(j, step, offsetX);
      tj.scale <= tf.scale && tj.opacity <= tf.opacity && tf.translateY <= tj.translateY
  {
    var f := FocusIndex(offsetX, step);
    FocusIsNearest(offsetX, step, j);
    SameCurveForEveryCard(f, step, offsetX);
    SameCurveForEveryCard(j, step, offsetX);
    var of, oj := offsetX - Centre(f, step), offsetX - Centre(j, step);
    assert Centre(0, step) == 0.0;
    Attenuation(0, step, of, oj);
  }

  /** The state when the screen opens: the first event's colours. */
  function InitialHome(events: seq<EventCardType>): (h: Home)
    requires |events| > 0
    ensures ShowsEvent(events, h)
  {
    Home(events[0].colors)
  }

  /** The scroll listener: adopt the colours of the event at the rounded
      index, when the list has one there. */
  function OnScroll(events: seq<EventCardType>, h: Home, offsetX: real, step: real): (h': Home)
    requires step > 0.0
    ensures h' == h || exists k :: 0 <= k < |events| && h'.bgColors == events[k].colors
    ensures 0 <= FocusIndex(offsetX, step) < |events| ==>
      h'.bgColors == events[FocusIndex(offsetX, step)].colors
  {
    var index := FocusIndex(offsetX, step);
    if 0 <= index < |events| then Home(events[index].colors) else h
  }

  /** An offset inside card k's snap window stores card k's colours when the
      list has a card k, and otherwise leaves `bgColors` alone. */
  lemma ScrollWindow(events: seq<EventCardType>, h: Home, offsetX: real, step: real, k: int)
    requires step > 0.0
    requires (k as real - 0.5) * step <= offsetX < (k as real + 0.5) * step
    ensures 0 <= k < |events| ==> OnScroll(events, h, offsetX, step).bgColors == events[k].colors
    ensures !(0 <= k < |events|) ==> OnScroll(events, h, offsetX, step) == h
  {
    var i := FocusIndex(offsetX, step);
    assert (k as real - 0.5) * step == Centre(k, step) - 0.5 * step;
    assert (k as real + 0.5) * step == Centre(k, step) + 0.5 * step;
    assert (i as real - 0.5) * step == Centre(i, step) - 0.5 * step;
    assert (i as real + 0.5) * step == Centre(i, step) + 0.5 * step;
    if i != k {
      StepsApart(i, k, step);
    }
  }

  /** Snapped onto card k, `bgColors` holds card k's colours. */
  lemma ScrollToCard(events: seq<EventCardType>, h: Home, step: real, k: int)
    requires step > 0.0 && 0 <= k < |events|
    ensures OnScroll(events, h, Centre(k, step), step).bgColors == events[k].colors
  {
    ScrollWindow(events, h, Centre(k, step), step, k);
  }

  /** The opening colours are the ones the listener picks at rest (offset 0). */
  lemma InitialAgreesWithRest(events: seq<EventCardType>, step: real)
    requires step > 0.0 && |events| > 0
    ensures OnScroll(events, InitialHome(events), 0.0, step) == InitialHome(events)
  {
    ScrollWindow(events, InitialHome(events), 0.0, step, 0);
  }

  /** With the ten mock events `bgColors` can change only for offsets in
      [-step/2, 9.5 * step), and every such offset stores one event's colours;
      further left or right it stays as it was. */
  lemma EventsScrollRange(h: Home, offsetX: real, step: real)
    requires step > 0.0
    ensures |EVENTS| == 10
    ensures OnScroll(EVENTS, h, offsetX, step) != h ==> -0.5 * step <= offsetX < 9.5 * step
    ensures -0.5 * step <= offsetX < 9.5 * step ==>
      exists k :: 0 <= k < 10 && OnScroll(EVENTS, h, offsetX, step).bgColors == EVENTS[k].colors
  {
    var i := FocusIndex(offsetX, step);
    if 0 <= i < 10 {
      MulSigns(i as real, step);
      MulSigns(9.0 - i as real, step);
    } else if i < 0 {
      MulSigns(-i as real - 1.0, step);
    } else {
      MulSigns(i as real - 10.0, step);
    }
  }

  /** The listener applied to a run of scroll events, oldest first: the
      result is the starting state or the colours of one of the events. */
  function ScrollAll(events: seq<EventCardType>, h: Home, offsets: seq<real>, step: real): (h': Home)
    requires step > 0.0
    ensures h' == h || ShowsEvent(events, h')
    decreases |offsets|
  {
    if |offsets| == 0 then h
    else ScrollAll(events, OnScroll(events, h, offsets[0], step), offsets[1..], step)
  }

  /** `bgColors` holds the colours of some event. */
  ghost predicate ShowsEvent(events: seq<EventCardType>, h: Home) {
    exists k :: 0 <= k < |events| && h.bgColors == events[k].colors
  }

  /** However the user scrolls, `bgColors` always holds the colours of one of
      the events, starting with the first. */
  lemma {:induction false} ScrollsShowAnEvent(events: seq<EventCardType>, h: Home, offsets: seq<real>, step: real)
    requires step > 0.0 && ShowsEvent(events, h)
    ensures ShowsEvent(events, ScrollAll(events, h, offsets, step))
    decreases |offsets|
  {
    if |offsets| > 0 {
      ScrollsShowAnEvent(events, OnScroll(events, h, offsets[0], step), offsets[1..], step);
    }
  }

  /** When the last scroll event's index hits the list, it decides `bgColors`. */
  lemma {:induction false} LastValidScrollWins(events: seq<EventCardType>, h: Home, offsets: seq<real>, step: real)
    requires step > 0.0 && |offsets| > 0
    requires 0 <= FocusIndex(offsets[|offsets| - 1], step) < |events|
    ensures ScrollAll(events, h, offsets, step).bgColors
         == events[FocusIndex(offsets[|offsets| - 1], step)].colors
    decreases |offsets|
  {
    if |offsets| > 1 {
      LastValidScrollWins(events, OnScroll(events, h, offsets[0], step), offsets[1..], step);
    }
  }
}
