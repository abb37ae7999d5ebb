# Event carousel and location picker: a Dafny model

This project models the logic at the core of a small React Native (Expo) app.

The home screen (`app/index.tsx`) shows events as a horizontal carousel of
cards. Every card and every blurred backdrop image behind it is drawn with a
transform that depends only on the horizontal scroll offset. Each channel of
the transform is a clamped piecewise-linear interpolation over five
breakpoints centred on the card, at `(index - 2) * STEP` … `(index + 2) * STEP`.
The channels are scale, rotateY, translateY, translateX and opacity for a card,
and opacity and scale for a backdrop. A scroll listener rounds `offset / STEP`
to the nearest card and stores that event's colours in the `bgColors` state.
Nothing on screen reads `bgColors`: the gradient overlay has fixed colours.

The location screen (`app/location.tsx`) lets the user pick a country from a
fixed table and then one of its cities. The city list can be narrowed with a
case-insensitive search. "Continuer" navigates home once a city and a country
are selected.

Modules:

- `Interpolation` (`interp.dfy`): clamped piecewise-linear interpolation over a
  table with strictly increasing breakpoints. This is what React Native's
  `interpolate` with `extrapolate: 'clamp'` computes. The module also holds its
  general laws: values at the breakpoints, bounds, translation, mirroring,
  negation and monotonicity.
- `Carousel` (`carousel.dfy`): the card width, `STEP`, the five-point
  breakpoints, the seven output tables and the card and backdrop transforms,
  with their properties.
- `Focus` (`focus.dfy`): `Math.round`, the focused index, the scroll listener,
  the initial `bgColors` and the ten mock events.
- `Location` (`location.tsx` logic in `location.dfy`): the country table,
  lookup by code, the city filter, the Continue handler and the screen as a
  state machine over user events.

Two inputs are parameters rather than fixed values:

- The window width, `Dimensions.get('window').width`, is a parameter of
  `CardWidth` and `StepFor`. The other operations take the step itself as
  `step > 0`, which every window width yields (`Carousel.StepKeepsBreakpointsIncreasing`).
- `String.prototype.toLowerCase` is a parameter `lower: string -> string`. No
  property depends on what it does, except that the empty search must stay
  empty (`lower("") == ""`).

Behaviour of the code worth noting:

- The scroll listener does not clamp the rounded index into `[0, count - 1]`.
  It does not compare the index with the previous one. An empty event list
  gets no special result. It runs on every scroll event, rounds the index and
  changes `bgColors` only when `eventsData[index]` exists. Otherwise it leaves
  them as they were (`Focus.OnScroll`, `Focus.EventsScrollRange`).
- The step is never clamped, and it needs no clamping: it is at least
  `SPACING` = 20 (`Carousel.StepFor`).
- With the focus on card `i`, card `i + 1` leans +12° and +25. Its offset from
  its own centre is −STEP, which selects the second control value of each
  table (`'12deg'`, `25`). Card `i − 1` leans −12° and −25
  (`Carousel.NeighbourCards`).
- The selected city is not tied to the selected country. After France, Paris,
  "Changer" and Cameroun, Continue navigates home with Paris and Cameroun
  (`Location.CityOfAnotherCountry`).

## Model

| member | source | states |
|---|---|---|
| Carousel.CardWidth | app/index.tsx:17-18 | the card is 65% of the window width capped at 280: it is one of the two, and exceeds neither, so never wider than the window |
| Carousel.StepFor | app/index.tsx:20-24 | the distance between card centres is card width plus spacing, so it lies between 20 and 300 and is always positive |
| Carousel.StepKeepsBreakpointsIncreasing | app/index.tsx:17-24 | for every window width, STEP makes each card's five breakpoints strictly increasing, which is what the interpolation needs |
| Carousel.Breakpoints | app/index.tsx:36-42 | a card has five breakpoints, and breakpoint k is the offset at which card index + k - 2 sits in the centre |
| Carousel.BreakpointsIncreasing | app/index.tsx:36-42 | a card's five breakpoints are strictly increasing exactly when the step is positive |
| Carousel.BreakpointsAroundCentre | app/index.tsx:36-42 | the breakpoints are the card's centre moved by -2, -1, 0, +1 and +2 steps |
| Carousel.BreakpointsSelfMirror | app/index.tsx:36-42 | reflecting the breakpoints about the card's centre gives the same breakpoints |
| Carousel.Channel | app/index.tsx:44-48 | one `interpolate` call over the card's breakpoints: two or more steps left of the centre it gives the first control value, two or more steps right the last, and at the centre the middle one |
| Carousel.CardTransformAt | app/index.tsx:44-74 | every card channel stays within its table's range: scale in [0.8, 1], rotateY in [-25, 25], translateY in [0, ARC], translateX in [-40, 40], opacity in [0.6, 1] |
| Carousel.BackdropAt | app/index.tsx:159-177 | backdrop opacity stays in [0, 0.8] and backdrop scale in [1.1, 1.3] |
| Carousel.ChannelAtBreakpoint | app/index.tsx:36-48 | at the centre of card index + j - 2, a channel of card index takes its j-th control value exactly |
| Carousel.CentreIdentity | app/index.tsx:44-74 | a card at its own centre has the identity transform: scale 1, no rotation, no offset, opacity 1; its backdrop has opacity 0.8 and scale 1.3 |
| Carousel.NeighbourCards | app/index.tsx:44-74 | with the focus on card i, card i+1 shows (0.9, 12deg, 0.6 ARC, 25, 0.8) and card i-1 shows (0.9, -12deg, 0.6 ARC, -25, 0.8) |
| Carousel.Clamping | app/index.tsx:44-74 | two or more steps left of the centre every card and backdrop channel holds its first control value, and two or more steps right its last; nothing is extrapolated |
| Carousel.AtRestIff | app/index.tsx:44-177 | a card has scale 0.8 and opacity 0.6, and its backdrop has opacity 0 and scale 1.1, each exactly when the offset is two steps or more from the card's centre |
| Carousel.SameCurveForEveryCard | app/index.tsx:36-42 | card index at offset o has the transform of card 0 at o - index * STEP, for both card and backdrop |
| Carousel.ChannelMirror | app/index.tsx:44-48 | a channel whose table reads the same backwards takes equal values at equal distances either side of the centre |
| Carousel.ChannelAntiMirror | app/index.tsx:50-54 | a channel whose reversed table is its negation takes opposite values at equal distances either side of the centre |
| Carousel.Mirror | app/index.tsx:44-177 | scale, opacity, translateY and the backdrop are symmetric about the card's centre; rotateY and translateX are antisymmetric |
| Carousel.CardTableShapes | app/index.tsx:46-72 | the scale, opacity and translateY tables read the same backwards; scale and opacity fall from the middle entry outwards and translateY rises |
| Carousel.ChannelAttenuates | app/index.tsx:44-48 | a symmetric channel whose table falls away from the centre never increases as the distance from the centre grows |
| Carousel.ChannelRisesAway | app/index.tsx:57-61 | a symmetric channel whose table grows away from the centre never decreases as the distance from the centre grows |
| Carousel.Attenuation | app/index.tsx:44-74 | the further the offset is from a card's centre, the smaller, fainter and lower the card is (scale and opacity non-increasing, translateY non-decreasing) |
| Carousel.BackdropAttenuation | app/index.tsx:167-177 | the further the offset is from the centre, the fainter and smaller the backdrop is |
| Carousel.TurnMonotone | app/index.tsx:50-68 | as the offset grows a card's rotateY and translateX never increase |
| Interpolation.Lerp | app/index.tsx:44-48 | the linear piece between two breakpoints passes through both control points |
| Interpolation.Interp | app/index.tsx:44-48 | clamped interpolation: at or below the first breakpoint it gives the first value, at or above the last the last value |
| Interpolation.SegmentOf | app/index.tsx:44-48 | every offset inside the table lies on some segment between consecutive breakpoints |
| Interpolation.InterpOnSegment | app/index.tsx:44-48 | on any segment the interpolation is the straight line through that segment's two control points |
| Interpolation.InterpAtBreakpoint | app/index.tsx:44-48 | at each breakpoint the interpolation returns that breakpoint's control value |
| Interpolation.LerpWithin | app/index.tsx:44-48 | a linear piece stays between its two end values |
| Interpolation.InterpWithin | app/index.tsx:44-48 | the clamped interpolation never leaves the range of the control values |
| Interpolation.LerpAbove | app/index.tsx:44-48 | a linear piece is strictly above a bound its ends meet, when one end lies strictly above it and is not at the other end |
| Interpolation.InterpAboveInside | app/index.tsx:44-48 | strictly between the first and last breakpoints, the interpolation is strictly above a bound that only the outer control values reach |
| Interpolation.InterpTail | app/index.tsx:44-48 | from the second breakpoint on, dropping the first table entry does not change the result |
| Interpolation.InterpNegate | app/index.tsx:50-54 | negating the control values negates the interpolation |
| Interpolation.InterpShift | app/index.tsx:36-42 | moving all breakpoints by c moves the curve by c |
| Interpolation.LerpShift | app/index.tsx:44-48 | moving a linear piece and the point by the same amount leaves the value unchanged |
| Interpolation.ShiftIncreasing | app/index.tsx:36-42 | breakpoints moved by the same amount stay strictly increasing |
| Interpolation.LerpMirror | app/index.tsx:44-48 | a linear piece reflected about c, with its end values swapped, gives the same value at the reflected point |
| Interpolation.MirrorIncreasing | app/index.tsx:36-42 | reflecting increasing breakpoints about a point keeps them increasing |
| Interpolation.MirrorInside | app/index.tsx:44-48 | inside the table, reflecting the breakpoints and reversing the values gives the same value at the reflected offset |
| Interpolation.InterpMirror | app/index.tsx:44-48 | for every offset, reflecting the breakpoints about c and reversing the values gives the same value at 2c - x |
| Interpolation.LerpNonIncreasing | app/index.tsx:44-48 | a linear piece with a falling end value never increases |
| Interpolation.InterpNonIncreasing | app/index.tsx:44-48 | from a breakpoint after which the control values never increase, the interpolation never increases |
| Focus.Round | app/index.tsx:212 | Math.round returns the integer n with n - 1/2 <= x < n + 1/2, so halves round up |
| Focus.FocusIndex | app/index.tsx:211-212 | the rounded index is the card whose window [(i - 1/2) STEP, (i + 1/2) STEP) holds the offset |
| Focus.StepsApart | app/index.tsx:36-42 | two different card centres are at least one STEP apart |
| Focus.FocusIsNearest | app/index.tsx:211-212 | no card's centre is nearer the offset than the rounded index's centre |
| Focus.FocusedCardStandsOut | app/index.tsx:44-74 | the card at the rounded index is the largest, the most opaque and the highest on screen |
| Focus.InitialHome | app/index.tsx:204 | `bgColors` starts as the first event's colours, so it holds some event's colours from the start |
| Focus.OnScroll | app/index.tsx:210-216 | after a scroll `bgColors` either stays as it was or holds some event's colours, and it holds the rounded index's event's colours whenever the list has one there |
| Focus.ScrollWindow | app/index.tsx:210-216 | an offset in card k's window stores card k's colours when event k exists, and otherwise leaves `bgColors` unchanged |
| Focus.ScrollToCard | app/index.tsx:210-216 | snapped onto card k's centre, `bgColors` holds event k's colours |
| Focus.InitialAgreesWithRest | app/index.tsx:204-216 | the opening colours, those of event 0, are the ones the listener would pick at offset 0 |
| Focus.EventsScrollRange | app/index.tsx:210-216 | with the ten events `bgColors` can change only for offsets in [-STEP/2, 9.5 STEP), and any such offset stores one of the events' colours |
| Focus.ScrollAll | app/index.tsx:210-216 | after any sequence of scroll events `bgColors` is either what it was before or the colours of some event |
| Focus.ScrollsShowAnEvent | app/index.tsx:204-216 | starting from an event's colours, every sequence of scroll events leaves `bgColors` holding some event's colours |
| Focus.LastValidScrollWins | app/index.tsx:210-216 | if the last scroll event's index hits the list, `bgColors` holds that event's colours, whatever came before |
| Location.FindCountry | app/location.tsx:32 | a match carries the selected code and comes from the table; no match means no country has that code, and a null code matches nothing |
| Location.FindCountryUnique | app/location.tsx:32 | when codes are distinct, looking up a country's code finds that country |
| Location.CountryCodesDistinct | app/location.tsx:14-25 | no two countries of the table share a code |
| Location.Includes | app/location.tsx:34 | `includes` accepts the empty needle and every prefix of the name, and never a needle longer than the name |
| Location.IncludesSound | app/location.tsx:33-35 | whenever the search accepts, the needle occurs at some position of the city name |
| Location.IncludesComplete | app/location.tsx:33-35 | the search accepts every needle that occurs at some position |
| Location.IncludesIffOccurs | app/location.tsx:33-35 | includes holds exactly when the needle occurs as a contiguous run somewhere in the name |
| Location.FilterCities | app/location.tsx:33-35 | the filtered list keeps the cities' order and holds exactly the cities whose lower-cased name contains the lower-cased search, each as many times as the country lists it |
| Location.EmptySearchKeepsAll | app/location.tsx:33-35 | an empty search lists every city of the country, in order |
| Location.FilteredCities | app/location.tsx:32-35 | there is no list exactly when no country matches the code; otherwise the list is the country's cities matching the search, in order and with their repetitions |
| Location.HandleContinue | app/location.tsx:37-42 | Continue navigates to "/" exactly when both the city and the country are non-empty selections, and otherwise does nothing |
| Location.Step | app/location.tsx:70-136 | the handlers: a country press stores its code, "Changer" clears the country, typing stores the text, a city press stores the city; each leaves the other pieces of state alone; only Continue can produce an action, and that action is navigation to "/" |
| Location.Enabled | app/location.tsx:64-134 | the controls on display: a country press is offered exactly while no country is selected and for a code the lookup finds, and leaves a current country; "Changer" and the search field exactly while a country is selected; a city press exactly while a country is selected and the city is in the filtered list, which makes it one of the current country's cities; Continue exactly when a city is selected |
| Location.CountryPressOffered | app/location.tsx:64-70 | a country press is offered exactly while no country is selected and for a code some country of the table carries |
| Location.CityOfferedWithoutSearch | app/location.tsx:84-114 | with a country found and an empty search, every city of that country is offered |
| Location.Run | app/location.tsx:64-136 | the empty sequence leaves the state alone, and a run that goes through started with an event on display |
| Location.RunProvenance | app/location.tsx:97-114 | a selected city or search text that differs from the start's was set by some event of the run |
| Location.ContinueGuard | app/location.tsx:37-42 | pressing Continue never changes the state, and navigates home exactly when city and country are both selected |
| Location.ChangeKeepsCityAndSearch | app/location.tsx:90 | "Changer" clears only the country: the country list comes back while the city, the search text and the Continue button stay |
| Location.SelectCityExact | app/location.tsx:114 | pressing a city selects exactly that city, changes nothing else and puts Continue on display |
| Location.StepKeepsValid | app/location.tsx:64-134 | every control on display keeps the selected code in the table and the selected city among the cities the table lists |
| Location.RunKeepsValid | app/location.tsx:64-134 | whatever the user does from a valid state, the state stays valid |
| Location.RunAppend | app/location.tsx:64-134 | running a sequence of events and then more is the same as running them all together |
| Location.RunThen | app/location.tsx:64-136 | a run that reaches t, followed by more events, continues from t |
| Location.FranceLookup | app/location.tsx:20-32 | the lookup of "FR" in the table finds France |
| Location.ParisOffered | app/location.tsx:84-114 | with France selected and no search, the city list offers Paris |
| Location.PickFranceAndParis | app/location.tsx:70-114 | from the opening state the user can pick France and then Paris |
| Location.ChangeAfterParis | app/location.tsx:90 | with France and Paris selected, "Changer" forgets the country and keeps Paris |
| Location.FranceParisChange | app/location.tsx:70-114 | France, Paris, "Changer" is a run the screen offers, ending with no country and Paris |
| Location.ContinueShownButRejected | app/location.tsx:90-134 | after France, Paris and "Changer", Continue is on display but its handler stays put because the country is gone |
| Location.CameroonLookup | app/location.tsx:16-32 | the lookup of "CM" in the table finds Cameroun |
| Location.CameroonOffered | app/location.tsx:64-70 | with no country selected, the country list offers Cameroun |
| Location.FranceParisThenCameroon | app/location.tsx:64-114 | France, Paris, "Changer", Cameroun is a run the screen offers |
| Location.PickCameroon | app/location.tsx:64-70 | with a city kept from before, the country list lets the user pick Cameroun and the city is kept |
| Location.ParisInCameroon | app/location.tsx:14-42 | Paris is not a city of Cameroun, yet Continue navigates home with that pair |
| Location.CityOfAnotherCountry | app/location.tsx:37-134 | France, Paris, "Changer", Cameroun is a possible run, and it ends with Continue navigating home with a city its country does not list |

## Left out

- The animation runtime: the offset comes in as a number. The native driver, `Animated.event` wiring and frame scheduling are not modelled.
- Floating point: offsets, widths and interpolated values are exact reals. JavaScript's double rounding is not modelled.
- React Native's `interpolate` accepts non-decreasing input ranges. The model requires strictly increasing ones. Every positive STEP gives those.
- Rendering and styling: perspective, image sources, gradients, layout, shadows, text, and the `CARD_H` height, which nothing else reads.
- The window size, `Dimensions.get`, is a parameter and is not read from the device.
- `toLowerCase` is a parameter `lower`. Unicode case mapping is not modelled, and strings are sequences of characters rather than UTF-16 code units.
- Navigation (`router.replace('/')`) is an emitted `Navigate("/")` action. The navigator itself is not modelled.
- The card press handler only logs to the console and is left out. So is the pending storage of the chosen location, which the code leaves as a TODO.
- The other screens are not part of this model: the layout, profile, sports, sport detail and user screens.
- Event fields other than `id` and `colors` are not modelled: titles, dates, places, badges and images. The listener reads only `colors`.
- The validity invariant says that a selected city is listed by some country, not by the selected one. The screen does not keep them together (`Location.CityOfAnotherCountry`).
- `bgColors` is modelled as state only. Nothing on screen renders it: the gradient overlay at `app/index.tsx:230-235` has fixed colours, so the model claims nothing about what the user sees of it.
- Angles: the rotateY outputs are the strings `'25deg'` … `'-25deg'` in the code. The model treats them as reals in degrees.
- The country table `COUNTRIES` is data. It is stated through `Location.CountryCodesDistinct`, `Location.CameroonLookup` and the concrete runs, not through a row of its own.
