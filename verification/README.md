# Restaurant fortune wheel, modelled in Dafny

The app keeps a list of restaurants, each with an integer weight
("probability", 1 to 100 through the admin inputs). A visitor spins a wheel
that draws one restaurant with likelihood proportional to its weight. The
wheel is drawn as one segment per restaurant, sized by weight, and an eased
60-frame animation turns it before the winner is shown in gold. An admin
can add, delete and edit entries.

This project models the logic of `app.py` with exact rationals (`real`)
wherever the app divides weights:

- `restaurants.dfy`, module `Restaurants`: the option record, weight sums
  and prefix sums, and the bounds the admin inputs keep.
- `selector.dfy`, module `Selector`: `spin_wheel`. The weights are
  normalised, with the uniform fallback when they sum to zero. The
  categorical draw bisects the cumulative normalised weights with the
  uniform variate `u`. The variate is a parameter.
- `wheel.dfy`, module `Wheel`: the bookkeeping of `generate_wheel_svg`.
  For each segment it keeps the start angle, the sweep, the SVG large-arc
  flag (section 8.3.8 of SVG 1.1), the fill colour (palette cycled by index,
  gold for the highlighted index), and the label angle and text. There is a
  specification function (`Layout`) and a loop method with the running
  angle (`BuildSegments`).
- `spin.dfy`, module `Spin`: the spin script at app.py:144-166. It covers
  the winner index, the target rotation, the eased frame loop, and the
  final highlighted frame. It also holds the pointer geometry behind the
  finding below.
- `admin.dfy`, module `Admin`: `str.strip`, and a class whose `entries`
  field is the list. Its methods change the list in place: append, `pop`,
  row replacement, and one pass over the edit rows.

Three behaviours of the code are modelled as written:

- The last animation frame reaches 59/60 of the progress, so it stops
  short of the target (`Spin.LastFrameShortfall`).
- Long labels keep 13 characters plus `...`, 16 in all.
- The target rotation ends at the winner segment's end, not its centre
  (see Findings).

## Model

| member | source | states |
|---|---|---|
| `Restaurants.Weights` | app.py:41 | the weight list has one weight per entry, entry i's weight at position i |
| `Restaurants.PrefixStep` | app.py:157 | the sum of the first k+1 weights is the sum of the first k plus entry k's weight |
| `Restaurants.PrefixMonotone` | app.py:157 | prefix sums never decrease along the list, and they grow by at least the weight at the start of the range |
| `Restaurants.TwoWeightsAtMostTotal` | app.py:63 | the weights of two distinct entries together never exceed the total |
| `Restaurants.TotalZeroIffAllZero` | app.py:44-45 | the total is zero exactly when every weight is zero |
| `Restaurants.InputBoundsRenderable` | app.py:220 | with every weight in 1..100, the total lies between n and 100n, so it is positive for a non-empty list |
| `Selector.DrawWeights` | app.py:44-47 | the draw uses the stored weights when the total is positive, else weight 1 for every entry; their sum, the divisor, is the stored total or, after the fallback, the list length |
| `Selector.Normalize` | app.py:49 | normalised weight i is w(i)/total, or 1/n for every entry when the weights sum to zero |
| `Selector.NormalizedSumsToOne` | app.py:43-49 | the normalised weights of a non-empty list sum to 1 |
| `Selector.NormalizedBounds` | app.py:49 | each normalised weight lies in [0, 1] |
| `Selector.NormalizedIsDistribution` | app.py:43-49 | the normalised weights are non-negative and sum to 1 |
| `Selector.BisectFrom` | app.py:51 | the bisection returns the first index below n-1 whose cumulative weight exceeds the scaled variate, else n-1 |
| `Selector.Choose` | app.py:51 | the drawn index is a valid index of the list |
| `Selector.ChooseIffInInterval` | app.py:51 | over a distribution, variate u draws index i exactly when u lies in [Cum(i), Cum(i+1)), an interval of length p(i) |
| `Selector.SpinWheel` | app.py:35-51 | there is no result exactly when the list is empty; otherwise the result is the name of some entry |
| `Selector.SpinWheelDrawsPositiveWeight` | app.py:51 | for u in [0, 1), the drawn entry has positive normalised weight |
| `Selector.EveryPositiveWeightReachable` | app.py:51 | every entry with positive normalised weight is drawn by some u in [0, 1) |
| `Wheel.Label` | app.py:105-107 | a name of at most 15 characters is kept; a longer one becomes its first 13 characters plus "...", 16 in all |
| `Wheel.Color` | app.py:90-92 | a segment is gold exactly when it is the highlighted index; otherwise it has palette colour idx mod 10 |
| `Wheel.SegmentAt` | app.py:77-107 | a segment's sweep is 360·w/total, within [0, 360] and positive for a positive weight; the large-arc flag is 1 exactly when the sweep exceeds 180; the label angle is the midpoint of the sweep; the fill is the segment's colour and the text its cut label |
| `Wheel.Layout` | app.py:74-76 | there is one segment per option, in list order |
| `Wheel.BuildSegments` | app.py:75-111 | the loop with its running angle builds exactly the segments of `Layout` |
| `Wheel.SegmentAngles` | app.py:77 | segment i starts at 360·P(i)/total and sweeps 360·w(i)/total, where P(i) is the sum of the weights before it |
| `Wheel.SegmentsTileCircle` | app.py:111 | the first segment starts at 0, each ends where the next starts, and the last ends at 360 |
| `Wheel.Sweeps` | app.py:77 | the sweep list has each segment's sweep at its position |
| `Wheel.SweepsSumTo360` | app.py:75-111 | the sweeps of a non-empty wheel sum to 360 |
| `Wheel.AtMostOneLargeArc` | app.py:88 | the large-arc flag is 1 exactly when the sweep exceeds 180, and no two segments both carry it |
| `Wheel.OnlyHighlightIsGold` | app.py:90-92 | a segment is gold exactly when it is the highlighted index; every other segment has palette colour idx mod 10 |
| `Wheel.LabelInsideSegment` | app.py:104 | the label angle is the segment's midpoint, strictly inside a segment of positive weight |
| `Wheel.ThreeOptionExample` | app.py:77-88 | weights 10, 10, 80 give sweeps 36, 36, 288; C spans 72 to 360 and is the only large arc |
| `Spin.FirstMatch` | app.py:147 | the result is the first position at or after i whose name matches, or 0 when none does |
| `Spin.WinnerIndex` | app.py:147 | the winner is the first entry named as the result; 0 when no name matches; within range for a non-empty list |
| `Spin.TargetRotation` | app.py:150-157 | the target is 1800 plus the end angle of the winner's segment, so it lies in [1800, 2160] and exceeds 1800 for a positive weight |
| `Spin.Eased` | app.py:153-155 | the eased progress is 0 at frame 0 and lies in [0, 1) on every frame of the loop |
| `Spin.Rotation` | app.py:157 | a frame's rotation is 0 at frame 0 and, for a positive target, lies in [0, target) on every frame of the loop |
| `Spin.EasedProgress` | app.py:153-155 | the eased progress is 0 at frame 0, never decreases, and stays below 1 over frames 0..59 |
| `Spin.RotationSchedule` | app.py:152-157 | for a positive target, frame 0's rotation is 0, rotations never decrease, and every frame, the last included, stays strictly below the target |
| `Spin.LastFrameShortfall` | app.py:151-157 | the last frame's rotation is the target minus target/216000 |
| `Spin.Schedule` | app.py:152-166 | a spin shows 61 frames: 60 from the loop and one final frame |
| `Spin.ScheduleProperties` | app.py:152-166 | only the final frame is highlighted; it repeats the last loop rotation; rotations rise from 0 and stay below the target |
| `Spin.Animate` | app.py:144-166 | the frame loop and the final render yield exactly `Schedule` for the winner and the as-written target |
| `Spin.PointerAngle` | app.py:69 | the wheel angle under the top pointer after a clockwise turn of r degrees lies in [0, 360) |
| `Spin.PointerAngleOf` | app.py:120 | turning by 360k - a, with a in [0, 360), puts wheel angle a under the pointer |
| `Spin.AsWrittenPointerAngle` | app.py:157 | the app's target puts the pointer at 360 minus the end of the winner's segment |
| `Spin.AsWrittenPointerMissesWinner` | app.py:144-166 | for weights 10, 10, 80 with "A" drawn, the target is 1836 and puts the pointer at 324, inside C's segment and outside A's; the highlighted frame finally shown puts it at 324 + 1836/216000, still inside C's segment |
| `Spin.CentredTarget` | app.py:157 | the corrected target lies in [1800, 2160] and puts the centre of the winner's segment under the pointer whenever that centre is short of a full turn |
| `Spin.CentredTargetPointsAtWinner` | app.py:157 | the centred target puts the pointer on the centre of the winner's segment, strictly inside it |
| `Admin.IsSpace` | app.py:223 | the whitespace `str.strip` removes includes space, tab, newline and carriage return, and never a letter or digit |
| `Admin.LeadingSpaces` | app.py:223 | this is the length of the leading whitespace run; the character after it is not whitespace |
| `Admin.TrailingSpaces` | app.py:223 | this is the length of the trailing whitespace run; the character before it is not whitespace |
| `Admin.Strip` | app.py:223-225 | strip is empty exactly for a blank name; otherwise it starts and ends with a non-space and is the name with both whitespace runs removed |
| `Admin.StripIdempotent` | app.py:225 | stripping twice gives the same as stripping once |
| `Admin.Added` | app.py:222-227 | a blank name leaves the list unchanged; otherwise exactly one entry (stripped name, weight) is appended and earlier entries are kept |
| `Admin.Removed` | app.py:257 | pop(idx) shortens the list by one, keeps the entries before idx, and shifts the later ones down |
| `Admin.PopUndoesAdd` | app.py:224 | popping the entry just appended restores the list |
| `Admin.PopThenReinsert` | app.py:257 | reinserting the popped entry at idx restores the list |
| `Admin.EditedRows` | app.py:237-267 | rows before a clicked delete take their inputs, the clicked row is removed, and later rows are unchanged; with no click every row takes its inputs |
| `Admin.EditsKeepInputBounds` | app.py:220 | adding, popping and replacing with bounded inputs keep every weight in 1..100 |
| `Admin.RestaurantList.constructor` | app.py:131 | the list starts as loaded |
| `Admin.RestaurantList.Add` | app.py:222-227 | the method reports whether the stripped name is non-blank, and the new list is `Added` of the old |
| `Admin.RestaurantList.Delete` | app.py:256-259 | the new list is `Removed(old, idx)` |
| `Admin.RestaurantList.Update` | app.py:262-266 | `changed` says whether the inputs differ from the entry; afterwards entry idx is (name, weight) as given, with the name unstripped, and every other entry is unchanged |
| `Admin.RestaurantList.EditRows` | app.py:237-267 | the per-row loop leaves exactly `EditedRows` of the old list |

## Left out

- Streamlit page layout, widgets, buttons, `st.session_state` flags and reruns (app.py:13-21, 124-199, 269-270): UI plumbing. Widget values are method parameters; a clicked delete button is `deleteAt`.
- Password gating (app.py:11, 199-212): authentication with no logic beyond an equality test.
- Loading and saving `restaurants.json` (app.py:23-33): file I/O. The loaded list is the constructor's argument.
- The random generator behind `random.choices`: the uniform variate `u` in [0, 1) is a parameter. The bisection over cumulative weights is modelled in exact arithmetic; float rounding is not.
- `time.sleep` frame pacing (app.py:162): timing only.
- Endpoint coordinates from `math.cos`/`math.sin`, and all SVG/HTML text (app.py:58-60, 69-72, 80-86, 94-95, 98-101, 109, 113-122): floating-point trigonometry and presentation. Only the angles, the large-arc flag, the colour and the label text are kept.
- Float rounding in general: every ratio of weights is an exact `real`.
- Restaurants.Restaurant: weights are `nat`. Negative or fractional weights (such as 2.5) can only come from a hand-edited file; the app would sum and divide fractional ones, and `random.choices` does not define a draw for negative ones.
- Wheel.Layout: requires a positive total for a non-empty list. The app would raise ZeroDivisionError for an all-zero list, and that error path is not modelled. The admin inputs never produce such a list (`Restaurants.InputBoundsRenderable`).
- Wheel.BuildSegments: same precondition as `Wheel.Layout`, for the same reason.
- Spin.Animate: requires a positive total for the same reason. The script runs only for a non-empty list (app.py:138).

## Findings

| source | as written | input that shows it | evidently intended | confidence | as-written member | corrected member |
|---|---|---|---|---|---|---|
| app.py:157 | target = 1800 + 360·(weights up to and including the winner)/total. The wheel turns clockwise under a fixed top pointer, so the target puts the pointer at wheel angle 360 minus the end of the winner's segment | weights A 10, B 10, C 80 with "A" drawn: target 1836, pointer at 324 degrees (324.0085 on the last frame shown), inside C's segment [72, 360) | the pointer rests on the winner's segment, at its centre: target = 1800 + 360 - centre | not executed | `Spin.AsWrittenPointerMissesWinner` | `Spin.CentredTargetPointsAtWinner` |

The as-written target is `Spin.TargetRotation`. `Spin.AsWrittenPointerAngle`
gives its pointer angle in general. The corrected target is
`Spin.CentredTarget`. The last frame shown stops target/216000 degrees short
of whichever target is used (`Spin.LastFrameShortfall`), a gap of at most 0.01
degrees (exactly 0.01 when the last entry wins and the app's target is 2160). The frame schedule (`Spin.Schedule`,
`Spin.RotationSchedule`, `Spin.ScheduleProperties`) is stated for any
positive target, so its properties hold for the corrected target too.
`Spin.Animate` keeps the app's formula.
