# CoolClock in Dafny

A verified model of the core of CoolClock 2.1.4 (`coolclock.js`), the canvas
widget that draws an analog clock face and redraws it on a 100 ms timer.

The model has four parts, one module each, with a small `Wrappers` module for
`Option`:

- `Decimal`: the decimal text JavaScript writes for an integer (`'' + n`).
  It comes with a reader that recovers the number, so captions can be read back.
- `Caption`: `lpad2`, `timeText`, `dateText` and the `monthText` table.
  Each text has a reader, and round-trip lemmas state exactly which numbers a caption shows.
- `Face`: one `render` call, modelled as the sequence of abstract drawing
  operations it issues:
  - `Clear`;
  - `Line(unit, tier, style)` for every radial line, where the unit 0..59 stands for the angle `tickAngle(unit)`;
  - `CaptionText(time, date)`.

  A skin is a record of four optional line styles. A render that throws ends
  with a `Fault`:
  - `NoSkin` when neither the selected skin nor the default skin exists;
  - `MissingHandStyle(unit)` when the sweep reads a missing hand style.

  The specification is the function `FrameOf`. The imperative `Render` method
  keeps the source's loops and the array it fills month by month, and is
  proved equal to `FrameOf`.
- `Lifecycle`: the clock's state machine. The state is `active`,
  `tickTimeout`, the set of timers the host holds for the clock, a
  fresh-handle counter, whether the canvas is still in the document, and the
  log of rendered frames.
  - The transitions are functions on a `ClockState` value, such as `TickStep` and `StopStep`.
  - Properties of whole event traces are lemmas proved by induction over `Run`.
  - The class `Clock` holds the same state in fields. Each of its methods is specified by the matching transition.
  - The class `Tracker` is the `clockTracker` table that `init` registers the clock in.

Behaviour of the code that the model keeps, and that a reader might not expect:

- A skin without `largeSecondHand` throws at unit 0 on every even minute,
  right after the caption: the sweep loops in `coolclock.js:155-170` read
  `largeSecondHand` for every unit that is a multiple of 5, with no guard
  (`Face.MissingLargeHandFailsOnEvenMinute`).
- A render that throws stops `tick` before `nextTick`, and a tick that finds
  the canvas gone is dropped (`coolclock.js:204-209`). Either way the clock
  stays active with no timer armed, and `start` then does nothing because
  `active` is still true (`Lifecycle.DormantAfterVanish`). Putting the canvas
  back does not revive it; only an outside `tick`, or `stop` then `start`,
  does (`Lifecycle.StalledStaysSilent`, `Lifecycle.StalledRevival`).
- `nextTick` overwrites `tickTimeout` without clearing the old timer
  (`coolclock.js:180-182`). At most one timer is pending only while `tick` is
  entered from `init`, `start` or the clock's own timer; an outside `tick`
  while a timer is pending leaves two (`Lifecycle.CallTickWhilePending`).
- CoolClock has no teardown operation.

## Model

| member | source | states |
|---|---|---|
| Decimal.NatToString | coolclock.js:94 | the decimal text of a natural (`'' + n`) is a non-empty string of digits; `NatToStringRoundTrip` states which number it reads back as |
| Decimal.IntToString | coolclock.js:98 | the decimal text of an integer (`'' + year`) is non-empty and starts with '-' iff the integer is negative; `IntToStringRoundTrip` states which integer it reads back as |
| Decimal.NatToStringRoundTrip | coolclock.js:94 | reading back the decimal text of a number gives that number |
| Decimal.NatToStringInjective | coolclock.js:94 | different numbers get different decimal texts |
| Decimal.NatToStringNoLeadingZero | coolclock.js:86 | the decimal text starts with '0' only for zero |
| Decimal.NatToStringLength | coolclock.js:86 | numbers below 10 take one digit; 10..99 take two |
| Decimal.IntToStringRoundTrip | coolclock.js:98 | reading back the text of a year, negative years included, gives that year |
| Decimal.IntToStringCanonical | coolclock.js:98 | after an optional '-', the text of an integer is one or more digits with no leading zero unless it is "0", so together with `IntToStringRoundTrip` it is exactly the text `'' + year` writes |
| Decimal.LeadingZeroValue | coolclock.js:86 | the '0' that `lpad2` prepends does not change the value |
| Caption.Lpad2 | coolclock.js:85-87 | the padded text reads back as the number; it starts with '0' iff the number is below 10; it is two characters for any number below 100 |
| Caption.DisplayHour | coolclock.js:94 | the hour shown is in 1..12 and agrees with the hour modulo 12, so hour 0 shows as 12 |
| Caption.TimeText | coolclock.js:93-95 | the time text ends in " am" iff the hour is below 12 and is 10 or 11 characters for two-digit minutes and seconds; `TimeTextRoundTrip` states what it shows |
| Caption.TimeTextRoundTrip | coolclock.js:93-95 | for minutes and seconds in 0..59 the time text reads back, with an hour field that has no leading zero, as (hour % 12, or 12 for 0; the minute; the second; pm iff hour >= 12) |
| Caption.TwelveHourRoundTrip | coolclock.js:94 | for hours 0..23 the 12-hour reading plus the am/pm suffix gives back the 24-hour hour |
| Caption.TimeTextInjective | coolclock.js:93-95 | two different times of day never share a time text |
| Caption.TimeTextExamples | coolclock.js:93-95 | (0,0,0) gives "12:00:00 am" and (13,5,9) gives "1:05:09 pm" |
| Caption.LateTimeTextExamples | coolclock.js:93-95 | (23,59,59) gives "11:59:59 pm" and (12,30,0) gives "12:30:00 pm" |
| Caption.MonthText | coolclock.js:134-150 | a month in 0..11 gives a 3-letter abbreviation; no month text contains a space |
| Caption.MonthIndexRoundTrip | coolclock.js:134-146 | the table maps 0..11 in order to Jan..Dec, and the twelve names are distinct |
| Caption.DateText | coolclock.js:97-99 | for a month text without spaces, the date text splits at its spaces into exactly the day text, the month text and the year text |
| Caption.DateTextExamples | coolclock.js:97-99 | (1, "Jan", 2024) gives "1 Jan 2024" |
| Caption.DecemberDateTextExample | coolclock.js:97-99 | (31, month 11, 1999) gives "31 Dec 1999" |
| Caption.DateTextRoundTrip | coolclock.js:97-99 | for months 0..11 the date text is exactly three space-separated fields that read back as day, month and year |
| Face.TickAngle | coolclock.js:89-91 | the angle of a unit in 0..59 lies in [0, 1), and unit 0 has angle 0 |
| Face.TickAngleIncreasing | coolclock.js:89-91 | the angle strictly increases with the unit |
| Face.IndicatorTier | coolclock.js:129-130 | a tick mark is large iff its unit is a multiple of 5 |
| Face.HandTier | coolclock.js:157-160 | a sweep segment uses `largeSecondHand` iff its unit is a multiple of 5 |
| Face.ResolveSkin | coolclock.js:121-122 | the selected name's entry is used when it is in the table; otherwise the default name's entry when that is; otherwise no skin is found |
| Face.FallbackToDefault | coolclock.js:121-122 | a skin name missing from the table renders the same frame as the default skin's name |
| Face.TickMark | coolclock.js:129-130 | a unit gets at most one mark, and one exactly when the skin has the indicator tier the unit calls for |
| Face.TickMarks | coolclock.js:128-131 | the marks of units below n number at most n; `TickMarksLines`, `TickMarksAscending` and `TickMarksCover` state which they are |
| Face.TickMarksLines | coolclock.js:128-131 | every tick mark is a line of the tier its unit calls for, drawn with that tier's style from the skin |
| Face.TickMarksAscending | coolclock.js:128-131 | tick marks come in strictly ascending unit order, so each unit gets at most one |
| Face.TickMarksCover | coolclock.js:128-131 | a unit is marked iff the skin has the tier that unit calls for, so an absent tier draws nothing |
| Face.TickMarksCount | coolclock.js:128-131 | over units below n there is one large mark per multiple of 5 and one small mark per other unit, each only when its tier is present |
| Face.FullDialTickMarks | coolclock.js:128-131 | with both tiers there are 60 marks, unit k at position k, 12 large and 48 small |
| Face.SweepUnitsShape | coolclock.js:155-170 | for a second in 0..59 the sweep is 0..sec on an even minute and sec+1..59 on an odd one, ascending: sec+1 or 59-sec segments |
| Face.SweepPartition | coolclock.js:155-170 | for a fixed second the even-minute and odd-minute sweeps are disjoint and together cover exactly 0..59 |
| Face.SweepAdvance | coolclock.js:155-170 | from one second to the next, an even minute's sweep gains the next unit at its end and an odd minute's sweep loses its first unit |
| Face.SweepRollover | coolclock.js:155-170 | an even minute ends with all 60 units swept and the next minute starts with units 1..59; an odd minute ends with none and the next starts with unit 0 alone |
| Face.SweepLines | coolclock.js:155-170 | the sweep over lo..hi-1 draws at most hi-lo segments, and a sweep that throws does so at a missing hand style of a unit in lo..hi-1; `SweepLinesShape` states the segments exactly |
| Face.SweepLinesShape | coolclock.js:155-170 | segment k of the sweep is unit lo+k with its hand tier and style; the sweep completes iff every unit's style is present, and otherwise stops at the first unit whose style is missing |
| Face.SweepFaultPersists | coolclock.js:155-170 | once a sweep has thrown, later units add nothing |
| Face.FrameOf | coolclock.js:119-171 | every render first clears; it fails with `NoSkin` iff neither the selected nor the default skin exists; with a skin and a second below 60 it issues between 2 and 122 operations; `RenderOrder` states their order |
| Face.RenderOrder | coolclock.js:119-170 | a render draws one clear first, then only tick-mark lines, then the caption with the given time and date, then only sweep lines |
| Face.CompleteSkinRender | coolclock.js:119-170 | a skin with all four styles renders without fault: 62 operations plus one per sweep unit |
| Face.MissingLargeHandFailsOnEvenMinute | coolclock.js:155-161 | on an even minute a skin without `largeSecondHand` throws at unit 0, right after the caption |
| Face.DrawTickMarks | coolclock.js:128-131 | the tick-mark loop issues exactly the tick marks of units 0..59 |
| Face.MonthTable | coolclock.js:134-146 | the array filled element by element holds Jan..Dec at indices 0..11 |
| Face.DrawSweep | coolclock.js:155-170 | the two sweep loops issue exactly the sweep of the minute's parity, stopping at a missing hand style |
| Face.Render | coolclock.js:119-171 | the imperative render issues exactly the frame `FrameOf` describes |
| Lifecycle.NextTickStep | coolclock.js:180-182 | `nextTick` arms a fresh timer, stores its handle and advances the handle counter, leaving any older timer armed and nothing else changed |
| Lifecycle.TickStep | coolclock.js:204-209 | `tick` renders once iff the clock is active and the canvas present; it then arms exactly one fresh timer unless the render threw; otherwise nothing changes |
| Lifecycle.StopStep | coolclock.js:190-193 | `stop` deactivates without drawing and leaves the canvas flag, the stored handle and the counter as they were; under the timer discipline it leaves no timer armed |
| Lifecycle.StartStep | coolclock.js:196-201 | `start` leaves an active clock unchanged, and always ends active |
| Lifecycle.FireStep | coolclock.js:181 | the timer callback does not change `active`; what it draws and arms is stated by `TimerKeepsClockRunning` and `DormantAfterVanish` |
| Lifecycle.VanishStep | coolclock.js:185-187 | after the canvas leaves the document `stillHere` is false, and nothing else about the clock changes |
| Lifecycle.RestoreStep | coolclock.js:185-187 | after an element with the clock's id enters the document `stillHere` is true, and nothing else about the clock changes |
| Lifecycle.TimerKeepsClockRunning | coolclock.js:181-209 | when the pending timer of an active clock with its canvas fires, the clock draws one frame of the given time, stays active, and arms exactly one fresh timer (keeping the timer discipline) unless the render threw, in which case none is armed |
| Lifecycle.StepKeepsValid | coolclock.js:180-209 | timer firings, `start`, `stop` and canvas loss keep at most one timer armed, and none on a stopped clock |
| Lifecycle.RunKeepsValid | coolclock.js:180-209 | any trace without outside `tick` calls keeps that discipline |
| Lifecycle.CallTickWhilePending | coolclock.js:180-182 | an outside `tick` while a timer is armed leaves two armed, and `stop` then clears only the newer one |
| Lifecycle.StoppedStaysSilent | coolclock.js:190-209 | after `stop`, no trace without `start` draws anything or reactivates the clock |
| Lifecycle.StopIdempotent | coolclock.js:190-193 | calling `stop` twice equals calling it once |
| Lifecycle.StartRendersOnce | coolclock.js:196-201 | `start` on a stopped clock with its canvas draws exactly one frame at once, and arms one timer unless that render threw |
| Lifecycle.VanishedStaysDormant | coolclock.js:185-209 | while the canvas stays out of the document, no trace draws anything |
| Lifecycle.DormantAfterVanish | coolclock.js:196-209 | a timer firing after the canvas vanished leaves no timer armed and the clock active, so `start` does nothing |
| Lifecycle.BriefVanishStalls | coolclock.js:185-209 | if the canvas is gone just when the pending timer fires and then comes back, the clock is active and present, has no timer armed and has drawn nothing |
| Lifecycle.StalledStaysSilent | coolclock.js:181-209 | an active clock with no timer armed draws nothing and stays so under timer firings, `start` and the canvas leaving or returning |
| Lifecycle.StalledRevival | coolclock.js:190-209 | such a clock with its canvas present draws one frame on an outside `tick`, and one on `stop` followed by `start`, keeping the timer discipline |
| Lifecycle.Tracker.constructor | coolclock.js:17-25 | the clock table starts empty |
| Lifecycle.Clock.constructor | coolclock.js:31-69 | `init` selects "fuse" and a 100 ms delay, registers the clock under its canvas id (replacing any earlier clock), activates it and ticks once, with at most one timer armed |
| Lifecycle.Clock.RefreshDisplay | coolclock.js:174-177 | renders the given time and records that frame, changing nothing else |
| Lifecycle.Clock.NextTick | coolclock.js:180-182 | the fields change as `NextTickStep` says |
| Lifecycle.Clock.Tick | coolclock.js:204-209 | entered with no timer armed, the fields change as `TickStep` says and the timer discipline holds |
| Lifecycle.Clock.Stop | coolclock.js:190-193 | the fields change as `StopStep` says |
| Lifecycle.Clock.Start | coolclock.js:196-201 | the fields change as `StartStep` says and the timer discipline holds |
| Lifecycle.Clock.TimerFired | coolclock.js:181 | the armed timer is consumed, the clock ticks, and the timer discipline holds |
| Lifecycle.Clock.StillHere | coolclock.js:185-187 | `stillHere` holds exactly while an element with the clock's id is in the document |
| Lifecycle.Clock.RemoveCanvas | coolclock.js:185-187 | the canvas is no longer found by `stillHere`; nothing else changes |
| Lifecycle.Clock.RestoreCanvas | coolclock.js:185-187 | the canvas is found again by `stillHere`; nothing else changes |

## Left out

- Drawing itself (`radialLineAtAngle`, `drawTextAt`, `clearRect`, transforms, stroke and text metrics with the 25px fallback) is out. It is foreign canvas API and floating-point geometry. A line is kept as its unit, tier and style, and the caption as its two strings.
- `displayRadius`, `scale` and canvas resizing in `init` are out. They come from `window.innerWidth`/`innerHeight` and are floating-point presentation values.
- Real timing is out: `setTimeout`, `clearTimeout`, the string-built callback and the 100 ms delay. A timer is an abstract handle in the set of armed timers. The callback is JavaScript source text that quotes the canvas id and is evaluated when the timer fires; it finds its clock through `clockTracker[canvasId]`. The model delivers every firing to the clock that armed it. The source does otherwise in two cases. When two clocks share a canvas id, the firing reaches the newer clock. When the id contains a quote, a backslash or a line break, the text fails to parse or names another key, so the tick is lost or throws.
- The `new Date()` sampling in `refreshDisplay` is out. The time fields are a parameter.
- `findAndCreateClocks`, the `noIdCount` auto-id and the jQuery hook are out. They are a page scan and load-time glue.
- The contents of the skin table and the name of the default skin are out. They are not defined in this file, so they are an input (`Face.Config`).
- The assignment to the implicit global `secondHand` in the sweep is out. It is a side effect on a global that nothing in the core reads back.
- The `ctx.save()` left unbalanced when a sweep throws inside `radialLineAtAngle` is out. It is canvas state.
- Lifecycle.Clock.constructor: requires the canvas to be present. The source dereferences the missing element and throws, and a half-built clock is not modelled.
- Lifecycle.Clock.Tick: requires that no timer is armed, which holds when `tick` is entered from `init`, `start` or the timer. What an outside call does while a timer is armed is stated on values by `Lifecycle.CallTickWhilePending`.
- Caption.TimeText: hours, minutes, seconds, days and months are naturals, because `Date` never yields negative fields. JavaScript's `%` and `lpad2` on negative numbers are not modelled. Years are integers.
- Decimal.NatToString: writes every natural number in plain decimal. JavaScript switches to exponent notation from 1e21, which no `Date` field reaches.
