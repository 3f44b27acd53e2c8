/**
  One redraw of the clock face (`render`), as the sequence of drawing
  operations it issues: a clear, the tick marks, the caption, and the
  second-hand sweep.  Pixels, angles in radians and stroke attributes are
  not modelled; a radial line is identified by its unit (0..59, see
  `TickAngle`), the tier of the skin it is drawn with, and that tier's
  line style.
 */
module Face {
  import opened Wrappers
  import opened Caption

  /** Appearance of one radial line (`{color, lineWidth, alpha, startAt, endAt}`). */
  datatype LineStyle = LineStyle(color: string, lineWidth: real, alpha: real, startAt: real, endAt: real)

  /** A skin: each of its four line styles may be absent (`undefined`). */
  datatype Skin = Skin(
    smallIndicator: Option<LineStyle>,
    largeIndicator: Option<LineStyle>,
    secondHand: Option<LineStyle>,
    largeSecondHand: Option<LineStyle>)

  /** The skin table and the name of its default entry. */
  datatype Config = Config(skins: map<string, Skin>, defaultSkin: string)

  datatype Tier = SmallIndicator | LargeIndicator | SecondHand | LargeSecondHand {
    predicate IsIndicator() { this == SmallIndicator || this == LargeIndicator }
  }

  datatype DrawOp =
    | Clear
    | Line(unit: nat, tier: Tier, style: LineStyle)
    | CaptionText(time: string, date: string)

  /**
    What stops a render part way: the skin could not be resolved, or the
    sweep reached a unit whose hand style is absent.  In the source both are
    a TypeError from reading a property of `undefined`.
   */
  datatype Fault = NoSkin | MissingHandStyle(unit: nat)

  /** The operations a render issued, and the fault that ended it, if any. */
  datatype Frame = Frame(ops: seq<DrawOp>, fault: Option<Fault>)

  /** The time fields a render is given (sampled from `new Date()` by the caller). */
  datatype Instant = Instant(hour: nat, minute: nat, second: nat, day: nat, month: nat, year: int)

  /** The rotation of unit `unit` as a fraction of a full turn. */
  function TickAngle(unit: nat): (a: real)
    ensures unit < 60 ==> 0.0 <= a < 1.0
    ensures unit == 0 ==> a == 0.0
  {
    unit as real / 60.0
  }

  lemma TickAngleIncreasing(i: nat, j: nat)
    requires i < j
    ensures TickAngle(i) < TickAngle(j)
  {
  }

  function StyleOf(skin: Skin, tier: Tier): Option<LineStyle> {
    match tier
    case SmallIndicator => skin.smallIndicator
    case LargeIndicator => skin.largeIndicator
    case SecondHand => skin.secondHand
    case LargeSecondHand => skin.largeSecondHand
  }

  /** Every fifth tick mark is a large one. */
  function IndicatorTier(unit: nat): (t: Tier)
    ensures t.IsIndicator()
    ensures t == LargeIndicator <==> unit % 5 == 0
  {
    if unit % 5 != 0 then SmallIndicator else LargeIndicator
  }

  /** Every fifth sweep segment uses the large second-hand style. */
  function HandTier(unit: nat): (t: Tier)
    ensures !t.IsIndicator()
    ensures t == LargeSecondHand <==> unit % 5 == 0
  {
    if unit % 5 != 0 then SecondHand else LargeSecondHand
  }

  /**
    The skin `render` draws with: the entry for `skinId`, else the entry for
    the default name, else none.
   */
  function ResolveSkin(config: Config, skinId: string): (r: Option<Skin>)
    ensures r.Some? <==> skinId in config.skins || config.defaultSkin in config.skins
    ensures r.Some? ==> r.value in config.skins.Values
    ensures skinId in config.skins ==> r == Some(config.skins[skinId])
    ensures skinId !in config.skins && config.defaultSkin in config.skins ==> r == Some(config.skins[config.defaultSkin])
  {
    if skinId in config.skins then Some(config.skins[skinId])
    else if config.defaultSkin in config.skins then Some(config.skins[config.defaultSkin])
    else None
  }

  /** The tick mark of one unit: one line, or none when the skin lacks that tier. */
  function TickMark(skin: Skin, unit: nat): (r: seq<DrawOp>)
    ensures |r| <= 1
    ensures |r| == 1 <==> StyleOf(skin, IndicatorTier(unit)).Some?
  {
    match StyleOf(skin, IndicatorTier(unit))
    case None => []
    case Some(style) => [Line(unit, IndicatorTier(unit), style)]
  }

  /** The tick marks of units `0..n-1`, in ascending order. */
  function TickMarks(skin: Skin, n: nat): (r: seq<DrawOp>)
    ensures |r| <= n
  {
    if n == 0 then [] else TickMarks(skin, n - 1) + TickMark(skin, n - 1)
  }

  /** `ops` holds a line at unit `unit`. */
  predicate Marks(ops: seq<DrawOp>, unit: nat) {
    exists k :: 0 <= k < |ops| && ops[k].Line? && ops[k].unit == unit
  }

  /**
    Every tick mark below `n` is a line of the indicator tier its unit calls
    for, drawn with that tier's style from the skin.
   */
  lemma {:induction false} TickMarksLines(skin: Skin, n: nat)
    ensures forall k :: 0 <= k < |TickMarks(skin, n)| ==>
      var op := TickMarks(skin, n)[k];
      op.Line? && op.unit < n && op.tier == IndicatorTier(op.unit) && StyleOf(skin, op.tier) == Some(op.style)
  {
    if n > 0 {
      TickMarksLines(skin, n - 1);
    }
  }

  /** Tick marks come in strictly ascending unit order, so no unit is marked twice. */
  lemma {:induction false} TickMarksAscending(skin: Skin, n: nat)
    ensures forall k, l :: 0 <= k < l < |TickMarks(skin, n)| ==>
      TickMarks(skin, n)[k].Line? && TickMarks(skin, n)[l].Line? &&
      TickMarks(skin, n)[k].unit < TickMarks(skin, n)[l].unit
  {
    if n == 0 {
      assert |TickMarks(skin, n)| == 0;
    } else {
      TickMarksAscending(skin, n - 1);
      TickMarksLines(skin, n - 1);
      var prev := TickMarks(skin, n - 1);
      var ops := TickMarks(skin, n);
      assert ops == prev + TickMark(skin, n - 1);
      forall k, l | 0 <= k < l < |ops|
        ensures ops[k].Line? && ops[l].Line? && ops[k].unit < ops[l].unit
      {
        assert ops[k] == prev[k];
        if l < |prev| {
          assert ops[l] == prev[l];
        } else {
          assert ops[l].unit == n - 1;
        }
      }
    }
  }

  /** A unit below `n` is marked exactly when the skin has the tier that unit calls for. */
  lemma {:induction false} TickMarksCover(skin: Skin, n: nat)
    ensures forall i: nat :: i < n ==> (Marks(TickMarks(skin, n), i) <==> StyleOf(skin, IndicatorTier(i)).Some?)
  {
    if n > 0 {
      TickMarksCover(skin, n - 1);
      TickMarksLines(skin, n - 1);
      var prev := TickMarks(skin, n - 1);
      var ops := TickMarks(skin, n);
      assert ops == prev + TickMark(skin, n - 1);
      forall i: nat | i < n
        ensures Marks(ops, i) <==> StyleOf(skin, IndicatorTier(i)).Some?
      {
        if i < n - 1 {
          if Marks(ops, i) {
            var k :| 0 <= k < |ops| && ops[k].Line? && ops[k].unit == i;
            assert k < |prev|;
            assert Marks(prev, i);
          }
          if Marks(prev, i) {
            var k :| 0 <= k < |prev| && prev[k].Line? && prev[k].unit == i;
            assert ops[k] == prev[k];
          }
        } else if StyleOf(skin, IndicatorTier(i)).Some? {
          assert ops[|prev|].unit == i;
        } else {
          assert ops == prev;
        }
      }
    }
  }

  /** The number of lines of tier `tier` in `ops`. */
  function CountTier(ops: seq<DrawOp>, tier: Tier): nat {
    if ops == [] then 0
    else CountTier(ops[..|ops| - 1], tier) + (if ops[|ops| - 1].Line? && ops[|ops| - 1].tier == tier then 1 else 0)
  }

  /**
    Over units `0..n-1`, a skin with a large indicator gets one large mark per
    multiple of five, and a skin with a small indicator one small mark per
    other unit.
   */
  lemma {:induction false} TickMarksCount(skin: Skin, n: nat)
    ensures CountTier(TickMarks(skin, n), LargeIndicator)
         == if skin.largeIndicator.Some? then (n + 4) / 5 else 0
    ensures CountTier(TickMarks(skin, n), SmallIndicator)
         == if skin.smallIndicator.Some? then n - (n + 4) / 5 else 0
  {
    if n > 0 {
      TickMarksCount(skin, n - 1);
      assert (n + 4) / 5 == (n + 3) / 5 + (if (n - 1) % 5 == 0 then 1 else 0);
      var prev := TickMarks(skin, n - 1);
      var ops := TickMarks(skin, n);
      if TickMark(skin, n - 1) == [] {
        assert ops == prev;
      } else {
        assert ops[..|ops| - 1] == prev;
        assert ops[|ops| - 1] == Line(n - 1, IndicatorTier(n - 1), StyleOf(skin, IndicatorTier(n - 1)).value);
      }
    }
  }

  /**
    With both indicator tiers the face has 60 marks, unit k at position k,
    12 of them large and 48 small.
   */
  lemma FullDialTickMarks(skin: Skin)
    requires skin.smallIndicator.Some? && skin.largeIndicator.Some?
    ensures |TickMarks(skin, 60)| == 60
    ensures forall k :: 0 <= k < 60 ==>
      TickMarks(skin, 60)[k] == Line(k, IndicatorTier(k), StyleOf(skin, IndicatorTier(k)).value)
    ensures CountTier(TickMarks(skin, 60), LargeIndicator) == 12
    ensures CountTier(TickMarks(skin, 60), SmallIndicator) == 48
  {
    TickMarksCount(skin, 60);
    TickMarksLength(skin, 60);
    TickMarksLines(skin, 60);
    TickMarksAscending(skin, 60);
    AscendingUnitsArePositions(TickMarks(skin, 60), 60);
  }

  lemma {:induction false} TickMarksLength(skin: Skin, n: nat)
    requires skin.smallIndicator.Some? && skin.largeIndicator.Some?
    ensures |TickMarks(skin, n)| == n
  {
    if n > 0 {
      TickMarksLength(skin, n - 1);
    }
  }

  /** `n` strictly ascending units below `n` are exactly `0..n-1`, in order. */
  lemma {:induction false} AscendingUnitsArePositions(ops: seq<DrawOp>, n: nat)
    requires |ops| == n
    requires forall k :: 0 <= k < n ==> ops[k].Line? && ops[k].unit < n
    requires forall k, l :: 0 <= k < l < n ==> ops[k].unit < ops[l].unit
    ensures forall k :: 0 <= k < n ==> ops[k].unit == k
  {
    forall k | 0 <= k < n
      ensures ops[k].unit == k
    {
      AscendingLowerBound(ops, n, k);
      AscendingUpperBound(ops, n, k);
    }
  }

  lemma {:induction false} AscendingLowerBound(ops: seq<DrawOp>, n: nat, k: nat)
    requires |ops| == n && k < n
    requires forall j :: 0 <= j < n ==> ops[j].Line?
    requires forall j, l :: 0 <= j < l < n ==> ops[j].unit < ops[l].unit
    ensures ops[k].unit >= k
    decreases k
  {
    if k > 0 {
      AscendingLowerBound(ops, n, k - 1);
    }
  }

  lemma {:induction false} AscendingUpperBound(ops: seq<DrawOp>, n: nat, k: nat)
    requires |ops| == n && k < n
    requires forall j :: 0 <= j < n ==> ops[j].Line? && ops[j].unit < n
    requires forall j, l :: 0 <= j < l < n ==> ops[j].unit < ops[l].unit
    ensures ops[k].unit + (n - 1 - k) < n
    decreases n - k
  {
    if k < n - 1 {
      AscendingUpperBound(ops, n, k + 1);
    }
  }

  /** The units `lo..hi-1`. */
  function Range(lo: nat, hi: nat): (r: seq<nat>)
    ensures |r| == if lo <= hi then hi - lo else 0
    ensures forall k :: 0 <= k < |r| ==> r[k] == lo + k
    decreases hi - lo
  {
    if lo >= hi then [] else [lo] + Range(lo + 1, hi)
  }

  /** The first unit after the sweep: `0..sec` on an even minute, `sec+1..59` on an odd one. */
  function SweepStart(minute: nat, second: nat): nat {
    if minute % 2 == 0 then 0 else second + 1
  }

  function SweepEnd(minute: nat, second: nat): nat {
    if minute % 2 == 0 then second + 1 else 60
  }

  /** The units the second-hand sweep covers, in drawing order. */
  function SweepUnits(minute: nat, second: nat): seq<nat> {
    Range(SweepStart(minute, second), SweepEnd(minute, second))
  }

  /**
    For a second of a real clock, the sweep of an even minute is `0..second`
    and that of an odd minute `second+1..59`: `second + 1` and
    `59 - second` segments, ascending.
   */
  lemma SweepUnitsShape(minute: nat, second: nat)
    requires second < 60
    ensures |SweepUnits(minute, second)| == if minute % 2 == 0 then second + 1 else 59 - second
    ensures forall k :: 0 <= k < |SweepUnits(minute, second)| ==>
      SweepUnits(minute, second)[k] == SweepStart(minute, second) + k
    ensures forall u: nat :: u in SweepUnits(minute, second) <==>
      if minute % 2 == 0 then u <= second else second < u < 60
  {
    var r := SweepUnits(minute, second);
    forall u: nat
      ensures u in r <==> if minute % 2 == 0 then u <= second else second < u < 60
    {
      if minute % 2 == 0 && u <= second {
        assert r[u] == u;
      } else if minute % 2 != 0 && second < u < 60 {
        assert r[u - second - 1] == u;
      }
    }
  }

  /**
    For a fixed second, the even-minute and odd-minute sweeps never share a
    unit, and together they cover every unit of the dial exactly.
   */
  lemma SweepPartition(evenMinute: nat, oddMinute: nat, second: nat)
    requires evenMinute % 2 == 0 && oddMinute % 2 == 1 && second < 60
    ensures forall u :: u in SweepUnits(evenMinute, second) ==> u !in SweepUnits(oddMinute, second)
    ensures forall u: nat :: u < 60 <==> u in SweepUnits(evenMinute, second) || u in SweepUnits(oddMinute, second)
  {
    SweepUnitsShape(evenMinute, second);
    SweepUnitsShape(oddMinute, second);
  }

  /**
    Second by second the sweep is a trail: within an even minute each second
    adds the next unit at the end, within an odd minute each second erases
    the first remaining unit.
   */
  lemma SweepAdvance(minute: nat, second: nat)
    requires second < 59
    ensures minute % 2 == 0 ==> SweepUnits(minute, second + 1) == SweepUnits(minute, second) + [second + 1]
    ensures minute % 2 == 1 ==> SweepUnits(minute, second) == [second + 1] + SweepUnits(minute, second + 1)
  {
  }

  /**
    Across a minute boundary: an even minute ends with the whole dial swept
    and the next (odd) minute starts by erasing unit 0; an odd minute ends
    with nothing swept and the next (even) minute starts with unit 0 alone.
   */
  lemma SweepRollover(minute: nat)
    ensures minute % 2 == 0 ==>
      SweepUnits(minute, 59) == Range(0, 60) && SweepUnits(minute + 1, 0) == Range(0, 60)[1..]
    ensures minute % 2 == 1 ==>
      SweepUnits(minute, 59) == [] && SweepUnits(minute + 1, 0) == [0]
  {
    if minute % 2 == 0 {
      assert Range(0, 60) == [0] + Range(1, 60);
    }
  }

  /**
    The sweep segments of units `lo..hi-1`, drawn in ascending order; the
    first unit whose hand style the skin lacks ends the render.
   */
  function SweepLines(skin: Skin, lo: nat, hi: nat): (f: Frame)
    ensures |f.ops| <= if lo <= hi then hi - lo else 0
    ensures f.fault.Some? ==> f.fault.value.MissingHandStyle? && lo <= f.fault.value.unit < hi
    decreases hi
  {
    if hi <= lo then Frame([], None)
    else
      var prev := SweepLines(skin, lo, hi - 1);
      if prev.fault.Some? then prev
      else
        match StyleOf(skin, HandTier(hi - 1))
        case None => Frame(prev.ops, Some(MissingHandStyle(hi - 1)))
        case Some(style) => Frame(prev.ops + [Line(hi - 1, HandTier(hi - 1), style)], None)
  }

  /** Once the sweep has failed, drawing further units changes nothing. */
  lemma {:induction false} SweepFaultPersists(skin: Skin, lo: nat, hi: nat, later: nat)
    requires hi <= later
    requires SweepLines(skin, lo, hi).fault.Some?
    ensures SweepLines(skin, lo, later) == SweepLines(skin, lo, hi)
    decreases later
  {
    if later > hi {
      SweepFaultPersists(skin, lo, hi, later - 1);
    }
  }

  predicate HandStylePresent(skin: Skin, unit: nat) {
    StyleOf(skin, HandTier(unit)).Some?
  }

  /**
    The sweep over `lo..hi-1` draws unit `lo + k` at position `k`, with the
    hand tier that unit calls for; it completes exactly when every unit's
    style is present, and otherwise stops at the first unit whose style is
    absent, having drawn the units before it.
   */
  lemma {:induction false} SweepLinesShape(skin: Skin, lo: nat, hi: nat)
    ensures var f := SweepLines(skin, lo, hi);
      && (f.fault.None? <==> forall u :: lo <= u < hi ==> HandStylePresent(skin, u))
      && (f.fault.Some? ==>
            && f.fault.value.MissingHandStyle?
            && lo <= f.fault.value.unit < hi
            && !HandStylePresent(skin, f.fault.value.unit)
            && (forall u :: lo <= u < f.fault.value.unit ==> HandStylePresent(skin, u))
            && |f.ops| == f.fault.value.unit - lo)
      && (f.fault.None? ==> |f.ops| == if lo <= hi then hi - lo else 0)
      && forall k :: 0 <= k < |f.ops| ==>
           f.ops[k].Line? && f.ops[k].unit == lo + k && f.ops[k].tier == HandTier(lo + k)
           && StyleOf(skin, f.ops[k].tier) == Some(f.ops[k].style)
    decreases hi
  {
    if hi > lo {
      SweepLinesShape(skin, lo, hi - 1);
      var prev := SweepLines(skin, lo, hi - 1);
      if prev.fault.Some? {
        assert !HandStylePresent(skin, prev.fault.value.unit);
      } else if !HandStylePresent(skin, hi - 1) {
        assert SweepLines(skin, lo, hi).fault == Some(MissingHandStyle(hi - 1));
      }
    }
  }

  /**
    `render(hour, min, sec, day, month, year)`: clear, tick marks, caption,
    sweep.  A skin that cannot be resolved fails after the clear, at the
    first tick mark's property read.
   */
  function FrameOf(config: Config, skinId: string, t: Instant): (f: Frame)
    ensures |f.ops| >= 1 && f.ops[0] == Clear
    ensures f.fault == Some(NoSkin) <==> ResolveSkin(config, skinId).None?
    ensures ResolveSkin(config, skinId).Some? ==> |f.ops| >= 2 && (t.second < 60 ==> |f.ops| <= 122)
  {
    match ResolveSkin(config, skinId)
    case None => Frame([Clear], Some(NoSkin))
    case Some(skin) =>
      var caption := CaptionText(TimeText(t.hour, t.minute, t.second), DateText(t.day, MonthText(t.month), t.year));
      var sweep := SweepLines(skin, SweepStart(t.minute, t.second), SweepEnd(t.minute, t.second));
      Frame([Clear] + TickMarks(skin, 60) + [caption] + sweep.ops, sweep.fault)
  }

  /**
    Draw order of one render: a single clear first, then only tick-mark
    lines, then the caption, then only sweep lines; the caption shows the
    given time and date.
   */
  lemma RenderOrder(config: Config, skinId: string, t: Instant)
    requires ResolveSkin(config, skinId).Some?
    ensures var ops := FrameOf(config, skinId, t).ops;
      var c := 1 + |TickMarks(ResolveSkin(config, skinId).value, 60)|;
      && c < |ops|
      && ops[0] == Clear
      && (forall k :: 1 <= k < c ==> ops[k].Line? && ops[k].tier.IsIndicator())
      && ops[c] == CaptionText(TimeText(t.hour, t.minute, t.second), DateText(t.day, MonthText(t.month), t.year))
      && (forall k :: c < k < |ops| ==> ops[k].Line? && !ops[k].tier.IsIndicator())
  {
    var skin := ResolveSkin(config, skinId).value;
    var lo, hi := SweepStart(t.minute, t.second), SweepEnd(t.minute, t.second);
    TickMarksLines(skin, 60);
    SweepLinesShape(skin, lo, hi);
    LayeredOrder(TickMarks(skin, 60), CaptionText(TimeText(t.hour, t.minute, t.second),
      DateText(t.day, MonthText(t.month), t.year)), SweepLines(skin, lo, hi).ops);
  }

  /** The positions of `[Clear] + ticks + [caption] + sweep`. */
  lemma LayeredOrder(ticks: seq<DrawOp>, caption: DrawOp, sweep: seq<DrawOp>)
    requires forall k :: 0 <= k < |ticks| ==> ticks[k].Line? && ticks[k].tier.IsIndicator()
    requires forall k :: 0 <= k < |sweep| ==> sweep[k].Line? && !sweep[k].tier.IsIndicator()
    ensures var ops := [Clear] + ticks + [caption] + sweep;
      && ops[0] == Clear
      && (forall k :: 1 <= k < 1 + |ticks| ==> ops[k].Line? && ops[k].tier.IsIndicator())
      && ops[1 + |ticks|] == caption
      && (forall k :: 1 + |ticks| < k < |ops| ==> ops[k].Line? && !ops[k].tier.IsIndicator())
  {
    var ops := [Clear] + ticks + [caption] + sweep;
    assert forall k :: 1 <= k < 1 + |ticks| ==> ops[k] == ticks[k - 1];
    assert forall k :: 1 + |ticks| < k < |ops| ==> ops[k] == sweep[k - 2 - |ticks|];
  }

  /**
    A skin with all four line styles renders to the end: one clear, 60 tick
    marks, the caption and one line per sweep unit.
   */
  lemma CompleteSkinRender(config: Config, skinId: string, t: Instant)
    requires t.second < 60
    requires ResolveSkin(config, skinId).Some?
    requires var s := ResolveSkin(config, skinId).value;
      s.smallIndicator.Some? && s.largeIndicator.Some? && s.secondHand.Some? && s.largeSecondHand.Some?
    ensures FrameOf(config, skinId, t).fault.None?
    ensures |FrameOf(config, skinId, t).ops| == 62 + |SweepUnits(t.minute, t.second)|
  {
    var skin := ResolveSkin(config, skinId).value;
    TickMarksLength(skin, 60);
    SweepLinesShape(skin, SweepStart(t.minute, t.second), SweepEnd(t.minute, t.second));
  }

  /**
    The sweep reads the hand styles without a guard: on an even minute the
    first segment (unit 0) needs `largeSecondHand`, so a skin without it
    fails right after the caption, whatever the second.
   */
  lemma MissingLargeHandFailsOnEvenMinute(config: Config, skinId: string, t: Instant)
    requires t.minute % 2 == 0
    requires ResolveSkin(config, skinId).Some? && ResolveSkin(config, skinId).value.largeSecondHand.None?
    ensures FrameOf(config, skinId, t).fault == Some(MissingHandStyle(0))
    ensures |FrameOf(config, skinId, t).ops| == 2 + |TickMarks(ResolveSkin(config, skinId).value, 60)|
  {
    var skin := ResolveSkin(config, skinId).value;
    SweepLinesShape(skin, 0, t.second + 1);
    assert !HandStylePresent(skin, 0);
  }

  /** A skin name missing from the table renders exactly as the default skin's name. */
  lemma FallbackToDefault(config: Config, skinId: string, t: Instant)
    requires skinId !in config.skins
    ensures FrameOf(config, skinId, t) == FrameOf(config, config.defaultSkin, t)
  {
  }

  /** The tick-mark loop of `render`: units 0..59, small or large tier, absent tiers skipped. */
  method DrawTickMarks(skin: Skin) returns (ops: seq<DrawOp>)
    ensures ops == TickMarks(skin, 60)
  {
    ops := [];
    var i := 0;
    while i < 60
      invariant 0 <= i <= 60
      invariant ops == TickMarks(skin, i)
    {
      if i % 5 != 0 && skin.smallIndicator.Some? {
        ops := ops + [Line(i, SmallIndicator, skin.smallIndicator.value)];
      }
      if i % 5 == 0 && skin.largeIndicator.Some? {
        ops := ops + [Line(i, LargeIndicator, skin.largeIndicator.value)];
      }
      i := i + 1;
    }
  }

  /** The `monthText` array `render` fills element by element. */
  method MonthTable() returns (monthText: array<string>)
    ensures monthText.Length == 12 && monthText[..] == MONTH_NAMES
  {
    monthText := new string[12];
    monthText[0] := "Jan";
    monthText[1] := "Feb";
    monthText[2] := "Mar";
    monthText[3] := "Apr";
    monthText[4] := "May";
    monthText[5] := "Jun";
    monthText[6] := "Jul";
    monthText[7] := "Aug";
    monthText[8] := "Sep";
    monthText[9] := "Oct";
    monthText[10] := "Nov";
    monthText[11] := "Dec";
  }

  /**
    The two sweep loops of `render`: `0..sec` on an even minute, `sec+1..59`
    on an odd one; each segment reads its hand style unguarded.
   */
  method DrawSweep(skin: Skin, minute: nat, second: nat) returns (f: Frame)
    ensures f == SweepLines(skin, SweepStart(minute, second), SweepEnd(minute, second))
  {
    var ops := [];
    var i;
    if minute % 2 == 0 {
      i := 0;
      while i <= second
        invariant 0 <= i <= second + 1
        invariant SweepLines(skin, 0, i) == Frame(ops, None)
      {
        var secondHand := if i % 5 != 0 then skin.secondHand else skin.largeSecondHand;
        if secondHand.None? {
          SweepFaultPersists(skin, SweepStart(minute, second), i + 1, SweepEnd(minute, second));
          return Frame(ops, Some(MissingHandStyle(i)));
        }
        ops := ops + [Line(i, HandTier(i), secondHand.value)];
        i := i + 1;
      }
    } else {
      i := second + 1;
      while i <= 59
        invariant second + 1 <= i && (i <= 60 || i == second + 1)
        invariant SweepLines(skin, second + 1, i) == Frame(ops, None)
      {
        var secondHand := if i % 5 != 0 then skin.secondHand else skin.largeSecondHand;
        if secondHand.None? {
          SweepFaultPersists(skin, SweepStart(minute, second), i + 1, SweepEnd(minute, second));
          return Frame(ops, Some(MissingHandStyle(i)));
        }
        ops := ops + [Line(i, HandTier(i), secondHand.value)];
        i := i + 1;
      }
    }
    return Frame(ops, None);
  }

  /**
    `render(hour, min, sec, day, month, year)`: resolve the skin, clear,
    draw the tick marks, the caption and the sweep; the operations issued
    are the frame `FrameOf` describes.
   */
  method Render(config: Config, skinId: string, t: Instant) returns (f: Frame)
    ensures f == FrameOf(config, skinId, t)
  {
    var resolved := ResolveSkin(config, skinId);
    var ops := [Clear];
    if resolved.None? {
      return Frame(ops, Some(NoSkin));
    }
    var skin := resolved.value;
    var marks := DrawTickMarks(skin);
    ops := ops + marks;
    var monthText := MonthTable();
    var monthName := if t.month < 12 then monthText[t.month] else "undefined";
    ops := ops + [CaptionText(TimeText(t.hour, t.minute, t.second), DateText(t.day, monthName, t.year))];
    var sweep := DrawSweep(skin, t.minute, t.second);
    return Frame(ops + sweep.ops, sweep.fault);
  }
}
