/** The waveform seek bars of the player screen.

    `CanvasWaveSeekBar` reduces the amplitude samples of a track to a fixed row of
    bars, colours the bars before the playback position, and turns press, tap and
    drag gestures into a new playback position. `WaveSeekBar` delegates drawing to a
    library view and only converts between a percentage and a position.

    The composable's remembered state (`width`, `progressWhileDragging`,
    `slopConsumed`) is the class `CanvasWaveSeekBar`; the per-bar arithmetic is pure.
    Floats are exact reals. */
module WaveSeekBar {
  import opened Kotlin

  /** `barsCount`: the number of bars that are drawn. */
  const BarsCount: nat := 1000

  /** The smallest height fraction of a bar, so that silent bars stay visible. */
  const MinHeight: real := 0.01

  // ---------------------------------------------------------------------------
  // Bar heights
  // ---------------------------------------------------------------------------

  /** `samples.maxOrNull()` on a non-empty array. */
  function MaxSample(samples: seq<Int32>): (m: Int32)
    requires |samples| > 0
    ensures m in samples
    ensures forall i :: 0 <= i < |samples| ==> samples[i] <= m
  {
    if |samples| == 1 then samples[0]
    else
      var rest := MaxSample(samples[1..]);
      if samples[0] >= rest then samples[0] else rest
  }

  /** The index of the sample that bar `bar` shows: `((bar + 1) * samplesInBar).toInt()`
      with `samplesInBar = size / barsCount`, computed exactly; that is, the floor of
      `(bar + 1) * size / barsCount`. */
  function SampleIndex(bar: nat, size: nat): (i: nat)
    ensures i * BarsCount <= (bar + 1) * size < (i + 1) * BarsCount
  {
    (bar + 1) * size / BarsCount
  }

  /** `samples.getOrNull(index) ?: 0`. */
  function SampleAt(samples: seq<Int32>, index: nat): (r: Int32)
    ensures index < |samples| ==> r == samples[index]
    ensures index >= |samples| ==> r == 0
    ensures r == 0 || r in samples
    ensures |samples| > 0 && MaxSample(samples) >= 0 ==> r <= MaxSample(samples)
  {
    if index < |samples| then samples[index] else 0
  }

  /** `java.lang.Float.max` on exact values. */
  function RealMax(a: real, b: real): (r: real)
    ensures a <= r && b <= r
    ensures r == a || r == b
  {
    if a >= b then a else b
  }

  // Small facts of real arithmetic. Each holds with an empty body; they are stated
  // separately so that the proofs using them stay within the resource limit on every
  // solver seed, which they do not when the nonlinear step is left to the solver.

  lemma DivMul(a: real, m: real)
    requires m != 0.0
    ensures (a / m) * m == a
  {
  }

  lemma DivAdd(a: real, b: real, w: real)
    requires w != 0.0
    ensures a / w + b / w == (a + b) / w
  {
  }

  lemma PositiveProduct(a: real, b: real)
    requires a > 0.0 && b > 0.0
    ensures a * b > 0.0
  {
  }

  /** Facts about `sample / max` used for bar heights (a solver hint, kept apart for
      stability across seeds). */
  lemma RatioFacts(sample: real, max: real)
    requires max != 0.0
    ensures sample / max * max == sample
    ensures 0.0 < max && sample <= max ==> sample / max <= 1.0
  {
    DivMul(sample, max);
  }

  /** `max(sample / max, .01f)` is at least 0.01, at most 1 when the sample does not
      exceed a positive maximum, and otherwise the exact ratio (a solver hint). */
  lemma HeightFacts(sample: real, max: real)
    requires max != 0.0
    ensures RealMax(sample / max, MinHeight) >= MinHeight
    ensures 0.0 < max && sample <= max ==> RealMax(sample / max, MinHeight) <= 1.0
  {
    RatioFacts(sample, max);
  }

  /** The height fraction of bar `bar`: `max(sample / max, .01f)`. */
  function BarHeight(samples: seq<Int32>, bar: nat): (h: real)
    requires |samples| > 0 && MaxSample(samples) != 0
    ensures h >= MinHeight
    ensures MaxSample(samples) > 0 ==> h <= 1.0
  {
    var max := MaxSample(samples);
    var index := SampleIndex(bar, |samples|);
    var sample := SampleAt(samples, index);
    HeightFacts(sample as real, max as real);
    RealMax(sample as real / max as real, MinHeight)
  }

  /** The bar-height profile `CanvasWaveSeekBar` draws, or `None` when it returns early
      and draws nothing (no samples, no samples at all, or a maximum of 0). */
  function Heights(samples: Option<seq<Int32>>): (r: Option<seq<real>>)
    ensures r.Some? ==> samples.Some? && |samples.value| > 0 && MaxSample(samples.value) != 0
    ensures r.Some? ==> |r.value| == BarsCount
    ensures r.Some? ==> forall b :: 0 <= b < BarsCount ==> r.value[b] >= MinHeight
  {
    if samples.None? || |samples.value| == 0 || MaxSample(samples.value) == 0 then None
    else Some(seq(BarsCount, b requires 0 <= b < BarsCount => BarHeight(samples.value, b)))
  }

  /** `a <= b` implies `a * c <= b * c` for naturals (a solver hint). */
  lemma MulMonotone(a: nat, b: nat, c: nat)
    requires a <= b
    ensures a * c <= b * c
  {
    assert b * c == a * c + (b - a) * c;
  }

  /** Later bars never read earlier samples. */
  lemma SampleIndexMonotone(bar1: nat, bar2: nat, size: nat)
    requires bar1 <= bar2
    ensures SampleIndex(bar1, size) <= SampleIndex(bar2, size)
  {
    MulMonotone(bar1 + 1, bar2 + 1, size);
  }

  /** Every bar reads an index in `[0, size]`, and only the last bar reads index `size`,
      which lies past the end of the samples. */
  lemma SampleIndexRange(bar: nat, size: nat)
    requires bar < BarsCount
    ensures SampleIndex(bar, size) <= size
    ensures size > 0 ==> (SampleIndex(bar, size) == size <==> bar == BarsCount - 1)
  {
    if bar < BarsCount - 1 {
      MulMonotone(bar + 1, BarsCount - 1, size);
      assert (BarsCount - 1) * size == BarsCount * size - size;
    } else {
      assert (bar + 1) * size == BarsCount * size;
    }
  }

  /** The last bar always reads past the end of the samples, so it always has the
      minimum height. */
  lemma LastBarIsMinimal(samples: seq<Int32>)
    requires Heights(Some(samples)).Some?
    ensures Heights(Some(samples)).value[BarsCount - 1] == MinHeight
  {
    SampleIndexRange(BarsCount - 1, |samples|);
  }

  /** When the loudest sample is positive, every bar height lies in `[0.01, 1]`. */
  lemma HeightsBounded(samples: seq<Int32>)
    requires |samples| > 0 && MaxSample(samples) > 0
    ensures Heights(Some(samples)).Some?
    ensures forall b :: 0 <= b < BarsCount ==> MinHeight <= Heights(Some(samples)).value[b] <= 1.0
  {
    var h := Heights(Some(samples)).value;
    forall b | 0 <= b < BarsCount
      ensures MinHeight <= h[b] <= 1.0
    {
      assert h[b] == BarHeight(samples, b);
    }
  }

  /** For samples that all equal the same positive value, every bar that reads a
      sample has full height; only the last bar, which reads past the end, is minimal. */
  lemma UniformHeights(samples: seq<Int32>, v: Int32)
    requires |samples| > 0 && v > 0
    requires forall i :: 0 <= i < |samples| ==> samples[i] == v
    ensures Heights(Some(samples)).Some?
    ensures forall b :: 0 <= b < BarsCount - 1 ==> Heights(Some(samples)).value[b] == 1.0
    ensures Heights(Some(samples)).value[BarsCount - 1] == MinHeight
  {
    assert MaxSample(samples) == v;
    var h := Heights(Some(samples)).value;
    forall b | 0 <= b < BarsCount - 1
      ensures h[b] == 1.0
    {
      SampleIndexRange(b, |samples|);
      assert SampleAt(samples, SampleIndex(b, |samples|)) == v;
      assert v as real / v as real == 1.0;
      assert h[b] == BarHeight(samples, b);
    }
    LastBarIsMinimal(samples);
  }

  /** The samples of the preview `PreviewNewWaveSeekBar100And1`: a thousand 1s, then 100. */
  function TrailingPeakSamples(): (s: seq<Int32>)
    ensures |s| == BarsCount + 1
    ensures s[BarsCount] == 100
    ensures forall i :: 0 <= i < BarsCount ==> s[i] == 1
  {
    seq(BarsCount, _ => 1) + [100]
  }

  /** In that preview the trailing 100 is never read: no bar reads index 1000, so every
      bar is drawn at the minimum height. */
  lemma TrailingPeakNeverShown()
    ensures Heights(Some(TrailingPeakSamples())).Some?
    ensures forall b :: 0 <= b < BarsCount ==> Heights(Some(TrailingPeakSamples())).value[b] == MinHeight
  {
    TrailingPeakHeights(TrailingPeakSamples());
  }

  lemma TrailingPeakHeights(s: seq<Int32>)
    requires |s| == BarsCount + 1 && s[BarsCount] == 100
    requires forall i :: 0 <= i < BarsCount ==> s[i] == 1
    ensures Heights(Some(s)).Some?
    ensures forall b :: 0 <= b < BarsCount ==> Heights(Some(s)).value[b] == MinHeight
  {
    var m := MaxSample(s);
    assert m == 100 by {
      assert s[BarsCount] <= m;
      var k :| 0 <= k < |s| && s[k] == m;
    }
    var h := Heights(Some(s)).value;
    forall b | 0 <= b < BarsCount
      ensures h[b] == MinHeight
    {
      TrailingPeakIndex(b);
      var i := SampleIndex(b, |s|);
      assert SampleAt(s, i) == 0 || SampleAt(s, i) == 1;
      assert BarHeight(s, b) == RealMax(SampleAt(s, i) as real / 100.0, MinHeight);
      assert h[b] == BarHeight(s, b);
    }
  }

  /** With 1001 samples no bar reads index 1000, where the preview keeps its peak. */
  lemma TrailingPeakIndex(bar: nat)
    requires bar < BarsCount
    ensures SampleIndex(bar, BarsCount + 1) != BarsCount
  {
    var i := SampleIndex(bar, BarsCount + 1);
    if bar < BarsCount - 1 {
      MulMonotone(bar + 1, BarsCount - 1, BarsCount + 1);
      assert i < BarsCount;
    } else {
      assert i == BarsCount + 1;
    }
  }

  /** For non-negative amplitudes, nothing is drawn exactly when every sample is 0
      (which includes having no samples); nothing is drawn without samples either. */
  lemma NothingDrawnIffSilent(samples: seq<Int32>)
    requires forall i :: 0 <= i < |samples| ==> samples[i] >= 0
    ensures Heights(None).None?
    ensures Heights(Some(samples)).None? <==> forall i :: 0 <= i < |samples| ==> samples[i] == 0
  {
    if |samples| > 0 {
      var m := MaxSample(samples);
      var k :| 0 <= k < |samples| && samples[k] == m;
      if m != 0 {
        assert samples[k] != 0;
      }
    }
  }

  // ---------------------------------------------------------------------------
  // Played bars
  // ---------------------------------------------------------------------------

  /** `progressWhileDragging ?: (mediaPlayerCurrentPosition.toFloat() / mediaPlayerDuration)`. */
  function Current(position: Int32, duration: Int32, dragging: Option<real>): (r: FloatValue)
    ensures dragging.Some? ==> r == Finite(dragging.value)
    ensures dragging.None? ==> (r.Finite? <==> duration != 0)
    ensures dragging.None? && r.Finite? ==> r.value * duration as real == position as real
    ensures dragging.None? && duration == 0 ==> (r == NaN <==> position == 0)
  {
    match dragging
    case Some(f) => Finite(f)
    case None => Divide(position as real, duration as real)
  }

  /** Whether bar `bar` is drawn in the progress colour: `bar < barsCount * current`. */
  predicate IsPlayedBar(bar: nat, position: Int32, duration: Int32, dragging: Option<real>)
    ensures dragging.Some? ==>
      (IsPlayedBar(bar, position, duration, dragging) <==> bar as real < BarsCount as real * dragging.value)
    ensures dragging.None? && position == 0 && duration == 0 ==> !IsPlayedBar(bar, position, duration, dragging)
  {
    Below(bar as real, Scale(BarsCount as real, Current(position, duration, dragging)))
  }

  /** While a drag fraction is set the highlight follows it and ignores the player;
      otherwise bar `bar` is played iff `bar / barsCount < position / duration`, stated
      without division, and with a zero duration (NaN or an infinity) either every bar
      or none is played. */
  lemma PlayedBarCharacterization(bar: nat, position: Int32, duration: Int32, dragging: Option<real>)
    ensures dragging.Some? ==> (IsPlayedBar(bar, position, duration, dragging) <==> bar as real < BarsCount as real * dragging.value)
    ensures dragging.None? && duration > 0 ==> (IsPlayedBar(bar, position, duration, dragging) <==> bar * duration < BarsCount * position)
    ensures dragging.None? && duration < 0 ==> (IsPlayedBar(bar, position, duration, dragging) <==> bar * duration > BarsCount * position)
    ensures dragging.None? && duration == 0 ==> (IsPlayedBar(bar, position, duration, dragging) <==> position > 0)
  {
    if dragging.None? && duration != 0 {
      var q := position as real / duration as real;
      assert q * duration as real == position as real;
      var lhs := bar as real * duration as real;
      var rhs := BarsCount as real * position as real;
      assert rhs == (BarsCount as real * q) * duration as real;
      if duration > 0 {
        assert bar as real < BarsCount as real * q <==> lhs < rhs;
      } else {
        assert bar as real < BarsCount as real * q <==> lhs > rhs;
      }
      assert lhs == (bar * duration) as real;
      assert rhs == (BarsCount * position) as real;
    }
  }

  /** The played bars are always a prefix of the row. */
  lemma PlayedBarsFormPrefix(bar1: nat, bar2: nat, position: Int32, duration: Int32, dragging: Option<real>)
    requires bar1 <= bar2
    requires IsPlayedBar(bar2, position, duration, dragging)
    ensures IsPlayedBar(bar1, position, duration, dragging)
  {
    BelowDownward(bar2 as real, bar1 as real, Scale(BarsCount as real, Current(position, duration, dragging)));
  }

  /** With a positive duration and no drag: no bar is played at position 0 or before,
      and every bar is played at the end of the track or after. */
  lemma PlayedAtEnds(position: Int32, duration: Int32)
    requires duration > 0
    ensures position <= 0 ==> forall b: nat :: !IsPlayedBar(b, position, duration, None)
    ensures position >= duration ==> forall b: nat :: b < BarsCount ==> IsPlayedBar(b, position, duration, None)
  {
    forall b: nat
      ensures position <= 0 ==> !IsPlayedBar(b, position, duration, None)
      ensures position >= duration && b < BarsCount ==> IsPlayedBar(b, position, duration, None)
    {
      PlayedBarCharacterization(b, position, duration, None);
      if position <= 0 {
        assert b * duration >= 0;
      }
      if position >= duration && b < BarsCount {
        MulMonotone(b, BarsCount - 1, duration);
        MulMonotone(duration, position, BarsCount);
      }
    }
  }

  // ---------------------------------------------------------------------------
  // Drawing the row
  // ---------------------------------------------------------------------------

  /** One drawn bar: its height fraction and whether it has the progress colour. */
  datatype Bar = Bar(height: real, played: bool)

  /** The body of `CanvasWaveSeekBar`: the early returns, then one bar per step of
      `repeat(barsCount)`. `dragging` is the remembered `progressWhileDragging`. */
  method Compose(position: Int32, duration: Int32, samples: Option<seq<Int32>>, dragging: Option<real>)
    returns (bars: Option<seq<Bar>>)
    ensures bars.None? <==> Heights(samples).None?
    ensures bars.Some? ==> |bars.value| == BarsCount
    ensures bars.Some? ==> forall b :: 0 <= b < BarsCount ==>
      bars.value[b] == Bar(Heights(samples).value[b], IsPlayedBar(b, position, duration, dragging))
  {
    if samples.None? {
      return None;
    }
    var s := samples.value;
    if |s| == 0 {
      return None;
    }
    var max := MaxSample(s);
    if max == 0 {
      return None;
    }
    var progressInBars := Scale(BarsCount as real, Current(position, duration, dragging));
    var row: seq<Bar> := [];
    var bar := 0;
    while bar < BarsCount
      invariant 0 <= bar <= BarsCount
      invariant |row| == bar
      invariant forall b :: 0 <= b < bar ==>
        row[b] == Bar(BarHeight(s, b), IsPlayedBar(b, position, duration, dragging))
    {
      var sampleIndex := (bar + 1) * |s| / BarsCount;
      var sample := if sampleIndex < |s| then s[sampleIndex] else 0;
      var height := RealMax(sample as real / max as real, MinHeight);
      row := row + [Bar(height, Below(bar as real, progressInBars))];
      bar := bar + 1;
    }
    bars := Some(row);
  }

  // ---------------------------------------------------------------------------
  // Gestures
  // ---------------------------------------------------------------------------

  /** A fraction in `[0, 1]` of a non-negative value lies between 0 and that value.
      This and the next lemma keep the product and the conversion to `Int` in separate
      proofs, which keeps `PositionAt` stable across solver seeds. */
  lemma ScaledBounds(d: real, f: real, v: real)
    requires 0.0 <= d && 0.0 <= f <= 1.0 && v == d * f
    ensures 0.0 <= v <= d
  {
    if d > 0.0 && f > 0.0 {
      PositiveProduct(d, f);
    }
    if d > 0.0 && f < 1.0 {
      PositiveProduct(d, 1.0 - f);
      assert d * (1.0 - f) == d - d * f;
    }
  }

  /** On `[0, n]` the conversion to `Int` stays in `[0, n]` and drops less than 1. */
  lemma FloatToIntWithin(v: real, n: Int32)
    requires 0 <= n && 0.0 <= v <= n as real
    ensures 0 <= FloatToInt(v) <= n
    ensures FloatToInt(v) as real <= v < FloatToInt(v) as real + 1.0
  {
  }

  /** `(mediaPlayerDuration.toFloat() * progress).toInt()`: the playback position that a
      seek-bar fraction stands for. On the bar (a fraction in `[0, 1]`) it lies in
      `[0, duration]` and is less than one millisecond below the exact value. */
  function PositionAt(duration: Int32, fraction: real): (p: Int32)
    ensures 0 <= duration && 0.0 <= fraction <= 1.0 ==> 0 <= p <= duration
    ensures 0 <= duration && 0.0 <= fraction <= 1.0 ==>
      p as real <= duration as real * fraction < p as real + 1.0
    ensures fraction == 0.0 ==> p == 0
    ensures fraction == 1.0 ==> p == duration
  {
    var exact := duration as real * fraction;
    assert 0 <= duration && 0.0 <= fraction <= 1.0 ==>
        0 <= FloatToInt(exact) <= duration && FloatToInt(exact) as real <= exact < FloatToInt(exact) as real + 1.0 by {
      if 0 <= duration && 0.0 <= fraction <= 1.0 {
        ScaledBounds(duration as real, fraction, exact);
        FloatToIntWithin(exact, duration);
      }
    }
    assert fraction == 1.0 ==> FloatToInt(exact) == duration by {
      FloatToIntOfInt(duration);
    }
    FloatToInt(exact)
  }

  /** The signed slop: `if (delta > 0) slopAbs else -slopAbs`. */
  function SlopOffset(delta: real, touchSlop: real): (r: real)
    ensures r == touchSlop || r == -touchSlop
    ensures 0.0 < touchSlop ==> (0.0 < r <==> 0.0 < delta)
  {
    if delta > 0.0 then touchSlop else -touchSlop
  }

  /** The drag fraction after the drag deltas `deltas`, starting from `fraction`;
      `slopConsumed` says whether the slop was already added since the last press. */
  function Dragged(fraction: real, slopConsumed: bool, deltas: seq<real>, touchSlop: real, width: real): (r: real)
    requires width > 0.0
    ensures deltas == [] ==> r == fraction
    ensures deltas != [] && !slopConsumed ==>
      r == Dragged(fraction + SlopOffset(deltas[0], touchSlop) / width, true, deltas, touchSlop, width)
    decreases |deltas|, if slopConsumed then 0 else 1
  {
    if deltas == [] then fraction
    else
      var withSlop := if slopConsumed then fraction else fraction + SlopOffset(deltas[0], touchSlop) / width;
      Dragged(withSlop + deltas[0] / width, true, deltas[1..], touchSlop, width)
  }

  function Sum(xs: seq<real>): real
  {
    if xs == [] then 0.0 else xs[0] + Sum(xs[1..])
  }

  /** Once the slop is consumed, every delta moves the fraction by `delta / width`, with
      no clamping. */
  lemma {:induction false} DraggedAfterSlop(fraction: real, deltas: seq<real>, touchSlop: real, width: real)
    requires width > 0.0
    ensures Dragged(fraction, true, deltas, touchSlop, width) == fraction + Sum(deltas) / width
    decreases |deltas|
  {
    if deltas != [] {
      DraggedAfterSlop(fraction + deltas[0] / width, deltas[1..], touchSlop, width);
      assert (deltas[0] + Sum(deltas[1..])) / width == deltas[0] / width + Sum(deltas[1..]) / width;
    }
  }

  /** A drag that starts at a press at `x` ends at `(x ± touchSlop + Σ deltas) / width`,
      the sign of the slop being that of the first delta. */
  lemma DraggedAfterPress(x: real, deltas: seq<real>, touchSlop: real, width: real)
    requires width > 0.0 && |deltas| > 0
    ensures Dragged(x / width, false, deltas, touchSlop, width)
         == (x + SlopOffset(deltas[0], touchSlop) + Sum(deltas)) / width
  {
    var slop := SlopOffset(deltas[0], touchSlop);
    var rest := Sum(deltas[1..]);
    var next := x / width + slop / width + deltas[0] / width;
    assert Dragged(x / width, false, deltas, touchSlop, width) == Dragged(next, true, deltas[1..], touchSlop, width);
    DraggedAfterSlop(next, deltas[1..], touchSlop, width);
    DivAdd(x, slop, width);
    DivAdd(x + slop, deltas[0], width);
    DivAdd(x + slop + deltas[0], rest, width);
    assert Sum(deltas) == deltas[0] + rest;
  }

  /** Dragging by `xs` and then by `ys` ends where dragging by `xs + ys` does: the
      handler applied once per delta computes the fold over the whole gesture. */
  lemma {:induction false} DraggedConcat(fraction: real, slopConsumed: bool, xs: seq<real>, ys: seq<real>,
                                         touchSlop: real, width: real)
    requires width > 0.0 && xs != []
    ensures Dragged(Dragged(fraction, slopConsumed, xs, touchSlop, width), true, ys, touchSlop, width)
         == Dragged(fraction, slopConsumed, xs + ys, touchSlop, width)
    decreases |xs|
  {
    var withSlop := if slopConsumed then fraction else fraction + SlopOffset(xs[0], touchSlop) / width;
    var next := withSlop + xs[0] / width;
    assert (xs + ys)[0] == xs[0];
    assert (xs + ys)[1..] == xs[1..] + ys;
    assert Dragged(fraction, slopConsumed, xs + ys, touchSlop, width)
        == Dragged(next, true, xs[1..] + ys, touchSlop, width);
    if xs[1..] == [] {
      assert xs[1..] + ys == ys;
    } else {
      DraggedConcat(next, true, xs[1..], ys, touchSlop, width);
    }
  }

  /** The remembered state of `CanvasWaveSeekBar` and its gesture handlers.
      `positionChanges` records the calls of `onPositionChange`, in order. */
  class CanvasWaveSeekBar {
    /** `viewConfiguration.touchSlop`, fixed when the drag state is remembered. */
    const touchSlop: real
    var width: Int32
    var progressWhileDragging: Option<real>
    var slopConsumed: bool
    var positionChanges: seq<Int32>

    constructor (touchSlop: real)
      ensures this.touchSlop == touchSlop
      ensures width == 0 && progressWhileDragging == None && !slopConsumed
      ensures positionChanges == []
    {
      this.touchSlop := touchSlop;
      width := 0;
      progressWhileDragging := None;
      slopConsumed := false;
      positionChanges := [];
    }

    /** `onGloballyPositioned`: records the measured width of the row. */
    method OnGloballyPositioned(measuredWidth: Int32)
      modifies this`width
      ensures width == measuredWidth
    {
      width := measuredWidth;
    }

    /** `onPress`: the drag fraction jumps to the pointer and the slop is re-armed. */
    method Press(x: real)
      requires width > 0
      modifies this`progressWhileDragging, this`slopConsumed
      ensures progressWhileDragging == Some(x / width as real)
      ensures !slopConsumed
    {
      progressWhileDragging := Some(x / width as real);
      slopConsumed := false;
    }

    /** `onTap`: the drag fraction is cleared and the callback fires once with the
        position under the pointer. */
    method Tap(x: real, duration: Int32)
      requires width > 0
      modifies this`progressWhileDragging, this`positionChanges
      ensures progressWhileDragging == None
      ensures positionChanges == old(positionChanges) + [PositionAt(duration, x / width as real)]
    {
      progressWhileDragging := None;
      var progress := x / width as real;
      var newPosition := PositionAt(duration, progress);
      positionChanges := positionChanges + [newPosition];
    }

    /** The draggable state's delta handler. The first delta after a press also adds
        the signed slop; no callback fires. `nullDereference` is the
        `NullPointerException` of `progressWhileDragging!!` when no fraction is set. */
    method Drag(delta: real) returns (nullDereference: bool)
      requires width > 0
      modifies this`progressWhileDragging, this`slopConsumed
      ensures slopConsumed
      ensures nullDereference <==> old(progressWhileDragging).None?
      ensures nullDereference ==> progressWhileDragging == None
      ensures !nullDereference ==> (progressWhileDragging ==
        Some(Dragged(old(progressWhileDragging).value, old(slopConsumed), [delta], touchSlop, width as real)))
    {
      if !slopConsumed {
        slopConsumed := true;
        var slop := SlopOffset(delta, touchSlop);
        if progressWhileDragging.None? {
          return true;
        }
        progressWhileDragging := Some(progressWhileDragging.value + slop / width as real);
      }
      if progressWhileDragging.None? {
        return true;
      }
      progressWhileDragging := Some(progressWhileDragging.value + delta / width as real);
      nullDereference := false;
    }

    /** `onDragStopped`: the callback fires once with the position of the final drag
        fraction, and the bar returns to following the player. */
    method DragStopped(duration: Int32) returns (nullDereference: bool)
      modifies this`progressWhileDragging, this`positionChanges
      ensures nullDereference <==> old(progressWhileDragging).None?
      ensures nullDereference ==> progressWhileDragging == None && positionChanges == old(positionChanges)
      ensures !nullDereference ==> (progressWhileDragging == None &&
        positionChanges == old(positionChanges) + [PositionAt(duration, old(progressWhileDragging).value)])
    {
      if progressWhileDragging.None? {
        return true;
      }
      var progress := progressWhileDragging.value;
      progressWhileDragging := None;
      var newPosition := PositionAt(duration, progress);
      positionChanges := positionChanges + [newPosition];
      nullDereference := false;
    }
  }

  /** A press at `x` followed by a tap: exactly one position change, to the position
      under the pointer, and the bar follows the player again. */
  method PressThenTap(width: Int32, touchSlop: real, x: real, duration: Int32)
    returns (changes: seq<Int32>, dragging: Option<real>)
    requires width > 0
    ensures changes == [PositionAt(duration, x / width as real)]
    ensures dragging == None
  {
    var seekBar := new CanvasWaveSeekBar(touchSlop);
    seekBar.OnGloballyPositioned(width);
    seekBar.Press(x);
    seekBar.Tap(x, duration);
    changes, dragging := seekBar.positionChanges, seekBar.progressWhileDragging;
  }

  /** A press at `x`, two drag deltas and a release: no position change until the
      release, then exactly one, to the position of `(x ± touchSlop + d1 + d2) / width`. */
  method PressDragRelease(width: Int32, touchSlop: real, x: real, d1: real, d2: real, duration: Int32)
    returns (changesWhileDragging: seq<Int32>, changes: seq<Int32>)
    requires width > 0
    ensures changesWhileDragging == []
    ensures changes == [PositionAt(duration, (x + SlopOffset(d1, touchSlop) + d1 + d2) / width as real)]
  {
    var seekBar := new CanvasWaveSeekBar(touchSlop);
    seekBar.OnGloballyPositioned(width);
    seekBar.Press(x);
    var thrown := seekBar.Drag(d1);
    ghost var w := width as real;
    assert seekBar.progressWhileDragging == Some(Dragged(x / w, false, [d1], touchSlop, w));
    thrown := seekBar.Drag(d2);
    assert seekBar.progressWhileDragging
        == Some(Dragged(Dragged(x / w, false, [d1], touchSlop, w), true, [d2], touchSlop, w));
    ghost var slop := SlopOffset(d1, touchSlop);
    DraggedAfterPress(x, [d1], touchSlop, w);
    assert Sum([d1]) == d1 && Sum([d2]) == d2;
    ghost var f1 := Dragged(x / w, false, [d1], touchSlop, w);
    assert f1 == (x + slop + d1) / w;
    DraggedAfterSlop(f1, [d2], touchSlop, w);
    DivAdd(x + slop + d1, d2, w);
    assert seekBar.progressWhileDragging == Some((x + slop + d1 + d2) / w);
    changesWhileDragging := seekBar.positionChanges;
    thrown := seekBar.DragStopped(duration);
    changes := seekBar.positionChanges;
  }

  // ---------------------------------------------------------------------------
  // The library-backed `WaveSeekBar`
  // ---------------------------------------------------------------------------

  /** `bar.progress = position.toFloat() / duration.toFloat() * 100`: the percentage the
      library view is given; NaN or an infinity when the duration is 0. */
  function LibraryProgress(position: Int32, duration: Int32): (p: FloatValue)
    ensures p.Finite? <==> duration != 0
    ensures p.Finite? ==> p.value * duration as real == 100.0 * position as real
  {
    Scale(100.0, Divide(position as real, duration as real))
  }

  /** `onProgressChanged`: ignores a change the user did not make; otherwise the
      position `(duration / 100 * progress).toInt()`. */
  function LibraryPosition(duration: Int32, progress: real, fromUser: bool): (r: Option<Int32>)
    ensures r.Some? <==> fromUser
    ensures fromUser && 0 <= duration && 0.0 <= progress <= 100.0 ==> 0 <= r.value <= duration
  {
    if !fromUser then None
    else
      var fraction := progress / 100.0;
      assert duration as real / 100.0 * progress == duration as real * fraction;
      Some(PositionAt(duration, fraction))
  }

  /** Turning a position into the library's percentage and back gives the position. */
  lemma LibraryRoundTrip(position: Int32, duration: Int32)
    requires duration != 0
    ensures LibraryProgress(position, duration).Finite?
    ensures LibraryPosition(duration, LibraryProgress(position, duration).value, true) == Some(position)
  {
    var q := position as real / duration as real;
    assert LibraryProgress(position, duration) == Finite(100.0 * q);
    PercentageRecovered(position, duration);
    PositionAtExact(duration, (100.0 * q) / 100.0, position);
  }

  /** The listener keeps the duration of the composition that created the view: if
      that duration was 0 (no track prepared yet), every user change seeks to 0,
      whatever the duration is now. */
  lemma FrozenDurationSeeksToStart(progress: real)
    ensures LibraryPosition(0, progress, true) == Some(0)
  {
    FloatToIntOfInt(0);
  }

  /** Undoing the percentage exactly gives back the position. This and the next lemma
      split `LibraryRoundTrip` into its arithmetic and its conversion, for stability. */
  lemma PercentageRecovered(position: Int32, duration: Int32)
    requires duration != 0
    ensures duration as real * ((100.0 * (position as real / duration as real)) / 100.0) == position as real
  {
    var q := position as real / duration as real;
    assert (100.0 * q) / 100.0 == q;
    DivMul(position as real, duration as real);
    assert q * duration as real == position as real;
  }

  /** A fraction of the duration that is exactly an `Int` converts to that `Int`. */
  lemma PositionAtExact(duration: Int32, fraction: real, n: Int32)
    requires duration as real * fraction == n as real
    ensures PositionAt(duration, fraction) == n
  {
    FloatToIntOfInt(n);
  }
}
