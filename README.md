# Waveform seek bar and player view model

A Dafny model of the logic of a small Android audio player. The user picks an
audio file; the app extracts its amplitude samples, draws them as a row of bars,
highlights the bars before the playback position, and lets the user seek by
tapping or dragging on the bars.

- `kotlin.dfy` (module `Kotlin`): the Kotlin value semantics the arithmetic
  relies on: nullable values (`Option`), the 32-bit `Int` (`Int32`),
  `Float.toInt()` (truncation toward zero, saturating at the bounds of `Int`), and
  float division with its infinities and NaN for a zero divisor. Floats are exact
  reals.
- `wave_seek_bar.dfy` (module `WaveSeekBar`): the `CanvasWaveSeekBar`
  composable. The bar heights, the sample index of each bar and the highlight
  are pure functions. `Compose` is the composable's body: the early returns, then
  the `repeat(barsCount)` loop that emits one bar per step. The remembered state
  (`width`, `progressWhileDragging`, `slopConsumed`) is the class
  `CanvasWaveSeekBar`, whose methods are the press, tap, drag and drag-stop
  handlers. The field `positionChanges` records every call of the
  `onPositionChange` callback, so "fires exactly once" and "never fires" are
  statements about that log. The library-backed `WaveSeekBar` is modelled by its
  percentage-to-position conversion and back.
- `player_view_model.dfy` (module `ViewModel`): `PlayerViewModelState`, the
  `Player` wrapper reduced to its play state, position, duration and loaded
  track, and the class `PlayerViewModel`. Each event is one atomic method: a
  picked track, the end of a sample extraction, going back, a seek, play/pause,
  one polling tick, and the completion and prepared notifications. The
  invariant `Synced` says that the screen shows the player's play state and
  that the polling timer runs exactly while the player plays. Every method keeps
  it, and play/pause, going back and completion re-establish it.

I/O is modelled as parameters:
- The samples an extraction delivers are a parameter of `OnSamplesExtracted`.
- The track length the platform decodes is a parameter of `LoadUri`.
- The pointer coordinates, drag deltas, touch slop and measured width are
  parameters of the gesture methods.

Consequences of the code worth noting:
- A tap reports the truncated position `(duration * x / width).toInt()`.
- The bar index `floor((b + 1) * size / 1000)` makes the last bar read one past
  the end of the samples. In exact arithmetic that bar is therefore always at the
  minimum height. For the preview with a thousand 1s followed by 100, every bar
  is at the minimum height: the 100 is never read (`TrailingPeakNeverShown`).
- The library view's listener keeps the duration of the composition that created
  the view. A view created while its duration is 0 (for instance before the first
  track is prepared) sends every user change to position 0
  (`FrozenDurationSeeksToStart`). One created with an earlier duration scales by
  that duration.
- Completion only clears `isPlaying` and cancels the timer. The position, the
  samples and the track stay as they are.
- A late extraction result is not without effect. It stores samples while no
  track is selected (`StaleExtraction`).

## Model

| member | source | states |
|---|---|---|
| `Kotlin.Trunc` | app/src/main/java/ru/tinkoff/player/screen/WaveSeekBar.kt:127-128 | truncation toward zero: the result has the sign of the value and is less than 1 away from it, toward zero |
| `Kotlin.FloatToInt` | app/src/main/java/ru/tinkoff/player/screen/WaveSeekBar.kt:148 | `Float.toInt()`: truncation toward zero inside the `Int` range, and `Int.MAX_VALUE` / `Int.MIN_VALUE` beyond it |
| `Kotlin.FloatToIntOfInt` | app/src/main/java/ru/tinkoff/player/screen/WaveSeekBar.kt:66 | an `Int` converted to `Float` and back is unchanged (exact reals; a Kotlin `Float` keeps this only up to 2^24 in magnitude) |
| `Kotlin.Divide` | app/src/main/java/ru/tinkoff/player/screen/WaveSeekBar.kt:102 | float division is finite exactly when the divisor is non-zero, and it then inverts multiplication; 0/0 is NaN and a positive value over 0 is +infinity |
| `Kotlin.Scale` | app/src/main/java/ru/tinkoff/player/screen/WaveSeekBar.kt:105 | scaling by a positive constant keeps finiteness, is undone by dividing by the constant, and leaves infinities and NaN as they are |
| `Kotlin.Below` | app/src/main/java/ru/tinkoff/player/screen/WaveSeekBar.kt:167 | the comparison `bar < x` of a finite value with a float: the plain comparison for a finite `x`, true for +infinity, false for NaN and -infinity |
| `WaveSeekBar.SampleAt` | app/src/main/java/ru/tinkoff/player/screen/WaveSeekBar.kt:160 | `getOrNull(index) ?: 0`: the sample at an index inside the array, 0 past its end; so the value read is 0 or one of the samples, and never exceeds a non-negative maximum |
| `Kotlin.BelowDownward` | app/src/main/java/ru/tinkoff/player/screen/WaveSeekBar.kt:167 | the test `bar < x` is closed under smaller bars, NaN and infinities included, which makes the played bars a prefix |
| `WaveSeekBar.RealMax` | app/src/main/java/ru/tinkoff/player/screen/WaveSeekBar.kt:164 | `max(a, b)` is one of its arguments and no less than either |
| `WaveSeekBar.MaxSample` | app/src/main/java/ru/tinkoff/player/screen/WaveSeekBar.kt:92 | `maxOrNull()` of a non-empty array is one of its samples and no sample exceeds it |
| `WaveSeekBar.SampleIndex` | app/src/main/java/ru/tinkoff/player/screen/WaveSeekBar.kt:159 | the index a bar reads, with `samplesInBar` of line 96, is the floor of `(bar + 1) * size / 1000` |
| `WaveSeekBar.BarHeight` | app/src/main/java/ru/tinkoff/player/screen/WaveSeekBar.kt:160-164 | a bar's height is at least 0.01, and at most 1 when the maximum sample is positive |
| `WaveSeekBar.Heights` | app/src/main/java/ru/tinkoff/player/screen/WaveSeekBar.kt:90-96 | bars are drawn only for present, non-empty samples with a non-zero maximum, always exactly 1000 bars, none below 0.01 |
| `WaveSeekBar.SampleIndexMonotone` | app/src/main/java/ru/tinkoff/player/screen/WaveSeekBar.kt:159 | the sample index is non-decreasing in the bar number |
| `WaveSeekBar.SampleIndexRange` | app/src/main/java/ru/tinkoff/player/screen/WaveSeekBar.kt:159-160 | every bar reads an index in `[0, size]`, and for non-empty samples the index equals `size` (out of range) exactly for the last bar |
| `WaveSeekBar.LastBarIsMinimal` | app/src/main/java/ru/tinkoff/player/screen/WaveSeekBar.kt:158-164 | whenever bars are drawn, the last bar has height 0.01 |
| `WaveSeekBar.HeightsBounded` | app/src/main/java/ru/tinkoff/player/screen/WaveSeekBar.kt:164 | with a positive maximum sample, bars are drawn and every height lies in `[0.01, 1]` |
| `WaveSeekBar.UniformHeights` | app/src/main/java/ru/tinkoff/player/screen/WaveSeekBar.kt:199-209 | for all-equal positive samples, every bar but the last has height exactly 1, and the last has 0.01 |
| `WaveSeekBar.TrailingPeakSamples` | app/src/main/java/ru/tinkoff/player/screen/WaveSeekBar.kt:214 | the preview's samples are 1001 long, the first 1000 are 1, and the last is 100 |
| `WaveSeekBar.TrailingPeakHeights` | app/src/main/java/ru/tinkoff/player/screen/WaveSeekBar.kt:158-164 | for any thousand 1s followed by 100, the maximum is 100 and no bar reads index 1000, so every bar has height 0.01 |
| `WaveSeekBar.TrailingPeakNeverShown` | app/src/main/java/ru/tinkoff/player/screen/WaveSeekBar.kt:211-221 | in the `PreviewNewWaveSeekBar100And1` preview, every one of the 1000 bars has the minimum height; the trailing 100 is never shown |
| `WaveSeekBar.NothingDrawnIffSilent` | app/src/main/java/ru/tinkoff/player/screen/WaveSeekBar.kt:90-93 | nothing is drawn without samples; for non-negative samples, nothing is drawn exactly when all are 0 (including no samples) |
| `WaveSeekBar.Current` | app/src/main/java/ru/tinkoff/player/screen/WaveSeekBar.kt:101-104 | the drag fraction while one is set; otherwise position over duration, finite exactly for a non-zero duration and then multiplied back by the duration gives the position, and NaN for 0/0 |
| `WaveSeekBar.IsPlayedBar` | app/src/main/java/ru/tinkoff/player/screen/WaveSeekBar.kt:105 | with the colour test of line 167: while a drag fraction `f` is set, bar `b` is played iff `b < 1000 f`; at position 0 of duration 0 (NaN) no bar is played |
| `WaveSeekBar.PlayedBarCharacterization` | app/src/main/java/ru/tinkoff/player/screen/WaveSeekBar.kt:101-105 | with the colour test of line 167: while a drag fraction `f` is set, bar `b` is played iff `b < 1000 f`, whatever the player says; otherwise iff `b * duration < 1000 * position` (reversed for a negative duration); with duration 0, every bar is played iff the position is positive, and none otherwise |
| `WaveSeekBar.PlayedBarsFormPrefix` | app/src/main/java/ru/tinkoff/player/screen/WaveSeekBar.kt:167 | if a bar is played, so is every bar before it |
| `WaveSeekBar.PlayedAtEnds` | app/src/main/java/ru/tinkoff/player/screen/WaveSeekBar.kt:101-105 | with the colour test of line 167: with a positive duration and no drag, no bar is played at position 0 or less, and every bar is played at the end of the track or after |
| `WaveSeekBar.Compose` | app/src/main/java/ru/tinkoff/player/screen/WaveSeekBar.kt:90-171 | the loop draws nothing exactly when the profile is empty; otherwise it draws 1000 bars, bar `b` with height `Heights[b]` and the progress colour iff `IsPlayedBar(b)` |
| `WaveSeekBar.PositionAt` | app/src/main/java/ru/tinkoff/player/screen/WaveSeekBar.kt:126-128 | the conversion shared by the tap and by the end of a drag (line 148): for a fraction in `[0, 1]` and a non-negative duration, the position lies in `[0, duration]` and is within 1 ms below `duration * fraction`; fraction 0 gives 0 and fraction 1 gives the duration |
| `WaveSeekBar.SlopOffset` | app/src/main/java/ru/tinkoff/player/screen/WaveSeekBar.kt:138-139 | the signed slop is the touch slop or its negation, positive exactly when the delta is positive |
| `WaveSeekBar.Dragged` | app/src/main/java/ru/tinkoff/player/screen/WaveSeekBar.kt:135-143 | the drag fraction after a sequence of deltas: no delta leaves it unchanged, and an unconsumed slop is added once, before the first delta, after which the drag goes on as with the slop consumed |
| `WaveSeekBar.DraggedConcat` | app/src/main/java/ru/tinkoff/player/screen/WaveSeekBar.kt:135-143 | dragging by `xs` and then by `ys` ends where dragging by `xs + ys` does, so one handler call per delta computes the fold over the whole gesture |
| `WaveSeekBar.DraggedAfterSlop` | app/src/main/java/ru/tinkoff/player/screen/WaveSeekBar.kt:143 | once the slop is consumed, the deltas move the fraction by their sum over the width, without clamping |
| `WaveSeekBar.DraggedAfterPress` | app/src/main/java/ru/tinkoff/player/screen/WaveSeekBar.kt:135-143 | a drag after a press at `x` ends at `(x ± touchSlop + Σ deltas) / width`, with the sign of the first delta (plus only when it is positive) |
| `WaveSeekBar.CanvasWaveSeekBar.constructor` | app/src/main/java/ru/tinkoff/player/screen/WaveSeekBar.kt:98-112 | the remembered state starts with width 0, no drag fraction, slop not consumed and no callback calls |
| `WaveSeekBar.CanvasWaveSeekBar.OnGloballyPositioned` | app/src/main/java/ru/tinkoff/player/screen/WaveSeekBar.kt:152-154 | the layout callback sets only the width |
| `WaveSeekBar.CanvasWaveSeekBar.Press` | app/src/main/java/ru/tinkoff/player/screen/WaveSeekBar.kt:120-123 | press sets the drag fraction to `x / width` and clears `slopConsumed`; no callback |
| `WaveSeekBar.CanvasWaveSeekBar.Tap` | app/src/main/java/ru/tinkoff/player/screen/WaveSeekBar.kt:124-130 | tap clears the drag fraction and appends exactly one callback call, with `PositionAt(duration, x / width)` |
| `WaveSeekBar.CanvasWaveSeekBar.Drag` | app/src/main/java/ru/tinkoff/player/screen/WaveSeekBar.kt:135-144 | a delta sets `slopConsumed`; it adds the signed slop over the width when the slop was not yet consumed, then adds the delta over the width; it never calls back; with no drag fraction, `!!` throws |
| `WaveSeekBar.CanvasWaveSeekBar.DragStopped` | app/src/main/java/ru/tinkoff/player/screen/WaveSeekBar.kt:145-150 | drag-stop clears the drag fraction and appends exactly one callback call, with the position of the final fraction; with no fraction, `!!` throws and nothing changes |
| `WaveSeekBar.PressThenTap` | app/src/main/java/ru/tinkoff/player/screen/WaveSeekBar.kt:120-130 | press then tap gives exactly one callback call, with the tapped position, and leaves the bar following the player |
| `WaveSeekBar.PressDragRelease` | app/src/main/java/ru/tinkoff/player/screen/WaveSeekBar.kt:120-150 | press, two deltas, release: no callback call before the release, then exactly one, with the position of `(x ± slop + d1 + d2) / width` |
| `WaveSeekBar.LibraryProgress` | app/src/main/java/ru/tinkoff/player/screen/WaveSeekBar.kt:78-79 | the library's percentage is finite exactly for a non-zero duration, and it is then `100 * position / duration` |
| `WaveSeekBar.LibraryPosition` | app/src/main/java/ru/tinkoff/player/screen/WaveSeekBar.kt:57-69 | a progress change not made by the user is ignored; one made by the user in `[0, 100]` with a non-negative duration gives a position in `[0, duration]` |
| `WaveSeekBar.FrozenDurationSeeksToStart` | app/src/main/java/ru/tinkoff/player/screen/WaveSeekBar.kt:65-66 | a listener that captured the duration 0 turns every user change into position 0 |
| `WaveSeekBar.LibraryRoundTrip` | app/src/main/java/ru/tinkoff/player/screen/WaveSeekBar.kt:63-79 | converting a position to the library's percentage and back, with the same non-zero duration in both directions, gives that position in exact arithmetic |
| `ViewModel.Player.constructor` | app/src/main/java/ru/tinkoff/player/PlayerViewModel.kt:119-121 | a new player is not playing, at position 0, with no track |
| `ViewModel.Player.PlayPause` | app/src/main/java/ru/tinkoff/player/PlayerViewModel.kt:127-135 | play/pause toggles the play state: a playing player pauses and returns false, others start and return true |
| `ViewModel.Player.SeekTo` | app/src/main/java/ru/tinkoff/player/PlayerViewModel.kt:123-125 | seeking sets only the position |
| `ViewModel.Player.Reset` | app/src/main/java/ru/tinkoff/player/PlayerViewModel.kt:150-154 | reset pauses, seeks to 0 and drops the track |
| `ViewModel.Player.LoadUri` | app/src/main/java/ru/tinkoff/player/PlayerViewModel.kt:145-148 | loading sets the track and its duration |
| `ViewModel.Player.Complete` | app/src/main/java/ru/tinkoff/player/PlayerViewModel.kt:137-139 | the platform player's completion, which then fires the listener, stops playback |
| `ViewModel.PlayerViewModel.constructor` | app/src/main/java/ru/tinkoff/player/PlayerViewModel.kt:19-37 | the state starts at the record's defaults (no samples, no track, not playing, 0, 0), with no timer and no extraction in flight |
| `ViewModel.PlayerViewModel.OnTrackPicked` | app/src/main/java/ru/tinkoff/player/PlayerViewModel.kt:39-49 | a null result changes nothing; otherwise only `contentUri` changes, and an extraction for that track is in flight |
| `ViewModel.PlayerViewModel.OnSamplesExtracted` | app/src/main/java/ru/tinkoff/player/PlayerViewModel.kt:46-49 | a finished extraction sets only `samples`, without checking that its track is still selected |
| `ViewModel.PlayerViewModel.PickAnotherTrack` | app/src/main/java/ru/tinkoff/player/PlayerViewModel.kt:52-65 | going back resets the player and cancels the timer; it clears samples, track, play state and position, and keeps the duration |
| `ViewModel.PlayerViewModel.SeekTo` | app/src/main/java/ru/tinkoff/player/PlayerViewModel.kt:67-72 | a seek goes to the player and changes only the shown position |
| `ViewModel.PlayerViewModel.PlayPause` | app/src/main/java/ru/tinkoff/player/PlayerViewModel.kt:74-93 | `isPlaying` becomes the toggle's result; the timer runs iff that result is true, and the first poll then shows the player's position; from a synced state, a start never happens while a polling job runs |
| `ViewModel.PlayerViewModel.Tick` | app/src/main/java/ru/tinkoff/player/PlayerViewModel.kt:78-84 | while the timer runs, a tick changes only the shown position, to the player's; otherwise it changes nothing |
| `ViewModel.PlayerViewModel.OnCompletion` | app/src/main/java/ru/tinkoff/player/PlayerViewModel.kt:30-33 | completion changes only `isPlaying`, to false, and cancels the timer |
| `ViewModel.PlayerViewModel.OnPrepared` | app/src/main/java/ru/tinkoff/player/PlayerViewModel.kt:34-36 | the prepared listener changes only the duration, to the player's |
| `ViewModel.PlayerViewModel.LoadUri` | app/src/main/java/ru/tinkoff/player/PlayerViewModel.kt:95-97 | loading hands the track to the player and leaves the state alone |
| `ViewModel.StaleExtraction` | app/src/main/java/ru/tinkoff/player/PlayerViewModel.kt:39-65 | pick a track, go back, then let its extraction finish: samples are present, no track is selected, and playback is stopped at 0 |
| `ViewModel.PlayToCompletion` | app/src/main/java/ru/tinkoff/player/PlayerViewModel.kt:29-93 | pick, load, prepare, play, poll, complete: the state holds the track and its duration and the last polled position, and playback and timer are stopped |

## Left out

- Float rounding: `samplesInBar`, the fractions and the heights are exact reals. The float value of `(bar + 1) * samplesInBar` can fall just below an integer and pick a different sample; this is not modelled.
- `Float.toInt()` of NaN or an infinity: the gesture arithmetic never produces one while the width is positive, so the model converts only finite values.
- A zero width: in the source, a gesture before the first layout pass divides by 0. The gesture methods require a positive width, which the layout callback establishes before any gesture.
- Compose machinery: the lifetime of `remember`ed state (it is lost when the composable returns early or leaves the composition), recomposition, the restart of `pointerInput` when the duration changes (the duration is a parameter of each handler instead), colours, sizes and the rendering of the library view.
- The platform's own behaviour: how the position advances during playback, `seekTo` clamping, the media player's illegal-state errors, and what `reset` does to the duration.
- `ViewModel.PlayerViewModel.PlayPause`: the timer is one flag, so a second polling job launched while one still runs is not represented. Its contract shows that under `Synced`, which every method keeps, a start only happens with no timer running.
- Time and concurrency: the 1/30 s delay, the coroutine scheduling, cancellation timing, and the `StateFlow` publication. Each callback and each polling pass is one atomic method.
- Amplitude extraction (app/src/main/java/ru/tinkoff/player/Dependencies.kt): a library call with content-resolver I/O. Its result is a parameter. That file builds the view model with one argument where the class takes two; the model follows the class as declared.
- app/src/main/java/ru/tinkoff/player/Player.kt: a second `Player` with its own state flow and timer. It is not part of this model.
- app/src/main/java/ru/tinkoff/player/screen/PlayerScreen.kt, MainActivity.kt and App.kt: screen layout, permissions, back handling, a local media player and entry points. They are not part of this model.
- `WaveSeekBar.LibraryRoundTrip`: holds only when the listener's captured duration equals the current one and in exact arithmetic. The listener created in `factory` (line 66) keeps the first composition's duration while `update` (line 79) uses the current one (see `FrozenDurationSeeksToStart`). With Kotlin `Float` rounding, the truncation can also come back 1 short: position 5 of duration 6 gives 4.9999995, which truncates to 4.
- `WaveSeekBar.BarHeight`: its contract states only the bounds. That the height is `max(sample / max, 0.01)` is its definition, which the lemmas about it use.
