# Eyebro hazard engine — a Dafny model

Eyebro is an Android walking aid. It points the phone's depth camera ahead
of the user, and for every depth frame it decides on one hazard: an obstacle,
a tilt correction, descending stairs, a deep drop-off, or nothing. It then
warns through a coloured banner, a vibration and a spoken message. Each
non-visual channel has its own cooldown.

This project models the per-frame core of `MainActivity.kt`, in four modules:

- `DepthScan` (`depth_scan.dfy`) models the depth scanner.
  - `DistanceAt` decodes one little-endian 16-bit millimetre distance from the
    depth plane's bytes. A read outside the buffer is absent (`None`), where
    the buffer access throws.
  - `ScanDepth` is the nested strided loop over the region of interest. It
    uses `ScanRow` for one row and `CountReading` for one reading, and
    accumulates the close and deep counts plus the upper-half and lower-half
    sums and counts.
  - `ScanDepth` is proved equal to `ScanSpec`, a value-level definition: the
    grid of visited points (`Grid`), their readings (`Samples`) and a left
    fold of `Accumulate` over them (`Tally`).
  - `Tally` is then characterised counter by counter (`TallyCounts`).
- `Hazards` (`hazards.dfy`) models the classifier.
  - `TiltOf` gives the tilt flags.
  - `TotalPixels` is the pixel total that the thresholds are fractions of.
  - `Classify` is the first-match-wins cascade: Obstacle, TiltTooHigh,
    Staircase, DeepDropOff, TiltTooLow, Clear. It is related to an
    independent rule table: `Triggered` gives each outcome's condition and
    `Rank` its priority.
- `Speech` (`speech.dfy`) models the text-to-speech sanitiser, which deletes
  every character outside `[a-zA-Z0-9 ]`.
- `Alerts` (`alerts.dfy`) models the alert dispatcher.
  - It covers the banner texts and colours, the label guard, and the class
    `AlertDispatcher`.
  - The class holds the settings flags, the cached object label, the two
    last-fired timestamps and the banner state.
  - Its methods are `TriggerObstacleWarning`, `ClearWarning`, `Dispatch` (the
    `when` block), `OnLabels` (the labeler's success listener) and
    `ProcessDepth` (one whole frame).
  - Ghost logs of every haptic pulse and every utterance carry the cooldown
    invariant. Any two pulses are more than 500 ms apart, and any two
    utterances more than 2500 ms, across any number of Clear frames.

`Wrappers` (`wrappers.dfy`) holds the `Option` type.

The clock, the depth image and the pose are parameters. `now` is the
wall-clock time in milliseconds. `depth` is the frame's depth plane, absent
when the camera has none. `forwardY` is the vertical component of the
forward vector. The vibrator, the speech engine and the labeler request are
returned as an `Effects` value, not performed.

Where the design intent and the code differ, the model follows the code:

- The pixel total is the product of the floors of width/8 and height/8
  (`MainActivity.kt:352`). It is not the number of points visited.
  - `TotalPixelsAtMostVisited` shows that the total is at most the number
    of visited points.
  - `TotalPixels`'s contract shows that the total is 0 whenever the region is
    narrower or shorter than 8 pixels, even though points are still visited.
  - In that case any single close reading makes the frame an Obstacle
    (`NarrowRoiSingleCloseReading`), not Clear.
- Both cooldowns fire only when strictly more than the interval has passed
  (`>`, lines 524 and 529), not when at least the interval has.
- The scan does not confine any band to the lower part of the region: the
  drop-start constant (line 104) is declared but never used. Every visited
  reading counts towards the deep count.
- The labeling interval (line 87) is declared but never used. A label is
  requested on every Obstacle frame.

## Model

| member | source | states |
|---|---|---|
| DepthScan.DistanceAt | app/src/main/java/com/example/eyebro/MainActivity.kt:511-515 | A reading exists exactly when both bytes lie in the buffer. It is then low + 256·high, at most 65535. |
| DepthScan.DistanceAtReadsTwoBytes | app/src/main/java/com/example/eyebro/MainActivity.kt:511-515 | The decoded distance depends only on the two bytes at `index` and `index + 1`. |
| DepthScan.Accumulate | app/src/main/java/com/example/eyebro/MainActivity.kt:327-346 | A zero reading changes nothing. Otherwise the reading adds one to the upper or lower count and its distance to their sums, and one to the close count iff it is below 1200 and to the deep count iff it is above 4000. |
| DepthScan.CountReading | app/src/main/java/com/example/eyebro/MainActivity.kt:327-346 | One reading updates the counters exactly as the specification step `Accumulate` does. |
| DepthScan.ScanRow | app/src/main/java/com/example/eyebro/MainActivity.kt:323-347 | Scanning one row extends the tally of the points visited so far by that row's readings. If a read falls outside the buffer, the whole grid is not readable. |
| DepthScan.ScanDepth | app/src/main/java/com/example/eyebro/MainActivity.kt:312-348 | The nested loop's result equals `ScanSpec`: the counters of every grid point's reading in row-major order, or nothing when any read is outside the buffer. |
| DepthScan.TallyCounts | app/src/main/java/com/example/eyebro/MainActivity.kt:327-346 | Each counter counts or sums exactly its own readings: close in [1, 1200), deep above 4000, and non-zero upper-half or lower-half readings. |
| DepthScan.TallyIgnoresZeros | app/src/main/java/com/example/eyebro/MainActivity.kt:327 | Zero readings leave every counter unchanged. |
| DepthScan.CountsPartition | app/src/main/java/com/example/eyebro/MainActivity.kt:330-346 | The upper and lower counts partition the non-zero readings. No reading is both close and deep. |
| DepthScan.ScanCounters | app/src/main/java/com/example/eyebro/MainActivity.kt:312-348 | After a full scan, the upper and lower counts sum to the non-zero readings, which are at most the points visited. Close plus deep is at most that sum. |
| DepthScan.GridShape | app/src/main/java/com/example/eyebro/MainActivity.kt:322-323 | Every visited point lies inside the region, on the 8-pixel lattice anchored at its top-left corner. |
| DepthScan.StepsIsCeiling | app/src/main/java/com/example/eyebro/MainActivity.kt:322-323 | The number of lattice lines a `step` loop visits below its end is the ceiling of extent/step: they cover the extent, and one fewer would not. |
| DepthScan.GridSize | app/src/main/java/com/example/eyebro/MainActivity.kt:322-323 | The scan visits lattice columns × lattice rows points, that is ceil(width/step)·ceil(height/step) by `StepsIsCeiling`, none exactly when the region is empty. |
| DepthScan.EmptyRoiScan | app/src/main/java/com/example/eyebro/MainActivity.kt:322-323 | A region of zero width or height yields all-zero counters, whatever the buffer. |
| DepthScan.ScanInBounds | app/src/main/java/com/example/eyebro/MainActivity.kt:322-325 | If the buffer covers the last row and column offsets, every read succeeds and the scan yields counters. |
| Hazards.TiltOf | app/src/main/java/com/example/eyebro/MainActivity.kt:298-299 | Too high only above -0.40 and too low only below -0.75, so the two never hold together; neither holds exactly when forwardY lies in [-0.75, -0.40]. |
| Hazards.ClassifyIsFirstMatch | app/src/main/java/com/example/eyebro/MainActivity.kt:367-388 | The cascade's outcome has its condition met, and no outcome of higher priority does. |
| Hazards.FirstMatchIsUnique | app/src/main/java/com/example/eyebro/MainActivity.kt:367-388 | Any outcome whose condition holds, with no higher-priority condition holding, is the cascade's outcome. |
| Hazards.CascadePriorities | app/src/main/java/com/example/eyebro/MainActivity.kt:363-388 | Over 15% close readings always gives Obstacle; tilt-high beats every depth hazard; tilt-low only when nothing else applies; Staircase needs over 40% deep readings and an upper half more than 500 mm deeper; deep readings without that gap give DeepDropOff; Clear iff no condition holds. |
| Hazards.TotalPixelsAtMostVisited | app/src/main/java/com/example/eyebro/MainActivity.kt:352 | The pixel total is at most the number of points the scan visits. |
| Hazards.TotalPixels | app/src/main/java/com/example/eyebro/MainActivity.kt:352 | The pixel total is positive iff the region is at least one step wide and one step high. |
| Hazards.AverageUpper | app/src/main/java/com/example/eyebro/MainActivity.kt:358 | The integer average of the upper half: 0 with no readings, else the largest r with r·count ≤ sum. |
| Hazards.AverageLower | app/src/main/java/com/example/eyebro/MainActivity.kt:359 | The integer average of the lower half: 0 with no readings, else the largest r with r·count ≤ sum. |
| Hazards.StairSignature | app/src/main/java/com/example/eyebro/MainActivity.kt:363 | A staircase needs at least one upper reading, and an upper sum above 500 mm per upper reading. |
| Hazards.Classify | app/src/main/java/com/example/eyebro/MainActivity.kt:367-388 | The chosen hazard's own condition holds, and it is Obstacle iff over 15% of the total are close readings. |
| Hazards.EmptyRoiOnlyTilt | app/src/main/java/com/example/eyebro/MainActivity.kt:352-388 | An empty region gives zero counters and so only a tilt warning or Clear. |
| Hazards.NarrowRoiSingleCloseReading | app/src/main/java/com/example/eyebro/MainActivity.kt:352-369 | A non-empty region narrower than 8 pixels has a total of 0 although points are visited. A single close reading then makes an Obstacle. |
| Speech.Sanitize | app/src/main/java/com/example/eyebro/MainActivity.kt:530 | Sanitising never lengthens the text. |
| Speech.SanitizeIsSpeakable | app/src/main/java/com/example/eyebro/MainActivity.kt:530 | The spoken text contains only ASCII letters, digits and spaces. |
| Speech.SanitizeAppend | app/src/main/java/com/example/eyebro/MainActivity.kt:530 | Sanitising a concatenation is the concatenation of the sanitised parts. |
| Speech.SanitizeFixedPoint | app/src/main/java/com/example/eyebro/MainActivity.kt:530 | A text is unchanged iff it is already entirely letters, digits and spaces. |
| Speech.SanitizeIdempotent | app/src/main/java/com/example/eyebro/MainActivity.kt:530 | Sanitising twice equals sanitising once. |
| Speech.SanitizeIsSubsequence | app/src/main/java/com/example/eyebro/MainActivity.kt:530 | The kept characters are in their original order (a subsequence of the input). |
| Speech.SanitizeKeepsSpeakable | app/src/main/java/com/example/eyebro/MainActivity.kt:530 | Each speakable character survives as often as it occurs. No other character survives. |
| Alerts.Warning | app/src/main/java/com/example/eyebro/MainActivity.kt:367-388 | Every hazard except Clear has a banner. Clear alone hides it. |
| Alerts.ObstacleText | app/src/main/java/com/example/eyebro/MainActivity.kt:371-372 | The obstacle banner starts with "STOP!". It is exactly "STOP!" unless detection is on and a label is cached, and then it is "STOP! (", the label verbatim, and ")". |
| Alerts.ObstacleSpeech | app/src/main/java/com/example/eyebro/MainActivity.kt:371-372 | The obstacle banner is spoken as "STOP", plus a space and the sanitised label when detection is on and a label is cached. |
| Alerts.LabelledStopSpeech | app/src/main/java/com/example/eyebro/MainActivity.kt:371-372 | "STOP! (label)" is spoken as "STOP " followed by the sanitised label. |
| Alerts.TiltDownSpeech | app/src/main/java/com/example/eyebro/MainActivity.kt:377 | The tilt-down banner is spoken without its arrow. |
| Alerts.TiltUpSpeech | app/src/main/java/com/example/eyebro/MainActivity.kt:385 | The tilt-up banner is spoken without its arrow. |
| Alerts.StairsSpeech | app/src/main/java/com/example/eyebro/MainActivity.kt:380 | The stairs banner is spoken without its arrow and emoji selector. |
| Alerts.DeepSpeech | app/src/main/java/com/example/eyebro/MainActivity.kt:382 | The drop-off banner is spoken exactly as written. |
| Alerts.BannerSpeech | app/src/main/java/com/example/eyebro/MainActivity.kt:367-388 | For every hazard with a banner, the spoken text is the banner without symbols or punctuation. |
| Alerts.AcceptLabel | app/src/main/java/com/example/eyebro/MainActivity.kt:406-408 | The cached label after a result list is either unchanged or the list's first label. |
| Alerts.LabelIsLastConfident | app/src/main/java/com/example/eyebro/MainActivity.kt:406-408 | After any run of results, the cached label is the first label of the most recent result above 0.75 confidence, or the initial label if there is none. |
| Alerts.SpacedPairwise | app/src/main/java/com/example/eyebro/MainActivity.kt:524-533 | In a log whose consecutive firings are more than the interval apart, any two firings are. |
| Alerts.Firings | app/src/main/java/com/example/eyebro/MainActivity.kt:524-533 | Over a run of non-Clear frames, a channel fires at most once per frame, only at frame times, and never when disabled. |
| Alerts.FiringsSpaced | app/src/main/java/com/example/eyebro/MainActivity.kt:524-533 | For any sequence of frame times, a channel's firings are spaced by more than its interval, and each comes more than the interval after the previous firing time. |
| Alerts.NoFiringWithin | app/src/main/java/com/example/eyebro/MainActivity.kt:524-527 | Frames no more than the interval after the last firing never fire. |
| Alerts.BurstFiresOnce | app/src/main/java/com/example/eyebro/MainActivity.kt:524-527 | A burst of frames within one interval of its first frame, which is past the cooldown, fires exactly once. |
| Alerts.CooldownRespected | app/src/main/java/com/example/eyebro/MainActivity.kt:524-533 | In any valid dispatcher, any two recorded pulses are more than 500 ms apart, and any two utterances more than 2500 ms. |
| Alerts.AlertDispatcher.constructor | app/src/main/java/com/example/eyebro/MainActivity.kt:72-109 | Starts with the given flags, no label, both timestamps 0, the banner hidden with empty text and no colour, and empty logs. |
| Alerts.AlertDispatcher.TriggerObstacleWarning | app/src/main/java/com/example/eyebro/MainActivity.kt:517-534 | Shows the banner with the text and colour. Each channel fires iff it is enabled and strictly more than its interval has passed; only a firing channel records `now`. Speech is the sanitised text. The cooldown invariant is kept. |
| Alerts.AlertDispatcher.ClearWarning | app/src/main/java/com/example/eyebro/MainActivity.kt:536-538 | Hides the banner and changes nothing else. |
| Alerts.AlertDispatcher.Dispatch | app/src/main/java/com/example/eyebro/MainActivity.kt:366-388 | Clear hides the banner with no effects. Any other hazard shows its banner and fires the channels past their cooldowns, speaking the sanitised banner. A label is requested iff the hazard is Obstacle. |
| Alerts.AlertDispatcher.OnLabels | app/src/main/java/com/example/eyebro/MainActivity.kt:405-408 | The cached label becomes the first result's text only when its confidence exceeds 0.75. |
| Alerts.AlertDispatcher.ProcessDepth | app/src/main/java/com/example/eyebro/MainActivity.kt:286-394 | A frame without a depth image, or with an out-of-bounds read, is abandoned with nothing changed. Otherwise the outcome is the classification of the scan. Clear hides the banner with no effects. Any other outcome shows its banner text and colour; a label is requested iff Obstacle; each channel fires iff enabled and strictly past its cooldown, records `now` in its timestamp and log only then, and speech is the sanitised banner. |

## Left out

- The ARCore session, frame acquisition and the pose matrix are not modelled.
  The forward vector's vertical component is a parameter.
- The conversion of the region's fractional bounds (0.15/0.85 of the width,
  0.20/0.75 of the height, lines 307–310) to integer pixels is not modelled.
  The region is given by integer bounds.
- The thresholds `totalPixels * 0.15` and `* 0.40` are Kotlin `Double`
  products. They are modelled as the exact rationals `100·c > 15·t` and
  `100·d > 40·t`, so a binary floating-point rounding at the exact boundary
  is not captured.
- 32-bit `Int` and 64-bit `Long` overflow of the counters, sums and offsets
  is not modelled. Integers are unbounded; on real frame sizes the values
  stay far below those limits.
- The depth image's `close()` is not modelled; its only effect is to release
  the camera buffer.
- Drawing the camera feed and the region overlay with OpenGL is not part of
  this model.
- Handing the cascade to the UI thread (`runOnUiThread`) is not modelled.
  The model dispatches synchronously, so it reads the flags and the cached
  label as they are when the frame is classified.
- The labeler request (`identifyObstacleMlKit`) is an effect flag only.
  Converting the camera image, the asynchronous labeler call and its failure
  listener are not modelled. `OnLabels` models what the success listener
  does with a result list.
- The YOLO / TensorFlow Lite detection path, including its own label update,
  is not part of this model.
- The vibrator and the speech engine are not called. Their requests are
  returned in `Effects`, and the speech engine's queue-flush behaviour is
  not modelled.
- Loading the settings from shared preferences and the settings screen are
  not part of this model. The three flags are constructor arguments.
- The banner's state before the first warning comes from the layout.
  It is modelled as hidden, with empty text and no colour (`None`).
- The speech sanitiser works on Dafny characters (Unicode scalar values),
  not on Kotlin's UTF-16 code units. Both delete every non-ASCII symbol, so
  the spoken text is the same.
- Alerts.AlertDispatcher.ProcessDepth: the exception path also covers
  failures inside the ARCore calls themselves. Only a missing depth image
  and an out-of-bounds buffer read are modelled.
