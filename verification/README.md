# RealtimeASL prediction smoothing, in Dafny

RealtimeASL shows, live, the American Sign Language letter a camera sees. Each
camera frame is classified by an opaque image classifier into a
`(label, confidence)` pair. The camera view model keeps the last ten such pairs
in a FIFO window (`predictionBuffer`, capacity `maxBufferSize = 10`). After
every frame it shows a smoothed prediction:

- the window is grouped by label;
- each label is scored by the arithmetic mean of its confidences;
- the label with the highest mean is shown together with that mean;
- an empty window shows the placeholder `("–", 0.0)`.

A translation on/off flag gates the intake. While the flag is off, captured
frames are ignored. Switching it off shows the placeholder but leaves the
window as it is.

This project models that core as pure functions over immutable values:

- `prediction.dfy` (module `Predictions`): the `(label, confidence)` pair, the
  capacity and the placeholder.
- `buffer.dfy` (module `PredictionBuffer`): the push-and-evict step and the
  sliding-window reference definition `Recent`.
- `smoothing.dfy` (module `Smoothing`): group-by, means and arg-max. It has a
  relational specification `IsSmoothed`, which accepts any maximal label. It
  also has a deterministic function `Smooth`, which picks the first-seen label
  on a tie. Finally, `GroupMeans` and `GetSmoothedPrediction` implement the
  same two-pass dictionary algorithm as the source, with loops.
- `camera.dfy` (module `CameraViewModel`): the state `{buffer, translating}`,
  the three steps (toggle, captured frame, update) and runs of events.
- `scenarios.dfy` (module `Scenarios`): concrete windows and their smoothed
  output.

Confidences are `real`s, not 32-bit floats.

### Behaviour of the code worth knowing

- **No reset.** Switching translation off does not clear the window, and
  switching it on again does not clear it either. The first frames of a new
  session are therefore averaged with the last frames of the previous one
  (`CameraViewModel.RestartKeepsWindow`). There is no `reset` and no
  `currentStabilized` accessor in the code, so neither is modelled.
- **Mean, not frequency.** The source comment at
  `CameraViewModel.swift:147` says "most frequent". The code selects only by
  mean. A single sighting at 0.95 therefore beats two sightings averaging 0.8.
  The window `[(A,0.9),(A,0.7),(B,0.95)]` smooths to `(B, 0.95)`, not
  `(A, 0.8)` (`Scenarios.HighestMeanBeatsMajority`).
- **Ties.** The source picks among equal means in dictionary iteration order,
  which is unspecified. `IsSmoothed` leaves the choice open. `Smooth` fixes it
  to the label that entered the window first, which is what a left-to-right
  `max(by:)` does when the groups are listed in first-seen order.
  `SmoothedConfidenceIsDetermined` proves that a tie can change only the label
  shown, never the confidence.

## Model

| member | source | states |
|---|---|---|
| PredictionBuffer.Push | RealtimeASL/RealtimeASL/Camera/CameraViewModel.swift:124-130 | The new prediction ends up last. Below capacity the result is the old buffer plus the new item. At or above capacity the first (oldest) entry is dropped and the rest keep their order. A buffer within capacity stays within capacity. |
| PredictionBuffer.PushEvictsOnlyOldest | RealtimeASL/RealtimeASL/Camera/CameraViewModel.swift:126-130 | Whatever the buffer's length, a push evicts at most one entry, and only the oldest. The old buffer plus the new item equals the evicted prefix followed by the new buffer. |
| PredictionBuffer.PushAllIsRecent | RealtimeASL/RealtimeASL/Camera/CameraViewModel.swift:124-130 | Any sequence of pushes onto a buffer within capacity leaves exactly the last 10 items of the old buffer followed by the new ones, in arrival order. The result never exceeds 10 items. |
| PredictionBuffer.FromEmptyKeepsLastTen | RealtimeASL/RealtimeASL/Camera/CameraViewModel.swift:20-21 | Starting from the empty buffer, the buffer holds the last min(n, 10) predictions received. |
| PredictionBuffer.Recent | RealtimeASL/RealtimeASL/Camera/CameraViewModel.swift:21 | The reference sliding window has exactly min(length, 10) items. |
| Smoothing.FirstSeen | RealtimeASL/RealtimeASL/Camera/CameraViewModel.swift:141 | For a label present in the buffer, returns the index of the entry that carries it with no earlier entry carrying it. |
| Smoothing.Labels | RealtimeASL/RealtimeASL/Camera/CameraViewModel.swift:141 | The group keys: a label is listed exactly when some buffer entry carries it. |
| Smoothing.LabelsInFirstSeenOrder | RealtimeASL/RealtimeASL/Camera/CameraViewModel.swift:141 | The groups are listed in order of first appearance, so no label is listed twice. |
| Smoothing.BestIndex | RealtimeASL/RealtimeASL/Camera/CameraViewModel.swift:148 | The chosen group has a maximal mean, and every group before it has a strictly smaller mean, so a tie goes to the earlier group. |
| Smoothing.Smooth | RealtimeASL/RealtimeASL/Camera/CameraViewModel.swift:140-149 | Satisfies `IsSmoothed`. An empty buffer gives `("–", 0.0)`. Otherwise the label occurs in the buffer, the confidence is that label's mean, and no label present has a higher mean. |
| Smoothing.SmoothPrefersFirstSeen | RealtimeASL/RealtimeASL/Camera/CameraViewModel.swift:148 | Among labels sharing the maximal mean, the one shown entered the buffer first. |
| Smoothing.GroupMeans | RealtimeASL/RealtimeASL/Camera/CameraViewModel.swift:141-145 | The dictionary-building pass. Its keys are exactly the labels in the buffer, and each value is that label's confidence sum divided by its count. |
| Smoothing.MaxByMean | RealtimeASL/RealtimeASL/Camera/CameraViewModel.swift:148 | The `max(by:)` scan over the groups, which replaces the current best only on a strictly greater mean. It returns the same index as `BestIndex`: a maximal mean, with ties going to the earlier group. |
| Smoothing.GetSmoothedPrediction | RealtimeASL/RealtimeASL/Camera/CameraViewModel.swift:140-149 | The loop implementation: group, then scan. It returns the placeholder for an empty buffer, satisfies `IsSmoothed`, and agrees with `Smooth`. |
| Smoothing.CountPositive | RealtimeASL/RealtimeASL/Camera/CameraViewModel.swift:141-144 | A label is a group key exactly when its entry count is positive, so no group divides by zero. An absent label has a zero sum. |
| Smoothing.TallyPermutation | RealtimeASL/RealtimeASL/Camera/CameraViewModel.swift:141-145 | Each label's confidence sum and count depend only on the multiset of entries, not on arrival order. |
| Smoothing.IsSmoothedPermutation | RealtimeASL/RealtimeASL/Camera/CameraViewModel.swift:141-148 | Reordering the buffer leaves the set of admissible smoothed outputs unchanged. |
| Smoothing.SmoothedConfidenceIsDetermined | RealtimeASL/RealtimeASL/Camera/CameraViewModel.swift:148 | All admissible outputs for a buffer carry the same confidence. Two with the same label are equal. |
| Smoothing.SmoothPermutation | RealtimeASL/RealtimeASL/Camera/CameraViewModel.swift:141-148 | Permuting the buffer leaves the winning mean unchanged. When one label alone attains the maximum, it also leaves the whole output unchanged. |
| Smoothing.MeanWithin | RealtimeASL/RealtimeASL/Camera/CameraViewModel.swift:142-145 | If all confidences lie in [lo, hi], every present label's mean lies in [lo, hi]. |
| Smoothing.SmoothedWithin | RealtimeASL/RealtimeASL/Camera/CameraViewModel.swift:140-149 | For a non-empty buffer, a smoothed confidence never leaves the range of the raw confidences. |
| Smoothing.SmoothedIsProbability | RealtimeASL/RealtimeASL/Camera/CameraViewModel.swift:140-149 | If all confidences lie in [0, 1], so does the smoothed confidence, including the placeholder's. |
| Smoothing.SmoothUniform | RealtimeASL/RealtimeASL/Camera/CameraViewModel.swift:141-148 | A non-empty buffer whose entries are all the same pair smooths to that pair. |
| CameraViewModel.ToggleTranslation | RealtimeASL/RealtimeASL/Camera/CameraViewModel.swift:81-88 | Sets the gate and leaves the buffer untouched. The placeholder is shown exactly when switching off; nothing is shown when switching on. |
| CameraViewModel.UpdatePrediction | RealtimeASL/RealtimeASL/Camera/CameraViewModel.swift:124-137 | Pushes the frame's prediction and shows a smoothed prediction of the new buffer. The gate is unchanged and the buffer stays within capacity. |
| CameraViewModel.CaptureOutput | RealtimeASL/RealtimeASL/Camera/CameraViewModel.swift:90-122 | With the gate off, or with the frame dropped on the way to the classifier, the state is unchanged and nothing is shown. Otherwise the classifier's top result is pushed, the gate stays on, and a smoothed prediction of the new buffer is shown. Something is shown exactly in that case. |
| CameraViewModel.RunPushesAccepted | RealtimeASL/RealtimeASL/Camera/CameraViewModel.swift:81-137 | Over any sequence of toggles and frames, the buffer receives exactly the predictions of frames classified while the gate was on, in order. The gate ends as the last toggle set it. |
| CameraViewModel.WindowOfRun | RealtimeASL/RealtimeASL/Camera/CameraViewModel.swift:124-130 | After any run, the buffer is the last 10 of the old buffer followed by the accepted predictions, so it never exceeds capacity. |
| CameraViewModel.WindowFromStart | RealtimeASL/RealtimeASL/Camera/CameraViewModel.swift:16-21 | From a fresh view model (gate off, empty buffer), the buffer is always the last 10 accepted predictions. |
| CameraViewModel.FramesIgnoredWhileOff | RealtimeASL/RealtimeASL/Camera/CameraViewModel.swift:91 | While translation is off, any number of captured frames leaves the state unchanged. |
| CameraViewModel.RestartKeepsWindow | RealtimeASL/RealtimeASL/Camera/CameraViewModel.swift:81-88 | Switching off and on again keeps the old buffer, and the next frame is pushed onto it. |
| Scenarios.HighestMeanBeatsMajority | RealtimeASL/RealtimeASL/Camera/CameraViewModel.swift:147-148 | `[(a,0.9),(a,0.7),(b,0.95)]` smooths to `(b, 0.95)`: the highest mean wins, not the most frequent label. |
| Scenarios.FullWindowOfOneLabel | RealtimeASL/RealtimeASL/Camera/CameraViewModel.swift:141-148 | Ten entries `(A, 0.5)` smooth to `(A, 0.5)`. |
| Scenarios.TieGoesToFirstSeen | RealtimeASL/RealtimeASL/Camera/CameraViewModel.swift:148 | Two labels tied at 0.5: the one seen first is shown, so reordering changes the label but not the confidence. |

## Left out

- Camera session configuration, start and stop (`CameraViewModel.swift:29-55, 65-79`): platform I/O.
- Model loading and the Vision/CoreML request (`CameraViewModel.swift:57-63, 95-121`):
  - the classifier is opaque;
  - its top result is an arbitrary input (`FrameOutcome.Classified`);
  - every way a frame can fail to reach it is a `DropReason`;
  - the crash of `try!` when wrapping the model is not modelled.
- The `UIImage` resizing and pixel-buffer conversion (`CameraViewModel.swift:155-197`): image processing through UIKit and CoreVideo. Its failure appears only as `ConversionFailed`.
- `DispatchQueue` hand-offs (`CameraViewModel.swift:110, 125`):
  - each update is one atomic step;
  - in the source, a classification already queued when translation is switched off can still be applied and shown after the placeholder;
  - that interleaving is not modelled.
- The display callback:
  - `toggleTranslation` stores the closure;
  - the model replaces it with the `shown` output of each step;
  - before the first toggle the callback is unset, but no frame can then reach the update, because the gate is off.
- Label equality: labels are compared as sequences of code points. The source groups them by Swift `String` equality (`CameraViewModel.swift:141`), which treats canonically equivalent strings as equal; for example, a precomposed "é" and "e" followed by a combining acute accent form one group there but two groups here. The model is faithful only when the classifier's labels are already in one normalisation form, so no two distinct labels are canonically equivalent. Dafny strings carry no Unicode normalisation.
- 32-bit float arithmetic and the `"%.1f"` percentage rendering (`ASLToEnglishView.swift:36`): confidences are exact reals, so rounding in the float sum and division is not modelled.
- SwiftUI views, navigation and app bootstrapping (`ASLToEnglishView.swift`, `ContentView.swift`, `RealtimeASLApp.swift`): layout only, beyond flipping the flag that `ToggleTranslation` models.
