# Gesture pipeline of the webcam "mono" page

This project models, in Dafny, the per-frame gesture pipeline of `web/app.js`.
For every video frame the page takes the face and hand landmarks reported by
the detectors and classifies the frame into one of four gestures: `seria`
(neutral), `pensando` (thinking), `acertado` (confirmed) or `asustado`
(startled). It then debounces that label stream through a short FIFO window
before it changes the displayed image.

Modules:

- `Gestures` (gestures.dfy): the four labels and the image shown for each.
- `Config` (gestures.dfy): the four fixed thresholds of `CONFIG`.
- `Geometry` (geometry.dfy): landmarks, pixel distances, `getLipCenter` and
  `getMouthOpenRatio`.
- `Classifier` (classifier.dfy): `detectGesture`. It is written twice.
  `DetectGesture` is a method whose loops scan the hands in order and return
  at the first match, as the source does. `Classify` is a declarative decision
  list with one existential rule per label. The method is proved to compute
  the decision list.
- `ClassifierProperties` (classifier_properties.dfy): rule priority, what each
  label needs, what the thresholds mean, worked examples, and invariance
  under a horizontally mirrored image.
- `Stability` (stability.dfy): `setGesture` as a pure state step `Observe`
  on a `Filter` (window plus displayed label). Also `Replay` and `Emissions`,
  the filter driven by a whole feed of labels.

Representation choices:

- Landmark sets are `seq<Point>`. A landmark is missing when its index is not
  below the length. So every `!upper || !lower` guard of the source becomes a
  length test.
- Coordinates and frame sizes are `real`.
- `Math.hypot` is modelled exactly, without a square root. A distance or a
  ratio of distances is a `Magnitude` that stores the square of the
  nonnegative quantity it denotes. For nonnegative thresholds, `Below` and
  `Above` compare squares, and `Quotient` divides squares.
  `BelowMeans`, `AboveMeans` and `QuotientMeans` prove that this agrees with
  comparing and dividing the denoted reals.
- The angle test `|90 - |atan2(-vy, vx)°|| < 90 - indexUpAngleDeg` becomes
  `NearVertical(vx, vy)`, which is `3·vx² < vy²`. This is exactly "strictly
  within 30° of vertical, up or down", because cos²(30°) = 3/4. The zero
  vector fails it, as it fails the source's test (`atan2(0, 0) = 0` gives an
  angle of 90).
- The classifier is total: `Classify` and `DetectGesture` have no
  precondition and return a `Label`, a four-constructor datatype.

Behaviours of the code worth knowing:

- The window holds the raw per-frame labels (web/app.js:23-24).
- The first frame always emits, because a one-entry window is unanimous
  (web/app.js:25-28).
- The comment on `indexUpAngleDeg` (web/app.js:17) speaks of the index finger
  pointing upward. The test at web/app.js:84-86 accepts a finger pointing
  down as well; `VerticalFingerIsConfirmed` proves it.
- The comment on `mouthOpenRatio` (web/app.js:15) speaks of the face width.
  The ratio at web/app.js:49-50 divides by the mouth width, between
  landmarks 61 and 291; `MouthOpenRatio` models the code.

## Model

| member | source | states |
|---|---|---|
| Gestures.ImageForInjective | web/app.js:7-12 | every label has its own image, so the empty-path fallback is never taken and the displayed image identifies the label |
| Geometry.Hypot | web/app.js:48-49 | a pixel distance is nonnegative, zero exactly for the zero vector, and denotes the nonnegative v with v² = dx² + dy² |
| Geometry.LipCenter | web/app.js:31-40 | none exactly when landmark 13 or 14 is missing; otherwise the pixel-space midpoint of the two lip landmarks (twice the centre is the sum of their pixel positions) |
| Geometry.MouthOpenRatio | web/app.js:42-51 | zero when landmark 13, 14, 61 or 291 is missing or the mouth corners coincide in pixel space; otherwise nonnegative, and the ratio times the mouth width gives the lip gap |
| Geometry.MouthOpenRatioMeans | web/app.js:48-50 | whatever lengths the lip gap and mouth width denote, the ratio denotes gap / width for a positive width and 0 for a zero width |
| Classifier.FirstFace | web/app.js:57 | none exactly when no face is reported, otherwise the first face |
| Classifier.NearVerticalTolerance | web/app.js:17 | the tolerance cone of the angle rule, 90 - indexUpAngleDeg, is 30 degrees |
| Classifier.FindHandNearLip | web/app.js:64-72 | the scan over the hands succeeds exactly when some hand has landmark 8 strictly within indexNearLipPx of the lip centre |
| Classifier.FindVerticalHand | web/app.js:77-91 | the scan over the hands succeeds exactly when some hand has landmarks 5 and 8 and a base-to-tip vector near vertical |
| Classifier.DetectGesture | web/app.js:53-101 | the loop-based classifier returns exactly the label of the declarative decision list: thinking, else confirmed, else startled, else neutral |
| ClassifierProperties.ClassifyIsDecisionList | web/app.js:60-100 | each label holds exactly when its own rule holds and no earlier rule does (both directions for all four labels) |
| ClassifierProperties.ThinkingTakesPriority | web/app.js:61-74 | a face with lip landmarks plus any hand whose fingertip is near the lip centre gives `pensando`, whatever the angle and mouth rules say |
| ClassifierProperties.ThinkingNeedsFaceAndHand | web/app.js:61-74 | `pensando` comes out only with a face, its lip landmarks, at least one hand, and a fingertip near the lip centre |
| ClassifierProperties.NoFaceIsConfirmedOrNeutral | web/app.js:77-100 | without a face the result is `acertado` exactly when some hand points vertically, and `seria` otherwise |
| ClassifierProperties.EmptyFrameIsNeutral | web/app.js:57-58 | no face and an empty hand list give `seria` |
| ClassifierProperties.TipNearLipMeans | web/app.js:65-70 | the fingertip rule is the pixel distance compared strictly with indexNearLipPx = 50 |
| ClassifierProperties.StartledMeans | web/app.js:94-97 | the startle rule is the mouth-open ratio compared strictly with 0.055 |
| ClassifierProperties.NearVerticalMeans | web/app.js:82-86 | the angle rule accepts a nonzero vector whose squared cosine with the vertical exceeds 3/4, pointing up or down alike, and rejects the zero vector |
| ClassifierProperties.MouthThresholdIsStrict | web/app.js:96 | a face with ratio exactly 0.055 is `seria`; one with ratio 0.056 is `asustado` |
| ClassifierProperties.ZeroMouthWidthGivesZeroRatio | web/app.js:47-50 | for every face with all mouth landmarks, coinciding mouth corners give ratio 0, however open the lips are |
| ClassifierProperties.VerticalFingerIsConfirmed | web/app.js:82-88 | with no face, a finger pointing straight down is `acertado`, as is one pointing straight up |
| ClassifierProperties.RaisedFingerAtLipsIsThinking | web/app.js:60-88 | a frame where the confirmed rule also holds, but the fingertip touches the lips, is `pensando` |
| ClassifierProperties.MirrorInvariant | web/app.js:53-101 | the rules are mirror-symmetric: classifying the landmarks flipped left to right (x to 1 - x) gives the same label, so a mirrored camera feed would be labelled alike |
| Stability.Observe | web/app.js:22-29 | push, then evict the oldest entry on overflow: a bounded window becomes the last smoothFrames labels, newest last; a label is emitted exactly when the window is unanimous; the displayed label changes only on emission |
| Stability.Replay | web/app.js:21-24 | after any feed the window has at most smoothFrames entries and equals the last min(k, smoothFrames) labels in arrival order |
| Stability.Emissions | web/app.js:22-28 | one emission slot per observed frame |
| Stability.EmissionIff | web/app.js:25-28 | frame i emits its label exactly when it agrees with the up to smoothFrames - 1 frames before it, and emits nothing otherwise |
| Stability.FirstFrameEmits | web/app.js:22-28 | the first frame always emits its label |
| Stability.SixFrameExample | web/app.js:22-28 | with window 3, the feed a, a, a, b, b, b emits at frames 1, 2, 3 and 6 and never at frames 4 or 5 |
| Stability.ShownIsLatestEmitted | web/app.js:26-28 | the displayed label is always the most recently emitted one; frames that emit nothing leave it unchanged |

## Left out

- Canvas and DOM work (web/app.js:1-5, 103-115): the video and canvas
  elements, the mirrored `drawImage`, and the `imageEl.src` write. The model
  returns the emitted label and keeps the displayed label in the filter
  state. `ImageFor` gives the image path.
- Canvas resizing in `onResults` (web/app.js:104-107): the frame's pixel width
  and height are fields of `Frame`, taken as given.
- MediaPipe `FaceMesh`, `Hands` and `Camera` setup and the async `main` loop
  (web/app.js:121-171): foreign libraries, I/O and callback scheduling. The
  detector output is a parameter: a list of faces, of which only the first is
  used, and a list of hands, empty when none were reported.
- IEEE floating point in `Math.hypot`, `Math.atan2` and the degree
  conversion: the model computes over exact reals, so rounding at the
  thresholds is not modelled.
- Classifier.NearVerticalTolerance: states only that 90 - indexUpAngleDeg is
  30 degrees; that `NearVertical`'s constant 3 = 1 / tan²(30°) encodes this
  cone is not derived, because trigonometry over reals is not available.
- Classifier.NearVertical: fixed to the configured indexUpAngleDeg of 60
  (tolerance 30°, constant 3 = 1 / tan²(30°)). It is not recomputed from the
  constant, because trigonometry over reals is not available.
- JavaScript's looser typing: `setGesture` accepts any string in the source.
  The model accepts only the four labels, which are the only values
  `detectGesture` produces.
