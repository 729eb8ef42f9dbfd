/** The four gesture labels and the image shown for each (web/app.js:7-12). */
module Gestures {

  /** The closed set of per-frame classifications. */
  datatype Label =
    | Seria     // neutral: the fallback when no rule matches
    | Pensando  // thinking: index fingertip close to the lips
    | Acertado  // confirmed: index finger held vertically
    | Asustado  // startled: mouth wide open

  /** The image displayed for a stable label. Every label has one, so the
      source's `|| ''` fallback is never taken for a label. */
  function ImageFor(l: Label): (path: string)
  {
    match l
    case Seria => "/img/seria.png"
    case Pensando => "/img/pensando.png"
    case Acertado => "/img/acertado.png"
    case Asustado => "/img/asustado.png"
  }

  /** Distinct labels show distinct images, so the displayed image identifies
      the displayed label. */
  lemma ImageForInjective(a: Label, b: Label)
    ensures ImageFor(a) == ImageFor(b) <==> a == b
  {
  }
}

/** The fixed thresholds of the pipeline (web/app.js:14-19), read once and
    never changed. */
module Config {

  /** Mouth aperture divided by mouth width above which a face is startled. */
  const MouthOpenRatio: real := 0.055

  /** Pixel distance from index fingertip to lip centre below which the
      gesture is "thinking". */
  const IndexNearLipPx: real := 50.0

  /** The finger counts as raised when its angle from the horizontal exceeds
      this many degrees, i.e. when it is within 90 - IndexUpAngleDeg degrees
      of vertical. */
  const IndexUpAngleDeg: real := 60.0

  /** Length of the debounce window. */
  const SmoothFrames: nat := 3
}
