/** The per-frame gesture classifier `detectGesture` (web/app.js:53-101): a
    decision list over the first face and the detected hands. */
module Classifier {

  import opened Options
  import opened Geometry
  import opened Gestures
  import Config

  /** What the landmark detectors report for one frame, with the frame's
      pixel dimensions. */
  datatype Frame = Frame(faces: seq<Landmarks>, hands: seq<Landmarks>, width: real, height: real)

  /** Only the first reported face is consulted. */
  function FirstFace(frame: Frame): (face: Option<Landmarks>)
    ensures face.None? <==> |frame.faces| == 0
    ensures face.Some? ==> face.value == frame.faces[0]
  {
    if |frame.faces| > 0 then Some(frame.faces[0]) else None
  }

  /** The index fingertip of `hand` is strictly closer than IndexNearLipPx
      pixels to the pixel point `lip`. */
  predicate TipNearLip(hand: Landmarks, lip: Point, vw: real, vh: real)
  {
    && IndexTip < |hand|
    && Below(Hypot(hand[IndexTip].x * vw - lip.x, hand[IndexTip].y * vh - lip.y), Config.IndexNearLipPx)
  }

  /** The pixel vector (vx, vy) lies strictly within 90 - IndexUpAngleDeg = 30
      degrees of the vertical axis, pointing up or down. The source measures
      `|90 - |atan2(-vy, vx)||` in degrees; that is below 30 exactly when the
      vector is nonzero and cos^2 of its angle to the vertical,
      vy^2 / (vx^2 + vy^2), exceeds cos^2(30) = 3/4, i.e. when 3 vx^2 < vy^2.
      The zero vector fails, as `atan2(0, 0) = 0` gives an angle of 90. */
  predicate NearVertical(vx: real, vy: real)
  {
    3.0 * Square(vx) < Square(vy)
  }

  /** The cone `NearVertical` accepts is the configured one: 90 -
      IndexUpAngleDeg is the 30 degrees whose tan^2 is 1/3. */
  lemma NearVerticalTolerance()
    ensures 90.0 - Config.IndexUpAngleDeg == 30.0
  {
  }

  /** The index finger of `hand`, from knuckle to tip, is near vertical. */
  predicate PointsVertically(hand: Landmarks, vw: real, vh: real)
  {
    && IndexBase < |hand| && IndexTip < |hand|
    && NearVertical((hand[IndexTip].x - hand[IndexBase].x) * vw, (hand[IndexTip].y - hand[IndexBase].y) * vh)
  }

  /** Rule 1: a face with both lip landmarks, and some hand whose fingertip
      is near the lip centre. */
  predicate Thinking(frame: Frame)
  {
    var face := FirstFace(frame);
    && face.Some?
    && |frame.hands| > 0
    && LipCenter(face.value, frame.width, frame.height).Some?
    && exists i :: 0 <= i < |frame.hands| &&
         TipNearLip(frame.hands[i], LipCenter(face.value, frame.width, frame.height).value, frame.width, frame.height)
  }

  /** Rule 2: some hand points vertically; no face is needed. */
  predicate Confirmed(frame: Frame)
  {
    exists i :: 0 <= i < |frame.hands| && PointsVertically(frame.hands[i], frame.width, frame.height)
  }

  /** Rule 3: the mouth-open ratio of the face strictly exceeds its threshold. */
  predicate Startled(frame: Frame)
  {
    var face := FirstFace(frame);
    face.Some? && Above(MouthOpenRatio(face.value, frame.width, frame.height), Config.MouthOpenRatio)
  }

  /** The decision list: the first rule that holds names the label, and the
      neutral label is the fallback. */
  function Classify(frame: Frame): Label
  {
    if Thinking(frame) then Pensando
    else if Confirmed(frame) then Acertado
    else if Startled(frame) then Asustado
    else Seria
  }

  /** The first loop of the source: scan the hands in order and stop at the
      first whose fingertip is near the lip centre. */
  method FindHandNearLip(hands: seq<Landmarks>, lip: Point, vw: real, vh: real) returns (found: bool)
    ensures found <==> exists i :: 0 <= i < |hands| && TipNearLip(hands[i], lip, vw, vh)
  {
    var i := 0;
    while i < |hands|
      invariant 0 <= i <= |hands|
      invariant forall j :: 0 <= j < i ==> !TipNearLip(hands[j], lip, vw, vh)
    {
      var tip := At(hands[i], IndexTip);
      if tip.Some? {
        var d := Hypot(tip.value.x * vw - lip.x, tip.value.y * vh - lip.y);
        if Below(d, Config.IndexNearLipPx) {
          assert TipNearLip(hands[i], lip, vw, vh);
          return true;
        }
      }
      i := i + 1;
    }
    return false;
  }

  /** The second loop of the source: scan the hands in order and stop at the
      first whose index finger is near vertical. */
  method FindVerticalHand(hands: seq<Landmarks>, vw: real, vh: real) returns (found: bool)
    ensures found <==> exists i :: 0 <= i < |hands| && PointsVertically(hands[i], vw, vh)
  {
    var i := 0;
    while i < |hands|
      invariant 0 <= i <= |hands|
      invariant forall j :: 0 <= j < i ==> !PointsVertically(hands[j], vw, vh)
    {
      var base := At(hands[i], IndexBase);
      var tip := At(hands[i], IndexTip);
      if base.Some? && tip.Some? {
        var vx := (tip.value.x - base.value.x) * vw;
        var vy := (tip.value.y - base.value.y) * vh;
        if NearVertical(vx, vy) {
          assert PointsVertically(hands[i], vw, vh);
          return true;
        }
      }
      i := i + 1;
    }
    return false;
  }

  /** The classifier as the source runs it: the rules in order, returning at
      the first that matches. */
  method DetectGesture(frame: Frame) returns (g: Label)
    ensures g == Classify(frame)
  {
    var vw, vh := frame.width, frame.height;
    var face := FirstFace(frame);
    var hands := frame.hands;

    if face.Some? && |hands| > 0 {
      var lip := LipCenter(face.value, vw, vh);
      if lip.Some? {
        var near := FindHandNearLip(hands, lip.value, vw, vh);
        if near {
          return Pensando;
        }
      }
    }

    if |hands| > 0 {
      var vertical := FindVerticalHand(hands, vw, vh);
      if vertical {
        return Acertado;
      }
    }

    if face.Some? {
      var ratio := MouthOpenRatio(face.value, vw, vh);
      if Above(ratio, Config.MouthOpenRatio) {
        return Asustado;
      }
    }

    return Seria;
  }
}
