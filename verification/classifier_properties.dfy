/** What the decision list of `detectGesture` (web/app.js:53-101) promises:
    rule priority, which inputs each label needs, the meaning of its
    thresholds, worked examples, and indifference to a mirrored image. */
module ClassifierProperties {

  import opened Options
  import opened Geometry
  import opened Gestures
  import opened Classifier
  import Config

  /** A face and a hand whose fingertip is near the lip centre give
      "thinking", whatever the finger angle or the mouth say. */
  lemma ThinkingTakesPriority(frame: Frame, i: nat)
    requires |frame.faces| > 0
    requires LipCenter(frame.faces[0], frame.width, frame.height).Some?
    requires i < |frame.hands|
    requires TipNearLip(frame.hands[i], LipCenter(frame.faces[0], frame.width, frame.height).value,
                        frame.width, frame.height)
    ensures Classify(frame) == Pensando
  {
  }

  /** "Thinking" is given only for a frame with a face, its lip landmarks, a
      hand, and a fingertip near the lip centre. */
  lemma ThinkingNeedsFaceAndHand(frame: Frame)
    requires Classify(frame) == Pensando
    ensures |frame.faces| > 0 && |frame.hands| > 0
    ensures LipCenter(frame.faces[0], frame.width, frame.height).Some?
    ensures exists i :: 0 <= i < |frame.hands| &&
              TipNearLip(frame.hands[i], LipCenter(frame.faces[0], frame.width, frame.height).value,
                         frame.width, frame.height)
  {
  }

  /** Each label holds exactly when its rule holds and no earlier rule does. */
  lemma ClassifyIsDecisionList(frame: Frame)
    ensures Classify(frame) == Pensando <==> Thinking(frame)
    ensures Classify(frame) == Acertado <==> !Thinking(frame) && Confirmed(frame)
    ensures Classify(frame) == Asustado <==> !Thinking(frame) && !Confirmed(frame) && Startled(frame)
    ensures Classify(frame) == Seria <==> !Thinking(frame) && !Confirmed(frame) && !Startled(frame)
  {
  }

  /** Without a face only "confirmed" or the neutral fallback can come out,
      and "confirmed" exactly when some hand points vertically. */
  lemma NoFaceIsConfirmedOrNeutral(frame: Frame)
    requires |frame.faces| == 0
    ensures Classify(frame) == Acertado <==>
            exists i :: 0 <= i < |frame.hands| && PointsVertically(frame.hands[i], frame.width, frame.height)
    ensures Classify(frame) != Acertado ==> Classify(frame) == Seria
  {
  }

  /** With no face and no hands the label is the neutral fallback. */
  lemma EmptyFrameIsNeutral(vw: real, vh: real)
    ensures Classify(Frame([], [], vw, vh)) == Seria
  {
  }

  /** The fingertip test is the pixel distance `d` compared strictly with
      IndexNearLipPx. */
  lemma TipNearLipMeans(hand: Landmarks, lip: Point, vw: real, vh: real, d: real)
    requires IndexTip < |hand|
    requires Denotes(Hypot(hand[IndexTip].x * vw - lip.x, hand[IndexTip].y * vh - lip.y), d)
    ensures TipNearLip(hand, lip, vw, vh) <==> d < Config.IndexNearLipPx
  {
    BelowMeans(Hypot(hand[IndexTip].x * vw - lip.x, hand[IndexTip].y * vh - lip.y), d, Config.IndexNearLipPx);
  }

  /** The startle test is the mouth-open ratio compared strictly with its
      threshold: a ratio equal to the threshold is not startled. */
  lemma StartledMeans(frame: Frame, ratio: real)
    requires |frame.faces| > 0
    requires Denotes(MouthOpenRatio(frame.faces[0], frame.width, frame.height), ratio)
    ensures Startled(frame) <==> ratio > Config.MouthOpenRatio
  {
    AboveMeans(MouthOpenRatio(frame.faces[0], frame.width, frame.height), ratio, Config.MouthOpenRatio);
  }

  /** The angle test accepts a vector whose squared cosine with the vertical
      axis exceeds 3/4, pointing up or down, and never the zero vector. */
  lemma NearVerticalMeans(vx: real, vy: real)
    ensures NearVertical(vx, vy) <==>
            Square(vx) + Square(vy) > 0.0 && 4.0 * Square(vy) > 3.0 * (Square(vx) + Square(vy))
    ensures NearVertical(vx, vy) <==> NearVertical(vx, -vy)
    ensures !NearVertical(0.0, 0.0)
  {
    SquareSign(vx);
    SquareSign(vy);
    SquareNegate(vy);
  }

  lemma SquareNegate(a: real)
    ensures Square(-a) == Square(a)
  {
    assert Product(-a, -a) == Product(a, a);
  }

  // ---------------------------------------------------------------------
  // Worked examples

  /** A face whose lips are `gap` apart vertically and whose mouth corners
      are a full frame width apart, all other landmarks at the origin. */
  function MouthFace(gap: real): (face: Landmarks)
    ensures |face| == MouthRight + 1
  {
    seq(MouthRight + 1, i requires 0 <= i <= MouthRight =>
      if i == LowerLip then Point(0.0, gap)
      else if i == MouthRight then Point(1.0, 0.0)
      else Point(0.0, 0.0))
  }

  /** A mouth ratio exactly at the threshold, 0.055, is not startled; one of
      0.056 is. */
  lemma MouthThresholdIsStrict()
    ensures Classify(Frame([MouthFace(0.055)], [], 100.0, 100.0)) == Seria
    ensures Classify(Frame([MouthFace(0.056)], [], 100.0, 100.0)) == Asustado
  {
    var at := MouthFace(0.055);
    assert MouthOpening(at, 100.0, 100.0).square == 30.25;
    assert MouthWidth(at, 100.0, 100.0).square == 10000.0;
    var above := MouthFace(0.056);
    assert MouthOpening(above, 100.0, 100.0).square == 31.36;
    assert MouthWidth(above, 100.0, 100.0).square == 10000.0;
  }

  /** When the mouth corners coincide the ratio is zero, however open the
      lips are. */
  lemma ZeroMouthWidthGivesZeroRatio(face: Landmarks, vw: real, vh: real)
    requires MouthRight < |face| && face[MouthLeft] == face[MouthRight]
    ensures MouthOpenRatio(face, vw, vh) == Zero
  {
  }

  /** A hand with its index finger from (0.5, `from`) to (0.5, `to`). */
  function StraightFinger(from: real, to: real): (hand: Landmarks)
    ensures |hand| == IndexTip + 1
  {
    seq(IndexTip + 1, i requires 0 <= i <= IndexTip =>
      if i == IndexTip then Point(0.5, to) else Point(0.5, from))
  }

  /** A finger pointing straight down counts as "confirmed", as one pointing
      straight up does; no face is needed. */
  lemma VerticalFingerIsConfirmed()
    ensures Classify(Frame([], [StraightFinger(0.4, 0.6)], 640.0, 480.0)) == Acertado
    ensures Classify(Frame([], [StraightFinger(0.6, 0.4)], 640.0, 480.0)) == Acertado
  {
    var down := Frame([], [StraightFinger(0.4, 0.6)], 640.0, 480.0);
    assert PointsVertically(down.hands[0], 640.0, 480.0);
    assert Confirmed(down);
    var up := Frame([], [StraightFinger(0.6, 0.4)], 640.0, 480.0);
    assert PointsVertically(up.hands[0], 640.0, 480.0);
    assert Confirmed(up);
  }

  /** A face with both inner lips at (0.5, 0.5). */
  function LipsAtCentre(): (face: Landmarks)
    ensures |face| == LowerLip + 1
  {
    seq(LowerLip + 1, _ => Point(0.5, 0.5))
  }

  /** A raised finger whose tip touches the lips is "thinking", although the
      finger is also vertical. */
  lemma RaisedFingerAtLipsIsThinking()
    ensures Confirmed(Frame([LipsAtCentre()], [StraightFinger(0.7, 0.52)], 640.0, 480.0))
    ensures Classify(Frame([LipsAtCentre()], [StraightFinger(0.7, 0.52)], 640.0, 480.0)) == Pensando
  {
    var frame := Frame([LipsAtCentre()], [StraightFinger(0.7, 0.52)], 640.0, 480.0);
    assert PointsVertically(frame.hands[0], 640.0, 480.0);
    assert LipCenter(frame.faces[0], 640.0, 480.0) == Some(Point(320.0, 240.0));
    assert TipNearLip(frame.hands[0], Point(320.0, 240.0), 640.0, 480.0);
  }

  // ---------------------------------------------------------------------
  // Mirroring

  /** The landmark flipped left to right within the frame. */
  function MirrorPoint(p: Point): Point
  {
    Point(1.0 - p.x, p.y)
  }

  function MirrorSet(s: Landmarks): (m: Landmarks)
    ensures |m| == |s|
    ensures forall i :: 0 <= i < |s| ==> m[i] == MirrorPoint(s[i])
  {
    seq(|s|, i requires 0 <= i < |s| => MirrorPoint(s[i]))
  }

  /** The frame with every landmark flipped left to right. */
  function MirrorFrame(frame: Frame): (m: Frame)
    ensures |m.faces| == |frame.faces| && |m.hands| == |frame.hands|
    ensures forall i :: 0 <= i < |frame.faces| ==> m.faces[i] == MirrorSet(frame.faces[i])
    ensures forall i :: 0 <= i < |frame.hands| ==> m.hands[i] == MirrorSet(frame.hands[i])
    ensures m.width == frame.width && m.height == frame.height
  {
    Frame(seq(|frame.faces|, i requires 0 <= i < |frame.faces| => MirrorSet(frame.faces[i])),
          seq(|frame.hands|, i requires 0 <= i < |frame.hands| => MirrorSet(frame.hands[i])),
          frame.width, frame.height)
  }

  lemma LipCenterMirror(face: Landmarks, vw: real, vh: real)
    ensures LipCenter(MirrorSet(face), vw, vh).Some? <==> LipCenter(face, vw, vh).Some?
    ensures LipCenter(face, vw, vh).Some? ==>
            LipCenter(MirrorSet(face), vw, vh).value ==
            Point(vw - LipCenter(face, vw, vh).value.x, LipCenter(face, vw, vh).value.y)
  {
  }

  lemma TipNearLipMirror(hand: Landmarks, lip: Point, vw: real, vh: real)
    ensures TipNearLip(MirrorSet(hand), Point(vw - lip.x, lip.y), vw, vh) <==> TipNearLip(hand, lip, vw, vh)
  {
    if IndexTip < |hand| {
      var t := hand[IndexTip];
      assert MirrorSet(hand)[IndexTip].x * vw - (vw - lip.x) == -(t.x * vw - lip.x);
      SquareNegate(t.x * vw - lip.x);
    }
  }

  lemma PointsVerticallyMirror(hand: Landmarks, vw: real, vh: real)
    ensures PointsVertically(MirrorSet(hand), vw, vh) <==> PointsVertically(hand, vw, vh)
  {
    if IndexTip < |hand| {
      var dx := hand[IndexTip].x - hand[IndexBase].x;
      var m := MirrorSet(hand);
      assert (m[IndexTip].x - m[IndexBase].x) * vw == -(dx * vw);
      SquareNegate(dx * vw);
    }
  }

  lemma MouthOpeningMirror(face: Landmarks, vw: real, vh: real)
    requires MouthRight < |face|
    ensures MouthOpening(MirrorSet(face), vw, vh) == MouthOpening(face, vw, vh)
  {
    var m := MirrorSet(face);
    var dx := (face[UpperLip].x - face[LowerLip].x) * vw;
    assert (m[UpperLip].x - m[LowerLip].x) * vw == -dx;
    SquareNegate(dx);
  }

  lemma MouthWidthMirror(face: Landmarks, vw: real, vh: real)
    requires MouthRight < |face|
    ensures MouthWidth(MirrorSet(face), vw, vh) == MouthWidth(face, vw, vh)
  {
    var m := MirrorSet(face);
    var dx := (face[MouthLeft].x - face[MouthRight].x) * vw;
    assert (m[MouthLeft].x - m[MouthRight].x) * vw == -dx;
    SquareNegate(dx);
  }

  lemma MouthOpenRatioMirror(face: Landmarks, vw: real, vh: real)
    ensures MouthOpenRatio(MirrorSet(face), vw, vh) == MouthOpenRatio(face, vw, vh)
  {
    if MouthRight < |face| {
      MouthOpeningMirror(face, vw, vh);
      MouthWidthMirror(face, vw, vh);
    }
  }

  /** The rules are mirror-symmetric: flipping every landmark left to right
      never changes the label, so a mirrored camera feed is labelled alike.
      Every rule depends on horizontal offsets only through their squares. */
  lemma {:induction false} MirrorInvariant(frame: Frame)
    ensures Classify(MirrorFrame(frame)) == Classify(frame)
  {
    var m := MirrorFrame(frame);
    var vw, vh := frame.width, frame.height;
    forall i | 0 <= i < |frame.hands|
      ensures PointsVertically(m.hands[i], vw, vh) <==> PointsVertically(frame.hands[i], vw, vh)
    {
      PointsVerticallyMirror(frame.hands[i], vw, vh);
    }
    assert Confirmed(m) <==> Confirmed(frame);
    if |frame.faces| > 0 {
      var face := frame.faces[0];
      LipCenterMirror(face, vw, vh);
      MouthOpenRatioMirror(face, vw, vh);
      var lip := LipCenter(face, vw, vh);
      if lip.Some? {
        forall i | 0 <= i < |frame.hands|
          ensures TipNearLip(m.hands[i], Point(vw - lip.value.x, lip.value.y), vw, vh)
                  <==> TipNearLip(frame.hands[i], lip.value, vw, vh)
        {
          TipNearLipMirror(frame.hands[i], lip.value, vw, vh);
        }
      }
      assert Thinking(m) <==> Thinking(frame);
      assert Startled(m) <==> Startled(frame);
    }
  }
}
