/** Pixel-space measurements over face landmarks (web/app.js:31-51). */
module Geometry {

  import opened Options

  /** A landmark: a position given as fractions of the frame's width and
      height. */
  datatype Point = Point(x: real, y: real)

  /** A landmark set, indexed by the detector's fixed anatomical numbering.
      A landmark is missing when its index is not below the length. */
  type Landmarks = seq<Point>

  // Face landmark indices.
  const UpperLip: nat := 13
  const LowerLip: nat := 14
  const MouthLeft: nat := 61
  const MouthRight: nat := 291

  // Hand landmark indices.
  const IndexBase: nat := 5
  const IndexTip: nat := 8

  /** The landmark numbered `i`, if the set has one. */
  function At(s: Landmarks, i: nat): Option<Point>
  {
    if i < |s| then Some(s[i]) else None
  }

  /** A nonnegative quantity (a Euclidean distance or a ratio of two) kept as
      its square, so that `Math.hypot` needs no square root: the quantity
      denoted is the unique nonnegative real whose square is `square`. */
  datatype Magnitude = Magnitude(square: real)

  const Zero := Magnitude(0.0)

  /** The product of two reals. Squares are written as `Product(a, a)` so
      that the solver handles a square like any other product. */
  function Product(a: real, b: real): real
  {
    a * b
  }

  /** `a` squared. */
  function Square(a: real): real
  {
    Product(a, a)
  }

  /** `m` stands for the nonnegative real `v`. */
  ghost predicate Denotes(m: Magnitude, v: real)
  {
    v >= 0.0 && Square(v) == m.square
  }

  /** The Euclidean length of the vector (dx, dy), `Math.hypot(dx, dy)`. It
      is zero exactly for the zero vector. */
  function Hypot(dx: real, dy: real): (m: Magnitude)
    ensures m.square >= 0.0
    ensures m.square == 0.0 <==> dx == 0.0 && dy == 0.0
    ensures forall v :: Denotes(m, v) <==> v >= 0.0 && Square(v) == Square(dx) + Square(dy)
  {
    SquareSign(dx);
    SquareSign(dy);
    Magnitude(Square(dx) + Square(dy))
  }

  lemma ProductPositive(a: real, b: real)
    requires a > 0.0 && b > 0.0
    ensures Product(a, b) > 0.0
  {
  }

  lemma ProductNegative(a: real, b: real)
    requires a < 0.0 && b < 0.0
    ensures Product(a, b) > 0.0
  {
  }

  /** A square is nonnegative, and zero only for zero. */
  lemma SquareSign(a: real)
    ensures Square(a) >= 0.0
    ensures Square(a) == 0.0 <==> a == 0.0
  {
    if a > 0.0 {
      ProductPositive(a, a);
    } else if a < 0.0 {
      ProductNegative(a, a);
    }
  }

  /** The quantity is strictly below the nonnegative threshold `t`. */
  predicate Below(m: Magnitude, t: real)
    requires t >= 0.0
  {
    m.square < Square(t)
  }

  /** The quantity strictly exceeds the nonnegative threshold `t`. */
  predicate Above(m: Magnitude, t: real)
    requires t >= 0.0
  {
    m.square > Square(t)
  }

  /** The quotient of two quantities, the divisor being positive. */
  function Quotient(a: Magnitude, b: Magnitude): Magnitude
    requires b.square > 0.0
  {
    Magnitude(a.square / b.square)
  }

  /** For nonnegative reals, comparing squares is comparing the reals. */
  lemma SquareMonotone(u: real, v: real)
    requires u >= 0.0 && v >= 0.0
    ensures u < v <==> Square(u) < Square(v)
  {
    if u < v {
      assert Product(v, v) - Product(u, u) == Product(v - u, u) + Product(v - u, v);
      ProductPositive(v - u, v);
      assert Product(v - u, u) >= 0.0;
    } else {
      assert Product(u, u) - Product(v, v) == Product(u - v, v) + Product(u - v, u);
      assert Product(u - v, u) >= 0.0;
      assert Product(u - v, v) >= 0.0;
    }
  }

  /** `Below` compares the denoted quantity with the threshold. */
  lemma BelowMeans(m: Magnitude, v: real, t: real)
    requires Denotes(m, v) && t >= 0.0
    ensures Below(m, t) <==> v < t
  {
    SquareMonotone(v, t);
  }

  /** `Above` compares the denoted quantity with the threshold. */
  lemma AboveMeans(m: Magnitude, v: real, t: real)
    requires Denotes(m, v) && t >= 0.0
    ensures Above(m, t) <==> v > t
  {
    SquareMonotone(t, v);
  }

  /** `Quotient` denotes the quotient of the denoted quantities. */
  lemma QuotientMeans(a: Magnitude, b: Magnitude, u: real, v: real)
    requires Denotes(a, u) && Denotes(b, v) && v > 0.0
    ensures b.square > 0.0
    ensures Denotes(Quotient(a, b), u / v)
  {
    ProductPositive(v, v);
    var q := u / v;
    assert Product(q, v) == u;
    assert Product(Product(q, q), Product(v, v)) == Product(Product(q, v), Product(q, v));
    assert Square(q) == a.square / b.square;
  }

  /** The pixel-space midpoint of the upper and lower inner lip, or None when
      either landmark is missing. */
  function LipCenter(face: Landmarks, vw: real, vh: real): (c: Option<Point>)
    ensures c.None? <==> |face| <= UpperLip || |face| <= LowerLip
    ensures c.Some? ==>
      && c.value.x + c.value.x == face[UpperLip].x * vw + face[LowerLip].x * vw
      && c.value.y + c.value.y == face[UpperLip].y * vh + face[LowerLip].y * vh
  {
    var upper := At(face, UpperLip);
    var lower := At(face, LowerLip);
    if upper.None? || lower.None? then None
    else Some(Point((upper.value.x + lower.value.x) / 2.0 * vw,
                    (upper.value.y + lower.value.y) / 2.0 * vh))
  }

  /** Pixel distance between the upper and lower inner lip. */
  function MouthOpening(face: Landmarks, vw: real, vh: real): Magnitude
    requires MouthRight < |face|
  {
    Hypot((face[UpperLip].x - face[LowerLip].x) * vw, (face[UpperLip].y - face[LowerLip].y) * vh)
  }

  /** Pixel distance between the two mouth corners. */
  function MouthWidth(face: Landmarks, vw: real, vh: real): Magnitude
    requires MouthRight < |face|
  {
    Hypot((face[MouthLeft].x - face[MouthRight].x) * vw, (face[MouthLeft].y - face[MouthRight].y) * vh)
  }

  /** Mouth aperture relative to mouth width: zero when a mouth landmark is
      missing or the corners coincide in pixel space, otherwise the quantity
      that multiplied by the width gives the aperture. */
  function MouthOpenRatio(face: Landmarks, vw: real, vh: real): (r: Magnitude)
    ensures r.square >= 0.0
    ensures |face| <= UpperLip || |face| <= LowerLip || |face| <= MouthLeft || |face| <= MouthRight
            ==> r == Zero
    ensures MouthRight < |face| && MouthWidth(face, vw, vh).square == 0.0 ==> r == Zero
    ensures MouthRight < |face| && MouthWidth(face, vw, vh).square > 0.0 ==>
            Product(r.square, MouthWidth(face, vw, vh).square) == MouthOpening(face, vw, vh).square
  {
    var upper := At(face, UpperLip);
    var lower := At(face, LowerLip);
    var left := At(face, MouthLeft);
    var right := At(face, MouthRight);
    if upper.None? || lower.None? || left.None? || right.None? then Zero
    else
      var open := MouthOpening(face, vw, vh);
      var width := MouthWidth(face, vw, vh);
      if width.square > 0.0 then QuotientInverts(open, width); Quotient(open, width) else Zero
  }

  /** Multiplying a quotient back by its divisor restores the dividend. */
  lemma QuotientInverts(a: Magnitude, b: Magnitude)
    requires a.square >= 0.0 && b.square > 0.0
    ensures Quotient(a, b).square >= 0.0
    ensures Product(Quotient(a, b).square, b.square) == a.square
  {
  }

  /** Whatever the aperture and width denote, the ratio denotes aperture
      divided by width when the width is positive, and zero otherwise. */
  lemma MouthOpenRatioMeans(face: Landmarks, vw: real, vh: real, open: real, width: real)
    requires MouthRight < |face|
    requires Denotes(MouthOpening(face, vw, vh), open)
    requires Denotes(MouthWidth(face, vw, vh), width)
    ensures width > 0.0 ==> Denotes(MouthOpenRatio(face, vw, vh), open / width)
    ensures width == 0.0 ==> Denotes(MouthOpenRatio(face, vw, vh), 0.0)
  {
    SquareSign(width);
    if width > 0.0 {
      QuotientMeans(MouthOpening(face, vw, vh), MouthWidth(face, vw, vh), open, width);
    }
  }
}
