/**
 * Gesture arithmetic of the compose canvas: the transform record, the drag
 * and pinch baselines, `pinchMetrics`, and what a move does to the
 * transform. The scale is a JavaScript number, so the division by the
 * starting pinch distance can give an infinity or NaN.
 */
module Gestures {
  import opened PointerMap
  import opened Pixels

  /** A JavaScript number as far as the scale arithmetic needs it. */
  datatype Number = Finite(v: real) | PosInf | NegInf | NaN

  /** Pinch scale limits. */
  const MinScale: real := 0.05
  const MaxScale: real := 30.0

  /** `a / b`: a finite quotient, or for a zero divisor an infinity of the dividend's sign, or NaN for `0 / 0`. */
  function Quotient(a: real, b: real): (r: Number)
    ensures b != 0.0 ==> r.Finite? && r.v * b == a
    ensures b == 0.0 ==> (r == PosInf <==> 0.0 < a) && (r == NegInf <==> a < 0.0) && (r == NaN <==> a == 0.0)
  {
    if b != 0.0 then Finite(a / b)
    else if 0.0 < a then PosInf
    else if a < 0.0 then NegInf
    else NaN
  }

  /** The sign of a non-NaN number: 1, -1, or 0 for zero. */
  function Sign(x: Number): int
    requires !x.NaN?
  {
    match x
    case Finite(v) => if 0.0 < v then 1 else if v < 0.0 then -1 else 0
    case PosInf => 1
    case NegInf => -1
  }

  /** `x * y`: NaN absorbs, zero times an infinity is NaN, signs multiply. */
  function Times(x: Number, y: Number): (r: Number)
    ensures x.Finite? && y.Finite? ==> r == Finite(x.v * y.v)
    ensures r.Finite? <==> x.Finite? && y.Finite?
    ensures x.NaN? || y.NaN? ==> r.NaN?
    ensures x == Finite(0.0) && (y.PosInf? || y.NegInf?) ==> r.NaN?
    ensures x.Finite? && 0.0 < x.v && y.PosInf? ==> r.PosInf?
    ensures !x.NaN? && !y.NaN? && !(x.Finite? && y.Finite?) ==>
              (Sign(x) == 0 || Sign(y) == 0 ==> r.NaN?) &&
              (Sign(x) != 0 && Sign(y) != 0 ==> (r.PosInf? <==> Sign(x) == Sign(y)) && (r.NegInf? <==> Sign(x) != Sign(y)))
  {
    if x.NaN? || y.NaN? then NaN
    else if x.Finite? && y.Finite? then Finite(x.v * y.v)
    else if Sign(x) == 0 || Sign(y) == 0 then NaN
    else if Sign(x) == Sign(y) then PosInf
    else NegInf
  }

  /**
   * `clamp(x, 0.05, 30)` on a number: `Math.min` and `Math.max` turn an
   * infinity into the nearer limit and pass NaN through.
   */
  function ClampScale(x: Number): (r: Number)
    ensures r.NaN? <==> x.NaN?
    ensures !x.NaN? ==> r.Finite? && MinScale <= r.v <= MaxScale
    ensures x.Finite? && MinScale <= x.v <= MaxScale ==> r == x
    ensures x.Finite? && MaxScale < x.v ==> r == Finite(MaxScale)
    ensures x.Finite? && x.v < MinScale ==> r == Finite(MinScale)
    ensures x.PosInf? ==> r == Finite(MaxScale)
    ensures x.NegInf? ==> r == Finite(MinScale)
  {
    match x
    case Finite(v) => Finite(Clamp(v, MinScale, MaxScale))
    case PosInf => Finite(MaxScale)
    case NegInf => Finite(MinScale)
    case NaN => NaN
  }

  /** The module-level `state` record: where and how the cutout is drawn. */
  datatype Transform = Transform(tx: real, ty: real, scale: Number, rotation: real, flipX: bool)

  /** The baseline a move is measured from. */
  datatype Gesture =
    | Drag(startX: real, startY: real, startTx: real, startTy: real)
    | Pinch(startDist: real, startAng: real, startCx: real, startCy: real,
            startScale: Number, startRot: real, startTx: real, startTy: real)

  /** `pinchMetrics`: distance and angle from p1 to p2 (supplied as `hypot` and `atan2`), and the centroid. */
  datatype Metrics = Metrics(dist: real, ang: real, cx: real, cy: real)

  function PinchMetrics(p1: Point, p2: Point, hypot: (real, real) -> real, atan2: (real, real) -> real): (m: Metrics)
    ensures m.cx - p1.x == p2.x - m.cx && m.cy - p1.y == p2.y - m.cy
    ensures m.dist == hypot(p2.x - p1.x, p2.y - p1.y) && m.ang == atan2(p2.y - p1.y, p2.x - p1.x)
  {
    var dx := p2.x - p1.x;
    var dy := p2.y - p1.y;
    Metrics(hypot(dx, dy), atan2(dy, dx), (p1.x + p2.x) / 2.0, (p1.y + p2.y) / 2.0)
  }

  /** The centroid does not depend on which finger came first. */
  lemma CentroidSymmetric(p1: Point, p2: Point, hypot: (real, real) -> real, atan2: (real, real) -> real)
    ensures PinchMetrics(p1, p2, hypot, atan2).cx == PinchMetrics(p2, p1, hypot, atan2).cx
    ensures PinchMetrics(p1, p2, hypot, atan2).cy == PinchMetrics(p2, p1, hypot, atan2).cy
  {
  }

  /** A drag baseline at pointer `p` for the current transform. */
  function DragStart(p: Point, t: Transform): (g: Gesture)
    ensures g.Drag?
    ensures forall q :: DragTo(g, q, t) == t.(tx := t.tx + (q.x - p.x), ty := t.ty + (q.y - p.y))
  {
    Drag(p.x, p.y, t.tx, t.ty)
  }

  /** `makePinchGesture`: the metrics of p1, p2 and the current scale, rotation and translation. */
  function MakePinch(p1: Point, p2: Point, t: Transform, hypot: (real, real) -> real, atan2: (real, real) -> real): (g: Gesture)
    ensures g.Pinch? && g.startScale == t.scale && g.startRot == t.rotation && g.startTx == t.tx && g.startTy == t.ty
    ensures var m := PinchMetrics(p1, p2, hypot, atan2);
            g.startDist == m.dist && g.startAng == m.ang && g.startCx == m.cx && g.startCy == m.cy
  {
    var m := PinchMetrics(p1, p2, hypot, atan2);
    Pinch(m.dist, m.ang, m.cx, m.cy, t.scale, t.rotation, t.tx, t.ty)
  }

  /** A drag move: the translation follows the pointer's displacement from the baseline. */
  function DragTo(g: Gesture, p: Point, t: Transform): (r: Transform)
    requires g.Drag?
    ensures r.tx - g.startTx == p.x - g.startX && r.ty - g.startTy == p.y - g.startY
    ensures r.scale == t.scale && r.rotation == t.rotation && r.flipX == t.flipX
  {
    t.(tx := g.startTx + (p.x - g.startX), ty := g.startTy + (p.y - g.startY))
  }

  /** A drag that returns to where it started leaves the transform where it was. */
  lemma DragBackToStart(p: Point, t: Transform)
    ensures DragTo(DragStart(p, t), p, t) == t
  {
  }

  /**
   * A pinch move: scale by the distance ratio (clamped to 0.05..30), rotate
   * by the angle change, translate by the centroid's displacement.
   */
  function PinchTo(g: Gesture, m: Metrics, t: Transform): (r: Transform)
    requires g.Pinch?
    ensures r.scale.NaN? || (r.scale.Finite? && MinScale <= r.scale.v <= MaxScale)
    ensures r.rotation - g.startRot == m.ang - g.startAng
    ensures r.tx - g.startTx == m.cx - g.startCx && r.ty - g.startTy == m.cy - g.startCy
    ensures r.flipX == t.flipX
    ensures g.startScale.Finite? && 0.0 < g.startDist ==> r.scale.Finite?
    ensures g.startScale.NaN? ==> r.scale.NaN?
    ensures g.startScale.Finite? && g.startDist != 0.0 ==>
              r.scale == ClampScale(Finite(g.startScale.v * (m.dist / g.startDist)))
  {
    Transform(
      g.startTx + (m.cx - g.startCx),
      g.startTy + (m.cy - g.startCy),
      ClampScale(Times(g.startScale, Quotient(m.dist, g.startDist))),
      g.startRot + (m.ang - g.startAng),
      t.flipX)
  }

  /**
   * Spreading the fingers to twice the starting distance about a fixed
   * centroid doubles the scale (when that stays within the limits) and
   * leaves the translation alone.
   */
  lemma PinchDoubling(g: Gesture, m: Metrics, t: Transform)
    requires g.Pinch? && 0.0 < g.startDist && m.dist == 2.0 * g.startDist
    requires m.cx == g.startCx && m.cy == g.startCy
    requires g.startScale.Finite? && MinScale <= 2.0 * g.startScale.v <= MaxScale
    ensures PinchTo(g, m, t).scale == Finite(2.0 * g.startScale.v)
    ensures PinchTo(g, m, t).tx == g.startTx && PinchTo(g, m, t).ty == g.startTy
  {
    var q := Quotient(m.dist, g.startDist);
    assert q.v * g.startDist == 2.0 * g.startDist;
    assert q.v == 2.0;
    assert g.startScale.v * q.v == 2.0 * g.startScale.v;
  }

  /**
   * A NaN scale sticks: a new pinch baseline copies it, and every pinch
   * measured from that baseline leaves the scale NaN.
   */
  lemma NaNScaleSticks(p1: Point, p2: Point, m: Metrics, t: Transform, hypot: (real, real) -> real, atan2: (real, real) -> real)
    requires t.scale.NaN?
    ensures PinchTo(MakePinch(p1, p2, t, hypot, atan2), m, t).scale.NaN?
  {
  }

  /** A pinch whose distance ratio is 1000 ends at the upper limit 30, never above it. */
  lemma PinchRunaway(g: Gesture, m: Metrics, t: Transform)
    requires g.Pinch? && 0.0 < g.startDist && m.dist == 1000.0 * g.startDist
    requires g.startScale.Finite? && MinScale <= g.startScale.v
    ensures PinchTo(g, m, t).scale == Finite(MaxScale)
  {
    var q := Quotient(m.dist, g.startDist);
    assert q.v * g.startDist == 1000.0 * g.startDist;
    assert q.v == 1000.0;
    assert g.startScale.v * q.v >= MinScale * 1000.0;
  }

  /**
   * Moving the fingers back to where the pinch started restores the
   * baseline's scale (if it was within the limits), rotation and translation.
   */
  lemma PinchBackToStart(g: Gesture, t: Transform)
    requires g.Pinch? && 0.0 < g.startDist
    requires g.startScale.Finite? && MinScale <= g.startScale.v <= MaxScale
    ensures var r := PinchTo(g, Metrics(g.startDist, g.startAng, g.startCx, g.startCy), t);
            r == Transform(g.startTx, g.startTy, g.startScale, g.startRot, t.flipX)
  {
    var q := Quotient(g.startDist, g.startDist);
    assert q.v * g.startDist == 1.0 * g.startDist;
    assert q.v == 1.0;
  }

  /**
   * Two fingers that started on the same spot: moving them apart sends a
   * positive scale to the upper limit; keeping them together makes it NaN.
   */
  lemma PinchFromZeroDistance(g: Gesture, m: Metrics, t: Transform)
    requires g.Pinch? && g.startDist == 0.0
    requires g.startScale.Finite? && 0.0 < g.startScale.v
    ensures 0.0 < m.dist ==> PinchTo(g, m, t).scale == Finite(MaxScale)
    ensures m.dist == 0.0 ==> PinchTo(g, m, t).scale == NaN
  {
  }
}
