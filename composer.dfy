/**
 * The compose canvas: the cutout's transform, the tracked pointers and the
 * current gesture, and the handlers that change them (pointer down / move /
 * up / cancel, fit to frame, center, flip, the reset after a cutout). Each
 * handler is specified by a step function on a `Scene` value; the `Session`
 * class holds the same state in mutable fields and its methods are proved to
 * perform those steps.
 */
module Composer {
  import opened Wrappers
  import opened Pixels
  import opened PointerMap
  import opened Gestures

  /** Border left around the cutout by "fit to frame", and how far below centre it is placed. */
  const Margin: real := 120.0
  const FitDrop: real := 40.0

  /** Everything the handlers read and write. `cutout` is the cutout canvas's size, `None` before a cutout exists. */
  datatype Scene = Scene(t: Transform, cutout: Option<Size>, pointers: seq<Entry>, gesture: Option<Gesture>)

  /**
   * Pointer ids are unique, there is a gesture exactly while some pointer is
   * down, and a cutout has positive sides (the cutout run makes it at least
   * 8 x 8, see `Masks.InferenceSize`).
   */
  predicate Valid(s: Scene) {
    Distinct(s.pointers) && (s.pointers == [] <==> s.gesture.None?) &&
    (s.cutout.Some? ==> 0 < s.cutout.value.w && 0 < s.cutout.value.h)
  }

  /** The initial `state` record with the cutout placed at the centre of a W x H compose canvas. */
  function Initial(w: int, h: int): (r: Scene)
    ensures Valid(r) && r.cutout.None? && r.pointers == []
    ensures r.t.scale == Finite(1.0) && r.t.rotation == 0.0 && !r.t.flipX
    ensures Center(r, w, h) == r
  {
    Scene(Transform(w as real / 2.0, h as real / 2.0, Finite(1.0), 0.0, false), None, [], None)
  }

  // ---------------------------------------------------------------- pointer handlers

  /** pointerdown: track the pointer; at one pointer start a drag, at two a pinch. */
  function Down(s: Scene, id: int, p: Point, hypot: (real, real) -> real, atan2: (real, real) -> real): (r: Scene)
    ensures Valid(s) ==> Valid(r)
    ensures r.pointers == Set(s.pointers, id, p)
    ensures Keys(r.pointers) == Keys(s.pointers) + {id}
    ensures r.t == s.t && r.cutout == s.cutout
    ensures Distinct(s.pointers) && Keys(s.pointers) <= {id} ==> r.gesture == Some(DragStart(p, s.t))
    ensures |s.pointers| == 1 && id !in Keys(s.pointers) ==>
              r.gesture == Some(MakePinch(s.pointers[0].pos, p, s.t, hypot, atan2))
    ensures |r.pointers| == 1 ==> r.gesture == Some(DragStart(r.pointers[0].pos, s.t))
    ensures |r.pointers| == 2 ==> r.gesture == Some(MakePinch(r.pointers[0].pos, r.pointers[1].pos, s.t, hypot, atan2))
    ensures 2 < |r.pointers| ==> r.gesture == s.gesture
  {
    var ps := Set(s.pointers, id, p);
    var g := if |ps| == 1 then Some(DragStart(ps[0].pos, s.t))
             else if |ps| == 2 then Some(MakePinch(ps[0].pos, ps[1].pos, s.t, hypot, atan2))
             else s.gesture;
    DownShape(s.pointers, id, p);
    s.(pointers := ps, gesture := g)
  }

  /** Shapes of the pointer list right after a pointerdown. */
  lemma DownShape(m: seq<Entry>, id: int, p: Point)
    ensures Distinct(m) && Keys(m) <= {id} ==> Set(m, id, p) == [Entry(id, p)]
    ensures |m| == 1 && id !in Keys(m) ==> Set(m, id, p) == [m[0], Entry(id, p)]
    ensures 0 < |Set(m, id, p)|
  {
    if m == [] {
    } else if id !in Keys(m) {
      assert m[0] in m;
    } else if Distinct(m) && Keys(m) <= {id} {
      OnlyKey(m, id);
    }
  }

  /** A list without repeated keys whose only key is `id` holds one entry. */
  lemma OnlyKey(m: seq<Entry>, id: int)
    requires m != [] && Distinct(m) && Keys(m) <= {id}
    ensures |m| == 1 && m[0].id == id
  {
    assert Keys(m) == {m[0].id} + Keys(m[1..]);
    assert Keys(m[1..]) == {};
  }

  /**
   * pointermove: ignored for an untracked pointer or before a cutout exists.
   * Otherwise the pointer's position is updated; with one pointer and a drag
   * baseline the transform follows the drag; with two pointers the pinch
   * (started now if the baseline is not a pinch) sets scale, rotation and
   * translation.
   */
  function Move(s: Scene, id: int, p: Point, hypot: (real, real) -> real, atan2: (real, real) -> real): (r: Scene)
    ensures id !in Keys(s.pointers) || s.cutout.None? ==> r == s
    ensures Keys(r.pointers) == Keys(s.pointers) && |r.pointers| == |s.pointers|
    ensures Valid(s) ==> Valid(r)
    ensures r.cutout == s.cutout && r.t.flipX == s.t.flipX
    ensures |s.pointers| == 2 && id in Keys(s.pointers) && s.cutout.Some? ==>
              r.gesture.Some? && r.gesture.value.Pinch? &&
              (r.t.scale.NaN? || (r.t.scale.Finite? && MinScale <= r.t.scale.v <= MaxScale))
    ensures id in Keys(s.pointers) && s.cutout.Some? ==> r.pointers == Set(s.pointers, id, p)
    ensures |s.pointers| == 2 && id in Keys(s.pointers) && s.cutout.Some? ==>
              var g := if s.gesture.Some? && s.gesture.value.Pinch? then s.gesture.value
                       else MakePinch(r.pointers[0].pos, r.pointers[1].pos, s.t, hypot, atan2);
              r.gesture == Some(g) &&
              r.t == PinchTo(g, PinchMetrics(r.pointers[0].pos, r.pointers[1].pos, hypot, atan2), s.t)
    ensures 2 < |s.pointers| ==> r.t == s.t && r.gesture == s.gesture
    ensures |s.pointers| == 1 && s.gesture.Some? && s.gesture.value.Drag? && id in Keys(s.pointers) && s.cutout.Some? ==>
              r.t == DragTo(s.gesture.value, p, s.t)
    ensures |s.pointers| == 1 && !(s.gesture.Some? && s.gesture.value.Drag?) ==> r.t == s.t
    ensures |s.pointers| == 1 ==> r.gesture == s.gesture
  {
    if id !in Keys(s.pointers) || s.cutout.None? then s
    else
      var ps := Set(s.pointers, id, p);
      MoveShape(s.pointers, id, p);
      if |ps| == 1 && s.gesture.Some? && s.gesture.value.Drag? then
        s.(pointers := ps, t := DragTo(s.gesture.value, ps[0].pos, s.t))
      else if |ps| == 2 then
        var g := if s.gesture.Some? && s.gesture.value.Pinch? then s.gesture.value
                 else MakePinch(ps[0].pos, ps[1].pos, s.t, hypot, atan2);
        s.(pointers := ps, gesture := Some(g), t := PinchTo(g, PinchMetrics(ps[0].pos, ps[1].pos, hypot, atan2), s.t))
      else
        s.(pointers := ps)
  }

  /** Moving a tracked pointer with one pointer down leaves exactly that pointer, at its new place. */
  lemma MoveShape(m: seq<Entry>, id: int, p: Point)
    requires id in Keys(m)
    ensures |m| == 1 ==> Set(m, id, p) == [Entry(id, p)]
  {
    if |m| == 1 { assert m[0] in m; }
  }

  /** pointerup: forget the pointer; one left restarts a drag from the current transform, none clears the gesture. */
  function Up(s: Scene, id: int): (r: Scene)
    requires Distinct(s.pointers)
    ensures Valid(s) ==> Valid(r)
    ensures r.pointers == Delete(s.pointers, id)
    ensures Keys(r.pointers) == Keys(s.pointers) - {id}
    ensures r.t == s.t && r.cutout == s.cutout
    ensures r.pointers == [] ==> r.gesture.None?
    ensures |r.pointers| == 1 ==> r.gesture == Some(DragStart(r.pointers[0].pos, s.t))
    ensures 2 <= |r.pointers| ==> r.gesture == s.gesture
  {
    var ps := Delete(s.pointers, id);
    var g := if |ps| == 1 then Some(DragStart(ps[0].pos, s.t))
             else if |ps| == 0 then None
             else s.gesture;
    s.(pointers := ps, gesture := g)
  }

  /** pointercancel: forget the pointer; the gesture is cleared only when none is left. */
  function Cancel(s: Scene, id: int): (r: Scene)
    requires Distinct(s.pointers)
    ensures Valid(s) ==> Valid(r)
    ensures r.pointers == Delete(s.pointers, id)
    ensures Keys(r.pointers) == Keys(s.pointers) - {id}
    ensures r.t == s.t && r.cutout == s.cutout
    ensures r.pointers == [] ==> r.gesture.None?
    ensures r.pointers != [] ==> r.gesture == s.gesture
  {
    var ps := Delete(s.pointers, id);
    s.(pointers := ps, gesture := if |ps| == 0 then None else s.gesture)
  }

  // ---------------------------------------------------------------- buttons

  /**
   * The fit-to-frame scale: `min((W - 240) / cw, (H - 240) / ch)`. The
   * scaled cutout fits inside the frame less its margins and touches them
   * in at least one direction.
   */
  function FitScale(w: int, h: int, c: Size): (k: real)
    requires 0 < c.w && 0 < c.h
    ensures k * c.w as real <= w as real - 2.0 * Margin && k * c.h as real <= h as real - 2.0 * Margin
    ensures k * c.w as real == w as real - 2.0 * Margin || k * c.h as real == h as real - 2.0 * Margin
  {
    var a := (w as real - 2.0 * Margin) / c.w as real;
    var b := (h as real - 2.0 * Margin) / c.h as real;
    assert a * c.w as real == w as real - 2.0 * Margin;
    assert b * c.h as real == h as real - 2.0 * Margin;
    if a <= b then
      MulMonotone(a, b, c.h as real);
      a
    else
      MulMonotone(b, a, c.w as real);
      b
  }

  /** A 400 x 800 cutout on a 1000 x 1400 canvas fits at `min(760 / 400, 1160 / 800) = 1.45`. */
  lemma FitExample()
    ensures FitScale(1000, 1400, Size(400, 800)) == 1.45
  {
    assert (1000.0 - 2.0 * Margin) / 400.0 == 1.9;
    assert (1400.0 - 2.0 * Margin) / 800.0 == 1.45;
  }

  /** No larger scale fits: the fit scale is the largest that keeps the cutout inside the margins. */
  lemma FitIsLargest(w: int, h: int, c: Size, k: real)
    requires 0 < c.w && 0 < c.h
    requires k * c.w as real <= w as real - 2.0 * Margin && k * c.h as real <= h as real - 2.0 * Margin
    ensures k <= FitScale(w, h, c)
  {
    var f := FitScale(w, h, c);
    if f < k {
      MulMonotone(f, k, c.w as real);
      MulMonotone(f, k, c.h as real);
      StrictMul(f, k, c.w as real);
      StrictMul(f, k, c.h as real);
    }
  }

  lemma StrictMul(a: real, b: real, q: real)
    requires a < b && 0.0 < q
    ensures a * q < b * q
  {
    assert (b - a) * q > 0.0;
    assert (b - a) * q == b * q - a * q;
  }

  /** fitCharToFrame: with a cutout, scale it to the frame, unrotate it and place it just below centre. */
  function Fit(s: Scene, w: int, h: int): (r: Scene)
    requires s.cutout.Some? ==> 0 < s.cutout.value.w && 0 < s.cutout.value.h
    ensures s.cutout.None? ==> r == s
    ensures s.cutout.Some? ==>
              r.t == Transform(w as real / 2.0, h as real / 2.0 + FitDrop, Finite(FitScale(w, h, s.cutout.value)), 0.0, s.t.flipX)
    ensures r.cutout == s.cutout && r.pointers == s.pointers && r.gesture == s.gesture
  {
    match s.cutout
    case None => s
    case Some(c) =>
      s.(t := Transform(w as real / 2.0, h as real / 2.0 + FitDrop, Finite(FitScale(w, h, c)), 0.0, s.t.flipX))
  }

  /** centerChar: move the cutout to the canvas centre and change nothing else. */
  function Center(s: Scene, w: int, h: int): (r: Scene)
    ensures r.t.tx == w as real / 2.0 && r.t.ty == h as real / 2.0
    ensures r.t.scale == s.t.scale && r.t.rotation == s.t.rotation && r.t.flipX == s.t.flipX
    ensures r.cutout == s.cutout && r.pointers == s.pointers && r.gesture == s.gesture
  {
    s.(t := s.t.(tx := w as real / 2.0, ty := h as real / 2.0))
  }

  /** Centering twice is centering once. */
  lemma CenterIdempotent(s: Scene, w: int, h: int)
    ensures Center(Center(s, w, h), w, h) == Center(s, w, h)
  {
  }

  /** flipHorizontal: toggle the mirror flag only. */
  function Flip(s: Scene): (r: Scene)
    ensures r.t.flipX != s.t.flipX
    ensures r.t.tx == s.t.tx && r.t.ty == s.t.ty && r.t.scale == s.t.scale && r.t.rotation == s.t.rotation
    ensures r.cutout == s.cutout && r.pointers == s.pointers && r.gesture == s.gesture
  {
    s.(t := s.t.(flipX := !s.t.flipX))
  }

  /** Flipping twice restores the scene. */
  lemma FlipInvolution(s: Scene)
    ensures Flip(Flip(s)) == s
  {
  }

  /** A new cutout of size `c`: keep it and reset the transform to unit scale, no rotation or flip, centred. */
  function CutoutReady(s: Scene, c: Size, w: int, h: int): (r: Scene)
    requires 0 < c.w && 0 < c.h
    ensures r.cutout == Some(c)
    ensures r.t == Initial(w, h).t
    ensures Center(r, w, h) == r
    ensures r.pointers == s.pointers && r.gesture == s.gesture
    ensures Valid(s) ==> Valid(r)
  {
    s.(cutout := Some(c), t := Transform(w as real / 2.0, h as real / 2.0, Finite(1.0), 0.0, false))
  }

  /** Loading a new character drops the old cutout. */
  function ClearCutout(s: Scene): (r: Scene)
    ensures r.cutout.None? && r.t == s.t && r.pointers == s.pointers && r.gesture == s.gesture
  {
    s.(cutout := None)
  }

  /** Without a cutout, moves and fit-to-frame change nothing. */
  lemma NoCutoutIsInert(s: Scene, id: int, p: Point, w: int, h: int, hypot: (real, real) -> real, atan2: (real, real) -> real)
    ensures Move(ClearCutout(s), id, p, hypot, atan2) == ClearCutout(s)
    ensures Fit(ClearCutout(s), w, h) == ClearCutout(s)
  {
  }

  // ---------------------------------------------------------------- gestures over several events

  /**
   * One finger down at p and moved to q translates the cutout by q - p;
   * moving it back to p restores the transform.
   */
  lemma OneFingerDrag(s: Scene, id: int, p: Point, q: Point, hypot: (real, real) -> real, atan2: (real, real) -> real)
    requires Valid(s) && s.pointers == [] && s.cutout.Some?
    ensures var s2 := Move(Down(s, id, p, hypot, atan2), id, q, hypot, atan2);
            s2.t == s.t.(tx := s.t.tx + (q.x - p.x), ty := s.t.ty + (q.y - p.y)) &&
            Move(s2, id, p, hypot, atan2).t == s.t
  {
    var s1 := Down(s, id, p, hypot, atan2);
    assert s1.pointers == [Entry(id, p)];
    var s2 := Move(s1, id, q, hypot, atan2);
    assert s2.pointers == [Entry(id, q)];
  }

  /**
   * A second finger down then moved: the transform is the pinch from the
   * two fingers' starting positions to their current ones, measured from the
   * transform at the moment the second finger touched.
   */
  lemma TwoFingerPinch(s: Scene, a: int, b: int, p1: Point, p2: Point, q2: Point,
                       hypot: (real, real) -> real, atan2: (real, real) -> real)
    requires Valid(s) && s.pointers == [Entry(a, p1)] && a != b && s.cutout.Some?
    ensures var s2 := Move(Down(s, b, p2, hypot, atan2), b, q2, hypot, atan2);
            s2.t == PinchTo(MakePinch(p1, p2, s.t, hypot, atan2), PinchMetrics(p1, q2, hypot, atan2), s.t)
  {
    SecondFingerDown(s, a, b, p1, p2, hypot, atan2);
    PinchMove(Down(s, b, p2, hypot, atan2), a, b, p1, p2, q2, hypot, atan2);
  }

  /** A second finger going down starts a pinch from the first finger's position. */
  lemma SecondFingerDown(s: Scene, a: int, b: int, p1: Point, p2: Point,
                         hypot: (real, real) -> real, atan2: (real, real) -> real)
    requires Valid(s) && s.pointers == [Entry(a, p1)] && a != b
    ensures Down(s, b, p2, hypot, atan2) ==
            s.(pointers := [Entry(a, p1), Entry(b, p2)], gesture := Some(MakePinch(p1, p2, s.t, hypot, atan2)))
  {
    assert b !in Keys(s.pointers) by { assert Keys(s.pointers) == {a}; }
  }

  /** With two fingers down and a pinch baseline, moving the second finger applies the pinch to its new position. */
  lemma PinchMove(s: Scene, a: int, b: int, p1: Point, p2: Point, q2: Point,
                  hypot: (real, real) -> real, atan2: (real, real) -> real)
    requires s.pointers == [Entry(a, p1), Entry(b, p2)] && a != b && s.cutout.Some?
    requires s.gesture.Some? && s.gesture.value.Pinch?
    ensures Move(s, b, q2, hypot, atan2).t == PinchTo(s.gesture.value, PinchMetrics(p1, q2, hypot, atan2), s.t)
  {
    assert b in Keys(s.pointers) by { assert s.pointers[1] in s.pointers; }
    var rest := s.pointers[1..];
    assert rest == [Entry(b, p2)] && rest[1..] == [];
    assert Keys(rest) == {b} && Distinct(rest);
    assert Distinct(s.pointers);
    assert Set(s.pointers, b, q2) == [Entry(a, p1), Entry(b, q2)];
  }

  /**
   * Lifting one of two fingers hands over to a drag from the current
   * transform; cancelling it instead keeps the pinch baseline, so the
   * remaining finger's moves no longer change the transform.
   */
  lemma LiftVersusCancel(s: Scene, a: int, b: int, pa: Point, pb: Point, q: Point,
                         hypot: (real, real) -> real, atan2: (real, real) -> real)
    requires Valid(s) && s.pointers == [Entry(a, pa), Entry(b, pb)] && s.cutout.Some?
    requires s.gesture.Some? && s.gesture.value.Pinch?
    ensures Move(Up(s, b), a, q, hypot, atan2).t == s.t.(tx := s.t.tx + (q.x - pa.x), ty := s.t.ty + (q.y - pa.y))
    ensures Move(Cancel(s, b), a, q, hypot, atan2).t == s.t
  {
    assert a != b by { assert Distinct(s.pointers); }
    assert IndexOf(s.pointers, b) == 1;
    assert Delete(s.pointers, b) == [Entry(a, pa)];
    assert a in Keys([Entry(a, pa)]) by { assert Entry(a, pa) in [Entry(a, pa)]; }
  }

  // ---------------------------------------------------------------- the session object

  /** The page's mutable state: `state`, `cutoutCanvas`'s size, `pointers` and `gesture`. */
  class Session {
    var tx: real
    var ty: real
    var scale: Number
    var rotation: real
    var flipX: bool
    var cutout: Option<Size>
    var pointers: seq<Entry>
    var gesture: Option<Gesture>

    /** Compose canvas size. */
    const width: int
    const height: int
    /** `Math.hypot` and `Math.atan2` as supplied by the host. */
    const hypot: (real, real) -> real
    const atan2: (real, real) -> real

    function Snapshot(): Scene
      reads this
    {
      Scene(Transform(tx, ty, scale, rotation, flipX), cutout, pointers, gesture)
    }

    predicate Ok()
      reads this
    {
      Valid(Snapshot())
    }

    /** The page's start-up: the default `state`, then the cutout placed at the canvas centre. */
    constructor (w: int, h: int, hypot: (real, real) -> real, atan2: (real, real) -> real)
      ensures Snapshot() == Initial(w, h) && Ok()
      ensures width == w && height == h && this.hypot == hypot && this.atan2 == atan2
    {
      width := w;
      height := h;
      this.hypot := hypot;
      this.atan2 := atan2;
      tx := 0.0;
      ty := 0.0;
      scale := Finite(1.0);
      rotation := 0.0;
      flipX := false;
      cutout := None;
      pointers := [];
      gesture := None;
      new;
      tx := w as real / 2.0;
      ty := h as real / 2.0;
    }

    method PointerDown(id: int, p: Point)
      requires Ok()
      modifies this
      ensures Snapshot() == Down(old(Snapshot()), id, p, hypot, atan2) && Ok()
    {
      pointers := Set(pointers, id, p);
      if |pointers| == 1 {
        var q := pointers[0].pos;
        gesture := Some(Drag(q.x, q.y, tx, ty));
      } else if |pointers| == 2 {
        gesture := Some(MakePinch(pointers[0].pos, pointers[1].pos, Transform(tx, ty, scale, rotation, flipX), hypot, atan2));
      }
    }

    method PointerMove(id: int, p: Point)
      requires Ok()
      modifies this
      ensures Snapshot() == Move(old(Snapshot()), id, p, hypot, atan2) && Ok()
    {
      if id !in Keys(pointers) || cutout.None? {
        return;
      }
      pointers := Set(pointers, id, p);
      if |pointers| == 1 && gesture.Some? && gesture.value.Drag? {
        FollowDrag();
      } else if |pointers| == 2 {
        FollowPinch();
      }
    }

    /** The one-pointer branch of pointermove: the transform follows the drag baseline. */
    method FollowDrag()
      requires |pointers| == 1 && gesture.Some? && gesture.value.Drag?
      modifies this
      ensures Snapshot() == old(Snapshot()).(t := DragTo(old(gesture).value, old(pointers)[0].pos, old(Snapshot()).t))
    {
      var q := pointers[0].pos;
      var g := gesture.value;
      tx := g.startTx + (q.x - g.startX);
      ty := g.startTy + (q.y - g.startY);
    }

    /** The two-pointer branch of pointermove: take a pinch baseline if there is none, then apply it. */
    method FollowPinch()
      requires |pointers| == 2
      modifies this
      ensures var s := old(Snapshot());
              var g := if s.gesture.Some? && s.gesture.value.Pinch? then s.gesture.value
                       else MakePinch(s.pointers[0].pos, s.pointers[1].pos, s.t, hypot, atan2);
              Snapshot() == s.(gesture := Some(g), t := PinchTo(g, PinchMetrics(s.pointers[0].pos, s.pointers[1].pos, hypot, atan2), s.t))
    {
      var p1 := pointers[0].pos;
      var p2 := pointers[1].pos;
      if !(gesture.Some? && gesture.value.Pinch?) {
        gesture := Some(MakePinch(p1, p2, Transform(tx, ty, scale, rotation, flipX), hypot, atan2));
      }
      var g := gesture.value;
      var cur := PinchMetrics(p1, p2, hypot, atan2);
      var scaleMul := Quotient(cur.dist, g.startDist);
      var rotDelta := cur.ang - g.startAng;
      scale := ClampScale(Times(g.startScale, scaleMul));
      rotation := g.startRot + rotDelta;
      tx := g.startTx + (cur.cx - g.startCx);
      ty := g.startTy + (cur.cy - g.startCy);
    }

    method PointerUp(id: int)
      requires Ok()
      modifies this
      ensures Snapshot() == Up(old(Snapshot()), id) && Ok()
    {
      pointers := Delete(pointers, id);
      if |pointers| == 1 {
        var q := pointers[0].pos;
        gesture := Some(Drag(q.x, q.y, tx, ty));
      } else if |pointers| == 0 {
        gesture := None;
      }
    }

    method PointerCancel(id: int)
      requires Ok()
      modifies this
      ensures Snapshot() == Cancel(old(Snapshot()), id) && Ok()
    {
      pointers := Delete(pointers, id);
      if |pointers| == 0 {
        gesture := None;
      }
    }

    method FitToFrame()
      requires Ok()
      modifies this
      ensures Snapshot() == Fit(old(Snapshot()), width, height) && Ok()
    {
      if cutout.None? {
        return;
      }
      var c := cutout.value;
      if !(0 < c.w && 0 < c.h) {
        return;
      }
      scale := Finite(FitScale(width, height, c));
      rotation := 0.0;
      tx := width as real / 2.0;
      ty := height as real / 2.0 + FitDrop;
    }

    method CenterChar()
      requires Ok()
      modifies this
      ensures Snapshot() == Center(old(Snapshot()), width, height) && Ok()
    {
      tx := width as real / 2.0;
      ty := height as real / 2.0;
    }

    method FlipHorizontal()
      requires Ok()
      modifies this
      ensures Snapshot() == Flip(old(Snapshot())) && Ok()
    {
      flipX := !flipX;
    }

    /** The end of a successful cutout run: keep the new cutout and reset the transform. */
    method SetCutout(c: Size)
      requires Ok() && 0 < c.w && 0 < c.h
      modifies this
      ensures Snapshot() == CutoutReady(old(Snapshot()), c, width, height) && Ok()
    {
      cutout := Some(c);
      scale := Finite(1.0);
      rotation := 0.0;
      flipX := false;
      tx := width as real / 2.0;
      ty := height as real / 2.0;
    }

    method DropCutout()
      requires Ok()
      modifies this
      ensures Snapshot() == ClearCutout(old(Snapshot())) && Ok()
    {
      cutout := None;
    }
  }
}
