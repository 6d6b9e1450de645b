/**
 * The interactive "Q" logo effect (components/InteractiveQcanvas.tsx).
 *
 * A 96x96 RGBA sample of the logo is scanned row by row; every opaque,
 * non-white sample becomes a particle anchored at its rescaled position on
 * the 180x170 canvas. Each animation frame pushes particles away from the
 * pointer when it is close, pulls them back to their anchors with a
 * spring, damps their velocity, and moves them. Real numbers stand for the
 * source's floating-point numbers; the repulsion vector (square root and
 * trigonometry in the source) is a parameter of the frame update.
 */
module QCanvas {

  /** One channel value of the sampled RGBA buffer. */
  type Byte = b: int | 0 <= b < 256

  datatype Rgb = Rgb(r: Byte, g: Byte, b: Byte)

  /** A particle: current position and velocity, its colour, and its anchor. */
  datatype Pixel = Pixel(x: real, y: real, vx: real, vy: real, color: Rgb, originalX: real, originalY: real)

  /** A grid position of the sample buffer. */
  datatype Cell = Cell(x: nat, y: nat)

  const SampleSize: nat := 96
  const BufferLength: nat := SampleSize * SampleSize * 4
  const CanvasWidth: real := 180.0
  const CanvasHeight: real := 170.0
  const EffectRadius: real := 51.0
  const Friction: real := 0.85
  const Spring: real := 0.1
  const AlphaThreshold: int := 100
  const BrightnessThreshold: real := 250.0
  /** The pointer position meaning "no pointer over the canvas". */
  const Sentinel: real := -1000.0

  // ---------------------------------------------------------------------
  // Sampling the image buffer
  // ---------------------------------------------------------------------

  predicate InGrid(c: Cell) {
    c.x < SampleSize && c.y < SampleSize
  }

  /** Index of the red byte of a sample; the four channel reads stay inside the buffer. */
  function Offset(c: Cell): (i: nat)
    requires InGrid(c)
    ensures i % 4 == 0 && i + 3 < BufferLength
  {
    (c.y * SampleSize + c.x) * 4
  }

  /** Distinct samples own disjoint groups of four bytes. */
  lemma OffsetsDisjoint(c1: Cell, c2: Cell)
    requires InGrid(c1) && InGrid(c2) && c1 != c2
    ensures Offset(c1) + 4 <= Offset(c2) || Offset(c2) + 4 <= Offset(c1)
  {
    var k1, k2 := c1.y * SampleSize + c1.x, c2.y * SampleSize + c2.x;
    if c1.y < c2.y {
      assert c1.y * SampleSize + SampleSize <= c2.y * SampleSize;
      assert k1 < k2;
    } else if c2.y < c1.y {
      assert c2.y * SampleSize + SampleSize <= c1.y * SampleSize;
      assert k2 < k1;
    } else {
      assert k1 != k2;
    }
  }

  /** The admission test: `a > 100 && (r + g + b) / 3 < 250`, with a real division. */
  predicate Admits(r: Byte, g: Byte, b: Byte, a: Byte)
    ensures Admits(r, g, b, a) ==> a > AlphaThreshold
    ensures Admits(r, g, b, a) ==> r < 250 || g < 250 || b < 250
  {
    a > AlphaThreshold && (r + g + b) as real / 3.0 < BrightnessThreshold
  }

  /** For integer channels the brightness test is `r + g + b < 750`; both bounds are strict. */
  lemma AdmitsIff(r: Byte, g: Byte, b: Byte, a: Byte)
    ensures Admits(r, g, b, a) <==> a > 100 && r + g + b < 750
    ensures a == 100 ==> !Admits(r, g, b, a)
    ensures r + g + b == 750 ==> !Admits(r, g, b, a)
  {
    var s := (r + g + b) as real;
    assert s / 3.0 < 250.0 <==> s < 750.0;
  }

  /** The admission test applied to grid cell c's four bytes at Offset(c). */
  predicate AdmitsAt(data: seq<Byte>, c: Cell)
    requires |data| == BufferLength && InGrid(c)
    ensures AdmitsAt(data, c) <==>
      data[Offset(c) + 3] > AlphaThreshold &&
      data[Offset(c)] as int + data[Offset(c) + 1] as int + data[Offset(c) + 2] as int < 750
  {
    var i := Offset(c);
    AdmitsIff(data[i], data[i + 1], data[i + 2], data[i + 3]);
    Admits(data[i], data[i + 1], data[i + 2], data[i + 3])
  }

  /** `x / 96 * 180`: the horizontal anchor of sample column x. */
  function AnchorX(x: nat): (r: real)
    ensures r == x as real * 1.875
  {
    x as real / SampleSize as real * CanvasWidth
  }

  /** `y / 96 * 170`: the vertical anchor of sample row y. */
  function AnchorY(y: nat): (r: real)
    ensures r == y as real * 85.0 / 48.0
  {
    y as real / SampleSize as real * CanvasHeight
  }

  /** Anchors of grid samples lie on the canvas, and the grid origin is the canvas origin. */
  lemma AnchorBounds(c: Cell)
    requires InGrid(c)
    ensures 0.0 <= AnchorX(c.x) < CanvasWidth && 0.0 <= AnchorY(c.y) < CanvasHeight
    ensures c == Cell(0, 0) ==> AnchorX(c.x) == 0.0 && AnchorY(c.y) == 0.0
    ensures c == Cell(95, 95) ==> AnchorX(c.x) == 178.125 && AnchorY(c.y) == 8075.0 / 48.0
  {
  }

  /** The rescale is strictly increasing in both directions. */
  lemma AnchorStrictlyIncreasing(a: nat, b: nat)
    requires a < b
    ensures AnchorX(a) < AnchorX(b) && AnchorY(a) < AnchorY(b)
  {
  }

  /** The particle created for an admitted sample. */
  function PixelAt(data: seq<Byte>, c: Cell): (p: Pixel)
    requires |data| == BufferLength && InGrid(c)
    ensures AtRest(p) && p.originalX == AnchorX(c.x) && p.originalY == AnchorY(c.y)
    ensures p.color == Rgb(data[Offset(c)], data[Offset(c) + 1], data[Offset(c) + 2])
  {
    var i := Offset(c);
    var nx, ny := AnchorX(c.x), AnchorY(c.y);
    Pixel(nx, ny, 0.0, 0.0, Rgb(data[i], data[i + 1], data[i + 2]), nx, ny)
  }

  /**
   * Every cell the nested sampling loops visit, in the order they visit
   * them: the k-th is column k % 96 of row k / 96 (the stride is 1).
   */
  function Visited(): (r: seq<Cell>)
    ensures |r| == SampleSize * SampleSize
    ensures forall c <- r :: InGrid(c)
  {
    seq(SampleSize * SampleSize, k requires 0 <= k < SampleSize * SampleSize => Cell(k % SampleSize, k / SampleSize))
  }

  /** The particles made from the admitted cells among `cells`, in order. */
  function Extract(data: seq<Byte>, cells: seq<Cell>): (r: seq<Pixel>)
    requires |data| == BufferLength && forall c <- cells :: InGrid(c)
    ensures |r| <= |cells|
  {
    if cells == [] then []
    else (if AdmitsAt(data, cells[0]) then [PixelAt(data, cells[0])] else []) + Extract(data, cells[1..])
  }

  /** The particles the image-load handler appends for buffer `data`. */
  function Scan(data: seq<Byte>): (r: seq<Pixel>)
    requires |data| == BufferLength
    ensures |r| <= SampleSize * SampleSize
    ensures forall k :: 0 <= k < |r| ==> AtRest(r[k])
  {
    ExtractIsAdmittedPixels(data, Visited());
    Extract(data, Visited())
  }

  /** The admitted cells among `cells`, in order: exactly those passing the test. */
  function Admitted(data: seq<Byte>, cells: seq<Cell>): (r: seq<Cell>)
    requires |data| == BufferLength && forall c <- cells :: InGrid(c)
    ensures |r| <= |cells|
    ensures forall c :: c in r <==> c in cells && AdmitsAt(data, c)
  {
    if cells == [] then []
    else (if AdmitsAt(data, cells[0]) then [cells[0]] else []) + Admitted(data, cells[1..])
  }

  lemma {:induction false} ExtractAppend(data: seq<Byte>, a: seq<Cell>, b: seq<Cell>)
    requires |data| == BufferLength
    requires forall c <- a :: InGrid(c)
    requires forall c <- b :: InGrid(c)
    ensures Extract(data, a + b) == Extract(data, a) + Extract(data, b)
  {
    if a != [] {
      assert (a + b)[1..] == a[1..] + b;
      ExtractAppend(data, a[1..], b);
    } else {
      assert a + b == b;
    }
  }

  /** The particle list is the admitted cells turned into particles, one for one and in order. */
  lemma {:induction false} ExtractIsAdmittedPixels(data: seq<Byte>, cells: seq<Cell>)
    requires |data| == BufferLength && forall c <- cells :: InGrid(c)
    ensures |Extract(data, cells)| == |Admitted(data, cells)|
    ensures forall k :: 0 <= k < |Extract(data, cells)| ==>
      Extract(data, cells)[k] == PixelAt(data, Admitted(data, cells)[k])
  {
    if cells != [] {
      var rest := cells[1..];
      ExtractIsAdmittedPixels(data, rest);
      var e, a := Extract(data, cells), Admitted(data, cells);
      var h := if AdmitsAt(data, cells[0]) then 1 else 0;
      assert e == e[..h] + Extract(data, rest) && a == a[..h] + Admitted(data, rest);
      forall k | 0 <= k < |e| ensures e[k] == PixelAt(data, a[k]) {
        if k >= h {
          assert e[k] == Extract(data, rest)[k - h] && a[k] == Admitted(data, rest)[k - h];
        }
      }
    }
  }

  /** Visiting one more cell appends that cell's particle, if it is admitted, to the scan so far. */
  lemma ScanStep(data: seq<Byte>, c: Cell)
    requires |data| == BufferLength && InGrid(c)
    ensures c.y * SampleSize + c.x < |Visited()|
    ensures Extract(data, Visited()[..c.y * SampleSize + c.x + 1]) ==
      Extract(data, Visited()[..c.y * SampleSize + c.x]) +
      (if AdmitsAt(data, c) then [PixelAt(data, c)] else [])
  {
    var k := VisitIndex(c);
    var done := Visited()[..k];
    assert Visited()[..k + 1] == done + [c];
    ExtractAppend(data, done, [c]);
  }

  /** c1 comes before c2 in row-major order. */
  predicate Before(c1: Cell, c2: Cell) {
    c1.y < c2.y || (c1.y == c2.y && c1.x < c2.x)
  }

  predicate RowMajor(cells: seq<Cell>) {
    forall i, j :: 0 <= i < j < |cells| ==> Before(cells[i], cells[j])
  }

  lemma RowMajorAppend(a: seq<Cell>, b: seq<Cell>)
    requires RowMajor(a) && RowMajor(b)
    requires forall c1, c2 :: c1 in a && c2 in b ==> Before(c1, c2)
    ensures RowMajor(a + b)
  {
    var ab := a + b;
    forall i, j | 0 <= i < j < |ab| ensures Before(ab[i], ab[j]) {
      if j < |a| {
        assert ab[i] == a[i] && ab[j] == a[j];
      } else if i < |a| {
        assert ab[i] == a[i] && ab[j] == b[j - |a|];
        assert a[i] in a && b[j - |a|] in b;
      } else {
        assert ab[i] == b[i - |a|] && ab[j] == b[j - |a|];
      }
    }
  }

  /** Filtering keeps row-major order. */
  lemma {:induction false} AdmittedRowMajor(data: seq<Byte>, cells: seq<Cell>)
    requires |data| == BufferLength && forall c <- cells :: InGrid(c)
    requires RowMajor(cells)
    ensures RowMajor(Admitted(data, cells))
  {
    if cells != [] {
      var rest := cells[1..];
      assert RowMajor(rest) by {
        forall i, j | 0 <= i < j < |rest| ensures Before(rest[i], rest[j]) {
          assert rest[i] == cells[i + 1] && rest[j] == cells[j + 1];
        }
      }
      AdmittedRowMajor(data, rest);
      var head := if AdmitsAt(data, cells[0]) then [cells[0]] else [];
      forall c1, c2 | c1 in head && c2 in Admitted(data, rest) ensures Before(c1, c2) {
        var j :| 0 <= j < |rest| && rest[j] == c2;
        assert cells[j + 1] == c2;
      }
      RowMajorAppend(head, Admitted(data, rest));
    }
  }

  /** Index of a grid cell in the visiting order. */
  function VisitIndex(c: Cell): (k: nat)
    requires InGrid(c)
    ensures k < SampleSize * SampleSize && Visited()[k] == c
  {
    var k := c.y * SampleSize + c.x;
    assert k / SampleSize == c.y && k % SampleSize == c.x;
    k
  }

  /** The loops visit every grid cell, each exactly once, row by row and left to right. */
  lemma VisitedExactlyOnce()
    ensures forall c :: c in Visited() <==> InGrid(c)
    ensures RowMajor(Visited())
  {
    var v := Visited();
    forall c | InGrid(c) ensures c in v {
      assert v[VisitIndex(c)] == c;
    }
    forall i, j | 0 <= i < j < |v| ensures Before(v[i], v[j]) {
      var n := SampleSize;
      assert i == (i / n) * n + i % n && j == (j / n) * n + j % n;
      if j / n == i / n {
        assert i % n < j % n;
      }
    }
  }

  /**
   * The scan yields one particle per admitted cell, in the visiting order:
   * at most 96*96 of them, each at rest on its cell's anchor with the
   * sample's exact colour.
   */
  lemma ScanShape(data: seq<Byte>)
    requires |data| == BufferLength
    ensures |Scan(data)| == |Admitted(data, Visited())| <= SampleSize * SampleSize
    ensures forall k :: 0 <= k < |Scan(data)| ==> Scan(data)[k] == PixelAt(data, Admitted(data, Visited())[k])
    ensures RowMajor(Admitted(data, Visited()))
  {
    ExtractIsAdmittedPixels(data, Visited());
    VisitedExactlyOnce();
    AdmittedRowMajor(data, Visited());
  }

  /** Particle k of the scan is at rest on the anchor of an admitted cell and has that sample's colour. */
  lemma ScanParticles(data: seq<Byte>, k: nat)
    requires |data| == BufferLength && k < |Scan(data)|
    ensures var p := Scan(data)[k];
      p.x == p.originalX && p.y == p.originalY && p.vx == 0.0 && p.vy == 0.0 &&
      exists c :: InGrid(c) && AdmitsAt(data, c) &&
        p.originalX == AnchorX(c.x) && p.originalY == AnchorY(c.y) &&
        p.color == Rgb(data[Offset(c)], data[Offset(c) + 1], data[Offset(c) + 2])
  {
    ScanShape(data);
    var c := Admitted(data, Visited())[k];
    assert c in Admitted(data, Visited());
  }

  /** Every admitted cell has its particle in the scan. */
  lemma ScanComplete(data: seq<Byte>, c: Cell)
    requires |data| == BufferLength && InGrid(c) && AdmitsAt(data, c)
    ensures PixelAt(data, c) in Scan(data)
  {
    ScanShape(data);
    VisitedExactlyOnce();
    var a := Admitted(data, Visited());
    assert c in a;
    var k :| 0 <= k < |a| && a[k] == c;
    assert Scan(data)[k] == PixelAt(data, c);
  }

  /** Particles come in row-major order of their anchors: top to bottom, left to right. */
  lemma ScanAnchorsOrdered(data: seq<Byte>, i: nat, j: nat)
    requires |data| == BufferLength && i < j < |Scan(data)|
    ensures var p, q := Scan(data)[i], Scan(data)[j];
      p.originalY < q.originalY || (p.originalY == q.originalY && p.originalX < q.originalX)
  {
    ScanShape(data);
    var a := Admitted(data, Visited());
    assert Before(a[i], a[j]);
    if a[i].y < a[j].y {
      AnchorStrictlyIncreasing(a[i].y, a[j].y);
    } else {
      AnchorStrictlyIncreasing(a[i].x, a[j].x);
    }
  }

  /** No sample is opaque enough: every alpha byte is at most 100. */
  predicate Transparent(data: seq<Byte>) {
    forall i :: 0 <= i < |data| && i % 4 == 3 ==> data[i] <= AlphaThreshold
  }

  /** Every colour channel is at least 250 (white, or nearly). */
  predicate NearWhite(data: seq<Byte>) {
    forall i :: 0 <= i < |data| && i % 4 != 3 ==> data[i] >= 250
  }

  lemma NotAdmittedInEmptyImage(data: seq<Byte>, c: Cell)
    requires |data| == BufferLength && InGrid(c)
    requires Transparent(data) || NearWhite(data)
    ensures !AdmitsAt(data, c)
  {
    var i := Offset(c);
    assert (i + 3) % 4 == 3 && i % 4 == 0 && (i + 1) % 4 == 1 && (i + 2) % 4 == 2;
    AdmitsIff(data[i], data[i + 1], data[i + 2], data[i + 3]);
  }

  lemma {:induction false} ExtractNoneAdmitted(data: seq<Byte>, cells: seq<Cell>)
    requires |data| == BufferLength && forall c <- cells :: InGrid(c)
    requires forall c <- cells :: !AdmitsAt(data, c)
    ensures Extract(data, cells) == []
  {
    if cells != [] {
      assert cells[0] in cells;
      ExtractNoneAdmitted(data, cells[1..]);
    }
  }

  /** A transparent or white image yields no particles. */
  lemma EmptyImageNoParticles(data: seq<Byte>)
    requires |data| == BufferLength
    requires Transparent(data) || NearWhite(data)
    ensures Scan(data) == []
  {
    forall c | c in Visited() ensures !AdmitsAt(data, c) {
      NotAdmittedInEmptyImage(data, c);
    }
    ExtractNoneAdmitted(data, Visited());
  }

  // ---------------------------------------------------------------------
  // The frame update
  // ---------------------------------------------------------------------

  /** `sqrt(dx*dx + dy*dy) < 51`, stated without the square root. */
  predicate InEffectRadius(dx: real, dy: real)
    ensures InEffectRadius(dx, dy) ==>
      -EffectRadius < dx < EffectRadius && -EffectRadius < dy < EffectRadius
  {
    RadiusBox(dx, dy);
    dx * dx + dy * dy < EffectRadius * EffectRadius
  }

  /** The proof of InEffectRadius's ensures, kept apart so the predicate's body stays the plain test. */
  lemma RadiusBox(dx: real, dy: real)
    ensures dx * dx + dy * dy < EffectRadius * EffectRadius ==>
      -EffectRadius < dx < EffectRadius && -EffectRadius < dy < EffectRadius
  {
    SquareNonNegative(dx);
    SquareNonNegative(dy);
    if dx * dx + dy * dy < EffectRadius * EffectRadius {
      SquareBelow(dx, EffectRadius);
      SquareBelow(dy, EffectRadius);
    }
  }

  /** Squaring is monotone on non-negative reals. */
  lemma SquareAtLeast(d: real, r: real)
    requires 0.0 <= r <= d
    ensures r * r <= d * d
  {
    assert r * r <= r * d by { assert r * (d - r) >= 0.0 * (d - r); }
    assert r * d <= d * d by { assert d * (d - r) >= 0.0 * (d - r); }
  }

  /** A square below b*b, for b >= 0, comes from a number strictly between -b and b. */
  lemma SquareBelow(d: real, b: real)
    requires 0.0 <= b && d * d < b * b
    ensures -b < d < b
  {
    if d <= -b {
      SquareAtLeast(-d, b);
      assert false;
    } else if d >= b {
      SquareAtLeast(d, b);
      assert false;
    }
  }

  /** The velocity change repulsion gives a particle at offset (dx, dy) from the pointer. */
  type Repulsion = (real, real) -> (real, real)

  /** The repulsion step: velocity changes only when the pointer is within the effect radius. */
  function Repel(p: Pixel, mouseX: real, mouseY: real, push: Repulsion): (q: Pixel)
    ensures q.x == p.x && q.y == p.y && q.color == p.color
    ensures q.originalX == p.originalX && q.originalY == p.originalY
    ensures !InEffectRadius(p.x - mouseX, p.y - mouseY) ==> q == p
  {
    var dx, dy := p.x - mouseX, p.y - mouseY;
    if InEffectRadius(dx, dy) then
      var (ux, uy) := push(dx, dy);
      p.(vx := p.vx + ux, vy := p.vy + uy)
    else
      p
  }

  /** Spring toward the anchor, friction, then one Euler step of the position. */
  function Relax(p: Pixel): (q: Pixel)
    ensures q.color == p.color && q.originalX == p.originalX && q.originalY == p.originalY
  {
    var vx := (p.vx + (p.originalX - p.x) * Spring) * Friction;
    var vy := (p.vy + (p.originalY - p.y) * Spring) * Friction;
    p.(x := p.x + vx, y := p.y + vy, vx := vx, vy := vy)
  }

  /** One frame of one particle: only position and velocity change. */
  function Step(p: Pixel, mouseX: real, mouseY: real, push: Repulsion): (q: Pixel)
    ensures q.color == p.color && q.originalX == p.originalX && q.originalY == p.originalY
  {
    Relax(Repel(p, mouseX, mouseY, push))
  }

  predicate AtRest(p: Pixel) {
    p.x == p.originalX && p.y == p.originalY && p.vx == 0.0 && p.vy == 0.0
  }

  /** Resting on the anchor is the one and only fixed point of the idle update. */
  lemma RelaxFixedPoint(p: Pixel)
    ensures Relax(p) == p <==> AtRest(p)
  {
    if Relax(p) == p {
      var vx := (p.vx + (p.originalX - p.x) * Spring) * Friction;
      assert p.x + vx == p.x;
      assert vx == 0.0;
      var vy := (p.vy + (p.originalY - p.y) * Spring) * Friction;
      assert p.y + vy == p.y;
      assert vy == 0.0;
    }
  }

  /** Without repulsion the frame update is the idle update, whatever the repulsion would have been. */
  lemma StepOutsideRadius(p: Pixel, mouseX: real, mouseY: real, push: Repulsion)
    requires !InEffectRadius(p.x - mouseX, p.y - mouseY)
    ensures Step(p, mouseX, mouseY, push) == Relax(p)
    ensures Relax(p).vx == Friction * (p.vx + Spring * (p.originalX - p.x))
    ensures Relax(p).vy == Friction * (p.vy + Spring * (p.originalY - p.y))
    ensures Relax(p).x == p.x + Relax(p).vx && Relax(p).y == p.y + Relax(p).vy
  {
  }

  /** With the pointer parked at the sentinel, no point with both coordinates at least -949 feels repulsion. */
  lemma SentinelOutOfReach(px: real, py: real)
    requires px >= -949.0 && py >= -949.0
    ensures !InEffectRadius(px - Sentinel, py - Sentinel)
  {
  }

  /** Once the pointer has left, a particle resting on an anchor on the canvas stays exactly where it is. */
  lemma RestingStaysAfterLeave(p: Pixel, push: Repulsion)
    requires AtRest(p)
    requires 0.0 <= p.originalX < CanvasWidth && 0.0 <= p.originalY < CanvasHeight
    ensures Step(p, Sentinel, Sentinel, push) == p
  {
    SentinelOutOfReach(p.x, p.y);
    RelaxFixedPoint(p);
  }

  /** A frame with the pointer at the sentinel leaves a freshly scanned particle unchanged. */
  lemma ScannedStillAfterLeave(data: seq<Byte>, k: nat, push: Repulsion)
    requires |data| == BufferLength && k < |Scan(data)|
    ensures Step(Scan(data)[k], Sentinel, Sentinel, push) == Scan(data)[k]
  {
    var p := Scan(data)[k];
    ScanParticles(data, k);
    var c :| InGrid(c) && AdmitsAt(data, c) && p.originalX == AnchorX(c.x) && p.originalY == AnchorY(c.y) &&
      p.color == Rgb(data[Offset(c)], data[Offset(c) + 1], data[Offset(c) + 2]);
    AnchorBounds(c);
    RestingStaysAfterLeave(p, push);
  }

  // ---------------------------------------------------------------------
  // Settling: the idle update loses a fixed share of energy per frame
  // ---------------------------------------------------------------------

  /**
   * A positive definite quadratic form in the displacement e from the
   * anchor and the velocity v, for which one idle frame is an exact
   * contraction by the friction factor.
   */
  function Quad(e: real, v: real): real {
    17.0 * e * e + 13.0 * e * v + 170.0 * v * v
  }

  lemma SquareNonNegative(z: real)
    ensures z * z >= 0.0
  {
    if z > 0.0 {
      assert z * z > 0.0 * z;
    } else if z < 0.0 {
      assert (-z) * (-z) > 0.0 * (-z);
    }
  }

  /** The form bounds the squared displacement and the squared velocity. */
  lemma QuadBounds(e: real, v: real)
    ensures 16.0 * (e * e) <= Quad(e, v)
    ensures 167.0 * (v * v) <= Quad(e, v)
  {
    var s, t := e + 6.5 * v, 13.0 * e + 6.0 * v;
    SquareNonNegative(e);
    SquareNonNegative(v);
    SquareNonNegative(s);
    SquareNonNegative(t);
    assert Quad(e, v) == 16.0 * (e * e) + s * s + 127.75 * (v * v);
    assert 12.0 * Quad(e, v) == 12.0 * 167.0 * (v * v) + t * t + 35.0 * (e * e);
  }

  /** One idle frame along one axis multiplies the form by exactly 0.85. */
  lemma QuadStep(e: real, v: real)
    ensures var w := (v - e * Spring) * Friction; Quad(e + w, w) == Friction * Quad(e, v)
  {
    var w := (v - e * Spring) * Friction;
    assert w == 0.85 * v - 0.085 * e;
    assert e + w == 0.915 * e + 0.85 * v;
  }

  /** The settling energy of a particle: zero when it rests on its anchor (bounds in EnergyBounds). */
  function Energy(p: Pixel): (r: real)
    ensures AtRest(p) ==> r == 0.0
  {
    Quad(p.x - p.originalX, p.vx) + Quad(p.y - p.originalY, p.vy)
  }

  /** The energy is never negative and bounds the squared distance of the particle to its anchor. */
  lemma EnergyBounds(p: Pixel)
    ensures Energy(p) >= 0.0
    ensures 16.0 * Square(p.x - p.originalX) <= Energy(p)
    ensures 16.0 * Square(p.y - p.originalY) <= Energy(p)
  {
    QuadBounds(p.x - p.originalX, p.vx);
    QuadBounds(p.y - p.originalY, p.vy);
  }

  /** One idle frame multiplies the energy by exactly the friction factor. */
  lemma RelaxEnergy(p: Pixel)
    ensures Energy(Relax(p)) == Friction * Energy(p)
  {
    QuadStep(p.x - p.originalX, p.vx);
    QuadStep(p.y - p.originalY, p.vy);
    var q := Relax(p);
    assert q.x - q.originalX == (p.x - p.originalX) + q.vx;
    assert q.vx == (p.vx - (p.x - p.originalX) * Spring) * Friction;
    assert q.y - q.originalY == (p.y - p.originalY) + q.vy;
    assert q.vy == (p.vy - (p.y - p.originalY) * Spring) * Friction;
  }

  function Pow(b: real, n: nat): real {
    if n == 0 then 1.0 else b * Pow(b, n - 1)
  }

  /** n idle frames. */
  function Settle(p: Pixel, n: nat): Pixel
    decreases n
  {
    if n == 0 then p else Settle(Relax(p), n - 1)
  }

  /** Any quantity that one idle frame scales by 0.85 is scaled by 0.85^n over n frames. */
  lemma {:induction false} GeometricDecay(E: Pixel -> real, p: Pixel, n: nat)
    requires forall q :: E(Relax(q)) == Friction * E(q)
    ensures E(Settle(p, n)) == Pow(Friction, n) * E(p)
    decreases n
  {
    if n > 0 {
      GeometricDecay(E, Relax(p), n - 1);
      assert E(Settle(p, n)) == Pow(Friction, n - 1) * (Friction * E(p));
    }
  }

  /** After n idle frames the energy is exactly 0.85^n of what it was. */
  lemma SettleEnergy(p: Pixel, n: nat)
    ensures Energy(Settle(p, n)) == Pow(Friction, n) * Energy(p)
  {
    RelaxScalesEnergy();
    GeometricDecay(Energy, p, n);
  }

  lemma RelaxScalesEnergy()
    ensures forall q :: Energy(Relax(q)) == Friction * Energy(q)
  {
    forall q: Pixel ensures Energy(Relax(q)) == Friction * Energy(q) {
      RelaxEnergy(q);
    }
  }

  /** So the squared distance to the anchor shrinks geometrically while no repulsion fires. */
  lemma SettleDisplacement(p: Pixel, n: nat)
    ensures var q := Settle(p, n); 16.0 * Square(q.x - q.originalX) <= Pow(Friction, n) * Energy(p)
    ensures var q := Settle(p, n); 16.0 * Square(q.y - q.originalY) <= Pow(Friction, n) * Energy(p)
  {
    var q := Settle(p, n);
    var e, bound := Energy(q), Pow(Friction, n) * Energy(p);
    SettleEnergy(p, n);
    EnergyBounds(q);
    BoundBy(16.0 * Square(q.x - q.originalX), e, bound);
    BoundBy(16.0 * Square(q.y - q.originalY), e, bound);
  }

  function Square(z: real): real { z * z }

  /** Chains a bound through an equality, keeping the non-linear real terms out of the caller's proof context. */
  lemma BoundBy(a: real, b: real, c: real)
    requires a <= b && b == c
    ensures a <= c
  {
  }

  /** Idle frames never move the anchor or change the colour. */
  lemma {:induction false} SettleKeepsAnchor(p: Pixel, n: nat)
    ensures Settle(p, n).originalX == p.originalX && Settle(p, n).originalY == p.originalY
    ensures Settle(p, n).color == p.color
    decreases n
  {
    if n > 0 {
      SettleKeepsAnchor(Relax(p), n - 1);
    }
  }

  /** n frames of one particle with the pointer held at (mouseX, mouseY). */
  function Frames(p: Pixel, n: nat, mouseX: real, mouseY: real, push: Repulsion): (q: Pixel)
    ensures q.color == p.color && q.originalX == p.originalX && q.originalY == p.originalY
    ensures n == 0 ==> q == p
    decreases n
  {
    if n == 0 then p else Frames(Step(p, mouseX, mouseY, push), n - 1, mouseX, mouseY, push)
  }

  /** A calm particle: energy below 16*949^2 and its anchor at x, y >= 0, as every scanned anchor is. */
  predicate Calm(p: Pixel) {
    Energy(p) < 16.0 * (949.0 * 949.0) && p.originalX >= 0.0 && p.originalY >= 0.0
  }

  /** Such a particle is at x, y > -949, so a frame with the pointer at the sentinel is the idle update. */
  lemma CalmStepIsRelax(p: Pixel, push: Repulsion)
    requires Calm(p)
    ensures Step(p, Sentinel, Sentinel, push) == Relax(p)
  {
    var ex, ey := p.x - p.originalX, p.y - p.originalY;
    EnergyBounds(p);
    ScaledBelow(Square(ex), Energy(p), 949.0 * 949.0);
    ScaledBelow(Square(ey), Energy(p), 949.0 * 949.0);
    SquareBelow(ex, 949.0);
    SquareBelow(ey, 949.0);
    SentinelOutOfReach(p.x, p.y);
  }

  /** Divides a bound by 16, keeping the non-linear real terms out of the caller's proof context. */
  lemma ScaledBelow(s: real, e: real, m: real)
    requires 16.0 * s <= e < 16.0 * m
    ensures s < m
  {
  }

  /** The idle update keeps a calm particle calm. */
  lemma RelaxKeepsCalm(p: Pixel)
    requires Calm(p)
    ensures Calm(Relax(p))
  {
    EnergyBounds(p);
    RelaxEnergy(p);
  }

  /**
   * After the pointer has left, every later frame of a calm particle is the
   * idle update, so n frames are exactly n idle frames.
   */
  lemma {:induction false} FramesAfterLeave(p: Pixel, n: nat, push: Repulsion)
    requires Calm(p)
    ensures Frames(p, n, Sentinel, Sentinel, push) == Settle(p, n)
    decreases n
  {
    if n > 0 {
      CalmStepIsRelax(p, push);
      RelaxKeepsCalm(p);
      FramesAfterLeave(Relax(p), n - 1, push);
    }
  }

  /** Hence, after the pointer has left, a calm particle's distance to its anchor decays geometrically. */
  lemma SettlesAfterLeave(p: Pixel, n: nat, push: Repulsion)
    requires Calm(p)
    ensures var q := Frames(p, n, Sentinel, Sentinel, push);
      16.0 * Square(q.x - q.originalX) <= Pow(Friction, n) * Energy(p) &&
      16.0 * Square(q.y - q.originalY) <= Pow(Friction, n) * Energy(p)
  {
    FramesAfterLeave(p, n, push);
    SettleDisplacement(p, n);
  }

  // ---------------------------------------------------------------------
  // The component state: the particle list and the pointer
  // ---------------------------------------------------------------------

  class ParticleCanvas {
    var pixels: seq<Pixel>
    var mouseX: real
    var mouseY: real

    constructor ()
      ensures pixels == [] && mouseX == Sentinel && mouseY == Sentinel
    {
      pixels := [];
      mouseX := Sentinel;
      mouseY := Sentinel;
    }

    /** `image.onload`: scan the decoded 96x96 buffer and append one particle per admitted sample. */
    method OnImageLoad(data: seq<Byte>)
      requires |data| == BufferLength
      modifies this`pixels
      ensures pixels == old(pixels) + Scan(data)
    {
      ghost var start := pixels;
      ghost var k: nat := 0;
      var y: nat := 0;
      while y < SampleSize
        invariant y <= SampleSize && k == y * SampleSize
        invariant pixels == start + Extract(data, Visited()[..k])
      {
        var x: nat := 0;
        while x < SampleSize
          invariant x <= SampleSize && k == y * SampleSize + x
          invariant pixels == start + Extract(data, Visited()[..k])
        {
          var i := Offset(Cell(x, y));
          var r, g, b, a := data[i], data[i + 1], data[i + 2], data[i + 3];
          ScanStep(data, Cell(x, y));
          ghost var before := pixels;
          if Admits(r, g, b, a) {
            var nx, ny := AnchorX(x), AnchorY(y);
            pixels := pixels + [Pixel(nx, ny, 0.0, 0.0, Rgb(r, g, b), nx, ny)];
            assert pixels == before + [PixelAt(data, Cell(x, y))];
          }
          assert pixels == before + (if AdmitsAt(data, Cell(x, y)) then [PixelAt(data, Cell(x, y))] else []);
          x := x + 1;
          k := k + 1;
        }
        y := y + 1;
      }
      assert Visited()[..k] == Visited();
    }

    /** `animate`: one frame for every particle; list length, order, anchors and colours are kept. */
    method Animate(push: Repulsion)
      modifies this`pixels
      ensures |pixels| == |old(pixels)|
      ensures forall k :: 0 <= k < |pixels| ==> pixels[k] == Step(old(pixels)[k], mouseX, mouseY, push)
      ensures forall k :: 0 <= k < |pixels| ==>
        pixels[k].originalX == old(pixels)[k].originalX && pixels[k].originalY == old(pixels)[k].originalY &&
        pixels[k].color == old(pixels)[k].color
    {
      var i := 0;
      while i < |pixels|
        invariant 0 <= i <= |pixels| == |old(pixels)|
        invariant forall k :: 0 <= k < i ==> pixels[k] == Step(old(pixels)[k], mouseX, mouseY, push)
        invariant forall k :: i <= k < |pixels| ==> pixels[k] == old(pixels)[k]
      {
        pixels := pixels[i := Step(pixels[i], mouseX, mouseY, push)];
        i := i + 1;
      }
    }

    /** `handleMouseMove`, given the pointer already scaled to canvas coordinates. */
    method MouseMove(x: real, y: real)
      modifies this`mouseX, this`mouseY
      ensures mouseX == x && mouseY == y
    {
      mouseX := x;
      mouseY := y;
    }

    /** `handleMouseLeave`: park the pointer at the sentinel. */
    method MouseLeave()
      modifies this`mouseX, this`mouseY
      ensures mouseX == Sentinel && mouseY == Sentinel
    {
      mouseX := Sentinel;
      mouseY := Sentinel;
    }
  }
}
