/**
 * Back-face culling in screen space. Coordinates are `f32` in the firmware
 * and `real` here: no rounding and no NaN.
 */
module Transform {

  /** A vertex after the viewport transform; `w` plays no part in culling and is left out. */
  datatype ScreenVertex = ScreenVertex(x: real, y: real, z: real)

  /** Twice the signed area of the triangle: positive when v0, v1, v2 run counter-clockwise. */
  function Cross(v0: ScreenVertex, v1: ScreenVertex, v2: ScreenVertex): real {
    (v1.x - v0.x) * (v2.y - v0.y) - (v1.y - v0.y) * (v2.x - v0.x)
  }

  /**
   * The firmware's test as written: drawn when the cross product is strictly
   * positive. Screen y grows downwards, so this keeps the triangles that run
   * clockwise on the screen.
   */
  predicate IsFrontFacingAsWritten(v0: ScreenVertex, v1: ScreenVertex, v2: ScreenVertex) {
    Cross(v0, v1, v2) > 0.0
  }

  /**
   * The culling tests' triangle runs counter-clockwise on the screen. The
   * check as written culls it and draws its reverse, the opposite of what
   * those tests expect.
   */
  lemma AsWrittenCullsCounterClockwise()
    ensures !IsFrontFacingAsWritten(ScreenVertex(320.0, 100.0, 0.5), ScreenVertex(200.0, 400.0, 0.5), ScreenVertex(440.0, 400.0, 0.5))
    ensures IsFrontFacingAsWritten(ScreenVertex(320.0, 100.0, 0.5), ScreenVertex(440.0, 400.0, 0.5), ScreenVertex(200.0, 400.0, 0.5))
  {
  }

  /**
   * Front-facing means counter-clockwise as seen on the screen: with y growing
   * downwards that is a strictly negative cross product. A degenerate triangle
   * (cross product zero) is back-facing.
   */
  predicate IsFrontFacing(v0: ScreenVertex, v1: ScreenVertex, v2: ScreenVertex) {
    Cross(v0, v1, v2) < 0.0
  }

  /** The corrected test keeps exactly the triangles the test as written keeps with two vertices swapped. */
  lemma FrontFacingIsAsWrittenReversed(v0: ScreenVertex, v1: ScreenVertex, v2: ScreenVertex)
    ensures IsFrontFacing(v0, v1, v2) <==> IsFrontFacingAsWritten(v0, v2, v1)
  {
    CrossSwaps(v0, v1, v2);
  }

  /** Rotating the vertex order keeps the winding, so the same triangles are culled. */
  lemma FrontFacingRotationInvariant(v0: ScreenVertex, v1: ScreenVertex, v2: ScreenVertex)
    ensures IsFrontFacing(v0, v1, v2) <==> IsFrontFacing(v1, v2, v0)
  {
    CrossRotates(v0, v1, v2);
  }

  /** Swapping two vertices reverses the winding: a front face becomes a back face. */
  lemma FrontFacingReversed(v0: ScreenVertex, v1: ScreenVertex, v2: ScreenVertex)
    ensures IsFrontFacing(v0, v1, v2) ==> !IsFrontFacing(v0, v2, v1)
    ensures Cross(v0, v1, v2) != 0.0 ==> (IsFrontFacing(v0, v1, v2) <==> !IsFrontFacing(v0, v2, v1))
  {
    CrossSwaps(v0, v1, v2);
  }

  /** A degenerate triangle (its second vertex on the line through the others) is never drawn. */
  lemma CollinearIsBackFacing(v0: ScreenVertex, v2: ScreenVertex, t: real)
    ensures !IsFrontFacing(v0, ScreenVertex(v0.x + t * (v2.x - v0.x), v0.y + t * (v2.y - v0.y), v0.z), v2)
  {
    var v1 := ScreenVertex(v0.x + t * (v2.x - v0.x), v0.y + t * (v2.y - v0.y), v0.z);
    var dx, dy := v2.x - v0.x, v2.y - v0.y;
    assert v1.x - v0.x == t * dx;
    assert v1.y - v0.y == t * dy;
    assert (t * dx) * dy == t * (dx * dy);
    assert (t * dy) * dx == t * (dx * dy);
  }

  /** The winding test does not depend on where the triangle sits on the screen. */
  lemma FrontFacingTranslationInvariant(v0: ScreenVertex, v1: ScreenVertex, v2: ScreenVertex, dx: real, dy: real)
    ensures IsFrontFacing(v0, v1, v2) <==>
      IsFrontFacing(ScreenVertex(v0.x + dx, v0.y + dy, v0.z),
                    ScreenVertex(v1.x + dx, v1.y + dy, v1.z),
                    ScreenVertex(v2.x + dx, v2.y + dy, v2.z))
  {
  }

  /** The three winding cases of the culling tests. */
  lemma CullingExamples()
    ensures IsFrontFacing(ScreenVertex(320.0, 100.0, 0.5), ScreenVertex(200.0, 400.0, 0.5), ScreenVertex(440.0, 400.0, 0.5))
    ensures !IsFrontFacing(ScreenVertex(320.0, 100.0, 0.5), ScreenVertex(440.0, 400.0, 0.5), ScreenVertex(200.0, 400.0, 0.5))
    ensures !IsFrontFacing(ScreenVertex(100.0, 100.0, 0.5), ScreenVertex(200.0, 200.0, 0.5), ScreenVertex(300.0, 300.0, 0.5))
  {
  }

  lemma CrossRotates(v0: ScreenVertex, v1: ScreenVertex, v2: ScreenVertex)
    ensures Cross(v1, v2, v0) == Cross(v0, v1, v2)
  {
    var a, b, c, d := v1.x - v0.x, v1.y - v0.y, v2.x - v0.x, v2.y - v0.y;
    assert v2.x - v1.x == c - a && v2.y - v1.y == d - b;
    assert v0.x - v1.x == -a && v0.y - v1.y == -b;
    assert (c - a) * (-b) == -(c * b) + a * b;
    assert (d - b) * (-a) == -(d * a) + a * b;
  }

  lemma CrossSwaps(v0: ScreenVertex, v1: ScreenVertex, v2: ScreenVertex)
    ensures Cross(v0, v2, v1) == -Cross(v0, v1, v2)
  {
  }
}
