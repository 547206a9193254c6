/** How GLprimer's render loop uses the matrix library. Every frame it builds a
    translation and a rotation about y by the elapsed time, multiplies them as
    mat4mult(translation, rotation), and uploads the product without asking the
    driver to transpose it. */
module RenderLoop {
  import opened Matrix4
  import opened Transforms

  /** The per-frame model matrix matRes = mat4mult(mat4translate(0.1, 0.1, 0), mat4roty(angle)),
      with (c, s) the cosine and sine of the frame's angle. */
  function ModelMatrix(c: real, s: real): Mat4
  {
    Mult(Translate(0.1, 0.1, 0.0), RotY(c, s))
  }

  /** The rightmost factor acts first: a vertex is rotated, then translated. */
  lemma ModelMatrixRotatesThenTranslates(c: real, s: real, v: Vec4)
    ensures Apply(ModelMatrix(c, s), v) == Apply(Translate(0.1, 0.1, 0.0), Apply(RotY(c, s), v))
  {
    ApplyMult(Translate(0.1, 0.1, 0.0), RotY(c, s), v);
  }

  /** Where a vertex ends up: rotated about the y axis through the origin, then
      moved by (0.1, 0.1, 0). */
  lemma ModelMatrixPoint(c: real, s: real, x: real, y: real, z: real)
    ensures Apply(ModelMatrix(c, s), Point(x, y, z)) == Point(c * x - s * z + 0.1, y + 0.1, s * x + c * z)
  {
    ModelMatrixRotatesThenTranslates(c, s, Point(x, y, z));
    var r := Point(c * x - s * z, y, s * x + c * z);
    SameComponents(Apply(RotY(c, s), Point(x, y, z)), r);
    TranslatePoint(0.1, 0.1, 0.0, r[0], r[1], r[2]);
  }

  /** The product keeps the rotation in its upper-left block and holds the
      translation in its last column: the rotation is not applied to the offset. */
  lemma ModelMatrixLayout(c: real, s: real)
    ensures ModelMatrix(c, s) == RotY(c, s)[..12] + [0.1, 0.1, 0.0, 1.0]
  {
    SameEntries(ModelMatrix(c, s), RotY(c, s)[..12] + [0.1, 0.1, 0.0, 1.0]);
  }

  /** Because mat4roty turns the other way from the right-handed convention, the
      object spins clockwise about y: the same matrix as the right-handed rotation
      by the opposite angle. */
  lemma ModelMatrixSpinsClockwise(c: real, s: real)
    ensures ModelMatrix(c, s) == Mult(Translate(0.1, 0.1, 0.0), RotYRightHanded(c, -s))
  {
    RotYIsOppositeAngle(c, s);
  }

  /** The order of the factors matters: with T a unit translation along x and R a
      quarter turn about z, T * R and R * T send the point (1, 0, 0) to different places. */
  lemma CompositionOrderMatters()
    ensures Apply(Mult(Translate(1.0, 0.0, 0.0), RotZ(0.0, 1.0)), Point(1.0, 0.0, 0.0)) == Point(1.0, 1.0, 0.0)
    ensures Apply(Mult(RotZ(0.0, 1.0), Translate(1.0, 0.0, 0.0)), Point(1.0, 0.0, 0.0)) == Point(0.0, 2.0, 0.0)
    ensures Mult(Translate(1.0, 0.0, 0.0), RotZ(0.0, 1.0)) != Mult(RotZ(0.0, 1.0), Translate(1.0, 0.0, 0.0))
  {
    var T, R, p := Translate(1.0, 0.0, 0.0), RotZ(0.0, 1.0), Point(1.0, 0.0, 0.0);
    ApplyMult(T, R, p);
    ApplyMult(R, T, p);
    SameComponents(Apply(R, p), Point(0.0, 1.0, 0.0));
    TranslatePoint(1.0, 0.0, 0.0, 0.0, 1.0, 0.0);
    TranslatePoint(1.0, 0.0, 0.0, 1.0, 0.0, 0.0);
    SameComponents(Apply(R, Point(2.0, 0.0, 0.0)), Point(0.0, 2.0, 0.0));
  }
}
