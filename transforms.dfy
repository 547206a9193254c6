/** The elementary transforms of GLprimer's utilities: rotations about the three
    axes, a uniform scale in x and y, a translation and a perspective projection.
    Each constructor returns a fresh 16-entry column-major matrix. The source takes
    an angle and calls cos and sin; here the pair (c, s) = (cos angle, sin angle)
    is the parameter, and a proof that needs a genuine angle asks for IsUnit(c, s). */
module Transforms {
  import opened Matrix4

  /** (c, s) is the cosine and sine of some angle. */
  predicate IsUnit(c: real, s: real)
  {
    c * c + s * s == 1.0
  }

  /** Row k and column k of R are those of the identity: axis k is left alone. */
  predicate AxisFixed(R: Mat4, k: nat)
    requires k < 4
  {
    forall j: nat | j < 4 :: At(R, k, j) == At(Identity(), k, j) && At(R, j, k) == At(Identity(), j, k)
  }

  /** The unit direction along axis k. */
  function Axis(k: nat): (v: Vec4)
    requires k < 3
    ensures v[3] == 0.0
    ensures forall j: nat | j < 4 :: v[j] == if j == k then 1.0 else 0.0
  {
    if k == 0 then [1.0, 0.0, 0.0, 0.0]
    else if k == 1 then [0.0, 1.0, 0.0, 0.0]
    else [0.0, 0.0, 1.0, 0.0]
  }

  // ---------------------------------------------------------------- rotations

  /** mat4rotx: rotation about the x axis. */
  function RotX(c: real, s: real): (R: Mat4)
    ensures AxisFixed(R, 0) && AxisFixed(R, 3)
  {
    [1.0, 0.0, 0.0, 0.0,
     0.0, c, s, 0.0,
     0.0, -s, c, 0.0,
     0.0, 0.0, 0.0, 1.0]
  }

  /** mat4roty as written: the source's literal, read column-major. */
  function RotY(c: real, s: real): (R: Mat4)
    ensures AxisFixed(R, 1) && AxisFixed(R, 3)
  {
    [c, 0.0, s, 0.0,
     0.0, 1.0, 0.0, 0.0,
     -s, 0.0, c, 0.0,
     0.0, 0.0, 0.0, 1.0]
  }

  /** The right-handed rotation about the y axis, counter-clockwise for a positive
      angle as mat4rotx and mat4rotz are: the literal mat4roty evidently meant. */
  function RotYRightHanded(c: real, s: real): (R: Mat4)
    ensures AxisFixed(R, 1) && AxisFixed(R, 3)
  {
    [c, 0.0, -s, 0.0,
     0.0, 1.0, 0.0, 0.0,
     s, 0.0, c, 0.0,
     0.0, 0.0, 0.0, 1.0]
  }

  /** mat4rotz: rotation about the z axis. */
  function RotZ(c: real, s: real): (R: Mat4)
    ensures AxisFixed(R, 2) && AxisFixed(R, 3)
  {
    [c, s, 0.0, 0.0,
     -s, c, 0.0, 0.0,
     0.0, 0.0, 1.0, 0.0,
     0.0, 0.0, 0.0, 1.0]
  }

  /** Counter-clockwise about x: y turns towards z (a quarter turn takes y to z). */
  lemma RotXTurnsYTowardsZ(c: real, s: real)
    ensures Apply(RotX(c, s), Axis(1)) == [0.0, c, s, 0.0]
    ensures Apply(RotX(c, s), Axis(2)) == [0.0, -s, c, 0.0]
  {
    SameComponents(Apply(RotX(c, s), Axis(1)), [0.0, c, s, 0.0]);
    SameComponents(Apply(RotX(c, s), Axis(2)), [0.0, -s, c, 0.0]);
  }

  /** Counter-clockwise about z: x turns towards y (a quarter turn takes x to y). */
  lemma RotZTurnsXTowardsY(c: real, s: real)
    ensures Apply(RotZ(c, s), Axis(0)) == [c, s, 0.0, 0.0]
    ensures Apply(RotZ(c, s), Axis(1)) == [-s, c, 0.0, 0.0]
  {
    SameComponents(Apply(RotZ(c, s), Axis(0)), [c, s, 0.0, 0.0]);
    SameComponents(Apply(RotZ(c, s), Axis(1)), [-s, c, 0.0, 0.0]);
  }

  /** Counter-clockwise about y: z turns towards x (a quarter turn takes z to x). */
  lemma RotYRightHandedTurnsZTowardsX(c: real, s: real)
    ensures Apply(RotYRightHanded(c, s), Axis(2)) == [s, 0.0, c, 0.0]
    ensures Apply(RotYRightHanded(c, s), Axis(0)) == [c, 0.0, -s, 0.0]
  {
    SameComponents(Apply(RotYRightHanded(c, s), Axis(2)), [s, 0.0, c, 0.0]);
    SameComponents(Apply(RotYRightHanded(c, s), Axis(0)), [c, 0.0, -s, 0.0]);
  }

  /** The literal of mat4roty turns z away from x: it is the right-handed rotation
      by the opposite angle, that is, a clockwise rotation. */
  lemma RotYIsOppositeAngle(c: real, s: real)
    ensures RotY(c, s) == RotYRightHanded(c, -s)
    ensures RotY(c, s) == Transpose(RotYRightHanded(c, s))
    ensures Apply(RotY(c, s), Axis(2)) == [-s, 0.0, c, 0.0]
  {
    SameEntries(RotY(c, s), RotYRightHanded(c, -s));
    SameEntries(RotY(c, s), Transpose(RotYRightHanded(c, s)));
    SameComponents(Apply(RotY(c, s), Axis(2)), [-s, 0.0, c, 0.0]);
  }

  /** A quarter turn (cos = 0, sin = 1) about y: mat4roty takes z to -x, where
      the right-handed rotation, like mat4rotx and mat4rotz, takes z to +x. */
  lemma RotYQuarterTurnDisagrees()
    ensures Apply(RotY(0.0, 1.0), Axis(2)) == [-1.0, 0.0, 0.0, 0.0]
    ensures Apply(RotYRightHanded(0.0, 1.0), Axis(2)) == [1.0, 0.0, 0.0, 0.0]
    ensures RotY(0.0, 1.0) != RotYRightHanded(0.0, 1.0)
  {
    RotYIsOppositeAngle(0.0, 1.0);
    RotYRightHandedTurnsZTowardsX(0.0, 1.0);
    assert RotY(0.0, 1.0)[2] != RotYRightHanded(0.0, 1.0)[2];
  }

  /** The transpose of each rotation is the rotation by the opposite angle. */
  lemma RotationTransposes(c: real, s: real)
    ensures Transpose(RotX(c, s)) == RotX(c, -s)
    ensures Transpose(RotY(c, s)) == RotY(c, -s)
    ensures Transpose(RotYRightHanded(c, s)) == RotYRightHanded(c, -s)
    ensures Transpose(RotZ(c, s)) == RotZ(c, -s)
  {
    SameEntries(Transpose(RotX(c, s)), RotX(c, -s));
    SameEntries(Transpose(RotY(c, s)), RotY(c, -s));
    SameEntries(Transpose(RotYRightHanded(c, s)), RotYRightHanded(c, -s));
    SameEntries(Transpose(RotZ(c, s)), RotZ(c, -s));
  }

  /** Rotations compose by adding angles: the product of the rotations by a and b
      is the rotation whose cosine and sine are cos(a+b) and sin(a+b). */
  lemma RotXCompose(c1: real, s1: real, c2: real, s2: real)
    ensures Mult(RotX(c1, s1), RotX(c2, s2)) == RotX(c1 * c2 - s1 * s2, s1 * c2 + c1 * s2)
  {
    SameEntries(Mult(RotX(c1, s1), RotX(c2, s2)), RotX(c1 * c2 - s1 * s2, s1 * c2 + c1 * s2));
  }

  lemma RotYCompose(c1: real, s1: real, c2: real, s2: real)
    ensures Mult(RotY(c1, s1), RotY(c2, s2)) == RotY(c1 * c2 - s1 * s2, s1 * c2 + c1 * s2)
  {
    SameEntries(Mult(RotY(c1, s1), RotY(c2, s2)), RotY(c1 * c2 - s1 * s2, s1 * c2 + c1 * s2));
  }

  lemma RotYRightHandedCompose(c1: real, s1: real, c2: real, s2: real)
    ensures Mult(RotYRightHanded(c1, s1), RotYRightHanded(c2, s2))
         == RotYRightHanded(c1 * c2 - s1 * s2, s1 * c2 + c1 * s2)
  {
    SameEntries(Mult(RotYRightHanded(c1, s1), RotYRightHanded(c2, s2)), RotYRightHanded(c1 * c2 - s1 * s2, s1 * c2 + c1 * s2));
  }

  lemma RotZCompose(c1: real, s1: real, c2: real, s2: real)
    ensures Mult(RotZ(c1, s1), RotZ(c2, s2)) == RotZ(c1 * c2 - s1 * s2, s1 * c2 + c1 * s2)
  {
    SameEntries(Mult(RotZ(c1, s1), RotZ(c2, s2)), RotZ(c1 * c2 - s1 * s2, s1 * c2 + c1 * s2));
  }

  /** A zero angle (or a full turn, which has the same cosine and sine) gives the
      identity, and two half-turns about z compose to it. */
  lemma RotZPeriodic()
    ensures RotZ(1.0, 0.0) == Identity()
    ensures Mult(RotZ(-1.0, 0.0), RotZ(-1.0, 0.0)) == Identity()
  {
    SameEntries(RotZ(1.0, 0.0), Identity());
    RotZCompose(-1.0, 0.0, -1.0, 0.0);
    SameEntries(RotZ(-1.0 * -1.0 - 0.0 * 0.0, 0.0 * -1.0 + -1.0 * 0.0), Identity());
  }

  /** Each rotation is orthogonal: R * transpose(R) is the identity. */
  lemma RotXOrthogonal(c: real, s: real)
    requires IsUnit(c, s)
    ensures Mult(RotX(c, s), Transpose(RotX(c, s))) == Identity()
  {
    RotationTransposes(c, s);
    var t := -s;
    RotXCompose(c, s, c, t);
    var cosSum, sinSum := c * c - s * t, s * c + c * t;
    assert Mult(RotX(c, s), RotX(c, t)) == RotX(cosSum, sinSum);
    assert cosSum == 1.0 && sinSum == 0.0;
    SameEntries(RotX(1.0, 0.0), Identity());
  }

  lemma RotYOrthogonal(c: real, s: real)
    requires IsUnit(c, s)
    ensures Mult(RotY(c, s), Transpose(RotY(c, s))) == Identity()
  {
    RotationTransposes(c, s);
    var t := -s;
    RotYCompose(c, s, c, t);
    var cosSum, sinSum := c * c - s * t, s * c + c * t;
    assert Mult(RotY(c, s), RotY(c, t)) == RotY(cosSum, sinSum);
    assert cosSum == 1.0 && sinSum == 0.0;
    SameEntries(RotY(1.0, 0.0), Identity());
  }

  lemma RotYRightHandedOrthogonal(c: real, s: real)
    requires IsUnit(c, s)
    ensures Mult(RotYRightHanded(c, s), Transpose(RotYRightHanded(c, s))) == Identity()
  {
    RotationTransposes(c, s);
    var t := -s;
    RotYRightHandedCompose(c, s, c, t);
    var cosSum, sinSum := c * c - s * t, s * c + c * t;
    assert Mult(RotYRightHanded(c, s), RotYRightHanded(c, t)) == RotYRightHanded(cosSum, sinSum);
    assert cosSum == 1.0 && sinSum == 0.0;
    SameEntries(RotYRightHanded(1.0, 0.0), Identity());
  }

  lemma RotZOrthogonal(c: real, s: real)
    requires IsUnit(c, s)
    ensures Mult(RotZ(c, s), Transpose(RotZ(c, s))) == Identity()
  {
    RotationTransposes(c, s);
    var t := -s;
    RotZCompose(c, s, c, t);
    var cosSum, sinSum := c * c - s * t, s * c + c * t;
    assert Mult(RotZ(c, s), RotZ(c, t)) == RotZ(cosSum, sinSum);
    assert cosSum == 1.0 && sinSum == 0.0;
    SameEntries(RotZ(1.0, 0.0), Identity());
  }

  /** Each rotation is proper: its determinant is 1, so it preserves orientation. */
  lemma RotationDeterminants(c: real, s: real)
    requires IsUnit(c, s)
    ensures Det(RotX(c, s)) == 1.0
    ensures Det(RotY(c, s)) == 1.0
    ensures Det(RotYRightHanded(c, s)) == 1.0
    ensures Det(RotZ(c, s)) == 1.0
  {
  }

  // ------------------------------------------------------------- scale

  /** mat4scale: scales x and y by k; z and w are left alone. */
  function Scale(k: real): (S: Mat4)
    ensures AxisFixed(S, 2) && AxisFixed(S, 3)
    ensures forall r: nat, c: nat | r < 4 && c < 4 && r != c :: At(S, r, c) == 0.0
  {
    [k, 0.0, 0.0, 0.0,
     0.0, k, 0.0, 0.0,
     0.0, 0.0, 1.0, 0.0,
     0.0, 0.0, 0.0, 1.0]
  }

  /** A scaled point: x and y are multiplied by k, z is not. */
  lemma ScalePoint(k: real, x: real, y: real, z: real)
    ensures Apply(Scale(k), Point(x, y, z)) == Point(k * x, k * y, z)
  {
    SameComponents(Apply(Scale(k), Point(x, y, z)), Point(k * x, k * y, z));
  }

  /** Scales compose by multiplying factors; the factor 1 is the identity. */
  lemma ScaleCompose(a: real, b: real)
    ensures Mult(Scale(a), Scale(b)) == Scale(a * b)
    ensures Scale(1.0) == Identity()
  {
    SameEntries(Mult(Scale(a), Scale(b)), Scale(a * b));
    SameEntries(Scale(1.0), Identity());
  }

  /** Only two axes are scaled, so the volume factor is k * k, not k * k * k. */
  lemma ScaleDeterminant(k: real)
    ensures Det(Scale(k)) == k * k
  {
  }

  // -------------------------------------------------------- translation

  /** mat4translate: the identity with (x, y, z) in the last column, at indices 12, 13, 14. */
  function Translate(x: real, y: real, z: real): (T: Mat4)
    ensures T[12] == x && T[13] == y && T[14] == z
    ensures At(T, 3, 3) == 1.0
    ensures forall r: nat, c: nat | r < 4 && c < 3 :: At(T, r, c) == At(Identity(), r, c)
  {
    [1.0, 0.0, 0.0, 0.0,
     0.0, 1.0, 0.0, 0.0,
     0.0, 0.0, 1.0, 0.0,
     x, y, z, 1.0]
  }

  /** A translated point moves by (x, y, z) and stays a point. */
  lemma TranslatePoint(x: real, y: real, z: real, px: real, py: real, pz: real)
    ensures Apply(Translate(x, y, z), Point(px, py, pz)) == Point(px + x, py + y, pz + z)
  {
    SameComponents(Apply(Translate(x, y, z), Point(px, py, pz)), Point(px + x, py + y, pz + z));
  }

  /** A direction (w = 0) is not moved by a translation. */
  lemma TranslateDirection(x: real, y: real, z: real, v: Vec4)
    requires v[3] == 0.0
    ensures Apply(Translate(x, y, z), v) == v
  {
    SameComponents(Apply(Translate(x, y, z), v), v);
  }

  /** Translations compose by adding offsets, and the opposite offset undoes one. */
  lemma TranslateCompose(x1: real, y1: real, z1: real, x2: real, y2: real, z2: real)
    ensures Mult(Translate(x1, y1, z1), Translate(x2, y2, z2)) == Translate(x1 + x2, y1 + y2, z1 + z2)
    ensures Mult(Translate(x1, y1, z1), Translate(-x1, -y1, -z1)) == Identity()
  {
    SameEntries(Mult(Translate(x1, y1, z1), Translate(x2, y2, z2)), Translate(x1 + x2, y1 + y2, z1 + z2));
    SameEntries(Mult(Translate(x1, y1, z1), Translate(-x1, -y1, -z1)), Identity());
  }

  // -------------------------------------------------------- perspective

  /** mat4perspective, with f = 1 / tan(vfov / 2) given directly. The source divides
      by aspect and by zfar - znear, so those must be non-zero. */
  function Perspective(f: real, aspect: real, znear: real, zfar: real): (P: Mat4)
    requires aspect != 0.0 && zfar != znear
    ensures At(P, 0, 0) * aspect == f && At(P, 1, 1) == f
    ensures At(P, 2, 2) * (zfar - znear) == -(zfar + znear)
    ensures At(P, 2, 3) * (zfar - znear) == -(2.0 * znear * zfar)
    ensures At(P, 3, 2) == -1.0 && At(P, 3, 3) == 0.0
    ensures forall r: nat, c: nat | r < 4 && c < 4 && r != c && !(r == 2 && c == 3) && !(r == 3 && c == 2) ::
              At(P, r, c) == 0.0
  {
    [f / aspect, 0.0, 0.0, 0.0,
     0.0, f, 0.0, 0.0,
     0.0, 0.0, -((zfar + znear) / (zfar - znear)), -1.0,
     0.0, 0.0, -((2.0 * znear * zfar) / (zfar - znear)), 0.0]
  }

  /** The clip-space w of a projected point is its distance -z in front of the eye,
      and x and y are scaled by f / aspect and f. */
  lemma PerspectiveClipCoordinates(f: real, aspect: real, znear: real, zfar: real, x: real, y: real, z: real)
    requires aspect != 0.0 && zfar != znear
    ensures Apply(Perspective(f, aspect, znear, zfar), Point(x, y, z))[3] == -z
    ensures Apply(Perspective(f, aspect, znear, zfar), Point(x, y, z))[0] * aspect == f * x
    ensures Apply(Perspective(f, aspect, znear, zfar), Point(x, y, z))[1] == f * y
  {
  }

  /** Normalised depth: clip-space z divided by clip-space w. */
  function NdcDepth(v: Vec4): real
    requires v[3] != 0.0
  {
    v[2] / v[3]
  }

  /** The clip-space z of the point at distance d in front of the eye, times zfar - znear. */
  lemma PerspectiveDepth(f: real, aspect: real, znear: real, zfar: real, d: real)
    requires aspect != 0.0 && zfar != znear
    ensures Apply(Perspective(f, aspect, znear, zfar), Point(0.0, 0.0, -d))[2] * (zfar - znear)
         == d * (zfar + znear) - 2.0 * znear * zfar
  {
    var P := Perspective(f, aspect, znear, zfar);
    assert Apply(P, Point(0.0, 0.0, -d))[2] == At(P, 2, 2) * -d + At(P, 2, 3);
  }

  /** A non-zero factor cancels from both sides. */
  lemma CancelFactor(x: real, y: real, k: real)
    requires k != 0.0 && x * k == y * k
    ensures x == y
  {
    assert (x - y) * k == 0.0;
  }

  /** Multiplying by a positive factor keeps the sign. */
  lemma PositiveFactor(x: real, k: real)
    requires k > 0.0
    ensures 0.0 <= x * k <==> 0.0 <= x
  {
    if x < 0.0 {
      assert x * k < 0.0;
    }
  }

  /** The near plane z = -znear maps to depth -1 and the far plane z = -zfar to +1. */
  lemma PerspectiveNearFar(f: real, aspect: real, znear: real, zfar: real)
    requires aspect != 0.0 && 0.0 < znear < zfar
    ensures NdcDepth(Apply(Perspective(f, aspect, znear, zfar), Point(0.0, 0.0, -znear))) == -1.0
    ensures NdcDepth(Apply(Perspective(f, aspect, znear, zfar), Point(0.0, 0.0, -zfar))) == 1.0
  {
    var P, D := Perspective(f, aspect, znear, zfar), zfar - znear;
    var vn, vf := Apply(P, Point(0.0, 0.0, -znear)), Apply(P, Point(0.0, 0.0, -zfar));
    PerspectiveClipCoordinates(f, aspect, znear, zfar, 0.0, 0.0, -znear);
    PerspectiveClipCoordinates(f, aspect, znear, zfar, 0.0, 0.0, -zfar);
    PerspectiveDepth(f, aspect, znear, zfar, znear);
    PerspectiveDepth(f, aspect, znear, zfar, zfar);
    assert vn[2] * D == -znear * D;
    CancelFactor(vn[2], -znear, D);
    assert vf[2] * D == zfar * D;
    CancelFactor(vf[2], zfar, D);
    assert vn[3] == znear && vf[3] == zfar;
    assert NdcDepth(vn) == -znear / znear;
    assert NdcDepth(vf) == zfar / zfar;
    assert zfar / zfar == 1.0;
  }

  /** Exactly the points between the near and far planes pass the depth clip test
      -w <= z <= w of clip space; a point at or behind the eye (d <= 0) never does. */
  lemma PerspectiveDepthClip(f: real, aspect: real, znear: real, zfar: real, d: real)
    requires aspect != 0.0 && 0.0 < znear < zfar
    ensures var v := Apply(Perspective(f, aspect, znear, zfar), Point(0.0, 0.0, -d));
            (-v[3] <= v[2] <= v[3]) <==> znear <= d <= zfar
  {
    var v, D := Apply(Perspective(f, aspect, znear, zfar), Point(0.0, 0.0, -d)), zfar - znear;
    PerspectiveClipCoordinates(f, aspect, znear, zfar, 0.0, 0.0, -d);
    PerspectiveDepth(f, aspect, znear, zfar, d);
    var z := v[2];
    assert v[3] == d;
    // z + d and d - z, each scaled by zfar - znear
    assert (z + d) * D == 2.0 * zfar * (d - znear);
    assert (d - z) * D == 2.0 * znear * (zfar - d);
    PositiveFactor(z + d, D);
    PositiveFactor(d - z, D);
    PositiveFactor(d - znear, 2.0 * zfar);
    PositiveFactor(zfar - d, 2.0 * znear);
  }
}
