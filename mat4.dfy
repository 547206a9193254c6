/** The 4x4 matrix representation of GLprimer's utilities: a flat array of 16
    numbers in column-major order, so that entry (row r, column c) is stored at
    index 4*c + r, the layout an OpenGL uniform upload expects when it is told
    not to transpose. Entries are real numbers; float rounding is not modelled. */
module Matrix4 {

  /** A matrix is exactly 16 entries; no operation resizes one. */
  type Mat4 = m: seq<real> | |m| == 16
    witness [0.0, 0.0, 0.0, 0.0, 0.0, 0.0, 0.0, 0.0, 0.0, 0.0, 0.0, 0.0, 0.0, 0.0, 0.0, 0.0]

  /** Entry (row r, column c) under the column-major convention. */
  function At(M: Mat4, r: nat, c: nat): real
    requires r < 4 && c < 4
  {
    M[4 * c + r]
  }

  /** The textbook definition of a product entry: the sum over k < n of A(r,k) * B(k,c). */
  function ProductSum(A: Mat4, B: Mat4, r: nat, c: nat, n: nat): real
    requires r < 4 && c < 4 && n <= 4
  {
    if n == 0 then 0.0 else ProductSum(A, B, r, c, n - 1) + At(A, r, n - 1) * At(B, n - 1, c)
  }

  /** The four-term sum written out; a helper for Mult's contract. */
  lemma {:induction false} ProductSumUnrolled(A: Mat4, B: Mat4, r: nat, c: nat)
    requires r < 4 && c < 4
    ensures ProductSum(A, B, r, c, 4)
         == At(A, r, 0) * At(B, 0, c) + At(A, r, 1) * At(B, 1, c)
          + At(A, r, 2) * At(B, 2, c) + At(A, r, 3) * At(B, 3, c)
  {
    assert ProductSum(A, B, r, c, 1) == At(A, r, 0) * At(B, 0, c);
    assert ProductSum(A, B, r, c, 2) == ProductSum(A, B, r, c, 1) + At(A, r, 1) * At(B, 1, c);
    assert ProductSum(A, B, r, c, 3) == ProductSum(A, B, r, c, 2) + At(A, r, 2) * At(B, 2, c);
  }

  /** mat4mult: the product M1 * M2, one hand-written sum per stored entry. */
  function Mult(M1: Mat4, M2: Mat4): Mat4
  {
    [
    M1[0] * M2[0] + M1[4] * M2[1] + M1[8] * M2[2] + M1[12] * M2[3],
    M1[1] * M2[0] + M1[5] * M2[1] + M1[9] * M2[2] + M1[13] * M2[3],
    M1[2] * M2[0] + M1[6] * M2[1] + M1[10] * M2[2] + M1[14] * M2[3],
    M1[3] * M2[0] + M1[7] * M2[1] + M1[11] * M2[2] + M1[15] * M2[3],
    M1[0] * M2[4] + M1[4] * M2[5] + M1[8] * M2[6] + M1[12] * M2[7],
    M1[1] * M2[4] + M1[5] * M2[5] + M1[9] * M2[6] + M1[13] * M2[7],
    M1[2] * M2[4] + M1[6] * M2[5] + M1[10] * M2[6] + M1[14] * M2[7],
    M1[3] * M2[4] + M1[7] * M2[5] + M1[11] * M2[6] + M1[15] * M2[7],
    M1[0] * M2[8] + M1[4] * M2[9] + M1[8] * M2[10] + M1[12] * M2[11],
    M1[1] * M2[8] + M1[5] * M2[9] + M1[9] * M2[10] + M1[13] * M2[11],
    M1[2] * M2[8] + M1[6] * M2[9] + M1[10] * M2[10] + M1[14] * M2[11],
    M1[3] * M2[8] + M1[7] * M2[9] + M1[11] * M2[10] + M1[15] * M2[11],
    M1[0] * M2[12] + M1[4] * M2[13] + M1[8] * M2[14] + M1[12] * M2[15],
    M1[1] * M2[12] + M1[5] * M2[13] + M1[9] * M2[14] + M1[13] * M2[15],
    M1[2] * M2[12] + M1[6] * M2[13] + M1[10] * M2[14] + M1[14] * M2[15],
    M1[3] * M2[12] + M1[7] * M2[13] + M1[11] * M2[14] + M1[15] * M2[15]
  ]
  }

  /** The unrolled mat4mult is exactly the column-major product: the entry at
      row r, column c is the sum over k of M1(r, k) * M2(k, c). */
  lemma MultIsProduct(M1: Mat4, M2: Mat4)
    ensures forall r: nat, c: nat | r < 4 && c < 4 :: At(Mult(M1, M2), r, c) == ProductSum(M1, M2, r, c, 4)
  {
    MultColumn0(M1, M2);
    MultColumn1(M1, M2);
    MultColumn2(M1, M2);
    MultColumn3(M1, M2);
  }

  lemma MultColumn0(M1: Mat4, M2: Mat4)
    ensures At(Mult(M1, M2), 0, 0) == ProductSum(M1, M2, 0, 0, 4)
    ensures At(Mult(M1, M2), 1, 0) == ProductSum(M1, M2, 1, 0, 4)
    ensures At(Mult(M1, M2), 2, 0) == ProductSum(M1, M2, 2, 0, 4)
    ensures At(Mult(M1, M2), 3, 0) == ProductSum(M1, M2, 3, 0, 4)
  {
    ProductSumUnrolled(M1, M2, 0, 0);
    ProductSumUnrolled(M1, M2, 1, 0);
    ProductSumUnrolled(M1, M2, 2, 0);
    ProductSumUnrolled(M1, M2, 3, 0);
  }

  lemma MultColumn1(M1: Mat4, M2: Mat4)
    ensures At(Mult(M1, M2), 0, 1) == ProductSum(M1, M2, 0, 1, 4)
    ensures At(Mult(M1, M2), 1, 1) == ProductSum(M1, M2, 1, 1, 4)
    ensures At(Mult(M1, M2), 2, 1) == ProductSum(M1, M2, 2, 1, 4)
    ensures At(Mult(M1, M2), 3, 1) == ProductSum(M1, M2, 3, 1, 4)
  {
    ProductSumUnrolled(M1, M2, 0, 1);
    ProductSumUnrolled(M1, M2, 1, 1);
    ProductSumUnrolled(M1, M2, 2, 1);
    ProductSumUnrolled(M1, M2, 3, 1);
  }

  lemma MultColumn2(M1: Mat4, M2: Mat4)
    ensures At(Mult(M1, M2), 0, 2) == ProductSum(M1, M2, 0, 2, 4)
    ensures At(Mult(M1, M2), 1, 2) == ProductSum(M1, M2, 1, 2, 4)
    ensures At(Mult(M1, M2), 2, 2) == ProductSum(M1, M2, 2, 2, 4)
    ensures At(Mult(M1, M2), 3, 2) == ProductSum(M1, M2, 3, 2, 4)
  {
    ProductSumUnrolled(M1, M2, 0, 2);
    ProductSumUnrolled(M1, M2, 1, 2);
    ProductSumUnrolled(M1, M2, 2, 2);
    ProductSumUnrolled(M1, M2, 3, 2);
  }

  lemma MultColumn3(M1: Mat4, M2: Mat4)
    ensures At(Mult(M1, M2), 0, 3) == ProductSum(M1, M2, 0, 3, 4)
    ensures At(Mult(M1, M2), 1, 3) == ProductSum(M1, M2, 1, 3, 4)
    ensures At(Mult(M1, M2), 2, 3) == ProductSum(M1, M2, 2, 3, 4)
    ensures At(Mult(M1, M2), 3, 3) == ProductSum(M1, M2, 3, 3, 4)
  {
    ProductSumUnrolled(M1, M2, 0, 3);
    ProductSumUnrolled(M1, M2, 1, 3);
    ProductSumUnrolled(M1, M2, 2, 3);
    ProductSumUnrolled(M1, M2, 3, 3);
  }

  /** mat4identity: ones on the diagonal (indices 0, 5, 10, 15), zeros elsewhere. */
  function Identity(): (id: Mat4)
    ensures forall r: nat, c: nat | r < 4 && c < 4 :: At(id, r, c) == if r == c then 1.0 else 0.0
  {
    [1.0, 0.0, 0.0, 0.0,
     0.0, 1.0, 0.0, 0.0,
     0.0, 0.0, 1.0, 0.0,
     0.0, 0.0, 0.0, 1.0]
  }

  /** The identity is a left unit of mat4mult. */
  lemma MultIdentityLeft(M: Mat4)
    ensures Mult(Identity(), M) == M
  {
  }

  /** The identity is a right unit of mat4mult. */
  lemma MultIdentityRight(M: Mat4)
    ensures Mult(M, Identity()) == M
  {
  }

  /** Sum over k < n of (A * B)(r, k) * C(k, c), where the entry (A * B)(r, k) is
      itself only summed over j < m: the product (A * B) * C grouped to the left. */
  function LeftGrouped(A: Mat4, B: Mat4, C: Mat4, r: nat, c: nat, n: nat, m: nat): real
    requires r < 4 && c < 4 && n <= 4 && m <= 4
  {
    if n == 0 then 0.0
    else LeftGrouped(A, B, C, r, c, n - 1, m) + ProductSum(A, B, r, n - 1, m) * At(C, n - 1, c)
  }

  /** Sum over j < m of A(r, j) * (B * C)(j, c), where the entry (B * C)(j, c) is
      only summed over k < n: the same product grouped to the right. */
  function RightGrouped(A: Mat4, B: Mat4, C: Mat4, r: nat, c: nat, n: nat, m: nat): real
    requires r < 4 && c < 4 && n <= 4 && m <= 4
  {
    if m == 0 then 0.0
    else RightGrouped(A, B, C, r, c, n, m - 1) + At(A, r, m - 1) * ProductSum(B, C, m - 1, c, n)
  }

  lemma {:induction false} LeftGroupedEmpty(A: Mat4, B: Mat4, C: Mat4, r: nat, c: nat, n: nat)
    requires r < 4 && c < 4 && n <= 4
    ensures LeftGrouped(A, B, C, r, c, n, 0) == 0.0
  {
    if n > 0 {
      LeftGroupedEmpty(A, B, C, r, c, n - 1);
    }
  }

  /** Widening every inner sum by the term j = m adds A(r, m) * (B * C)(m, c) to the outer sum. */
  lemma {:induction false} LeftGroupedStep(A: Mat4, B: Mat4, C: Mat4, r: nat, c: nat, n: nat, m: nat)
    requires r < 4 && c < 4 && n <= 4 && m < 4
    ensures LeftGrouped(A, B, C, r, c, n, m + 1)
         == LeftGrouped(A, B, C, r, c, n, m) + At(A, r, m) * ProductSum(B, C, m, c, n)
  {
    if n > 0 {
      LeftGroupedStep(A, B, C, r, c, n - 1, m);
      var a, b, x, y := At(A, r, m), At(B, m, n - 1), ProductSum(A, B, r, n - 1, m), At(C, n - 1, c);
      assert (x + a * b) * y == x * y + a * (b * y);
      assert a * (ProductSum(B, C, m, c, n - 1) + b * y) == a * ProductSum(B, C, m, c, n - 1) + a * (b * y);
    }
  }

  /** Both groupings of the triple sum agree. */
  lemma {:induction false} GroupingsAgree(A: Mat4, B: Mat4, C: Mat4, r: nat, c: nat, n: nat, m: nat)
    requires r < 4 && c < 4 && n <= 4 && m <= 4
    ensures LeftGrouped(A, B, C, r, c, n, m) == RightGrouped(A, B, C, r, c, n, m)
  {
    if m == 0 {
      LeftGroupedEmpty(A, B, C, r, c, n);
    } else {
      GroupingsAgree(A, B, C, r, c, n, m - 1);
      LeftGroupedStep(A, B, C, r, c, n, m - 1);
    }
  }

  /** P holds the product A * B, entry by entry. */
  ghost predicate IsProduct(P: Mat4, A: Mat4, B: Mat4)
  {
    forall r: nat, c: nat | r < 4 && c < 4 :: At(P, r, c) == ProductSum(A, B, r, c, 4)
  }

  lemma {:induction false} LeftGroupedIsProduct(AB: Mat4, A: Mat4, B: Mat4, C: Mat4, r: nat, c: nat, n: nat)
    requires r < 4 && c < 4 && n <= 4 && IsProduct(AB, A, B)
    ensures ProductSum(AB, C, r, c, n) == LeftGrouped(A, B, C, r, c, n, 4)
  {
    if n > 0 {
      LeftGroupedIsProduct(AB, A, B, C, r, c, n - 1);
    }
  }

  lemma {:induction false} RightGroupedIsProduct(BC: Mat4, A: Mat4, B: Mat4, C: Mat4, r: nat, c: nat, m: nat)
    requires r < 4 && c < 4 && m <= 4 && IsProduct(BC, B, C)
    ensures ProductSum(A, BC, r, c, m) == RightGrouped(A, B, C, r, c, 4, m)
  {
    if m > 0 {
      RightGroupedIsProduct(BC, A, B, C, r, c, m - 1);
    }
  }

  /** Any two matrices holding (A * B) * C and A * (B * C) are equal. */
  lemma ProductAssociative(A: Mat4, B: Mat4, C: Mat4, AB: Mat4, BC: Mat4, L: Mat4, R: Mat4)
    requires IsProduct(AB, A, B) && IsProduct(BC, B, C)
    requires IsProduct(L, AB, C) && IsProduct(R, A, BC)
    ensures L == R
  {
    forall r: nat, c: nat | r < 4 && c < 4
      ensures At(L, r, c) == At(R, r, c)
    {
      LeftGroupedIsProduct(AB, A, B, C, r, c, 4);
      RightGroupedIsProduct(BC, A, B, C, r, c, 4);
      GroupingsAgree(A, B, C, r, c, 4, 4);
    }
    forall i | 0 <= i < 16
      ensures L[i] == R[i]
    {
      assert L[i] == At(L, i % 4, i / 4);
    }
  }

  /** mat4mult is associative, so a chain of transforms may be grouped either way. */
  lemma MultAssociative(A: Mat4, B: Mat4, C: Mat4)
    ensures Mult(Mult(A, B), C) == Mult(A, Mult(B, C))
  {
    MultIsProduct(A, B);
    MultIsProduct(B, C);
    MultIsProduct(Mult(A, B), C);
    MultIsProduct(A, Mult(B, C));
    ProductAssociative(A, B, C, Mult(A, B), Mult(B, C), Mult(Mult(A, B), C), Mult(A, Mult(B, C)));
  }

  /** A homogeneous coordinate vector (x, y, z, w): w = 1 for a point, w = 0 for a direction. */
  type Vec4 = v: seq<real> | |v| == 4 witness [0.0, 0.0, 0.0, 0.0]

  function Point(x: real, y: real, z: real): Vec4
  {
    [x, y, z, 1.0]
  }

  /** M applied to the column vector v, as a vertex shader computes M * v. */
  function Apply(M: Mat4, v: Vec4): Vec4
  {
    [At(M, 0, 0) * v[0] + At(M, 0, 1) * v[1] + At(M, 0, 2) * v[2] + At(M, 0, 3) * v[3],
     At(M, 1, 0) * v[0] + At(M, 1, 1) * v[1] + At(M, 1, 2) * v[2] + At(M, 1, 3) * v[3],
     At(M, 2, 0) * v[0] + At(M, 2, 1) * v[1] + At(M, 2, 2) * v[2] + At(M, 2, 3) * v[3],
     At(M, 3, 0) * v[0] + At(M, 3, 1) * v[1] + At(M, 3, 2) * v[2] + At(M, 3, 3) * v[3]]
  }

  /** The matrix whose first column is v and whose other entries are zero. */
  function ColumnMatrix(v: Vec4): Mat4
  {
    v + [0.0, 0.0, 0.0, 0.0, 0.0, 0.0, 0.0, 0.0, 0.0, 0.0, 0.0, 0.0]
  }

  /** Applying M to v is the first column of M times ColumnMatrix(v). */
  lemma ApplyIsProduct(M: Mat4, v: Vec4, r: nat)
    requires r < 4
    ensures Apply(M, v)[r] == ProductSum(M, ColumnMatrix(v), r, 0, 4)
  {
    ProductSumUnrolled(M, ColumnMatrix(v), r, 0);
  }

  /** Product sums only read column c of the right factor. */
  lemma {:induction false} ProductSumColumn(A: Mat4, X: Mat4, Y: Mat4, r: nat, c: nat, n: nat)
    requires r < 4 && c < 4 && n <= 4
    requires forall k: nat | k < 4 :: At(X, k, c) == At(Y, k, c)
    ensures ProductSum(A, X, r, c, n) == ProductSum(A, Y, r, c, n)
  {
    if n > 0 {
      ProductSumColumn(A, X, Y, r, c, n - 1);
    }
  }

  /** Composition order: the product A * B acts on a vector by applying B first,
      then A. The rightmost factor of a chain is the first transform applied. */
  lemma ApplyMult(A: Mat4, B: Mat4, v: Vec4)
    ensures Apply(Mult(A, B), v) == Apply(A, Apply(B, v))
  {
    var V, u := ColumnMatrix(v), Apply(B, v);
    MultIsProduct(A, B);
    MultIsProduct(B, V);
    MultIsProduct(Mult(A, B), V);
    MultIsProduct(A, Mult(B, V));
    ProductAssociative(A, B, V, Mult(A, B), Mult(B, V), Mult(Mult(A, B), V), Mult(A, Mult(B, V)));
    forall k: nat | k < 4
      ensures At(Mult(B, V), k, 0) == At(ColumnMatrix(u), k, 0)
    {
      ApplyIsProduct(B, v, k);
    }
    forall r: nat | r < 4
      ensures Apply(Mult(A, B), v)[r] == Apply(A, u)[r]
    {
      ApplyIsProduct(Mult(A, B), v, r);
      ProductSumColumn(A, Mult(B, V), ColumnMatrix(u), r, 0, 4);
      ApplyIsProduct(A, u, r);
    }
  }

  /** Two matrices with the same 16 entries are equal. */
  lemma SameEntries(A: Mat4, B: Mat4)
    requires A[0] == B[0] && A[1] == B[1] && A[2] == B[2] && A[3] == B[3]
    requires A[4] == B[4] && A[5] == B[5] && A[6] == B[6] && A[7] == B[7]
    requires A[8] == B[8] && A[9] == B[9] && A[10] == B[10] && A[11] == B[11]
    requires A[12] == B[12] && A[13] == B[13] && A[14] == B[14] && A[15] == B[15]
    ensures A == B
  {
    assert forall i | 0 <= i < 16 :: A[i] == B[i];
  }

  /** Two vectors with the same 4 components are equal. */
  lemma SameComponents(u: Vec4, v: Vec4)
    requires u[0] == v[0] && u[1] == v[1] && u[2] == v[2] && u[3] == v[3]
    ensures u == v
  {
    assert forall i | 0 <= i < 4 :: u[i] == v[i];
  }

  /** The transpose: entry (r, c) of the result is entry (c, r) of M. */
  function Transpose(M: Mat4): (t: Mat4)
    ensures forall r: nat, c: nat | r < 4 && c < 4 :: At(t, r, c) == At(M, c, r)
  {
    [M[0], M[4], M[8], M[12],
     M[1], M[5], M[9], M[13],
     M[2], M[6], M[10], M[14],
     M[3], M[7], M[11], M[15]]
  }

  /** The determinant of a 3x3 matrix given row by row. */
  function Det3(a: real, b: real, c: real,
                d: real, e: real, f: real,
                g: real, h: real, i: real): real
  {
    a * (e * i - f * h) - b * (d * i - f * g) + c * (d * h - e * g)
  }

  /** The determinant of M, by cofactor expansion along the bottom row. */
  function Det(M: Mat4): real
  {
    - At(M, 3, 0) * Det3(At(M, 0, 1), At(M, 0, 2), At(M, 0, 3),
                         At(M, 1, 1), At(M, 1, 2), At(M, 1, 3),
                         At(M, 2, 1), At(M, 2, 2), At(M, 2, 3))
    + At(M, 3, 1) * Det3(At(M, 0, 0), At(M, 0, 2), At(M, 0, 3),
                         At(M, 1, 0), At(M, 1, 2), At(M, 1, 3),
                         At(M, 2, 0), At(M, 2, 2), At(M, 2, 3))
    - At(M, 3, 2) * Det3(At(M, 0, 0), At(M, 0, 1), At(M, 0, 3),
                         At(M, 1, 0), At(M, 1, 1), At(M, 1, 3),
                         At(M, 2, 0), At(M, 2, 1), At(M, 2, 3))
    + At(M, 3, 3) * Det3(At(M, 0, 0), At(M, 0, 1), At(M, 0, 2),
                         At(M, 1, 0), At(M, 1, 1), At(M, 1, 2),
                         At(M, 2, 0), At(M, 2, 1), At(M, 2, 2))
  }

  /** mat4print's reading order: it prints row r as M[r], M[r+4], M[r+8], M[r+12],
      so the rows it shows are the matrix's rows, not its storage columns. */
  function PrintedRows(M: Mat4): (rows: seq<seq<real>>)
    ensures |rows| == 4
    ensures forall r :: 0 <= r < 4 ==> |rows[r]| == 4
    ensures forall r: nat, c: nat | r < 4 && c < 4 :: rows[r][c] == At(M, r, c)
  {
    [[M[0], M[4], M[8], M[12]],
     [M[1], M[5], M[9], M[13]],
     [M[2], M[6], M[10], M[14]],
     [M[3], M[7], M[11], M[15]]]
  }
}
