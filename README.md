# GLprimer matrix utilities and frame counter, in Dafny

This project models the utility core of GLprimer, the teaching scaffold of the
TNM046 computer-graphics course. It covers two parts.

- **The 4x4 matrix library** (`GLprimer/Utilities.cpp`): `mat4mult`, `mat4identity`,
  `mat4rotx`, `mat4roty`, `mat4rotz`, `mat4scale`, `mat4translate` and `mat4perspective`.
  - A matrix is a flat array of 16 numbers in column-major order: entry (row r, column c)
    sits at index 4c + r. That is the layout `glUniformMatrix4fv` reads when it is called
    with `transpose = GL_FALSE`, as the render loop does.
  - Every function takes values and returns a fresh matrix.
- **How the render loop uses the library** (`GLprimer/GLprimer.cpp`). Each frame it builds
  `mat4mult(mat4translate(0.1, 0.1, 0), mat4roty(time * pi))`. The rightmost factor acts
  on a vertex first.
- **`displayFPS`**. Once per frame it counts the frame. Once a measuring window has lasted
  a second, it recomputes the frame rate and writes the time per frame and the rate into
  the window title.

## Modules

- `mat4.dfy`, module `Matrix4`:
  - the column-major `Mat4` type;
  - `Mult`, the unrolled `mat4mult`, proved equal to the textbook product sum. Its
    associativity and the identity laws are proved too;
  - `Apply`: a matrix applied to a homogeneous vector, with `ApplyMult` (the product acts
    right factor first);
  - `Transpose`, a cofactor `Det`, and the row order `mat4print` shows.
- `transforms.dfy`, module `Transforms`: the elementary transforms and their geometric
  properties.
  - The source computes `cos(angle)` and `sin(angle)`. Here the pair `(c, s)` is the
    parameter, and lemmas that need a genuine angle require `c*c + s*s == 1`.
  - `mat4perspective` computes `f = 1/tan(vfov/2)`. Here `f` is the parameter.
- `render_loop.dfy`, module `RenderLoop`: the per-frame model matrix, and the order in
  which its factors act.
- `frame_counter.dfy`, module `FrameCounter`:
  - `Tick`, a pure specification of one `displayFPS` call over the three static variables;
  - `FpsCounter`, a class whose fields are those statics. Its `Step` method mirrors the C++
    body and is proved to compute exactly `Tick`;
  - lemmas about runs of calls. The clock reading is a parameter. The title is returned as
    the two numbers it would show.

## Model

| member | source | states |
|---|---|---|
| `Matrix4.Mult` | GLprimer/Utilities.cpp:75-102 | mat4mult, the 16 unrolled entry sums index for index; its contract is carried by `Matrix4.MultIsProduct` (every entry is the column-major product sum) |
| `Matrix4.ProductSumUnrolled` | GLprimer/Utilities.cpp:78-99 | the sum over k < 4 of A(r,k)·B(k,c) is the four-term expression each line of mat4mult writes out |
| `Matrix4.MultIsProduct` | GLprimer/Utilities.cpp:75-102 | every entry (r, c) of mat4mult(M1, M2), read column-major, is the sum over k of M1(r,k)·M2(k,c) |
| `Matrix4.MultColumn0` | GLprimer/Utilities.cpp:78-99 | the four entries of result column 0 (Mres[0..3]) are the product sums |
| `Matrix4.MultColumn1` | GLprimer/Utilities.cpp:78-99 | the four entries of result column 1 (Mres[4..7]) are the product sums |
| `Matrix4.MultColumn2` | GLprimer/Utilities.cpp:78-99 | the four entries of result column 2 (Mres[8..11]) are the product sums |
| `Matrix4.MultColumn3` | GLprimer/Utilities.cpp:78-99 | the four entries of result column 3 (Mres[12..15]) are the product sums |
| `Matrix4.Identity` | GLprimer/Utilities.cpp:104-114 | mat4identity has 1 exactly on the diagonal (indices 0, 5, 10, 15) and 0 elsewhere |
| `Matrix4.MultIdentityLeft` | GLprimer/Utilities.cpp:75-114 | mat4mult(identity, M) == M |
| `Matrix4.MultIdentityRight` | GLprimer/Utilities.cpp:75-114 | mat4mult(M, identity) == M |
| `Matrix4.LeftGroupedEmpty` | GLprimer/Utilities.cpp:75-102 | the triple sum of (A·B)·C is 0 when the inner sums are empty |
| `Matrix4.LeftGroupedStep` | GLprimer/Utilities.cpp:75-102 | widening every inner sum of (A·B)·C by the term j = m adds A(r,m)·(B·C)(m,c) |
| `Matrix4.GroupingsAgree` | GLprimer/Utilities.cpp:75-102 | the triple sums of (A·B)·C and A·(B·C) are equal for all bounds |
| `Matrix4.LeftGroupedIsProduct` | GLprimer/Utilities.cpp:75-102 | an entry of (A·B)·C is the left-grouped triple sum |
| `Matrix4.RightGroupedIsProduct` | GLprimer/Utilities.cpp:75-102 | an entry of A·(B·C) is the right-grouped triple sum |
| `Matrix4.ProductAssociative` | GLprimer/Utilities.cpp:75-102 | any matrices holding (A·B)·C and A·(B·C) are equal |
| `Matrix4.MultAssociative` | GLprimer/Utilities.cpp:75-102 | mat4mult(mat4mult(A, B), C) == mat4mult(A, mat4mult(B, C)) |
| `Matrix4.ApplyIsProduct` | GLprimer/Utilities.cpp:75-102 | M applied to v is the first column of M times the matrix holding v in its first column |
| `Matrix4.ProductSumColumn` | GLprimer/Utilities.cpp:75-102 | a product entry in column c depends only on column c of the right factor |
| `Matrix4.ApplyMult` | GLprimer/Utilities.cpp:75-102 | mat4mult(A, B) applied to v equals A applied to (B applied to v): the right factor acts first |
| `Matrix4.PrintedRows` | GLprimer/Utilities.cpp:117-124 | mat4print's line r shows M[r], M[r+4], M[r+8], M[r+12], which is row r of the matrix |
| `Transforms.RotX` | GLprimer/Utilities.cpp:126-134 | mat4rotx leaves row and column 0 (the x axis) and row and column 3 as the identity's |
| `Transforms.RotY` | GLprimer/Utilities.cpp:136-145 | mat4roty as written leaves row and column 1 (the y axis) and row and column 3 as the identity's |
| `Transforms.RotYRightHanded` | GLprimer/Utilities.cpp:136-145 | the corrected y rotation leaves the y axis and row and column 3 as the identity's |
| `Transforms.RotZ` | GLprimer/Utilities.cpp:146-155 | mat4rotz leaves row and column 2 (the z axis) and row and column 3 as the identity's |
| `Transforms.RotXTurnsYTowardsZ` | GLprimer/Utilities.cpp:126-134 | mat4rotx sends y to (0, c, s) and z to (0, -s, c): counter-clockwise about x |
| `Transforms.RotZTurnsXTowardsY` | GLprimer/Utilities.cpp:146-155 | mat4rotz sends x to (c, s, 0) and y to (-s, c, 0): counter-clockwise about z |
| `Transforms.RotYRightHandedTurnsZTowardsX` | GLprimer/Utilities.cpp:136-145 | the corrected rotation sends z to (s, 0, c) and x to (c, 0, -s): counter-clockwise about y |
| `Transforms.RotYIsOppositeAngle` | GLprimer/Utilities.cpp:136-145 | mat4roty(c, s) is the right-handed rotation by the opposite angle (its transpose) and sends z to (-s, 0, c) |
| `Transforms.RotYQuarterTurnDisagrees` | GLprimer/Utilities.cpp:136-145 | at a quarter turn mat4roty sends z to -x, where the right-handed rotation sends it to +x |
| `Transforms.RotationTransposes` | GLprimer/Utilities.cpp:126-155 | the transpose of each rotation is the rotation by the opposite angle |
| `Transforms.RotXCompose` | GLprimer/Utilities.cpp:126-134 | the product of two x rotations is the x rotation by the summed angle |
| `Transforms.RotYCompose` | GLprimer/Utilities.cpp:136-145 | the product of two mat4roty matrices is mat4roty of the summed angle |
| `Transforms.RotYRightHandedCompose` | GLprimer/Utilities.cpp:136-145 | the product of two corrected y rotations is the corrected rotation by the summed angle |
| `Transforms.RotZCompose` | GLprimer/Utilities.cpp:146-155 | the product of two z rotations is the z rotation by the summed angle |
| `Transforms.RotZPeriodic` | GLprimer/Utilities.cpp:146-155 | a zero angle (or a full turn) gives the identity, and two half-turns about z compose to the identity |
| `Transforms.RotXOrthogonal` | GLprimer/Utilities.cpp:126-134 | for a unit (c, s), mat4rotx times its transpose is the identity |
| `Transforms.RotYOrthogonal` | GLprimer/Utilities.cpp:136-145 | for a unit (c, s), mat4roty times its transpose is the identity |
| `Transforms.RotYRightHandedOrthogonal` | GLprimer/Utilities.cpp:136-145 | for a unit (c, s), the corrected y rotation times its transpose is the identity |
| `Transforms.RotZOrthogonal` | GLprimer/Utilities.cpp:146-155 | for a unit (c, s), mat4rotz times its transpose is the identity |
| `Transforms.RotationDeterminants` | GLprimer/Utilities.cpp:126-155 | for a unit (c, s), every rotation has determinant 1 (a proper rotation) |
| `Transforms.Scale` | GLprimer/Utilities.cpp:157-166 | mat4scale is diagonal, leaves z and w (rows and columns 2 and 3) alone |
| `Transforms.ScalePoint` | GLprimer/Utilities.cpp:157-166 | mat4scale(k) sends the point (x, y, z) to (k·x, k·y, z): z is not scaled |
| `Transforms.ScaleCompose` | GLprimer/Utilities.cpp:157-166 | scales compose by multiplying factors, and mat4scale(1) is the identity |
| `Transforms.ScaleDeterminant` | GLprimer/Utilities.cpp:157-166 | the determinant of mat4scale(k) is k·k, not k·k·k |
| `Transforms.Translate` | GLprimer/Utilities.cpp:168-177 | mat4translate holds x, y, z at indices 12, 13, 14; its first three columns and entry (3,3) are the identity's |
| `Transforms.TranslatePoint` | GLprimer/Utilities.cpp:168-177 | a translated point (px, py, pz, 1) becomes (px+x, py+y, pz+z, 1) |
| `Transforms.TranslateDirection` | GLprimer/Utilities.cpp:168-177 | a direction (w = 0) is unchanged by a translation |
| `Transforms.TranslateCompose` | GLprimer/Utilities.cpp:168-177 | translations compose by adding offsets, and the opposite offset gives back the identity |
| `Transforms.Perspective` | GLprimer/Utilities.cpp:178-192 | entries: f/aspect at (0,0), f at (1,1), -(zfar+znear)/(zfar-znear) at (2,2), -2·znear·zfar/(zfar-znear) at (2,3), -1 at (3,2), 0 at (3,3) and elsewhere |
| `Transforms.PerspectiveClipCoordinates` | GLprimer/Utilities.cpp:178-192 | clip w of a projected point is -z; x is scaled by f/aspect and y by f |
| `Transforms.PerspectiveDepth` | GLprimer/Utilities.cpp:178-192 | clip z of the point at distance d, times zfar-znear, is d·(zfar+znear) - 2·znear·zfar |
| `Transforms.PerspectiveNearFar` | GLprimer/Utilities.cpp:178-192 | with 0 < znear < zfar, z = -znear maps to depth -1 and z = -zfar to depth +1 |
| `Transforms.PerspectiveDepthClip` | GLprimer/Utilities.cpp:178-192 | a point at distance d passes the clip test -w ≤ z ≤ w if and only if znear ≤ d ≤ zfar; no point at or behind the eye passes |
| `RenderLoop.ModelMatrix` | GLprimer/GLprimer.cpp:224-228 | matRes = mat4mult(mat4translate(0.1, 0.1, 0), mat4roty(angle)); its contract is carried by `RenderLoop.ModelMatrixRotatesThenTranslates`, `RenderLoop.ModelMatrixPoint`, `RenderLoop.ModelMatrixLayout` and `RenderLoop.ModelMatrixSpinsClockwise` |
| `RenderLoop.ModelMatrixRotatesThenTranslates` | GLprimer/GLprimer.cpp:224-228 | matRes applied to a vertex is the translation applied to the rotated vertex |
| `RenderLoop.ModelMatrixPoint` | GLprimer/GLprimer.cpp:224-228 | matRes sends (x, y, z) to (c·x - s·z + 0.1, y + 0.1, s·x + c·z) |
| `RenderLoop.ModelMatrixLayout` | GLprimer/GLprimer.cpp:224-228 | matRes keeps mat4roty's first three columns and holds (0.1, 0.1, 0, 1) in its last column |
| `RenderLoop.ModelMatrixSpinsClockwise` | GLprimer/GLprimer.cpp:224-228 | matRes equals the translation times the right-handed y rotation by the opposite angle |
| `RenderLoop.CompositionOrderMatters` | GLprimer/GLprimer.cpp:228 | with T = translate(1,0,0) and R = a quarter turn about z, T·R sends (1,0,0) to (1,1,0) and R·T sends it to (0,2,0), so T·R ≠ R·T |
| `FrameCounter.FrameTime` | GLprimer/Utilities.cpp:36 | the time per frame is never negative, and it is positive exactly when a rate has been measured |
| `FrameCounter.FrameTimeIsReciprocal` | GLprimer/Utilities.cpp:36 | for a positive rate, frametime·fps == 1000 |
| `FrameCounter.Tick` | GLprimer/Utilities.cpp:17-43 | the returned rate is the stored fps after the call; the title is rewritten iff a window closed or no frame has been counted; it shows FrameTime(fps) and fps |
| `FrameCounter.TickRollsOver` | GLprimer/Utilities.cpp:26-30 | when t - t0 ≥ 1: rate·(t - t0) == frames, the window restarts at t, frames == 1 afterwards, the title is rewritten |
| `FrameCounter.TickWithinWindow` | GLprimer/Utilities.cpp:26-42 | when t - t0 < 1: only frames grows by one, and the stored rate is returned |
| `FrameCounter.FirstTickReportsZero` | GLprimer/Utilities.cpp:18-42 | the first call returns 0 and writes a title showing 0 ms and 0 FPS |
| `FrameCounter.TickKeepsValid` | GLprimer/Utilities.cpp:17-43 | a non-negative count and rate stay so; frames ≥ 1 after every call; the title's time is never negative |
| `FrameCounter.WindowCount` | GLprimer/Utilities.cpp:26-42 | calls inside the window add one frame each and change nothing else |
| `FrameCounter.WindowEnds` | GLprimer/Utilities.cpp:26-30 | closing a window whose count grew by n gives rate·(t - t0) == frames + n |
| `FrameCounter.FpsIsFramesPerWindow` | GLprimer/Utilities.cpp:17-43 | the rate reported when a window closes is the number of calls made in it, divided by its length |
| `FrameCounter.FpsCounter.constructor` | GLprimer/Utilities.cpp:18-21 | the statics start as frames 0, fps 0, t0 the first clock reading |
| `FrameCounter.FpsCounter.Step` | GLprimer/Utilities.cpp:17-43 | one call updates the three fields, returns the rate and the title exactly as `Tick` specifies |

## Left out

- `createVertexBuffer` and `createIndexBuffer` (`Utilities.cpp`) are OpenGL buffer uploads and are not part of this model.
- Only `mat4print`'s reading order is modelled (`PrintedRows`). The `printf` output and its `%6.2f` formatting are left out.
- `displayFPS`'s `snprintf` title text and `glfwSetWindowTitle` are left out. The title is modelled as the two numbers it shows.
- The clock (`glfwGetTime`) is left out. Its readings are parameters.
- All arithmetic is exact over the reals. Rounding of `float`/`double`, NaN and infinities are not modelled. Where the source divides (`f/aspect`, `/(zfar-znear)`, `frames/(t - t0)`), the model requires a non-zero divisor or stays on the branch where it is one.
- `cos`, `sin` and `tan` are not modelled. A rotation takes the pair (cos, sin) of its angle, and a perspective takes `f = 1/tan(vfov/2)` directly.
  - So `vfov = 0` (mod 2·pi), where `tan(vfov/2)` vanishes and `f` is infinite, is outside the model. Every other `vfov` gives a real `f`, and `Perspective` accepts it without requiring `f > 0` (`vfov = pi` gives `f = 0`, a negative `vfov` gives `f < 0`).
  - Lemmas that need a genuine angle require `c*c + s*s == 1`.
- `frames` is a C `int`. Overflow would take 2^31 calls inside one second, and it is not modelled.
- `mat4perspective` documents `znear > 0` and `zfar > znear` but does not check them. `Transforms.Perspective` requires only what its divisions need. The depth lemmas assume the documented range.
- The upload of matrices with `glUniformMatrix4fv(..., GL_FALSE, ...)` and the shaders that consume them are not modelled. That the flat layout is column-major, as that call expects, is the convention of `Matrix4.At`.
- `displayFPS` keeps its counter in function-local statics, shared by every caller. The model gives each `FpsCounter` object its own, which matches the single-window use the header requires.

## Findings

| source | as written | input that shows it | evidently intended | confidence | as-written member | corrected member |
|---|---|---|---|---|---|---|
| GLprimer/Utilities.cpp:136-145 | `mat4roty` stores `sin` at index 2 and `-sin` at index 8. Read column-major, that is the transpose of the right-handed y rotation, so it turns clockwise for a positive angle. `mat4rotx` and `mat4rotz` turn counter-clockwise. | angle = pi/2 (c = 0, s = 1): z = (0,0,1) is sent to (-1,0,0); a right-handed rotation sends it to (1,0,0) | the right-handed rotation, counter-clockwise for a positive angle like the other two: `-sin` at index 2 and `sin` at index 8 | medium, not executed | `Transforms.RotYQuarterTurnDisagrees` | `Transforms.RotYRightHandedTurnsZTowardsX` |

Both y rotations are orthogonal with determinant 1 (`Transforms.RotYOrthogonal`, `Transforms.RotYRightHandedOrthogonal`, `Transforms.RotationDeterminants`), so the slip does not distort the object; it only reverses the direction it spins. The render loop model keeps the as-written `mat4roty`, because that is what `GLprimer.cpp` calls. `RenderLoop.ModelMatrixSpinsClockwise` restates the per-frame matrix in terms of the corrected rotation by the opposite angle.
