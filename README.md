# Camera example of the LearnOpenGL tutorials, modelled in Dafny

The tutorial programs are almost entirely OpenGL plumbing. This project models
the three pieces of the camera example that hold logic of their own:

- **The capped cylinder mesh** built inside `main` of `camera_class.cpp`
  (module `Cylinder`, `cylinder.dfy`). One loop pushes two vertices per step
  round the circle, upper then lower. Three more loops push the index buffer:
  a band of 2n side triangles, an upper-cap fan over even vertices and a
  lower-cap fan over odd vertices. The loops are methods over sequences,
  parameterised by the number of steps n. Each is proved against a reference
  layout (`VertexAt`, `MeshTriangle`). Lemmas then give the counts, the bounds
  and the parity of the triangles. `CameraCylinder` is the n = 16 instance
  that `main` builds.
- **The mouse and scroll callbacks** and the globals they update: `fov`,
  `yaw`, `pitch`, `lastX`, `lastY` and `firstMouse` (module `CameraInput`,
  `camera_input.dfy`). The globals are the fields of a `CameraState` object.
  Each callback is a method, proved equal to a pure step function
  (`MouseStep`, `ScrolledFov`). The clamping and offset properties are stated
  about those functions, including what a run of mouse events does to `yaw`.
- **The `Transform` class of `transform.h`** (module `Transforms`,
  `transform.dfy`). It has four matrices `T`, `R`, `Sh`, `S` and a `pivot`.
  There are two constructors, and three getters that are functions of the
  object's fields, so they cannot change any field. The matrix algebra they
  need is in module `Glm` (`glm.dfy`): 4x4 matrices stored by column as glm
  stores them, the identity, the product, and `glm::translate` computed as
  glm computes it, proved equal to its documented meaning (`m` times the
  translation matrix of `v`).

All arithmetic is over `real`; float rounding is not modelled.

What the model shows about `GetMatrix`: the first two factors,
`translate(T, -pivot) * translate(I, pivot)`, cancel to `T`. The model matrix
is therefore `T * R * Translation(-pivot) * Sh * S`. With no shear or scale,
and a rotation that keeps the origin, the pivot point is carried to `T`'s
translation, not to translation plus pivot. A reading of "rotation about the
pivot" as `T * Translation(pivot) * R * Translation(-pivot)` would send the
pivot to translation plus pivot instead. The model follows the code
(`PivotLandsAtTranslation`).

Two further observations on `camera_class.cpp`:

- The two callbacks are never registered: the `glfwSetCursorPosCallback` and
  `glfwSetScrollCallback` calls at camera_class.cpp:85-86 are commented out.
  As the program stands, `fov`, `yaw` and `pitch` keep their initial values.
  The model describes what the callbacks would do once registered.
- The comment at camera_class.cpp:253 gives the vertex buffer's length as
  `3 * NUM_VERTICES_CIRCLE`. The loop pushes two vertices per step, so the
  length is `6 * NUM_VERTICES_CIRCLE` (`CylinderVertices`: `6n`; 96 floats
  for `CameraCylinder`). The model follows the loop.

## Model

| member | source | states |
|---|---|---|
| `Glm.TranslateIsProduct` | src/1.getting_started/7.4.camera_class/transform.h:36 | `glm::translate(m, v)`, computed column-wise as glm does, equals `m` times the translation matrix of `v` |
| `Glm.TranslateTwice` | src/1.getting_started/7.4.camera_class/transform.h:36 | translating by `a` and then by `b` is translating by `a + b` |
| `Glm.TranslateCancels` | src/1.getting_started/7.4.camera_class/transform.h:36 | translating by `-v` and then by `v` (or the other way round) gives the matrix back |
| `Glm.TranslationInverse` | src/1.getting_started/7.4.camera_class/transform.h:36 | `Translation(-v) * Translation(v)` and `Translation(v) * Translation(-v)` are both the identity |
| `Glm.TranslationMovesOrigin` | src/1.getting_started/7.4.camera_class/transform.h:36 | the translation matrix of `v` carries the origin to the point `v` |
| `Transforms.Transform.constructor` | src/1.getting_started/7.4.camera_class/transform.h:18-24 | `T`, `R`, `Sh`, `S` start as the identity and `pivot` as the zero vector |
| `Transforms.Transform.FromParts` | src/1.getting_started/7.4.camera_class/transform.h:26-32 | the five arguments are stored unchanged in `T`, `R`, `Sh`, `S`, `pivot` |
| `Transforms.Transform.GetMatrix` | src/1.getting_started/7.4.camera_class/transform.h:35-37 | the header's six-factor product equals `T * R * Translation(-pivot) * Sh * S` |
| `Transforms.Transform.GetRawTranslation` | src/1.getting_started/7.4.camera_class/transform.h:39-41 | the result is `T` as stored; translating it by `-pivot` gives `GetTranslation()` |
| `Transforms.Transform.GetTranslation` | src/1.getting_started/7.4.camera_class/transform.h:42-44 | the result is `T * Translation(-pivot)` |
| `Transforms.PivotFactorsCancel` | src/1.getting_started/7.4.camera_class/transform.h:36 | `translate(T, -p) * translate(I, p)` is `T`; `translate(I, v)` is the translation matrix of `v` |
| `Transforms.GetMatrixFromTranslation` | src/1.getting_started/7.4.camera_class/transform.h:35-44 | `GetMatrix()` equals `GetTranslation() * Translation(pivot) * R * Translation(-pivot) * Sh * S` |
| `Transforms.RawAndPivotedTranslation` | src/1.getting_started/7.4.camera_class/transform.h:39-44 | `GetRawTranslation()` is `T` exactly; `GetTranslation()` is it translated by `-pivot`; translating that back by `pivot` gives the raw one |
| `Transforms.ZeroPivot` | src/1.getting_started/7.4.camera_class/transform.h:35-44 | with `pivot` zero, `GetMatrix()` is `T * R * Sh * S` and the two translation getters agree |
| `Transforms.DefaultIsIdentity` | src/1.getting_started/7.4.camera_class/transform.h:18-37 | with the default constructor's fields, `GetMatrix()` and `GetTranslation()` are the identity |
| `Transforms.PivotLandsAtTranslation` | src/1.getting_started/7.4.camera_class/transform.h:35-37 | with identity `Sh` and `S` and a rotation fixing the origin, `GetMatrix()` carries the pivot point to `T`'s translation column, whatever the rotation |
| `Cylinder.CylinderVertices` | src/1.getting_started/7.4.camera_class/camera_class.cpp:203-220 | the buffer gets 6 floats per step, `6n` in all; vertex `2i` is `(x_i, y_i, height/2)` on the upper circle and vertex `2i+1` is `(x_i, y_i, -height/2)` below it |
| `Cylinder.CylinderIndices` | src/1.getting_started/7.4.camera_class/camera_class.cpp:222-251 | the buffer holds exactly the reference triangles: side triangle `t < 2n` is `(t, (t+1) mod 2n, (t+2) mod 2n)`, then the upper fan `(0, 2i, 2(i+1))` and the lower fan `(1, 2i+1, 2(i+1)+1)` for `i = 1 .. n-2` |
| `Cylinder.Push` | src/1.getting_started/7.4.camera_class/camera_class.cpp:230-232 | three `push_back` calls add one triangle after the existing ones and leave those unchanged |
| `Cylinder.SideCorners` | src/1.getting_started/7.4.camera_class/camera_class.cpp:224-233 | side triangle `t` is `(t, t+1, t+2)` with the last two wrapping round to vertices 0 and 1 |
| `Cylinder.IndexCount` | src/1.getting_started/7.4.camera_class/camera_class.cpp:222-251 | for `n >= 2` the index buffer has `3*2n + 2*3*(n-2) = 12n - 12` entries |
| `Cylinder.TrianglesInBounds` | src/1.getting_started/7.4.camera_class/camera_class.cpp:224-251 | every corner of every triangle is below `2n`, so it names an existing vertex |
| `Cylinder.TriangleCircles` | src/1.getting_started/7.4.camera_class/camera_class.cpp:224-251 | upper-fan corners are all even (upper circle); lower-fan corners are all odd (lower circle); each side triangle has corners on both circles |
| `Cylinder.TrianglesNotDegenerate` | src/1.getting_started/7.4.camera_class/camera_class.cpp:224-251 | for `n >= 2` no triangle repeats a vertex |
| `Cylinder.CameraCylinder` | src/1.getting_started/7.4.camera_class/camera_class.cpp:203-251 | with `NUM_VERTICES_CIRCLE = 16` and height 1: 96 floats (32 vertices) with z `0.5` above and `-0.5` below, and 180 indices, each below 32 |
| `CameraInput.Clamp` | src/1.getting_started/7.4.camera_class/camera_class.cpp:630-633 | the result lies in `[lo, hi]`, equals `x` when `x` is inside, and is the point of `[lo, hi]` nearest to `x` |
| `CameraInput.ScrolledFov` | src/1.getting_started/7.4.camera_class/camera_class.cpp:643-650 | the new `fov` lies in `[1, 45]` whatever the old one; inside the range it moves by `-yoffset` when that stays inside, and saturates at `1` or `45` when it would leave; scrolling up never widens it, scrolling down never narrows it; an old value outside the range is only clamped into it |
| `CameraInput.MouseStep` | src/1.getting_started/7.4.camera_class/camera_class.cpp:610-633 | `pitch` ends in `[-89, 89]`; `firstMouse` ends false and the last position is the cursor's; on the first event `yaw` is unchanged; otherwise `yaw` moves by `0.05` times the x travel and `pitch` becomes the old pitch plus `0.05` times the reversed y travel, clamped to `[-89, 89]`: exactly that sum when it is in range, `89` above it, `-89` below it |
| `CameraInput.Replay` | src/1.getting_started/7.4.camera_class/camera_class.cpp:610-633 | after any non-empty run of mouse events, `pitch` is in `[-89, 89]`, `firstMouse` is false and the last position is the last event's |
| `CameraInput.YawTelescopes` | src/1.getting_started/7.4.camera_class/camera_class.cpp:618-628 | once `firstMouse` is false, a run of events changes `yaw` by `0.05` times (last x of the run minus the last x seen before it) |
| `CameraInput.YawFromFirstEvent` | src/1.getting_started/7.4.camera_class/camera_class.cpp:611-628 | from the first event, a run changes `yaw` by `0.05` times (last x minus first x); the first event turns nothing |
| `CameraInput.CameraState.constructor` | src/1.getting_started/7.4.camera_class/camera_class.cpp:43-51 | the globals start at `yaw = pitch = 0`, `firstMouse` true, cursor at the window centre `(400, 300)`, `fov = 45` |
| `CameraInput.CameraState.MouseCallback` | src/1.getting_started/7.4.camera_class/camera_class.cpp:610-633 | the new mouse state is `MouseStep` of the old one; `fov` is untouched; `pitch` ends in `[-89, 89]` |
| `CameraInput.CameraState.ScrollCallback` | src/1.getting_started/7.4.camera_class/camera_class.cpp:643-650 | the new `fov` is `ScrolledFov` of the old one and lies in `[1, 45]`; the mouse state is untouched |

## Left out

- The x and y of the cylinder vertices: `radius * cos(theta)` and `radius * sin(theta)` (camera_class.cpp:209-218) come in as the sequences `xs`, `ys`, because cos and sin are transcendental.
- `Cylinder.CylinderIndices` requires n >= 1. For n = 0 the fan loops compare an unsigned counter with `n - 1 = -1`, which wraps to the largest size, and the loop would not end. `main` uses 16.
- The recomputation of `cameraFront` from `yaw` and `pitch` (camera_class.cpp:635-639): trigonometry.
- `processInput` (camera_class.cpp:584-602): key polling and `normalize`/`cross` on floats.
- The conversions from `double` to `float` in `mouse_callback`, and float rounding in general: every quantity is a real, and `0.05` is exact.
- The `window` argument of both callbacks. The unused `xoffset` of `scroll_callback` is kept as a parameter and ignored.
- All GLFW, GLAD and OpenGL calls: window, buffers, draw calls, events. Texture loading (`load_texture`), and the shader class of `load_shader.h`.
- The timed animation and the transform hierarchy used in `main` (camera_class.cpp:348-449, 532-561). They depend on the clock and on `Transform` members (`scale`, `position`, `rotation`, `SetParent`, `GetWorldMatrix`) that transform.h does not declare.
- The other tutorial programs: literal vertex data, GL setup and per-frame glm calls only.
