/** The capped cylinder that camera_class.cpp builds in main: a vertex buffer
    of n steps round the circle, two vertices per step (upper circle first,
    then lower), and an index buffer of triangles: a band of 2n side triangles
    and two triangle fans for the caps. The loops push into growable buffers;
    here the buffers are sequences that each push extends.

    The x and y of step i are radius * cos(theta_i) and radius * sin(theta_i);
    they arrive as the sequences xs and ys, since cos and sin are not modelled. */
module Cylinder {

  /** NUM_VERTICES_CIRCLE in main. */
  const NumVerticesCircle: nat := 16
  /** height in main. */
  const Height: real := 1.0

  /** One triangle of the index buffer, corners in push order. */
  datatype Triangle = Triangle(first: nat, second: nat, third: nat)

  /** Vertex w of a float buffer: the three floats at 3w, 3w+1, 3w+2. */
  function VertexAt(buffer: seq<real>, w: nat): (real, real, real)
    requires 3 * w + 3 <= |buffer|
  {
    (buffer[3 * w], buffer[3 * w + 1], buffer[3 * w + 2])
  }

  /** Triangle t of an index buffer: the three indices at 3t, 3t+1, 3t+2. */
  function TriangleAt(buffer: seq<nat>, t: nat): Triangle
    requires 3 * t + 3 <= |buffer|
  {
    Triangle(buffer[3 * t], buffer[3 * t + 1], buffer[3 * t + 2])
  }

  /** How many triangles each cap fan has: the fan loops run i = 1 .. n-2. */
  function CapTriangles(n: nat): nat {
    if n >= 2 then n - 2 else 0
  }

  /** All triangles: 2n side triangles and one fan per cap. */
  function TriangleCount(n: nat): nat {
    2 * n + 2 * CapTriangles(n)
  }

  /** The reference layout of the index buffer, triangle by triangle.
      Side triangle t joins vertices t, t+1, t+2 (mod 2n), so it zigzags
      between the circles. Upper fan triangle i (i = 1 .. n-2) is
      (0, 2i, 2(i+1)) and lower fan triangle i is (1, 2i+1, 2(i+1)+1). */
  function MeshTriangle(n: nat, t: nat): Triangle
    requires n >= 1 && t < TriangleCount(n)
  {
    if t < 2 * n then
      Triangle(t, (t + 1) % (2 * n), (t + 2) % (2 * n))
    else if t < 2 * n + CapTriangles(n) then
      var i := t - 2 * n + 1;
      Triangle(0, 2 * i, 2 * (i + 1))
    else
      var i := t - 2 * n - CapTriangles(n) + 1;
      Triangle(1, 2 * i + 1, 2 * (i + 1) + 1)
  }

  /** The vertex loop (camera_class.cpp:207-220): for each step i it pushes the
      upper vertex (x, y, height/2) and then the lower vertex (x, y, -height/2),
      so vertex 2i lies on the upper circle and vertex 2i+1 right below it. */
  method CylinderVertices(n: nat, height: real, xs: seq<real>, ys: seq<real>)
    returns (cylinder: seq<real>)
    requires |xs| == n && |ys| == n
    ensures |cylinder| == 6 * n
    ensures forall i :: 0 <= i < n ==>
      VertexAt(cylinder, 2 * i) == (xs[i], ys[i], height / 2.0) &&
      VertexAt(cylinder, 2 * i + 1) == (xs[i], ys[i], -height / 2.0)
  {
    cylinder := [];
    var i := 0;
    while i < n
      invariant 0 <= i <= n
      invariant |cylinder| == 6 * i
      invariant forall j :: 0 <= j < i ==>
        VertexAt(cylinder, 2 * j) == (xs[j], ys[j], height / 2.0) &&
        VertexAt(cylinder, 2 * j + 1) == (xs[j], ys[j], -height / 2.0)
    {
      var before := cylinder;
      // upper circle
      cylinder := cylinder + [xs[i], ys[i], height / 2.0];
      // lower circle
      cylinder := cylinder + [xs[i], ys[i], -height / 2.0];
      forall j | 0 <= j < i
        ensures VertexAt(cylinder, 2 * j) == VertexAt(before, 2 * j)
        ensures VertexAt(cylinder, 2 * j + 1) == VertexAt(before, 2 * j + 1)
      {
      }
      i := i + 1;
    }
  }

  /** The three index loops (camera_class.cpp:222-251). The source needs
      n >= 1: with n = 0 the fan loops' bound n - 1 would be compared as an
      unsigned size and would not stop. */
  method CylinderIndices(n: nat) returns (indices: seq<nat>)
    requires n >= 1
    ensures |indices| == 3 * TriangleCount(n)
    ensures forall t :: 0 <= t < TriangleCount(n) ==> TriangleAt(indices, t) == MeshTriangle(n, t)
  {
    indices := [];
    // side
    var i := 0;
    while i < n * 2
      invariant 0 <= i <= n * 2
      invariant |indices| == 3 * i
      invariant forall t :: 0 <= t < i ==> TriangleAt(indices, t) == MeshTriangle(n, t)
    {
      var first := i;
      var second := (i + 1) % (n * 2);
      var third := (i + 2) % (n * 2);
      indices := Push(indices, i, first, second, third);
      i := i + 1;
    }
    // upper cap
    i := 1;
    while i < n - 1
      invariant 1 <= i <= CapTriangles(n) + 1
      invariant |indices| == 3 * (2 * n + i - 1)
      invariant forall t :: 0 <= t < 2 * n + i - 1 ==> TriangleAt(indices, t) == MeshTriangle(n, t)
    {
      var first := 0;
      var second := i * 2;
      var third := (i + 1) * 2;
      indices := Push(indices, 2 * n + i - 1, first, second, third);
      i := i + 1;
    }
    // lower cap
    i := 1;
    while i < n - 1
      invariant 1 <= i <= CapTriangles(n) + 1
      invariant |indices| == 3 * (2 * n + CapTriangles(n) + i - 1)
      invariant forall t :: 0 <= t < 2 * n + CapTriangles(n) + i - 1 ==>
        TriangleAt(indices, t) == MeshTriangle(n, t)
    {
      var first := 1;
      var second := (i * 2) + 1;
      var third := (i + 1) * 2 + 1;
      indices := Push(indices, 2 * n + CapTriangles(n) + i - 1, first, second, third);
      i := i + 1;
    }
  }

  /** Appends one triangle after the `count` triangles already in the buffer. */
  method Push(indices: seq<nat>, count: nat, first: nat, second: nat, third: nat)
    returns (longer: seq<nat>)
    requires |indices| == 3 * count
    ensures |longer| == 3 * count + 3
    ensures TriangleAt(longer, count) == Triangle(first, second, third)
    ensures forall t :: 0 <= t < count ==> TriangleAt(longer, t) == TriangleAt(indices, t)
  {
    longer := indices + [first, second, third];
  }

  /** The index buffer has 12n - 12 entries once there are caps at all; for the
      16 steps of the camera example that is 180 indices, 60 triangles. */
  lemma IndexCount(n: nat)
    requires n >= 2
    ensures 3 * TriangleCount(n) == 12 * n - 12
  {
  }

  /** Every corner of every triangle names one of the 2n vertices. */
  lemma TrianglesInBounds(n: nat, t: nat)
    requires n >= 1 && t < TriangleCount(n)
    ensures MeshTriangle(n, t).first < 2 * n
    ensures MeshTriangle(n, t).second < 2 * n
    ensures MeshTriangle(n, t).third < 2 * n
  {
    if t < 2 * n {
      SideCorners(n, t);
    }
  }

  /** The upper fan uses only even (upper-circle) vertices, the lower fan only
      odd (lower-circle) ones, and each side triangle has a corner on each circle. */
  lemma TriangleCircles(n: nat, t: nat)
    requires n >= 1 && t < TriangleCount(n)
    ensures 2 * n <= t < 2 * n + CapTriangles(n) ==>
      MeshTriangle(n, t).first % 2 == 0 && MeshTriangle(n, t).second % 2 == 0 &&
      MeshTriangle(n, t).third % 2 == 0
    ensures 2 * n + CapTriangles(n) <= t ==>
      MeshTriangle(n, t).first % 2 == 1 && MeshTriangle(n, t).second % 2 == 1 &&
      MeshTriangle(n, t).third % 2 == 1
    ensures t < 2 * n ==> MeshTriangle(n, t).first % 2 != MeshTriangle(n, t).second % 2
  {
    if t < 2 * n {
      SideCorners(n, t);
    }
  }

  /** With at least two steps no triangle repeats a vertex. */
  lemma TrianglesNotDegenerate(n: nat, t: nat)
    requires n >= 2 && t < TriangleCount(n)
    ensures MeshTriangle(n, t).first != MeshTriangle(n, t).second
    ensures MeshTriangle(n, t).second != MeshTriangle(n, t).third
    ensures MeshTriangle(n, t).first != MeshTriangle(n, t).third
  {
    if t < 2 * n {
      SideCorners(n, t);
    }
  }

  /** The corners of side triangle t with the modulo spelled out: the last two
      side triangles wrap round to vertices 0 and 1. */
  lemma SideCorners(n: nat, t: nat)
    requires n >= 1 && t < 2 * n
    ensures MeshTriangle(n, t).second == if t + 1 < 2 * n then t + 1 else t + 1 - 2 * n
    ensures MeshTriangle(n, t).third == if t + 2 < 2 * n then t + 2 else t + 2 - 2 * n
  {
    var m := 2 * n;
    if t + 1 < m { ModSmall(t + 1, m); } else { ModWrap(t + 1, m); }
    if t + 2 < m { ModSmall(t + 2, m); } else { ModWrap(t + 2, m); }
  }

  lemma ModSmall(a: int, m: int)
    requires 0 <= a < m
    ensures a % m == a
  {
  }

  lemma ModWrap(a: int, m: int)
    requires m <= a < 2 * m
    ensures a % m == a - m
  {
  }

  /** The cylinder as main builds it: 16 steps, height 1. The vertex buffer
      holds 96 floats (32 vertices) with the upper circle at z = 0.5 and the
      lower at z = -0.5; the index buffer holds 180 indices, each below 32. */
  method CameraCylinder(xs: seq<real>, ys: seq<real>)
    returns (cylinder: seq<real>, indices: seq<nat>)
    requires |xs| == NumVerticesCircle && |ys| == NumVerticesCircle
    ensures |cylinder| == 96 && |indices| == 180
    ensures forall i :: 0 <= i < NumVerticesCircle ==>
      VertexAt(cylinder, 2 * i).2 == 0.5 && VertexAt(cylinder, 2 * i + 1).2 == -0.5
    ensures forall k :: 0 <= k < |indices| ==> indices[k] < 2 * NumVerticesCircle
  {
    cylinder := CylinderVertices(NumVerticesCircle, Height, xs, ys);
    indices := CylinderIndices(NumVerticesCircle);
    forall k | 0 <= k < |indices|
      ensures indices[k] < 2 * NumVerticesCircle
    {
      var t := k / 3;
      TrianglesInBounds(NumVerticesCircle, t);
      assert TriangleAt(indices, t) == MeshTriangle(NumVerticesCircle, t);
    }
  }
}
