// The coordinate-system matrix of io_scene_psk_psa/shared/helpers.py: two
// signed unit axes named 'X', 'Y', 'Z', '-X', '-Y', '-Z' give the rows
// forward, up x forward and up of a 4x4 matrix. All entries are -1, 0 or 1,
// so the model uses integers.
module Axes {
  import opened Wrappers

  datatype Vec3 = Vec3(x: int, y: int, z: int)

  function Cross(a: Vec3, b: Vec3): Vec3
  {
    var Vec3(ax, ay, az) := a;
    var Vec3(bx, bY, bz) := b;
    Vec3(ay * bz - az * bY, az * bx - ax * bz, ax * bY - ay * bx)
  }

  function Dot(a: Vec3, b: Vec3): int
  {
    var Vec3(ax, ay, az) := a;
    var Vec3(bx, bY, bz) := b;
    ax * bx + ay * bY + az * bz
  }

  function Neg(a: Vec3): Vec3
  {
    var Vec3(ax, ay, az) := a;
    Vec3(-ax, -ay, -az)
  }

  /** The unit vectors along the positive axes and the zero vector. */
  const E_X := Vec3(1, 0, 0)
  const E_Y := Vec3(0, 1, 0)
  const E_Z := Vec3(0, 0, 1)
  const ZERO := Vec3(0, 0, 0)

  /**
   * `get_vector_from_axis_identifier`: the signed unit vector of an axis
   * identifier; any other identifier fails its assertion.
   */
  function VectorFromAxisIdentifier(axisIdentifier: string): (r: Result<Vec3>)
    ensures r.Err? <==> axisIdentifier !in {"X", "Y", "Z", "-X", "-Y", "-Z"}
    ensures r.Err? ==> r.error == AssertionError
    ensures r.Ok? ==> Dot(r.value, r.value) == 1
  {
    match axisIdentifier
    case "X" => Ok(E_X)
    case "Y" => Ok(E_Y)
    case "Z" => Ok(E_Z)
    case "-X" => Ok(Neg(E_X))
    case "-Y" => Ok(Neg(E_Y))
    case "-Z" => Ok(Neg(E_Z))
    case _ => Err(AssertionError)
  }

  function Row4(v: Vec3): (r: seq<int>)
    ensures |r| == 4 && r[0] == v.x && r[1] == v.y && r[2] == v.z && r[3] == 0
  {
    [v.x, v.y, v.z, 0]
  }

  /**
   * `get_coordinate_system_transform`: the rows forward, left = up x
   * forward, up and (0, 0, 0, 1); an invalid identifier fails as
   * `get_vector_from_axis_identifier` does.
   */
  function CoordinateSystemTransform(forwardAxis: string, upAxis: string): (r: Result<seq<seq<int>>>)
    ensures r.Ok? <==> VectorFromAxisIdentifier(forwardAxis).Ok? && VectorFromAxisIdentifier(upAxis).Ok?
    ensures r.Err? ==> r.error == AssertionError
    ensures r.Ok? ==> Is4x4(r.value) && r.value[3] == [0, 0, 0, 1]
  {
    match (VectorFromAxisIdentifier(forwardAxis), VectorFromAxisIdentifier(upAxis))
    case (Ok(forward), Ok(up)) =>
      var left := Cross(up, forward);
      Ok([Row4(forward), Row4(left), Row4(up), [0, 0, 0, 1]])
    case (Err(e), _) => Err(e)
    case (_, Err(e)) => Err(e)
  }

  predicate Is4x4(m: seq<seq<int>>)
  {
    |m| == 4 && |m[0]| == 4 && |m[1]| == 4 && |m[2]| == 4 && |m[3]| == 4
  }

  /** Row i of the upper-left 3x3 block. */
  function BlockRow(m: seq<seq<int>>, i: nat): Vec3
    requires Is4x4(m) && i < 3
  {
    Vec3(m[i][0], m[i][1], m[i][2])
  }

  /** The determinant of the upper-left 3x3 block, as a triple product. */
  function Det3(m: seq<seq<int>>): int
    requires Is4x4(m)
  {
    Dot(BlockRow(m, 0), Cross(BlockRow(m, 1), BlockRow(m, 2)))
  }

  /** The rows of the 3x3 block are unit vectors at right angles to each other. */
  predicate Orthonormal(m: seq<seq<int>>)
    requires Is4x4(m)
  {
    forall i, j :: 0 <= i < 3 && 0 <= j < 3 ==> Dot(BlockRow(m, i), BlockRow(m, j)) == if i == j then 1 else 0
  }

  /** The default axes, forward 'X' and up 'Z', give the identity. */
  lemma DefaultIsIdentity()
    ensures CoordinateSystemTransform("X", "Z") == Ok([[1, 0, 0, 0], [0, 1, 0, 0], [0, 0, 1, 0], [0, 0, 0, 1]])
  {
    assert Cross(E_Z, E_X) == E_Y;
    assert Row4(E_X) == [1, 0, 0, 0] && Row4(E_Y) == [0, 1, 0, 0] && Row4(E_Z) == [0, 0, 1, 0];
  }

  /** The signed unit axes, listed. */
  predicate IsAxisVector(v: Vec3)
  {
    v == E_X || v == E_Y || v == E_Z || v == Neg(E_X) || v == Neg(E_Y) || v == Neg(E_Z)
  }

  lemma AxisVectors(axisIdentifier: string)
    ensures VectorFromAxisIdentifier(axisIdentifier).Ok? ==> IsAxisVector(VectorFromAxisIdentifier(axisIdentifier).value)
  {
  }

  /**
   * For two axis vectors at right angles, up x forward is a unit vector at
   * right angles to both, and the rows forward, left, up have triple
   * product +1: a rotation.
   */
  lemma {:induction false} CrossOfPerpendicularAxes(forward: Vec3, up: Vec3)
    requires IsAxisVector(forward) && IsAxisVector(up) && Dot(forward, up) == 0
    ensures var left := Cross(up, forward);
      Dot(left, left) == 1 && Dot(forward, left) == 0 && Dot(left, up) == 0
      && Dot(forward, Cross(left, up)) == 1
  {
    if forward == E_X || forward == Neg(E_X) {
      assert up.x == 0;
    } else if forward == E_Y || forward == Neg(E_Y) {
      assert up.y == 0;
    } else {
      assert up.z == 0;
    }
  }

  /** Perpendicular axes give a rotation: an orthonormal block with determinant +1. */
  lemma PerpendicularAxesGiveRotation(forwardAxis: string, upAxis: string)
    requires CoordinateSystemTransform(forwardAxis, upAxis).Ok?
    requires Dot(VectorFromAxisIdentifier(forwardAxis).value, VectorFromAxisIdentifier(upAxis).value) == 0
    ensures Orthonormal(CoordinateSystemTransform(forwardAxis, upAxis).value)
    ensures Det3(CoordinateSystemTransform(forwardAxis, upAxis).value) == 1
  {
    var forward := VectorFromAxisIdentifier(forwardAxis).value;
    var up := VectorFromAxisIdentifier(upAxis).value;
    var m := CoordinateSystemTransform(forwardAxis, upAxis).value;
    AxisVectors(forwardAxis);
    AxisVectors(upAxis);
    CrossOfPerpendicularAxes(forward, up);
    var left := Cross(up, forward);
    assert BlockRow(m, 0) == forward && BlockRow(m, 1) == left && BlockRow(m, 2) == up;
    BlockOfRows(m, forward, left, up);
  }

  /** The block's dot products and determinant, read off its three rows. */
  lemma BlockOfRows(m: seq<seq<int>>, a: Vec3, b: Vec3, c: Vec3)
    requires Is4x4(m) && BlockRow(m, 0) == a && BlockRow(m, 1) == b && BlockRow(m, 2) == c
    requires Dot(a, a) == 1 && Dot(b, b) == 1 && Dot(c, c) == 1
    requires Dot(a, b) == 0 && Dot(b, c) == 0 && Dot(a, c) == 0
    ensures Orthonormal(m) && Det3(m) == Dot(a, Cross(b, c))
  {
    DotSymmetric(a, b);
    DotSymmetric(b, c);
    DotSymmetric(a, c);
  }

  lemma DotSymmetric(a: Vec3, b: Vec3)
    ensures Dot(a, b) == Dot(b, a)
  {
  }

  /**
   * Forward and up along the same line (equal or opposite, as '-X' with 'X')
   * make the left row zero, so the matrix is singular.
   */
  lemma ParallelAxesAreSingular(forwardAxis: string, upAxis: string)
    requires CoordinateSystemTransform(forwardAxis, upAxis).Ok?
    requires var f := VectorFromAxisIdentifier(forwardAxis).value;
      var u := VectorFromAxisIdentifier(upAxis).value;
      f == u || f == Neg(u)
    ensures var m := CoordinateSystemTransform(forwardAxis, upAxis).value;
      BlockRow(m, 1) == ZERO && Det3(m) == 0
  {
  }
}
