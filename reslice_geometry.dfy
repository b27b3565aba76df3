/** Geometry shared by the three reslice scripts: the volume centre, the
    three fixed reslice-axes matrices (axial, coronal, sagittal), the
    choice among them by name, and the slice move a drag performs
    (`MultiplyPoint((0, 0, sliceSpacing*deltaY, 1))` written back into the
    translation column). A 4×4 matrix is a row-major sequence of 16
    reals, as the tuple given to `vtkMatrix4x4.DeepCopy`. */
module ResliceGeometry {

  type Mat = m: seq<real> | |m| == 16 witness seq(16, _ => 0.0)

  /** Element (i, j) of a row-major 4×4 matrix. */
  function At(m: Mat, i: nat, j: nat): real
    requires i < 4 && j < 4
  {
    m[4 * i + j]
  }

  // ---------------------------------------------------------------------
  // Volume centre

  /** Physical position of index k along one axis. */
  function Position(origin: real, spacing: real, k: int): real
  {
    origin + spacing * k as real
  }

  /** `[x0 + xSpacing*0.5*(xMin + xMax), …]` for origin (x0, y0, z0),
      spacing (xSpacing, ySpacing, zSpacing) and whole extent
      (xMin, xMax, yMin, yMax, zMin, zMax). On every axis the centre lies
      halfway between the first and the last voxel of the extent. */
  function Center(origin: seq<real>, spacing: seq<real>, extent: seq<int>): (c: seq<real>)
    requires |origin| == 3 && |spacing| == 3 && |extent| == 6
    ensures |c| == 3
    ensures forall i :: 0 <= i < 3 ==>
      c[i] - Position(origin[i], spacing[i], extent[2 * i]) ==
      Position(origin[i], spacing[i], extent[2 * i + 1]) - c[i]
  {
    seq(3, i requires 0 <= i < 3 =>
      origin[i] + spacing[i] * 0.5 * (extent[2 * i] + extent[2 * i + 1]) as real)
  }

  /** With a non-negative spacing and a non-empty extent the centre lies
      between the first and the last voxel. */
  lemma CenterInsideExtent(origin: seq<real>, spacing: seq<real>, extent: seq<int>, i: nat)
    requires |origin| == 3 && |spacing| == 3 && |extent| == 6 && i < 3
    requires spacing[i] >= 0.0 && extent[2 * i] <= extent[2 * i + 1]
    ensures Position(origin[i], spacing[i], extent[2 * i]) <= Center(origin, spacing, extent)[i]
    ensures Center(origin, spacing, extent)[i] <= Position(origin[i], spacing[i], extent[2 * i + 1])
  {
    var c := Center(origin, spacing, extent);
    var lo := Position(origin[i], spacing[i], extent[2 * i]);
    var hi := Position(origin[i], spacing[i], extent[2 * i + 1]);
    assert hi - lo == spacing[i] * (extent[2 * i + 1] - extent[2 * i]) as real;
    assert hi - lo >= 0.0;
    assert c[i] - lo == hi - c[i];
  }

  // ---------------------------------------------------------------------
  // Reslice axes

  function Axial(c: seq<real>): Mat
    requires |c| == 3
  {
    [1.0, 0.0, 0.0, c[0],
     0.0, 1.0, 0.0, c[1],
     0.0, 0.0, 1.0, c[2],
     0.0, 0.0, 0.0, 1.0]
  }

  function Coronal(c: seq<real>): Mat
    requires |c| == 3
  {
    [1.0,  0.0, 0.0, c[0],
     0.0,  0.0, 1.0, c[1],
     0.0, -1.0, 0.0, c[2],
     0.0,  0.0, 0.0, 1.0]
  }

  function Sagittal(c: seq<real>): Mat
    requires |c| == 3
  {
    [0.0,  0.0, -1.0, c[0],
     1.0,  0.0,  0.0, c[1],
     0.0, -1.0,  0.0, c[2],
     0.0,  0.0,  0.0, 1.0]
  }

  /** `SetResliceAxes(axial)`, then coronal if the name is "coronal",
      then sagittal if it is "sagittal": any other name keeps axial. */
  function SelectAxes(orientation: string, c: seq<real>): (m: Mat)
    requires |c| == 3
    ensures IsRigid(m) && Translation(m) == c
    ensures orientation == "coronal" ==> m == Coronal(c)
    ensures orientation == "sagittal" ==> m == Sagittal(c)
    ensures orientation != "coronal" && orientation != "sagittal" ==> m == Axial(c)
  {
    AxesRigid(c);
    var m := Axial(c);
    var m := if orientation == "coronal" then Coronal(c) else m;
    if orientation == "sagittal" then Sagittal(c) else m
  }

  /** Each of the three matrices is a rigid frame placed at the centre. */
  lemma AxesRigid(c: seq<real>)
    requires |c| == 3
    ensures IsRigid(Axial(c)) && Translation(Axial(c)) == c
    ensures IsRigid(Coronal(c)) && Translation(Coronal(c)) == c
    ensures IsRigid(Sagittal(c)) && Translation(Sagittal(c)) == c
  {
    FrameRigid(Axial(c), [1.0, 0.0, 0.0], [0.0, 1.0, 0.0], [0.0, 0.0, 1.0]);
    FrameRigid(Coronal(c), [1.0, 0.0, 0.0], [0.0, 0.0, -1.0], [0.0, 1.0, 0.0]);
    FrameRigid(Sagittal(c), [0.0, 1.0, 0.0], [0.0, 0.0, -1.0], [-1.0, 0.0, 0.0]);
  }

  /** A matrix whose columns are the given orthonormal, right-handed unit
      axes and whose bottom row is affine is rigid. */
  lemma FrameRigid(m: Mat, u: seq<real>, v: seq<real>, w: seq<real>)
    requires |u| == 3 && |v| == 3 && |w| == 3
    requires Column(m, 0) == u && Column(m, 1) == v && Column(m, 2) == w
    requires Dot(u, u) == 1.0 && Dot(v, v) == 1.0 && Dot(w, w) == 1.0
    requires Dot(u, v) == 0.0 && Dot(u, w) == 0.0 && Dot(v, w) == 0.0
    requires Det3(m) == 1.0
    requires m[12] == 0.0 && m[13] == 0.0 && m[14] == 0.0 && m[15] == 1.0
    ensures IsRigid(m)
  {
    assert Dot(v, u) == 0.0 && Dot(w, u) == 0.0 && Dot(w, v) == 0.0;
  }

  /** Column j of the upper 3×3 block (j < 3) or the translation (j == 3). */
  function Column(m: Mat, j: nat): seq<real>
    requires j < 4
  {
    [At(m, 0, j), At(m, 1, j), At(m, 2, j)]
  }

  function Translation(m: Mat): seq<real>
  {
    Column(m, 3)
  }

  /** The third axis of the reslice frame: the direction a drag moves the
      slice along. */
  function SliceNormal(m: Mat): seq<real>
  {
    Column(m, 2)
  }

  function Dot(u: seq<real>, v: seq<real>): real
    requires |u| == 3 && |v| == 3
  {
    u[0] * v[0] + u[1] * v[1] + u[2] * v[2]
  }

  function Det3(m: Mat): real
  {
    At(m, 0, 0) * (At(m, 1, 1) * At(m, 2, 2) - At(m, 1, 2) * At(m, 2, 1))
    - At(m, 0, 1) * (At(m, 1, 0) * At(m, 2, 2) - At(m, 1, 2) * At(m, 2, 0))
    + At(m, 0, 2) * (At(m, 1, 0) * At(m, 2, 1) - At(m, 1, 1) * At(m, 2, 0))
  }

  /** A rigid reslice frame: orthonormal axes forming a right-handed
      frame (determinant 1) and the affine bottom row (0, 0, 0, 1). */
  ghost predicate IsRigid(m: Mat)
  {
    (forall j, k :: 0 <= j < 3 && 0 <= k < 3 ==>
       Dot(Column(m, j), Column(m, k)) == if j == k then 1.0 else 0.0) &&
    Det3(m) == 1.0 &&
    m[12] == 0.0 && m[13] == 0.0 && m[14] == 0.0 && m[15] == 1.0
  }

  // ---------------------------------------------------------------------
  // Slice move

  /** `matrix.MultiplyPoint(p)`: the matrix applied to a homogeneous point. */
  function MultiplyPoint(m: Mat, p: seq<real>): (q: seq<real>)
    requires |p| == 4
    ensures |q| == 4
  {
    seq(4, i requires 0 <= i < 4 =>
      At(m, i, 0) * p[0] + At(m, i, 1) * p[1] + At(m, i, 2) * p[2] + At(m, i, 3) * p[3])
  }

  /** The matrix after a slicing move by `offset` (`sliceSpacing*deltaY`):
      the image of the point (0, 0, offset) is written into elements
      (0,3), (1,3) and (2,3). The move shifts the translation by `offset`
      times the slice normal and leaves the 3×3 axes and the bottom row
      as they were. */
  function SliceMoved(m: Mat, offset: real): (r: Mat)
    ensures forall k :: 0 <= k < 16 && k != 3 && k != 7 && k != 11 ==> r[k] == m[k]
    ensures forall i :: 0 <= i < 3 ==> Translation(r)[i] == Translation(m)[i] + offset * SliceNormal(m)[i]
  {
    var center := MultiplyPoint(m, [0.0, 0.0, offset, 1.0]);
    m[3 := center[0]][7 := center[1]][11 := center[2]]
  }

  /** A move by zero (no vertical mouse motion) changes nothing. */
  lemma SliceMovedZero(m: Mat)
    ensures SliceMoved(m, 0.0) == m
  {
    var r := SliceMoved(m, 0.0);
    assert forall k | 0 <= k < 16 :: r[k] == m[k];
  }

  /** Two moves add up to one move by the sum of their offsets. */
  lemma SliceMovedComposes(m: Mat, a: real, b: real)
    ensures SliceMoved(SliceMoved(m, a), b) == SliceMoved(m, a + b)
  {
    var l := SliceMoved(SliceMoved(m, a), b);
    var r := SliceMoved(m, a + b);
    assert forall k | 0 <= k < 16 :: l[k] == r[k] by {
      assert l[3] == m[3] + a * m[2] + b * m[2] == r[3];
      assert l[7] == m[7] + a * m[6] + b * m[6] == r[7];
      assert l[11] == m[11] + a * m[10] + b * m[10] == r[11];
    }
  }

  /** A move keeps the frame rigid. */
  lemma SliceMovedKeepsRigid(m: Mat, offset: real)
    requires IsRigid(m)
    ensures IsRigid(SliceMoved(m, offset))
  {
    var r := SliceMoved(m, offset);
    assert forall j | 0 <= j < 3 :: Column(r, j) == Column(m, j);
    assert Det3(r) == Det3(m);
  }

  /** The vector from the translation of `m` to that of `m2`. */
  function Displacement(m: Mat, m2: Mat): seq<real>
  {
    var t, t2 := Translation(m), Translation(m2);
    [t2[0] - t[0], t2[1] - t[1], t2[2] - t[2]]
  }

  /** On a rigid frame a move displaces the slice origin by exactly
      |offset|: the squared distance is offset². */
  lemma SliceMoveDistance(m: Mat, offset: real)
    requires IsRigid(m)
    ensures var d := Displacement(m, SliceMoved(m, offset)); Dot(d, d) == offset * offset
  {
    var n := SliceNormal(m);
    var d := Displacement(m, SliceMoved(m, offset));
    assert d[0] == offset * n[0] && d[1] == offset * n[1] && d[2] == offset * n[2];
    assert Dot(n, n) == 1.0 by {
      assert Dot(Column(m, 2), Column(m, 2)) == 1.0;
    }
    assert offset * n[0] * (offset * n[0]) == offset * offset * (n[0] * n[0]);
    assert offset * n[1] * (offset * n[1]) == offset * offset * (n[1] * n[1]);
    assert offset * n[2] * (offset * n[2]) == offset * offset * (n[2] * n[2]);
    assert Dot(d, d) == offset * offset * Dot(n, n);
  }

  /** The reslice axes after a drag whose successive vertical mouse
      positions are `ys`, each move reading the same slice spacing. A drag
      never turns the slice: the axes and the bottom row stay as they were. */
  function Dragged(m: Mat, sliceSpacing: real, ys: seq<int>): (r: Mat)
    ensures forall k :: 0 <= k < 16 && k != 3 && k != 7 && k != 11 ==> r[k] == m[k]
    decreases |ys|
  {
    if |ys| < 2 then m
    else Dragged(SliceMoved(m, sliceSpacing * (ys[1] - ys[0]) as real), sliceSpacing, ys[1..])
  }

  /** The slice follows the mouse: a whole drag moves the slice exactly
      as far as one move from the first position to the last would. */
  lemma {:induction false} DraggedTelescopes(m: Mat, sliceSpacing: real, ys: seq<int>, total: real)
    requires |ys| >= 1 && total == sliceSpacing * (ys[|ys| - 1] - ys[0]) as real
    ensures Dragged(m, sliceSpacing, ys) == SliceMoved(m, total)
    decreases |ys|
  {
    if |ys| == 1 {
      assert total == 0.0;
      SliceMovedZero(m);
    } else {
      var a := sliceSpacing * (ys[1] - ys[0]) as real;
      var b := sliceSpacing * (ys[|ys| - 1] - ys[1]) as real;
      var m1 := SliceMoved(m, a);
      assert ys[1..][|ys[1..]| - 1] == ys[|ys| - 1] && ys[1..][0] == ys[1];
      DraggedTelescopes(m1, sliceSpacing, ys[1..], b);
      SliceMovedComposes(m, a, b);
      assert a + b == sliceSpacing * ((ys[1] - ys[0]) + (ys[|ys| - 1] - ys[1])) as real;
    }
  }
}
