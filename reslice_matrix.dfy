/** The reslice-axes matrix a `vtkImageReslice` holds by reference
    (`vtkMatrix4x4`): sixteen doubles, row-major, that the mouse callbacks
    update element by element with `SetElement`. */
module ResliceMatrix {
  import opened ResliceGeometry

  class Matrix4x4 {
    const e: array<real>

    predicate Valid()
    {
      e.Length == 16
    }

    /** The matrix as a value. */
    function Elements(): (m: Mat)
      requires Valid()
      reads e
      ensures m == e[..]
    {
      e[..]
    }

    /** `vtkMatrix4x4()` followed by `DeepCopy(m)`. */
    constructor (m: Mat)
      ensures Valid() && fresh(e) && Elements() == m
    {
      e := new real[16](i requires 0 <= i < 16 => m[i]);
    }

    /** `SetElement(i, j, v)`: element (i, j) becomes v, nothing else changes. */
    method SetElement(i: nat, j: nat, v: real)
      requires Valid() && i < 4 && j < 4
      modifies e
      ensures Valid()
      ensures Elements() == old(Elements())[4 * i + j := v]
      ensures At(Elements(), i, j) == v
    {
      e[4 * i + j] := v;
    }

    /** The three `SetElement` calls of a slicing mouse move: the image of
        (0, 0, offset) under the current matrix becomes the new translation. */
    method MoveSlice(offset: real)
      requires Valid()
      modifies e
      ensures Valid()
      ensures Elements() == SliceMoved(old(Elements()), offset)
    {
      var center := MultiplyPoint(Elements(), [0.0, 0.0, offset, 1.0]);
      SetElement(0, 3, center[0]);
      SetElement(1, 3, center[1]);
      SetElement(2, 3, center[2]);
    }
  }
}
