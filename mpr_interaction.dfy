/** The drag-to-slice interaction of the single-view reslice scripts (the
    VTK one and the ParaView-web one): an `actions["Slicing"]` flag that
    button events set and clear, and mouse moves that, while the flag is
    set, push the slice along its normal by `sliceSpacing*deltaY`. */
module MprInteraction {
  import opened ResliceGeometry
  import opened ResliceMatrix

  /** The two events the button callback is registered for. */
  datatype ButtonEvent = LeftButtonPressEvent | LeftButtonReleaseEvent

  class MprSession {
    /** `actions["Slicing"]`. */
    var slicing: int
    /** The reslice axes the image reslice holds. */
    const axes: Matrix4x4

    /** The flag only ever holds 0 or 1, and the reslice frame stays
        rigid whatever sequence of events arrives. */
    ghost predicate Valid()
      reads this, axes.e
    {
      axes.Valid() && (slicing == 0 || slicing == 1) && IsRigid(axes.Elements())
    }

    /** The pipeline as set up: axes chosen by the orientation argument and
        centred on the volume, and `actions["Slicing"] = 0`. */
    constructor (orientation: string, center: seq<real>)
      requires |center| == 3
      ensures Valid() && fresh(axes.e)
      ensures slicing == 0
      ensures axes.Elements() == SelectAxes(orientation, center)
    {
      slicing := 0;
      axes := new Matrix4x4(SelectAxes(orientation, center));
    }

    /** `ButtonCallback`: a press starts slicing, any other event ends it. */
    method ButtonCallback(event: ButtonEvent)
      requires Valid()
      modifies this
      ensures Valid()
      ensures slicing == (if event == LeftButtonPressEvent then 1 else 0)
    {
      if event == LeftButtonPressEvent {
        slicing := 1;
      } else {
        slicing := 0;
      }
    }

    /** `MouseMoveCallback` for a move from height `lastY` to `mouseY`:
        while slicing the axes move by `sliceSpacing*deltaY` along the
        slice normal; otherwise the matrix is untouched and the event goes
        to the interactor style (`forwarded`). */
    method MouseMoveCallback(lastY: int, mouseY: int, sliceSpacing: real) returns (forwarded: bool)
      requires Valid()
      modifies axes.e
      ensures Valid()
      ensures forwarded == (slicing != 1)
      ensures axes.Elements() ==
        if slicing == 1 then SliceMoved(old(axes.Elements()), sliceSpacing * (mouseY - lastY) as real)
        else old(axes.Elements())
    {
      if slicing == 1 {
        var deltaY := mouseY - lastY;
        var offset := sliceSpacing * deltaY as real;
        assert offset == sliceSpacing * (mouseY - lastY) as real;
        SliceMovedKeepsRigid(axes.Elements(), offset);
        axes.MoveSlice(offset);
        forwarded := false;
      } else {
        forwarded := true;
      }
    }
  }
}
