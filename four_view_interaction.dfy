/** The mouse interaction of the four-view script: a button event
    records the view under the mouse (`actions["ViewNr"]`), picks the
    interactor style for it and sets or clears `actions["Slicing"]`; a
    mouse move while slicing in one of the three reslice views moves that
    view's slice, and only that one. */
module FourViewInteraction {
  import opened ResliceGeometry
  import opened ResliceMatrix
  import opened FourViewLayout
  import opened MprInteraction

  /** `interactorStyleImage` or `interactorStyleTrackball`. */
  datatype InteractorStyle = ImageStyle | TrackballStyle

  /** Image style for the reslice views 0 to 2, trackball for the volume view. */
  function StyleFor(viewNr: int): (style: InteractorStyle)
    ensures style == TrackballStyle <==> !(0 <= viewNr <= 2)
  {
    if 0 <= viewNr <= 2 then ImageStyle else TrackballStyle
  }

  /** The orientations `doReslice` is called with for views 0, 1 and 2. */
  const ViewOrientations: seq<string> := ["axial", "coronal", "sagittal"]

  class FourViewSession {
    /** `actions["Slicing"]`. */
    var slicing: int
    /** `actions["ViewNr"]`. */
    var viewNr: int
    /** The interactor style currently set on the interactor. */
    var style: InteractorStyle
    /** `resliceList`: the reslice axes of views 0, 1 and 2. */
    const reslices: seq<Matrix4x4>

    ghost function Repr(): set<object>
    {
      set i | 0 <= i < |reslices| :: reslices[i].e
    }

    /** Three separate matrices, each a rigid frame; the flag is 0 or 1,
        the view number names one of the four views and the style is the
        one that view asks for. */
    ghost predicate Valid()
      reads this, Repr()
    {
      |reslices| == 3 &&
      (forall i :: 0 <= i < 3 ==> reslices[i].Valid()) &&
      (forall i :: 0 <= i < 3 ==> IsRigid(reslices[i].Elements())) &&
      (forall i, j :: 0 <= i < j < 3 ==> reslices[i].e != reslices[j].e) &&
      (slicing == 0 || slicing == 1) && 0 <= viewNr <= 3 && style == StyleFor(viewNr)
    }

    /** The session as set up: view i reslices in orientation
        `ViewOrientations[i]` through the volume centre, nothing is being
        sliced, view 0 is current and the image style is set. */
    constructor (center: seq<real>)
      requires |center| == 3
      ensures Valid() && fresh(Repr())
      ensures slicing == 0 && viewNr == 0 && style == ImageStyle
      ensures forall i :: 0 <= i < 3 ==> reslices[i].Elements() == SelectAxes(ViewOrientations[i], center)
    {
      var axial := new Matrix4x4(SelectAxes("axial", center));
      var coronal := new Matrix4x4(SelectAxes("coronal", center));
      var sagittal := new Matrix4x4(SelectAxes("sagittal", center));
      reslices := [axial, coronal, sagittal];
      slicing, viewNr, style := 0, 0, ImageStyle;
    }

    /** `ButtonCallback` with the mouse at (mouseX, mouseY) in a window of
        size (sizeX, sizeY). */
    method ButtonCallback(event: ButtonEvent, mouseX: int, mouseY: int, sizeX: int, sizeY: int)
      requires Valid() && sizeX > 0 && sizeY > 0
      modifies this
      ensures Valid()
      ensures viewNr == ViewNrAt(mouseX, mouseY, sizeX, sizeY)
      ensures style == (if viewNr <= 2 then ImageStyle else TrackballStyle)
      ensures slicing == (if event == LeftButtonPressEvent then 1 else 0)
    {
      viewNr := ViewNrAt(mouseX, mouseY, sizeX, sizeY);
      if viewNr >= 0 && viewNr <= 2 {
        style := ImageStyle;
      } else {
        style := TrackballStyle;
      }
      if event == LeftButtonPressEvent {
        slicing := 1;
      } else {
        slicing := 0;
      }
    }

    /** `MouseMoveCallback` for a move from height `lastY` to
        (mouseX, mouseY): while slicing in view 0, 1 or 2, that view's
        axes move by `sliceSpacing*deltaY` along its slice normal and the
        other two are untouched; otherwise no matrix changes, and the event
        goes to the interactor style (`forwarded`) exactly when the mouse
        is over the volume view. */
    method MouseMoveCallback(lastY: int, mouseX: int, mouseY: int, sizeX: int, sizeY: int, sliceSpacing: real)
      returns (forwarded: bool)
      requires Valid() && ((slicing == 1 && 0 <= viewNr <= 2) || (sizeX > 0 && sizeY > 0))
      modifies Repr()
      ensures Valid()
      ensures forall i :: 0 <= i < 3 ==>
        (reslices[i].Elements() ==
           if slicing == 1 && viewNr == i then SliceMoved(old(reslices[i].Elements()), sliceSpacing * (mouseY - lastY) as real)
           else old(reslices[i].Elements()))
      ensures forwarded == (!(slicing == 1 && 0 <= viewNr <= 2) && ViewNrAt(mouseX, mouseY, sizeX, sizeY) == 3)
    {
      if slicing == 1 && viewNr >= 0 && viewNr <= 2 {
        var deltaY := mouseY - lastY;
        var offset := sliceSpacing * deltaY as real;
        assert offset == sliceSpacing * (mouseY - lastY) as real;
        var matrix := reslices[viewNr];
        SliceMovedKeepsRigid(matrix.Elements(), offset);
        matrix.MoveSlice(offset);
        forwarded := false;
      } else {
        var currentViewNr := ViewNrAt(mouseX, mouseY, sizeX, sizeY);
        forwarded := currentViewNr == 3;
      }
    }
  }
}
