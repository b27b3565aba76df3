# react-vtkjs-viewer: multi-planar reslicing, four-view layout and loader helpers

This project models the logic that belongs to the viewer itself. The rest
of the repository is wiring around VTK, MySQL, wslink and React.

- **Reslice geometry and display range** of the three MPR scripts
  (`vtk_mpr.py`, `pv_vtk_mpr.py`, `vtk_4view.py`):
  - the volume centre is computed from origin, spacing and whole extent;
  - one of three fixed 4×4 reslice-axes matrices (axial, coronal,
    sagittal) is chosen from an orientation string;
  - the greyscale lookup-table range is `level ± window/2`. The level and
    window come from the first backslash-separated value of the DICOM
    Window Center (0028,1050) and Window Width (0028,1051) elements.
    Value multiplicity is described in DICOM PS3.5 section 6.4 and the
    VOI LUT module in DICOM PS3.3 section C.11.2. The code uses
    `level ± window/2`, not the linear function of PS3.3 section
    C.11.2.1.2, and the model follows the code.
  - `pv_vtk_mpr.py` also computes `bounds` and the camera centre and size
    (`xc`, `yc`, `xd`, `yd`).
- **Drag-to-slice state machine.** A button press sets the `Slicing`
  flag and a release clears it. While slicing, a mouse move translates the
  origin column of the reslice-axes matrix by `sliceSpacing * deltaY`
  along the matrix's third axis. The matrix is a class over a 16-element
  array that is updated in place, element by element, as `SetElement`
  does.
- **Four-pane layout** of `vtk_4view.py`:
  - `getViewport` maps a view number to a quadrant of the unit square;
  - `GetViewNrOnMousePosition` maps a mouse position back to a view
    number;
  - the button callback records the view and chooses the interactor
    style, and the move callback moves only that view's slice;
  - `ViewportBorder` builds the point-id list of the border polyline.
- **Client helpers** of `src/VTKLoadImageDataExample.js`: the in-place
  shuffle of image names, the VOI mapping range, the load-progress
  percentage and the `ORIENTATION` table.

The Python scripts are read as Python 3 throughout: `/` is true
division, both in `int(window)/2` and in the mouse ratios `mouseX/sizeX`.
Under Python 2 both would floor. Numbers are exact: reals for the
floating-point values, integers for the DICOM strings after `int()`.
`int()` is modelled as Python 3 parses a `str`:
- surrounding white space is stripped: ASCII tab to carriage return,
  space, and the non-ASCII characters `str.isspace()` accepts. The
  information separators U+001C to U+001F are not stripped, although
  `str.isspace()` accepts them;
- an optional sign is allowed;
- ASCII digits may be separated by single underscores;
- anything else is an error (`None`).

Modules, one per file:
- `Wrappers`: `Option`.
- `WindowLevel`: the `level ± window/2` range.
- `DicomValues`: first value, Python `int()`, lookup-table range.
- `ResliceGeometry`: centre, axes matrices, slice move on values.
- `ParaViewExtent`: `bounds`, `xc`/`yc`/`xd`/`yd`.
- `ResliceMatrix`: the in-place 4×4 matrix.
- `MprInteraction`: the single-view MPR callbacks.
- `FourViewLayout`: viewports, hit-testing and the border ids.
- `FourViewInteraction`: the four-view callbacks.
- `ImageLoader`: the browser helpers.

## Model

| member | source | states |
|---|---|---|
| WindowLevel.WindowRange | server/vtk/vtk_mpr.py:178-179 | the range is `window` wide and centred on `level` |
| WindowLevel.WindowRangeUnique | server/vtk/pv_vtk_mpr.py:192-193 | a range has width `window` and midpoint `level` if and only if it is `(level - window/2, level + window/2)` |
| DicomValues.FirstValue | server/vtk/vtk_mpr.py:175-176 | `split("\\")[0]` is a prefix of the text with no backslash, ending at the first backslash or at the end |
| DicomValues.FirstValueOfMultiValued | server/vtk/pv_vtk_mpr.py:189-190 | for a multi-valued element, the first value is exactly the text before the first backslash |
| DicomValues.FirstValueOfSingleValued | server/vtk/vtk_4view.py:392-393 | a single-valued element is returned whole |
| DicomValues.TrimStart | server/vtk/vtk_mpr.py:178 | `int()` drops a leading run of whitespace only, and what remains starts with a non-space |
| DicomValues.TrimEnd | server/vtk/vtk_mpr.py:178 | `int()` drops a trailing run of whitespace only, and what remains ends with a non-space |
| DicomValues.TrimStartPadded | server/vtk/vtk_mpr.py:178 | whitespace before a value is removed, and nothing more |
| DicomValues.TrimEndPadded | server/vtk/vtk_mpr.py:178 | whitespace after a value is removed, and nothing more |
| DicomValues.StripPadded | server/vtk/vtk_mpr.py:178-179 | stripping a padded value gives back the value |
| DicomValues.Strip | server/vtk/vtk_mpr.py:178-179 | the stripped text starts and ends with a non-space, and every non-space character of the input is kept |
| DicomValues.StripIsInfix | server/vtk/vtk_mpr.py:178 | the stripped text is one contiguous run of the input, with only white space before and after it |
| DicomValues.TrimStartKeeps | server/vtk/vtk_mpr.py:178 | trimming the front never removes a non-space character |
| DicomValues.TrimEndKeeps | server/vtk/vtk_mpr.py:178 | trimming the end never removes a non-space character |
| DicomValues.TrimStartBlank | server/vtk/vtk_mpr.py:178 | an all-whitespace text strips to the empty text |
| DicomValues.DigitChar | server/vtk/vtk_mpr.py:178 | the digit written for `d` reads back as `d` |
| DicomValues.Digits | server/vtk/vtk_mpr.py:178 | the decimal numeral of a natural number is a non-empty run of digits |
| DicomValues.DigitsValueOfDigits | server/vtk/vtk_mpr.py:178 | reading the decimal numeral of `k` gives `k` |
| DicomValues.DigitsWellFormed | server/vtk/vtk_mpr.py:178 | a decimal numeral is accepted by `int()` |
| DicomValues.ParsePyIntOfStripped | server/vtk/vtk_mpr.py:178 | a text that strips to a numeral parses to that numeral's value |
| DicomValues.ParsePyIntOfStrippedNegative | server/vtk/vtk_mpr.py:178 | a text that strips to `-` and a numeral parses to the negated value |
| DicomValues.ParsePyIntOfDecimalText | server/vtk/vtk_mpr.py:178-179 | any integer written in decimal, with any surrounding whitespace, parses back to itself |
| DicomValues.ParsePyIntRejectsDecimalPoint | server/vtk/vtk_mpr.py:178 | a decimal string such as `"40.5"` raises, modelled as `None` |
| DicomValues.ParsePyInt | server/vtk/vtk_mpr.py:178-179 | text that `int()` accepts is non-blank and holds only white space, digits, signs and underscores |
| DicomValues.ParsePyIntRejectsSeparator | server/vtk/vtk_mpr.py:178 | a value that starts with an information separator (U+001C to U+001F) raises, modelled as `None` |
| DicomValues.ParsePyIntRejectsBlank | server/vtk/vtk_mpr.py:178 | an empty or blank value raises, modelled as `None` |
| DicomValues.LookupTableRange | server/vtk/vtk_mpr.py:175-179 | a range exists exactly when both first values parse; its width is the window and its midpoint the level |
| DicomValues.LookupTableRangeOfIntegers | server/vtk/pv_vtk_mpr.py:189-193 | integer level and window elements, each with its own white-space padding and further values, give `(level - window/2, level + window/2)` |
| DicomValues.FirstPaddedInteger | server/vtk/vtk_4view.py:392-393 | the first value of a padded multi-valued integer element parses to that integer |
| DicomValues.FirstValueOfPadded | server/vtk/vtk_4view.py:392-393 | the first value of such an element is the padded numeral |
| ResliceGeometry.Center | server/vtk/vtk_mpr.py:139-141 | on each axis the centre lies as far from the first voxel as from the last |
| ResliceGeometry.CenterInsideExtent | server/vtk/pv_vtk_mpr.py:152-154 | with non-negative spacing and a non-empty extent, the centre lies between the first and last voxel |
| ResliceGeometry.SelectAxes | server/vtk/vtk_mpr.py:144-170 | the chosen matrix is a rotation (orthonormal columns, determinant 1) translated to the centre; "coronal" and "sagittal" choose their matrix, anything else axial |
| ResliceGeometry.AxesRigid | server/vtk/pv_vtk_mpr.py:157-173 | all three fixed matrices are rotations with the centre as translation |
| ResliceGeometry.SliceMoved | server/vtk/vtk_mpr.py:220-223 | a slice move changes only the translation column, adding `offset` times the third axis |
| ResliceGeometry.SliceMovedZero | server/vtk/vtk_4view.py:443-452 | a move with `deltaY = 0` leaves the matrix unchanged |
| ResliceGeometry.SliceMovedComposes | server/vtk/pv_vtk_mpr.py:234-237 | two moves add up to one move by the sum of the offsets |
| ResliceGeometry.SliceMovedKeepsRigid | server/vtk/vtk_4view.py:449-452 | moving the slice keeps the matrix a rigid transform |
| ResliceGeometry.SliceMoveDistance | server/vtk/vtk_mpr.py:220-223 | on a rigid matrix the origin moves exactly `|offset|` |
| ResliceGeometry.Dragged | server/vtk/vtk_mpr.py:211-223 | a drag of any length never changes the axes or the bottom row of the matrix |
| ResliceGeometry.DraggedTelescopes | server/vtk/vtk_mpr.py:211-223 | a drag through mouse positions `y0 … yn` moves the slice by `sliceSpacing * (yn - y0)` in total |
| ParaViewExtent.Bounds | server/vtk/pv_vtk_mpr.py:147 | `bounds[i] * spacing[i div 2] == extent[i]`; none when a spacing is zero (division by zero) |
| ParaViewExtent.CameraXc | server/vtk/pv_vtk_mpr.py:248 | `xc` is the x coordinate of the volume centre |
| ParaViewExtent.CameraYc | server/vtk/pv_vtk_mpr.py:249 | `yc` is the y coordinate of the volume centre |
| ParaViewExtent.CameraSize | server/vtk/pv_vtk_mpr.py:250-251 | `xd` and `yd` are positive for a non-empty extent with positive spacing |
| ParaViewExtent.CameraFootprint | server/vtk/pv_vtk_mpr.py:248-251 | the camera footprint runs from half a voxel before the first voxel to half a voxel past the last |
| ResliceMatrix.Matrix4x4.constructor | server/vtk/vtk_mpr.py:144-148 | `DeepCopy` of 16 values gives a fresh matrix with those elements |
| ResliceMatrix.Matrix4x4.SetElement | server/vtk/vtk_mpr.py:221 | element `(i, j)` becomes `v` and nothing else changes |
| ResliceMatrix.Matrix4x4.MoveSlice | server/vtk/vtk_mpr.py:220-223 | the matrix becomes its slice-moved value for `offset` |
| MprInteraction.MprSession.constructor | server/vtk/vtk_mpr.py:163-170 | starts not slicing, with the axes chosen for the orientation |
| MprInteraction.MprSession.ButtonCallback | server/vtk/vtk_mpr.py:205-209 | press sets `Slicing` to 1, release sets it to 0; the session stays valid |
| MprInteraction.MprSession.MouseMoveCallback | server/vtk/pv_vtk_mpr.py:225-240 | while slicing the axes move by `sliceSpacing * deltaY` along the slice normal; otherwise they are unchanged and the move is forwarded to the style |
| FourViewLayout.GetViewport | server/vtk/vtk_4view.py:148-159 | views 0 to 3 are the half-size quadrants with lower-left corners (0, 0.5), (0.5, 0.5), (0, 0) and (0.5, 0); any other number is the full window |
| FourViewLayout.QuadrantsTile | server/vtk/vtk_4view.py:148-156 | the four quadrants cover the unit square and their interiors are disjoint |
| FourViewLayout.RatioAgainstHalf | server/vtk/vtk_4view.py:413-414 | `mouse/size < 0.5` if and only if `2 * mouse < size`, and likewise for `>` |
| FourViewLayout.RatioCompared | server/vtk/vtk_4view.py:413-414 | comparing a ratio with a constant is comparing by cross-multiplication |
| FourViewLayout.ViewNrAt | server/vtk/vtk_4view.py:410-422 | the view is always 0 to 3, and any point on a midline gives 1 |
| FourViewLayout.ViewNrAtHitsContainingView | server/vtk/vtk_4view.py:413-422 | off both midlines inside the window, a viewport contains the point if and only if its number is the one returned |
| FourViewLayout.ViewNrAtInvertsGetViewport | server/vtk/vtk_4view.py:148-156 | a point strictly inside view `v`'s viewport is reported as `v` |
| FourViewLayout.LeftMidlineFallsOutsideView1 | server/vtk/vtk_4view.py:415-422 | on the horizontal midline in the left half the result is 1, although only views 0 and 2 contain the point |
| FourViewLayout.BorderIds | server/vtk/vtk_4view.py:113-122 | five ids when `last`, four otherwise; they start with corners 0 to 3 in order, and the polyline ends where it starts if and only if `last` |
| FourViewLayout.BorderPointIds | server/vtk/vtk_4view.py:113-122 | the loop fills the ids `[0,1,2,3]`, closed with `0` only when `last` |
| FourViewLayout.BorderIdsTraceSides | server/vtk/vtk_4view.py:94-122 | every id names a corner, every segment is a viewport side, and the right side is drawn if and only if `last` |
| FourViewInteraction.StyleFor | server/vtk/vtk_4view.py:426-429 | the trackball style is chosen exactly for view numbers outside 0 to 2 |
| FourViewInteraction.FourViewSession.constructor | server/vtk/vtk_4view.py:397-408 | views 0, 1, 2 are axial, coronal and sagittal reslices of the centre; `Slicing` and `ViewNr` start at 0 |
| FourViewInteraction.FourViewSession.ButtonCallback | server/vtk/vtk_4view.py:424-436 | `ViewNr` becomes the view under the mouse; image style for views 0 to 2, trackball for view 3; press sets `Slicing` to 1, release to 0 |
| FourViewInteraction.FourViewSession.MouseMoveCallback | server/vtk/vtk_4view.py:439-457 | only when slicing in views 0 to 2 does the move shift that one view's slice by `sliceSpacing * deltaY`; the other reslices are unchanged; otherwise it is forwarded exactly when the mouse is over view 3; a zero-size window is allowed while slicing, where the source does not divide by it |
| ImageLoader.Swap | src/VTKLoadImageDataExample.js:50-52 | the two positions are exchanged, all others kept, the multiset unchanged |
| ImageLoader.ShuffleFrom | src/VTKLoadImageDataExample.js:48-53 | the loop from `index` down to 1, on values, keeps the length |
| ImageLoader.Shuffled | src/VTKLoadImageDataExample.js:47-54 | the whole shuffle has the same length and the same multiset of names as its input |
| ImageLoader.ShuffleStep | src/VTKLoadImageDataExample.js:48-53 | each step swaps `index` with a random index in `[0, index)`, and the remaining draws fit the next step |
| ImageLoader.ShuffleImageNames | src/VTKLoadImageDataExample.js:47-54 | the array ends as the shuffle of its old contents by the given random indices |
| ImageLoader.ShuffleFromPermutes | src/VTKLoadImageDataExample.js:47-54 | every stage of the loop keeps the multiset of names |
| ImageLoader.ShuffleFromKeepsAbove | src/VTKLoadImageDataExample.js:48-53 | positions above the current index are never touched again |
| ImageLoader.ShuffledShort | src/VTKLoadImageDataExample.js:48 | zero or one name is left unchanged |
| ImageLoader.ShuffledLastComesFromEarlier | src/VTKLoadImageDataExample.js:48-52 | the last name always comes from an earlier position, because the draw for it lies in `[0, index)` |
| ImageLoader.VoiMappingRange | src/VTKLoadImageDataExample.js:28-32 | with centre 40 and width 400 the mapping range is -160 to 240 |
| ImageLoader.PercentComplete | src/VTKLoadImageDataExample.js:136-139 | the percentage is the floor of `numberProcessed * 100 / length` |
| ImageLoader.PercentCompleteBounds | src/VTKLoadImageDataExample.js:136-139 | while processing, the percentage is in [0, 100] and is 100 exactly when all images are done |
| ImageLoader.PercentCompleteMonotone | src/VTKLoadImageDataExample.js:136-139 | processing more images never lowers the percentage |
| ImageLoader.OrientationTableIsOrthonormal | src/VTKLoadImageDataExample.js:13-26 | the three names are the keys; each normal is a unit axis and each view-up a unit vector orthogonal to it; the normals are pairwise orthogonal |

## Left out

- Reading the data is not modelled: MySQL access, DICOM file sorting and
  reading, and metadata lookup. Level and window strings, extent, spacing
  and origin are inputs.
- VTK rendering internals are not modelled: lookup-table building,
  resampling, ray casting and transfer-function interpolation. Only the
  values handed to VTK are.
- Volume rendering (`pv_vtk_vrt.py`, `vtk_vrt.py`, `doVolumeRendering`)
  only passes constants to VTK and is left out.
- `GetDiagonalFromBounds`, `originOut` and `setupCamera` are left out.
  They delegate to `vtkBoundingBox` or set up the camera over floats.
- Web-socket server setup, protocol registration, argument parsing and the
  virtual-environment `exec` are process plumbing and are left out.
- `window.Render()` in the MPR move callbacks calls `Render` on the window
  string; the model ends at the matrix update. The catch-all that prints
  and exits is left out too. `renWin.Render()` in the four-view script is
  rendering.
- The React components, `getImageIds` and `componentDidMount` are UI and
  network clients and are left out. The `console.log` of the percentage
  is output.
- The interactor style's own `OnLeftButtonDown`, `OnLeftButtonUp` and
  `OnMouseMove` are VTK behaviour. The model records only which style is
  set and whether a move is forwarded.
- The `logging.warning` for an invalid view number is output. Only the
  returned full window is modelled.
- Floating-point rounding is not modelled; all arithmetic is exact.
- FourViewLayout.ViewNrAt: requires a positive window size. With a zero
  size Python raises `ZeroDivisionError`, which the model does not
  represent.
- FourViewInteraction.FourViewSession.ButtonCallback: requires a positive
  window size, because it calls `ViewNrAt`. The move callback requires it
  only when it is not slicing, the one branch where the source divides by
  the size.
- DicomValues.ParsePyInt: accepts ASCII digits only. Python's `int()` also
  accepts other Unicode decimal digits. It also has no length limit, while
  CPython (from 3.11, and in the 3.7 to 3.10 security releases) raises
  `ValueError` for a decimal string of more than 4300 digits. So
  `ParsePyIntOfDecimalText` also covers integers that CPython refuses.
- DicomValues.LookupTableRange: gives a range for every pair of parsed
  integers. The source raises `OverflowError` when `int(level)` or
  `int(window)/2` lies beyond the double range (about ±1.8e308). The
  model does not represent that error.
- DicomValues.LookupTableRangeOfIntegers: claims a range for every pair of
  integers, including those beyond the double range, where the source
  raises `OverflowError`.
- ResliceMatrix.Matrix4x4.MoveSlice: takes `sliceSpacing * deltaY` as an
  input. The slice spacing read back from the reslice output is not
  modelled.
- ImageLoader.ShuffleImageNames: takes the values of
  `Math.floor(Math.random() * index)` as an input sequence of draws.
  Randomness and the distribution of orders are not modelled.
- ImageLoader.PercentComplete: requires at least one image. With none,
  JavaScript divides by zero and prints `NaN`.
