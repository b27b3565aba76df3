/** The helpers of the browser example that loads a DICOM series into a
    vtk.js volume: the shuffle of image names, the VOI mapping range, the
    load-progress percentage and the table of slice orientations. */
module ImageLoader {
  import opened WindowLevel

  // ---------------------------------------------------------------------
  // shuffleImageNames

  /** `s` with positions i and j exchanged, as the three assignments
      through `temporaryValue` leave it. */
  function Swap<T>(s: seq<T>, i: nat, j: nat): (r: seq<T>)
    requires i < |s| && j < |s|
    ensures |r| == |s| && r[i] == s[j] && r[j] == s[i]
    ensures forall p :: 0 <= p < |s| && p != i && p != j ==> r[p] == s[p]
    ensures multiset(r) == multiset(s)
  {
    s[i := s[j]][j := s[i]]
  }

  /** `draws` holds the random indices of the remaining iterations, from
      `index` down to 1: the one for `index - k` lies in [0, index - k),
      as `Math.floor(Math.random() * (index - k))` does. */
  ghost predicate DrawsFor(index: int, draws: seq<int>)
  {
    |draws| == (if index > 0 then index else 0) &&
    forall k :: 0 <= k < |draws| ==> 0 <= draws[k] < index - k
  }

  /** The loop from `index` down to 1, on values. */
  ghost function ShuffleFrom<T>(s: seq<T>, index: int, draws: seq<int>): (r: seq<T>)
    requires index < |s| && DrawsFor(index, draws)
    ensures |r| == |s|
    decreases index
  {
    if index <= 0 then s
    else ShuffleFrom(Swap(s, index, draws[0]), index - 1, draws[1..])
  }

  /** The whole shuffle of `s`. */
  ghost function Shuffled<T>(s: seq<T>, draws: seq<int>): (r: seq<T>)
    requires DrawsFor(|s| - 1, draws)
    ensures |r| == |s| && multiset(r) == multiset(s)
  {
    ShuffleFromPermutes(s, |s| - 1, draws);
    ShuffleFrom(s, |s| - 1, draws)
  }

  /** The step the loop body takes at `index`. */
  lemma ShuffleStep<T>(s: seq<T>, index: int, draws: seq<int>)
    requires 0 < index < |s| && DrawsFor(index, draws)
    ensures 0 <= draws[0] < index && DrawsFor(index - 1, draws[1..])
    ensures ShuffleFrom(s, index, draws) == ShuffleFrom(Swap(s, index, draws[0]), index - 1, draws[1..])
  {
    forall k | 0 <= k < |draws[1..]|
      ensures 0 <= draws[1..][k] < index - 1 - k
    {
      assert draws[1..][k] == draws[k + 1];
    }
  }

  /** `shuffleImageNames`, with its random indices supplied as `draws`. */
  method ShuffleImageNames<T>(imageNames: array<T>, draws: seq<int>)
    requires DrawsFor(imageNames.Length - 1, draws)
    modifies imageNames
    ensures imageNames[..] == Shuffled(old(imageNames[..]), draws)
  {
    var index := imageNames.Length - 1;
    var k := 0;
    assert draws[k..] == draws;
    while index > 0
      invariant -1 <= index < imageNames.Length
      invariant 0 <= k <= |draws| && DrawsFor(index, draws[k..])
      invariant ShuffleFrom(imageNames[..], index, draws[k..]) == Shuffled(old(imageNames[..]), draws)
    {
      ghost var before := imageNames[..];
      ShuffleStep(before, index, draws[k..]);
      assert draws[k..][1..] == draws[k + 1..];
      var randomIndex := draws[k];
      var temporaryValue := imageNames[index];
      imageNames[index] := imageNames[randomIndex];
      imageNames[randomIndex] := temporaryValue;
      assert imageNames[..] == Swap(before, index, randomIndex);
      index := index - 1;
      k := k + 1;
    }
  }

  /** The shuffle permutes: same multiset of names. */
  lemma {:induction false} ShuffleFromPermutes<T>(s: seq<T>, index: int, draws: seq<int>)
    requires index < |s| && DrawsFor(index, draws)
    ensures multiset(ShuffleFrom(s, index, draws)) == multiset(s)
    decreases index
  {
    if index > 0 {
      ShuffleFromPermutes(Swap(s, index, draws[0]), index - 1, draws[1..]);
    }
  }

  /** Positions above the current index are never touched again. */
  lemma {:induction false} ShuffleFromKeepsAbove<T>(s: seq<T>, index: int, draws: seq<int>, p: int)
    requires index < |s| && DrawsFor(index, draws)
    requires 0 <= p < |s| && index < p
    ensures ShuffleFrom(s, index, draws)[p] == s[p]
    decreases index
  {
    if index > 0 {
      ShuffleFromKeepsAbove(Swap(s, index, draws[0]), index - 1, draws[1..], p);
    }
  }

  /** Zero or one name: the loop does not run. */
  lemma ShuffledShort<T>(s: seq<T>, draws: seq<int>)
    requires |s| <= 1 && DrawsFor(|s| - 1, draws)
    ensures Shuffled(s, draws) == s
  {
  }

  /** Because the random index for position `index` is drawn from
      [0, index) rather than [0, index], the last name always ends up
      holding a name from an earlier position: with distinct names the
      last one always moves, so not every order can come out. */
  lemma ShuffledLastComesFromEarlier<T>(s: seq<T>, draws: seq<int>)
    requires |s| >= 2 && DrawsFor(|s| - 1, draws)
    ensures draws[0] < |s| - 1
    ensures |Shuffled(s, draws)| == |s| && Shuffled(s, draws)[|s| - 1] == s[draws[0]]
  {
    var n := |s|;
    var t := Swap(s, n - 1, draws[0]);
    ShuffleFromKeepsAbove(t, n - 2, draws[1..], n - 1);
  }

  // ---------------------------------------------------------------------
  // VOI range

  /** `voi`: window centre 40 and width 400 (in SUV for the PET example). */
  const VoiWindowCenter: real := 40.0
  const VoiWindowWidth: real := 400.0

  /** `low` and `high` given to the RGB transfer function. */
  function VoiMappingRange(): (r: Range)
    ensures r.low == -160.0 && r.high == 240.0
  {
    WindowRange(VoiWindowCenter, VoiWindowWidth)
  }

  // ---------------------------------------------------------------------
  // Progress

  /** `Math.floor((numberProcessed * 100) / imageIds.length)`: the largest
      whole percentage not above the processed share. */
  function PercentComplete(numberProcessed: nat, imageCount: nat): (p: int)
    requires imageCount > 0
    ensures p * imageCount <= numberProcessed * 100 < (p + 1) * imageCount
  {
    numberProcessed * 100 / imageCount
  }

  /** Scaling by a positive count keeps the order of integers. */
  lemma ScaleOrder(x: int, y: int, c: int)
    requires c > 0
    ensures x * c <= y * c <==> x <= y
  {
    assert y * c - x * c == (y - x) * c;
  }

  /** While the images are being processed the percentage stays within
      [0, 100] and reaches 100 exactly when the last one is done. */
  lemma PercentCompleteBounds(numberProcessed: nat, imageCount: nat)
    requires imageCount > 0 && numberProcessed <= imageCount
    ensures 0 <= PercentComplete(numberProcessed, imageCount) <= 100
    ensures PercentComplete(numberProcessed, imageCount) == 100 <==> numberProcessed == imageCount
  {
    var p := PercentComplete(numberProcessed, imageCount);
    ScaleOrder(p, 100, imageCount);
    ScaleOrder(p + 1, 0, imageCount);
    ScaleOrder(p + 1, 100, imageCount);
    ScaleOrder(imageCount, numberProcessed, 100);
  }

  /** Processing more images never lowers the percentage. */
  lemma PercentCompleteMonotone(a: nat, b: nat, imageCount: nat)
    requires imageCount > 0 && a <= b
    ensures PercentComplete(a, imageCount) <= PercentComplete(b, imageCount)
  {
    var pa, pb := PercentComplete(a, imageCount), PercentComplete(b, imageCount);
    ScaleOrder(pb + 1, pa, imageCount);
  }

  // ---------------------------------------------------------------------
  // ORIENTATION

  datatype SliceOrientation = SliceOrientation(slicePlaneNormal: seq<int>, sliceViewUp: seq<int>)

  /** The `ORIENTATION` table. */
  const Orientation: map<string, SliceOrientation> := map[
    "AXIAL" := SliceOrientation([0, 0, 1], [0, -1, 0]),
    "SAGITTAL" := SliceOrientation([1, 0, 0], [0, 0, 1]),
    "CORONAL" := SliceOrientation([0, 1, 0], [0, 0, 1])
  ]

  function IntDot(u: seq<int>, v: seq<int>): int
    requires |u| == 3 && |v| == 3
  {
    u[0] * v[0] + u[1] * v[1] + u[2] * v[2]
  }

  /** A coordinate axis: entries 0 or 1, exactly one of them 1. */
  predicate IsUnitAxis(v: seq<int>)
  {
    |v| == 3 && IntDot(v, v) == 1 && forall b :: 0 <= b < 3 ==> v[b] == 0 || v[b] == 1
  }

  /** Every slice normal is a coordinate axis, every view-up vector a unit
      vector perpendicular to it, and the three normals are the three
      different axes. */
  lemma OrientationTableIsOrthonormal()
    ensures Orientation.Keys == {"AXIAL", "SAGITTAL", "CORONAL"}
    ensures forall name :: name in Orientation ==>
      IsUnitAxis(Orientation[name].slicePlaneNormal) && |Orientation[name].sliceViewUp| == 3 &&
      IntDot(Orientation[name].sliceViewUp, Orientation[name].sliceViewUp) == 1 &&
      IntDot(Orientation[name].slicePlaneNormal, Orientation[name].sliceViewUp) == 0
    ensures IntDot(Orientation["AXIAL"].slicePlaneNormal, Orientation["SAGITTAL"].slicePlaneNormal) == 0
    ensures IntDot(Orientation["AXIAL"].slicePlaneNormal, Orientation["CORONAL"].slicePlaneNormal) == 0
    ensures IntDot(Orientation["SAGITTAL"].slicePlaneNormal, Orientation["CORONAL"].slicePlaneNormal) == 0
  {
  }
}
