/** The extent arithmetic of the ParaView-web reslice script: the
    per-axis bounds obtained by dividing the whole extent by the spacing,
    and the camera centre and size (`xc`, `yc`, `xd`, `yd`) computed from
    origin, extent and spacing. */
module ParaViewExtent {
  import opened Wrappers
  import opened ResliceGeometry

  /** `[extent[0]/spacing[0], extent[1]/spacing[0], extent[2]/spacing[1],
      …, extent[5]/spacing[2]]`; `None` where a spacing is zero and the
      division raises ZeroDivisionError. */
  function Bounds(extent: seq<int>, spacing: seq<real>): (b: Option<seq<real>>)
    requires |extent| == 6 && |spacing| == 3
    ensures b.Some? <==> (forall a :: 0 <= a < 3 ==> spacing[a] != 0.0)
    ensures b.Some? ==> |b.value| == 6
    ensures b.Some? ==> forall i :: 0 <= i < 6 ==> b.value[i] * spacing[i / 2] == extent[i] as real
  {
    if spacing[0] == 0.0 || spacing[1] == 0.0 || spacing[2] == 0.0 then None
    else Some(seq(6, i requires 0 <= i < 6 => extent[i] as real / spacing[i / 2]))
  }

  /** `xc = origin[0] + 0.5*(extent[0] + extent[1])*spacing[0]`: the same
      value as the x coordinate of the volume centre. */
  function CameraXc(origin: seq<real>, spacing: seq<real>, extent: seq<int>): (xc: real)
    requires |origin| == 3 && |spacing| == 3 && |extent| == 6
    ensures xc == Center(origin, spacing, extent)[0]
  {
    origin[0] + 0.5 * (extent[0] + extent[1]) as real * spacing[0]
  }

  /** `yc`, the y counterpart of `xc`. */
  function CameraYc(origin: seq<real>, spacing: seq<real>, extent: seq<int>): (yc: real)
    requires |origin| == 3 && |spacing| == 3 && |extent| == 6
    ensures yc == Center(origin, spacing, extent)[1]
  {
    origin[1] + 0.5 * (extent[2] + extent[3]) as real * spacing[1]
  }

  /** `(extent[2a+1] - extent[2a] + 1)*spacing[a]`: the physical length
      covered by the voxels of axis a (`xd` for a = 0, `yd` for a = 1). */
  function CameraSize(spacing: seq<real>, extent: seq<int>, a: nat): (d: real)
    requires |spacing| == 3 && |extent| == 6 && a < 2
    ensures extent[2 * a] <= extent[2 * a + 1] && spacing[a] > 0.0 ==> d > 0.0
  {
    (extent[2 * a + 1] - extent[2 * a] + 1) as real * spacing[a]
  }

  /** The interval of length `xd` (or `yd`) centred on `xc` (or `yc`)
      is the footprint of the voxels: from half a voxel before the first
      to half a voxel past the last. */
  lemma CameraFootprint(origin: seq<real>, spacing: seq<real>, extent: seq<int>, a: nat)
    requires |origin| == 3 && |spacing| == 3 && |extent| == 6 && a < 2
    ensures var c := if a == 0 then CameraXc(origin, spacing, extent) else CameraYc(origin, spacing, extent);
      var d := CameraSize(spacing, extent, a);
      c - d / 2.0 == Position(origin[a], spacing[a], extent[2 * a]) - spacing[a] / 2.0 &&
      c + d / 2.0 == Position(origin[a], spacing[a], extent[2 * a + 1]) + spacing[a] / 2.0
  {
    var c := Center(origin, spacing, extent)[a];
    var lo, hi := extent[2 * a] as real, extent[2 * a + 1] as real;
    assert c == origin[a] + spacing[a] * 0.5 * (lo + hi);
    assert CameraSize(spacing, extent, a) == (hi - lo + 1.0) * spacing[a];
  }
}
