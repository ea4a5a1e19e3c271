/** The path-blend material parameters (materials/path_blend.rs): a fixed
  * table of 256 world-XZ segments and four packed u32 flags
  * (x = falloff mode, y = invert, z = segment count, w = presence bits). */
module PathBlend {
  import opened Common
  import opened Geometry

  const MaxPathSegments: nat := 256

  /** One table slot, `(ax, az, bx, bz)`. */
  datatype Segment = Segment(ax: real, az: real, bx: real, bz: real)

  const ZeroSegment := Segment(0.0, 0.0, 0.0, 0.0)

  datatype Flags = Flags(x: u32, y: u32, z: u32, w: u32)

  /** The shading scalars the setters never touch. */
  datatype Shading = Shading(fadeRadius: real, thicknessScale: real, baseWidth: real,
                             minBlend: real, maxBlend: real, nearMetallic: real, nearRoughness: real,
                             nearBaseColor: (real, real, real, real))

  const DefaultShading := Shading(4.0, 1.0, 0.0, 0.0, 1.0, 0.0, 0.5, (1.0, 1.0, 1.0, 1.0))

  /** The falloff modes of flags.x. */
  const Smoothstep: u32 := 0
  const InverseSquared: u32 := 1
  const Linear: u32 := 2

  /** The segment between two consecutive points, projected onto XZ. */
  function SegmentOf(a: Vec3, b: Vec3): Segment
  {
    Segment(a.x, a.z, b.x, b.z)
  }

  /** `points.windows(2)`: one segment per pair of consecutive points. */
  function Windows(points: seq<Vec3>): (w: seq<Segment>)
    ensures |w| == if |points| >= 2 then |points| - 1 else 0
    ensures forall i :: 0 <= i < |w| ==> w[i] == SegmentOf(points[i], points[i + 1])
  {
    if |points| < 2 then [] else [SegmentOf(points[0], points[1])] + Windows(points[1..])
  }

  /** The windows of each polyline in turn, with nothing joining one
    * polyline's last point to the next one's first. */
  function PolylineSegments(polylines: seq<seq<Vec3>>): seq<Segment>
  {
    if |polylines| == 0 then []
    else PolylineSegments(polylines[..|polylines| - 1]) + Windows(polylines[|polylines| - 1])
  }

  function Zeros(n: nat): (z: seq<Segment>)
    ensures |z| == n && forall i :: 0 <= i < n ==> z[i] == ZeroSegment
  {
    seq(n, _ => ZeroSegment)
  }

  /** How many of `segs` fit in the table. */
  function Stored(segs: seq<Segment>): (n: nat)
    ensures n <= MaxPathSegments && n <= |segs|
    ensures n == |segs| || n == MaxPathSegments
  {
    Min(|segs|, MaxPathSegments)
  }

  /** The table after writing `segs`: the first `Stored(segs)` of them, then zeros. */
  function Layout(segs: seq<Segment>): (t: seq<Segment>)
    ensures |t| == MaxPathSegments
  {
    segs[..Stored(segs)] + Zeros(MaxPathSegments - Stored(segs))
  }

  /** A segment setter's flags: falloff and invert kept, the count stored, presence cleared. */
  function WithCount(f: Flags, count: u32): Flags
  {
    Flags(f.x, f.y, count, 0)
  }

  /** `albedo | mr << 1 | ao << 2`. */
  function PresenceBits(albedo: bool, mr: bool, ao: bool): (bits: u32)
    ensures bits <= 7
  {
    (if albedo then 1 else 0) + (if mr then 2 else 0) + (if ao then 4 else 0)
  }

  function WithPresence(f: Flags, albedo: bool, mr: bool, ao: bool): Flags
  {
    Flags(f.x, f.y, f.z, PresenceBits(albedo, mr, ao))
  }

  class PathBlendParams {
    var shading: Shading
    var flags: Flags
    const segments: array<Segment>

    ghost predicate Valid()
      reads this
    {
      segments.Length == MaxPathSegments
    }

    /** `Default::default()`: an empty table and all flags zero. */
    constructor Default()
      ensures Valid() && fresh(segments)
      ensures shading == DefaultShading && flags == Flags(0, 0, 0, 0)
      ensures segments[..] == Zeros(MaxPathSegments)
    {
      shading := DefaultShading;
      flags := Flags(0, 0, 0, 0);
      segments := new Segment[MaxPathSegments](_ => ZeroSegment);
    }

    /** Zeroes the slots from `count` on, keeping those before. */
    method ZeroFrom(count: nat)
      requires Valid() && count <= MaxPathSegments
      modifies segments
      ensures segments[..] == old(segments[..count]) + Zeros(MaxPathSegments - count)
    {
      for i := count to MaxPathSegments
        invariant segments[..count] == old(segments[..count])
        invariant forall j :: count <= j < i ==> segments[j] == ZeroSegment
      {
        segments[i] := ZeroSegment;
      }
      assert segments[..] == segments[..count] + segments[count..];
    }

    /** `set_segments_from_points`. */
    method SetSegmentsFromPoints(points: seq<Vec3>)
      requires Valid()
      modifies this, segments
      ensures Valid() && shading == old(shading)
      ensures segments[..] == Layout(Windows(points))
      ensures flags == WithCount(old(flags), Stored(Windows(points)))
    {
      ghost var w := Windows(points);
      var count: nat := 0;
      if |points| >= 2 {
        var i := 0;
        while i < |points| - 1
          invariant 0 <= i <= |points| - 1 && count == i <= MaxPathSegments
          invariant segments[..count] == w[..count]
          modifies segments
        {
          if count >= MaxPathSegments {
            break;
          }
          segments[count] := SegmentOf(points[i], points[i + 1]);
          count := count + 1;
          i := i + 1;
        }
      }
      assert count == Stored(w);
      ZeroFrom(count);
      flags := Flags(flags.x, flags.y, count, 0);
    }

    /** `clear_segments`. */
    method ClearSegments()
      requires Valid()
      modifies this, segments
      ensures Valid() && shading == old(shading)
      ensures segments[..] == Zeros(MaxPathSegments)
      ensures flags == WithCount(old(flags), 0)
    {
      for i := 0 to MaxPathSegments
        invariant forall j :: 0 <= j < i ==> segments[j] == ZeroSegment
        modifies segments
      {
        segments[i] := ZeroSegment;
      }
      flags := Flags(flags.x, flags.y, 0, 0);
    }

    /** `set_segments_from_polylines`: the windows of every polyline, in order,
      * until the table is full. */
    method SetSegmentsFromPolylines(polylines: seq<seq<Vec3>>)
      requires Valid()
      modifies this, segments
      ensures Valid() && shading == old(shading)
      ensures segments[..] == Layout(PolylineSegments(polylines))
      ensures flags == WithCount(old(flags), Stored(PolylineSegments(polylines)))
    {
      var count: nat := 0;
      var p := 0;
      while p < |polylines|
        invariant 0 <= p <= |polylines|
        invariant count == Stored(PolylineSegments(polylines[..p]))
        invariant segments[..count] == PolylineSegments(polylines[..p])[..count]
        modifies segments
      {
        ghost var before := PolylineSegments(polylines[..p]);
        assert polylines[..p + 1][..p] == polylines[..p];
        count := WriteWindows(polylines[p], before, count);
        assert before + Windows(polylines[p]) == PolylineSegments(polylines[..p + 1]);
        if count >= MaxPathSegments {
          PolylinePrefix(polylines, p + 1);
          StoredPrefix(PolylineSegments(polylines[..p + 1]), PolylineSegments(polylines), count);
          break;
        }
        p := p + 1;
      }
      assert polylines[..|polylines|] == polylines;
      ZeroFrom(count);
      flags := Flags(flags.x, flags.y, count, 0);
    }

    /** The inner loop: the windows of one polyline written from `count` on,
      * until the table is full. */
    method WriteWindows(poly: seq<Vec3>, ghost before: seq<Segment>, count: nat) returns (count': nat)
      requires Valid() && count == Stored(before) && segments[..count] == before[..count]
      modifies segments
      ensures count' == Stored(before + Windows(poly))
      ensures segments[..count'] == (before + Windows(poly))[..count']
    {
      count' := count;
      if |poly| >= 2 {
        var i := 0;
        while i < |poly| - 1
          invariant 0 <= i <= |poly| - 1
          invariant count' == Stored(before + Windows(poly)[..i])
          invariant segments[..count'] == (before + Windows(poly)[..i])[..count']
        {
          if count' >= MaxPathSegments {
            break;
          }
          assert Windows(poly)[..i + 1] == Windows(poly)[..i] + [SegmentOf(poly[i], poly[i + 1])];
          assert before + Windows(poly)[..i + 1] == (before + Windows(poly)[..i]) + [SegmentOf(poly[i], poly[i + 1])];
          segments[count'] := SegmentOf(poly[i], poly[i + 1]);
          count' := count' + 1;
          i := i + 1;
        }
        StoredPrefix(before + Windows(poly)[..i], before + Windows(poly), count');
      } else {
        assert before + Windows(poly) == before;
      }
    }

    /** `set_falloff_mode`: only flags.x changes. */
    method SetFalloffMode(mode: u32)
      modifies this
      ensures shading == old(shading) && segments[..] == old(segments[..])
      ensures flags == Flags(mode, old(flags).y, old(flags).z, old(flags).w)
    {
      flags := Flags(mode, flags.y, flags.z, flags.w);
    }

    /** `set_invert`: only flags.y changes, to 1 or 0. */
    method SetInvert(invert: bool)
      modifies this
      ensures shading == old(shading) && segments[..] == old(segments[..])
      ensures flags == Flags(old(flags).x, if invert then 1 else 0, old(flags).z, old(flags).w)
    {
      flags := Flags(flags.x, if invert then 1 else 0, flags.z, flags.w);
    }

    /** `set_near_presence`: the bit mask goes into flags.w. */
    method SetNearPresence(albedo: bool, mr: bool, ao: bool)
      modifies this
      ensures shading == old(shading) && segments[..] == old(segments[..])
      ensures flags == WithPresence(old(flags), albedo, mr, ao)
    {
      var bits: bv32 := 0;
      if albedo { bits := bits | 1; }
      if mr { bits := bits | (1 << 1); }
      if ao { bits := bits | (1 << 2); }
      assert bits as int == PresenceBits(albedo, mr, ao);
      flags := Flags(flags.x, flags.y, flags.z, bits as int);
    }
  }

  /** `make_path_blend_material`'s parameter preparation: the path's
    * segments are written first and the presence bits second, so both the
    * count and the bits end up in the flags. */
  method PreparePathBlendParams(params: PathBlendParams, points: seq<Vec3>,
                                nearAlbedo: bool, nearMetallicRoughness: bool, nearAo: bool)
    requires params.Valid()
    modifies params, params.segments
    ensures params.Valid() && params.shading == old(params.shading)
    ensures params.segments[..] == Layout(Windows(points))
    ensures params.flags == WithPresence(WithCount(old(params.flags), Stored(Windows(points))),
                                         nearAlbedo, nearMetallicRoughness, nearAo)
  {
    params.SetSegmentsFromPoints(points);
    params.SetNearPresence(nearAlbedo, nearMetallicRoughness, nearAo);
  }

  // ---------------------------------------------------------------------------
  // Properties

  /** A prefix of a sequence stores the same first `count` elements when the
    * table is already full or the prefix is the whole sequence. */
  lemma StoredPrefix(a: seq<Segment>, b: seq<Segment>, count: nat)
    requires a <= b && count == Stored(a)
    requires count == MaxPathSegments || a == b
    ensures count == Stored(b) && a[..count] == b[..count]
  {
  }

  /** The segments of the first `p` polylines begin the segments of all of them. */
  lemma {:induction false} PolylinePrefix(polylines: seq<seq<Vec3>>, p: nat)
    requires p <= |polylines|
    ensures PolylineSegments(polylines[..p]) <= PolylineSegments(polylines)
    decreases |polylines| - p
  {
    if p < |polylines| {
      PolylinePrefix(polylines, p + 1);
      assert polylines[..p + 1][..p] == polylines[..p];
    } else {
      assert polylines[..p] == polylines;
    }
  }

  /** A table holds at most 256 segments: one fewer than the points, or none. */
  lemma SegmentCount(points: seq<Vec3>)
    ensures Stored(Windows(points)) == if |points| >= 2 then Min(|points| - 1, MaxPathSegments) else 0
  {
  }

  /** The table's slots: segment `i` joins points `i` and `i + 1`, and every
    * slot from the count on is zero. */
  lemma LayoutSlots(points: seq<Vec3>)
    ensures var t := Layout(Windows(points));
      var n := Stored(Windows(points));
      (forall i :: 0 <= i < n ==> t[i] == SegmentOf(points[i], points[i + 1])) &&
      (forall i :: n <= i < MaxPathSegments ==> t[i] == ZeroSegment)
  {
  }

  /** A polyline of fewer than two points contributes nothing. */
  lemma ShortPolylineSkipped(polylines: seq<seq<Vec3>>, poly: seq<Vec3>)
    requires |poly| < 2
    ensures PolylineSegments(polylines + [poly]) == PolylineSegments(polylines)
  {
    assert (polylines + [poly])[..|polylines|] == polylines;
  }

  /** Polylines are not bridged: two polylines give their windows one after
    * the other, one segment fewer than the windows of the joined points. */
  lemma PolylinesNotBridged(a: seq<Vec3>, b: seq<Vec3>)
    requires |a| >= 1 && |b| >= 1
    ensures PolylineSegments([a, b]) == Windows(a) + Windows(b)
    ensures |Windows(a + b)| == |Windows(a)| + |Windows(b)| + 1
    ensures Windows(a + b)[|Windows(a)|] == SegmentOf(a[|a| - 1], b[0])
  {
    assert [a, b][..1] == [a];
    SinglePolyline(a);
    assert (a + b)[|a| - 1] == a[|a| - 1] && (a + b)[|a|] == b[0];
  }

  /** A single polyline is laid out exactly as the points setter does. */
  lemma SinglePolyline(points: seq<Vec3>)
    ensures PolylineSegments([points]) == Windows(points)
  {
    assert [points][..0] == [];
  }

  /** The presence bits decode back to the three flags. */
  lemma PresenceBitsDecode(albedo: bool, mr: bool, ao: bool)
    ensures var bits := PresenceBits(albedo, mr, ao);
      (bits % 2 == 1 <==> albedo) && ((bits / 2) % 2 == 1 <==> mr) && (bits / 4 == 1 <==> ao)
  {
  }

  /** Writing segments after the presence bits would clear them; in the
    * order used, count and bits both survive. */
  lemma PresenceSurvivesInOrder(f: Flags, count: u32, albedo: bool, mr: bool, ao: bool)
    ensures WithPresence(WithCount(f, count), albedo, mr, ao) ==
      Flags(f.x, f.y, count, PresenceBits(albedo, mr, ao))
    ensures WithCount(WithPresence(f, albedo, mr, ao), count).w == 0
  {
  }
}
