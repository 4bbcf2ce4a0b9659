/** `CoverageExtent` and its distances (contracts/trid3nt_contracts/coverage.py) over exact reals. */
module Coverage {
  import opened RayCast

  // A distance is stated by its square in degrees of latitude; `scale` stands for the cosine of the
  // latitude and may be any real.

  // ---------------------------------------------------------------------------------------
  // One segment
  // ---------------------------------------------------------------------------------------

  function Sq(x: real): real
  {
    x * x
  }

  /** The segment of `_segment_distance`: from (-px, -py), reaching (sx, sy) further. */
  datatype Segment = Segment(px: real, py: real, sx: real, sy: real)

  /** The squared distance from the origin to the point `t` of the way along a segment. */
  function Apart(s: Segment, t: real): real
  {
    Off(s.px, s.sx, t) + Off(s.py, s.sy, t)
  }

  /** The squared distance along one axis. */
  function Off(p: real, s: real, t: real): real
  {
    Sq(p - t * s)
  }

  function Clamp(x: real): (r: real)
    ensures 0.0 <= r <= 1.0
  {
    if x < 0.0 then 0.0 else if x > 1.0 then 1.0 else x
  }

  function Span(s: Segment): real
  {
    Sq(s.sx) + Sq(s.sy)
  }

  function Dot(s: Segment): real
  {
    s.px * s.sx + s.py * s.sy
  }

  /** `along` of `_segment_distance`. */
  function Along(s: Segment): (t: real)
    ensures 0.0 <= t <= 1.0
  {
    if Span(s) == 0.0 then 0.0 else Clamp(Dot(s) / Span(s))
  }

  /** `_segment_distance`, squared. */
  function SegmentApart(s: Segment): real
  {
    Apart(s, Along(s))
  }

  lemma Square(x: real)
    ensures Sq(x) >= 0.0
    ensures Sq(x) == 0.0 ==> x == 0.0
  {
    if x != 0.0 && Sq(x) == 0.0 {
      NoZeroDivisors(x, x);
    }
  }

  /** The difference of two squared distances along one axis. */
  predicate Differ(p: real, s: real, t: real, u: real, k: real, m: real)
  {
    Off(p, s, t) - Off(p, s, u) == k * (m * Sq(s) - 2.0 * (p * s))
  }

  lemma Difference(s: Segment, t: real, u: real, k: real, m: real)
    requires k == t - u && m == t + u
    ensures Apart(s, t) - Apart(s, u) == k * (m * Span(s) - 2.0 * Dot(s))
  {
    hide Apart, Span, Dot, Differ;
    OneDifference(s.px, s.sx, t, u, k, m);
    OneDifference(s.py, s.sy, t, u, k, m);
    BothDifferences(s, t, u, k, m);
  }

  lemma BothDifferences(s: Segment, t: real, u: real, k: real, m: real)
    requires Differ(s.px, s.sx, t, u, k, m) && Differ(s.py, s.sy, t, u, k, m)
    ensures Apart(s, t) - Apart(s, u) == k * (m * Span(s) - 2.0 * Dot(s))
  {
    hide Sq, Off;
  }

  lemma OneDifference(p: real, s: real, t: real, u: real, k: real, m: real)
    requires k == t - u && m == t + u
    ensures Differ(p, s, t, u, k, m)
  {
    var a, b := t * s, u * s;
    assert Sq(p - a) - Sq(p - b) == (a - b) * (a + b - 2.0 * p);
    assert a - b == k * s && a + b == m * s;
    assert (k * s) * (m * s - 2.0 * p) == k * (s * (m * s - 2.0 * p));
    assert s * (m * s - 2.0 * p) == m * Sq(s) - 2.0 * (p * s);
  }

  lemma SameSigns(a: real, b: real)
    requires (a >= 0.0 && b >= 0.0) || (a <= 0.0 && b <= 0.0)
    ensures a * b >= 0.0
  {
  }

  /** The clamped projection is the true minimiser, a segment of length zero included. */
  lemma AlongMinimises(s: Segment, t: real)
    requires 0.0 <= t <= 1.0
    ensures SegmentApart(s) <= Apart(s, t)
  {
    hide Apart;
    var u := Along(s);
    Square(s.sx);
    Square(s.sy);
    Difference(s, t, u, t - u, t + u);
    if Span(s) != 0.0 {
      SlopeSign(t, u, Dot(s) / Span(s), Span(s), Dot(s));
    } else {
      assert s.sx == 0.0 && s.sy == 0.0;
      assert Dot(s) == 0.0;
    }
  }

  lemma SlopeSign(t: real, u: real, q: real, span: real, dot: real)
    requires span > 0.0 && dot == q * span && u == Clamp(q) && 0.0 <= t <= 1.0
    ensures (t - u) * ((t + u) * span - 2.0 * dot) >= 0.0
  {
    assert (t + u) * span - 2.0 * dot == (t + u - 2.0 * q) * span;
    if q < 0.0 {
      SameSigns(t + u - 2.0 * q, span);
      SameSigns(t - u, (t + u - 2.0 * q) * span);
    } else if q > 1.0 {
      SameSigns(-(t + u - 2.0 * q), span);
      SameSigns(t - u, (t + u - 2.0 * q) * span);
    } else {
      SameSigns(t - u, t - u);
      SameSigns((t - u) * (t - u), span);
      assert (t - u) * ((t - u) * span) == ((t - u) * (t - u)) * span;
    }
  }

  // ---------------------------------------------------------------------------------------
  // One ring
  // ---------------------------------------------------------------------------------------

  /** The point `t` of the way along an edge. */
  function OnEdge(a: Point, b: Point, t: real): Point
  {
    Point(a.x + t * (b.x - a.x), a.y + t * (b.y - a.y))
  }

  /** The squared distance between two points on the local flat earth. */
  function Gap(p: Point, q: Point, scale: real): (r: real)
    ensures r >= 0.0
  {
    Square((q.x - p.x) * scale);
    Square(q.y - p.y);
    Sq((q.x - p.x) * scale) + Sq(q.y - p.y)
  }

  /** The edge from `a` to `b` as `_ring_distance_km` hands it to `_segment_distance`. */
  function Local(a: Point, b: Point, p: Point, scale: real): Segment
  {
    Segment((p.x - a.x) * scale, p.y - a.y, (b.x - a.x) * scale, b.y - a.y)
  }

  function EdgeApart(a: Point, b: Point, p: Point, scale: real): real
  {
    SegmentApart(Local(a, b, p, scale))
  }

  lemma EdgeIsSegment(a: Point, b: Point, p: Point, scale: real, t: real)
    ensures Apart(Local(a, b, p, scale), t) == Gap(p, OnEdge(a, b, t), scale)
  {
    var q := OnEdge(a, b, t);
    assert (p.x - a.x) * scale - t * ((b.x - a.x) * scale) == -((q.x - p.x) * scale);
    assert (p.y - a.y) - t * (b.y - a.y) == -(q.y - p.y);
  }

  /** `q` is a point of the edge. */
  ghost predicate OfEdge(a: Point, b: Point, q: Point)
  {
    exists t :: 0.0 <= t <= 1.0 && q == OnEdge(a, b, t)
  }

  lemma EdgeBoundAt(a: Point, b: Point, p: Point, scale: real, t: real)
    requires 0.0 <= t <= 1.0
    ensures EdgeApart(a, b, p, scale) <= Gap(p, OnEdge(a, b, t), scale)
  {
    hide Apart, Gap, Local;
    AlongMinimises(Local(a, b, p, scale), t);
    EdgeIsSegment(a, b, p, scale, t);
  }

  lemma EdgeReached(a: Point, b: Point, p: Point, scale: real) returns (q: Point)
    ensures OfEdge(a, b, q) && EdgeApart(a, b, p, scale) == Gap(p, q, scale)
  {
    hide Apart, Gap, Local, Along;
    var t := Along(Local(a, b, p, scale));
    EdgeIsSegment(a, b, p, scale, t);
    q := OnEdge(a, b, t);
  }

  /** Some point of some edge of the ring, the closing edge included. */
  ghost predicate OnOutline(ring: Ring, q: Point)
    requires ring != []
  {
    exists i :: 0 <= i < |ring| && OfEdge(Closed(ring)[i], Closed(ring)[i + 1], q)
  }

  /** `r` is the least squared distance from `p` to the outline. */
  ghost predicate Nearest(ring: Ring, p: Point, scale: real, r: real)
    requires ring != []
  {
    && (forall q :: OnOutline(ring, q) ==> r <= Gap(p, q, scale))
    && (exists q :: OnOutline(ring, q) && r == Gap(p, q, scale))
  }

  lemma LeastEdgeIsNearest(ring: Ring, p: Point, scale: real, r: real, k: nat)
    requires ring != [] && k < |ring|
    requires forall i :: 0 <= i < |ring| ==> r <= EdgeApart(Closed(ring)[i], Closed(ring)[i + 1], p, scale)
    requires r == EdgeApart(Closed(ring)[k], Closed(ring)[k + 1], p, scale)
    ensures Nearest(ring, p, scale, r)
  {
    hide EdgeApart, Gap;
    var path := Closed(ring);
    forall q | OnOutline(ring, q)
      ensures r <= Gap(p, q, scale)
    {
      var i :| 0 <= i < |ring| && OfEdge(path[i], path[i + 1], q);
      var t :| 0.0 <= t <= 1.0 && q == OnEdge(path[i], path[i + 1], t);
      EdgeBoundAt(path[i], path[i + 1], p, scale, t);
    }
    var q := EdgeReached(path[k], path[k + 1], p, scale);
    assert OnOutline(ring, q);
  }

  /** `_ring_distance_km`, squared and in degrees. */
  method RingApart(ring: Ring, p: Point, scale: real) returns (best: real)
    requires ring != []
    ensures Nearest(ring, p, scale, best)
  {
    hide SegmentApart, EdgeApart;
    var path := Closed(ring);
    best := EdgeApart(path[0], path[1], p, scale);
    ghost var k := 0;
    for i := 1 to |ring|
      invariant k < i
      invariant forall j :: 0 <= j < i ==> best <= EdgeApart(path[j], path[j + 1], p, scale)
      invariant best == EdgeApart(path[k], path[k + 1], p, scale)
    {
      var d := EdgeApart(path[i], path[i + 1], p, scale);
      if d < best {
        best := d;
        k := i;
      }
    }
    LeastEdgeIsNearest(ring, p, scale, best, k);
  }

  // ---------------------------------------------------------------------------------------
  // The extent
  // ---------------------------------------------------------------------------------------

  datatype Kind = Surface | Stations | Service

  datatype Extent = Extent(kind: Kind, rings: seq<Ring>, points: seq<Point>)
  {
    /** What the model validator lets through. */
    ghost predicate Valid()
    {
      && (kind.Service? <==> rings == [])
      && (points != [] ==> kind.Stations?)
      && (forall i :: 0 <= i < |rings| ==> |rings[i]| >= 4)
    }
  }

  ghost predicate InSomeRing(e: Extent, p: Point)
    requires e.Valid()
  {
    exists i :: 0 <= i < |e.rings| && InRing(e.rings[i], p)
  }

  ghost predicate Covers(e: Extent, p: Point)
    requires e.Valid()
  {
    e.kind.Service? || InSomeRing(e, p)
  }

  /** `covers`. */
  method CoversPoint(e: Extent, p: Point) returns (r: bool)
    requires e.Valid()
    ensures r <==> Covers(e, p)
  {
    if e.kind.Service? {
      return true;
    }
    r := false;
    for i := 0 to |e.rings|
      invariant r <==> exists j :: 0 <= j < i && InRing(e.rings[j], p)
    {
      var inside := CastRay(e.rings[i], p);
      r := r || inside;
    }
  }

  /** The stations of an extent that its rings cover, in the order it lists them. */
  ghost function Listed(e: Extent, n: nat): seq<Point>
    requires e.Valid() && n <= |e.points|
  {
    if n == 0 then []
    else Listed(e, n - 1) + (if Covers(e, e.points[n - 1]) then [e.points[n - 1]] else [])
  }

  /** Every covered station is listed, behind just the covered ones that come before it; */
  lemma {:induction false} CoveredIsListed(e: Extent, n: nat, i: nat)
    requires e.Valid() && i < n <= |e.points| && Covers(e, e.points[i])
    ensures |Listed(e, i)| < |Listed(e, n)| && Listed(e, n)[|Listed(e, i)|] == e.points[i]
  {
    hide Covers;
    if i < n - 1 {
      CoveredIsListed(e, n - 1, i);
    }
  }

  /** and no other is. */
  lemma {:induction false} ListedIsCovered(e: Extent, n: nat, k: nat) returns (i: nat)
    requires e.Valid() && n <= |e.points| && k < |Listed(e, n)|
    ensures i < n && Covers(e, e.points[i]) && Listed(e, n)[k] == e.points[i] && |Listed(e, i)| == k
  {
    hide Covers;
    if k < |Listed(e, n - 1)| {
      i := ListedIsCovered(e, n - 1, k);
    } else {
      i := n - 1;
    }
  }

  /** `listed`. A valid extent without rings has no points. */
  method ListStations(e: Extent) returns (r: seq<Point>)
    requires e.Valid()
    ensures r == Listed(e, |e.points|)
  {
    r := [];
    if e.rings == [] {
      return e.points;
    }
    for i := 0 to |e.points|
      invariant r == Listed(e, i)
    {
      var covered := CoversPoint(e, e.points[i]);
      if covered {
        r := r + [e.points[i]];
      }
    }
  }

  /** The first of the closest stations. */
  ghost predicate FirstNearest(listed: seq<Point>, k: nat, p: Point, scale: real)
  {
    && k < |listed|
    && (forall j :: 0 <= j < |listed| ==> Gap(p, listed[k], scale) <= Gap(p, listed[j], scale))
    && (forall j :: 0 <= j < k ==> Gap(p, listed[k], scale) < Gap(p, listed[j], scale))
  }

  /** `nearest`. */
  method NearestStation(e: Extent, p: Point, scale: real) returns (r: seq<Point>)
    requires e.Valid()
    ensures var listed := Listed(e, |e.points|);
            && (listed == [] <==> r == [])
            && |r| <= 1
            && (r != [] ==> exists k: nat :: FirstNearest(listed, k, p, scale) && r[0] == listed[k])
  {
    var listed := ListStations(e);
    if listed == [] {
      return [];
    }
    var best := 0;
    for i := 1 to |listed|
      invariant 0 <= best < i
      invariant forall j :: 0 <= j < i ==> Gap(p, listed[best], scale) <= Gap(p, listed[j], scale)
      invariant forall j :: 0 <= j < best ==> Gap(p, listed[best], scale) < Gap(p, listed[j], scale)
    {
      if Gap(p, listed[i], scale) < Gap(p, listed[best], scale) {
        best := i;
      }
    }
    assert FirstNearest(listed, best, p, scale);
    r := [listed[best]];
  }

  /** `d` is the least squared distance from `p` to the outlines. */
  ghost predicate NearestOfAll(rings: seq<Ring>, p: Point, scale: real, d: real)
    requires forall i :: 0 <= i < |rings| ==> rings[i] != []
  {
    && (forall i, q :: 0 <= i < |rings| && OnOutline(rings[i], q) ==> d <= Gap(p, q, scale))
    && (exists i, q :: 0 <= i < |rings| && OnOutline(rings[i], q) && d == Gap(p, q, scale))
  }

  /** The minimum over the rings at the end of `distance_km`. */
  method OutlinesApart(rings: seq<Ring>, p: Point, scale: real) returns (d: real)
    requires rings != [] && forall i :: 0 <= i < |rings| ==> rings[i] != []
    ensures NearestOfAll(rings, p, scale, d)
  {
    hide OnOutline, Gap;
    d := RingApart(rings[0], p, scale);
    ghost var k := 0;
    for i := 1 to |rings|
      invariant k < i && Nearest(rings[k], p, scale, d)
      invariant forall j, q :: 0 <= j < i && OnOutline(rings[j], q) ==> d <= Gap(p, q, scale)
    {
      var r := RingApart(rings[i], p, scale);
      if r < d {
        d := r;
        k := i;
      }
    }
    ghost var q :| OnOutline(rings[k], q) && d == Gap(p, q, scale);
  }

  /** What `distance_km` has to be: nothing off a service, the nearest station where stations are
      listed, nothing inside a ring, and else the nearest point of all the outlines. */
  ghost predicate IsDistance(e: Extent, p: Point, scale: real, d: real)
    requires e.Valid()
  {
    var listed := Listed(e, |e.points|);
    if e.kind.Service? then d == 0.0
    else if listed != [] then
      && (forall j :: 0 <= j < |listed| ==> d <= Gap(p, listed[j], scale))
      && (exists j :: 0 <= j < |listed| && d == Gap(p, listed[j], scale))
    else if Covers(e, p) then d == 0.0
    else NearestOfAll(e.rings, p, scale, d)
  }

  /** `distance_km`, squared and in degrees. */
  method Distance(e: Extent, p: Point, scale: real) returns (d: real)
    requires e.Valid()
    ensures IsDistance(e, p, scale, d)
  {
    hide InRing, Gap, OnOutline;
    if e.kind.Service? {
      return 0.0;
    }
    var station := NearestStation(e, p, scale);
    if station != [] {
      return Gap(p, station[0], scale);
    }
    var covered := CoversPoint(e, p);
    if covered {
      return 0.0;
    }
    d := OutlinesApart(e.rings, p, scale);
  }

  /** The distance is one number, whichever way it is found. */
  lemma DistanceIsUnique(e: Extent, p: Point, scale: real, d1: real, d2: real)
    requires e.Valid() && IsDistance(e, p, scale, d1) && IsDistance(e, p, scale, d2)
    ensures d1 == d2 && d1 >= 0.0
  {
    hide Gap, OnOutline;
  }

  /** A surface is at distance zero exactly from the points it covers and the points of its outlines;
      every scale but zero, which only the poles have. */
  lemma ZeroDistance(e: Extent, p: Point, scale: real, d: real)
    requires e.Valid() && IsDistance(e, p, scale, d) && scale != 0.0
    requires e.kind.Surface?
    ensures d == 0.0 <==> Covers(e, p) || exists i :: 0 <= i < |e.rings| && OnOutline(e.rings[i], p)
  {
    assert e.points == [] && Listed(e, 0) == [];
    if !Covers(e, p) {
      if d == 0.0 {
        var i, q :| 0 <= i < |e.rings| && OnOutline(e.rings[i], q) && d == Gap(p, q, scale);
        NoGap(p, q, scale);
      }
      if i :| 0 <= i < |e.rings| && OnOutline(e.rings[i], p) {
        assert d <= Gap(p, p, scale) == 0.0;
        DistanceIsUnique(e, p, scale, d, d);
      }
    }
  }

  lemma NoGap(p: Point, q: Point, scale: real)
    requires Gap(p, q, scale) == 0.0 && scale != 0.0
    ensures p == q
  {
    Square((q.x - p.x) * scale);
    Square(q.y - p.y);
    NoZeroDivisors(q.x - p.x, scale);
  }
}
