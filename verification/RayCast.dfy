/** The ray cast of contracts/trid3nt_contracts/coverage.py, over exact reals. */
module RayCast {

  datatype Point = Point(x: real, y: real)

  type Ring = seq<Point>

  predicate Straddles(a: Point, b: Point, lat: real)
  {
    (a.y > lat) != (b.y > lat)
  }

  /** The edge test of `_in_ring`. */
  predicate Crosses(a: Point, b: Point, p: Point)
  {
    Straddles(a, b, p.y) && p.x < a.x + (p.y - a.y) * (b.x - a.x) / (b.y - a.y)
  }

  /** The parity of the edges of an open path. */
  function PathParity(path: seq<Point>, p: Point): bool
  {
    if |path| < 2 then false else Crosses(path[0], path[1], p) != PathParity(path[1..], p)
  }

  function Closed(ring: Ring): seq<Point>
    requires ring != []
  {
    ring + [ring[0]]
  }

  predicate InRing(ring: Ring, p: Point)
    requires ring != []
  {
    PathParity(Closed(ring), p)
  }

  /** `_in_ring`. */
  method CastRay(ring: Ring, p: Point) returns (inside: bool)
    requires ring != []
    ensures inside == InRing(ring, p)
  {
    hide Crosses;
    inside := false;
    var ends := ring[1..] + [ring[0]];
    var path := Closed(ring);
    for i := 0 to |ring|
      invariant inside == PathParity(path[..i + 1], p)
    {
      var a, b := ring[i], ends[i];
      ghost var before := path[..i + 1];
      assert before[|before| - 1] == a && path[i + 1] == b;
      PathPush(before, b, p);
      assert path[..i + 2] == before + [b];
      if Crosses(a, b, p) {
        inside := !inside;
      }
    }
    assert path[..|ring| + 1] == path;
  }

  // ---------------------------------------------------------------------------------------
  // Paths
  // ---------------------------------------------------------------------------------------

  lemma {:induction false} PathPush(path: seq<Point>, b: Point, p: Point)
    requires path != []
    ensures PathParity(path + [b], p) == (PathParity(path, p) != Crosses(path[|path| - 1], b, p))
  {
    var longer := path + [b];
    if |path| == 1 {
      assert longer[1..] == [b];
    } else {
      assert longer[1..] == path[1..] + [b];
      PathPush(path[1..], b, p);
    }
  }

  lemma {:induction false} PathSplit(path: seq<Point>, k: nat, p: Point)
    requires k < |path|
    ensures PathParity(path, p) == (PathParity(path[..k + 1], p) != PathParity(path[k..], p))
  {
    if k > 0 {
      assert path[..k + 1][1..] == path[1..][..k];
      assert path[k..] == path[1..][k - 1..];
      PathSplit(path[1..], k - 1, p);
    } else {
      assert path[..1] == [path[0]] && path[0..] == path;
    }
  }

  function Reverse(path: seq<Point>): (r: seq<Point>)
    ensures |r| == |path|
  {
    if path == [] then [] else Reverse(path[1..]) + [path[0]]
  }

  lemma {:induction false} ReversePath(path: seq<Point>, p: Point)
    ensures PathParity(Reverse(path), p) == PathParity(path, p)
    ensures path != [] ==> Reverse(path)[|path| - 1] == path[0]
  {
    if |path| == 1 {
      assert Reverse(path) == [path[0]];
    } else if |path| > 1 {
      ReversePath(path[1..], p);
      PathPush(Reverse(path[1..]), path[0], p);
      CrossesEitherWay(path[1], path[0], p);
    }
  }

  lemma {:induction false} ReverseConcat(a: seq<Point>, b: seq<Point>)
    ensures Reverse(a + b) == Reverse(b) + Reverse(a)
  {
    if a == [] {
      assert a + b == b;
    } else {
      assert (a + b)[1..] == a[1..] + b;
      ReverseConcat(a[1..], b);
    }
  }

  // ---------------------------------------------------------------------------------------
  // One edge
  // ---------------------------------------------------------------------------------------

  /** The point lies on x = c + k y. */
  predicate OnLine(a: Point, k: real, c: real)
  {
    a.x == c + k * a.y
  }

  lemma DivideOut(n: real, d: real, q: real)
    requires d != 0.0 && n == q * d
    ensures n / d == q
  {
  }

  /** Where an edge on a line meets the parallel through the point is a matter of the line alone. */
  lemma CrossesOnLine(a: Point, b: Point, p: Point, k: real, c: real)
    requires OnLine(a, k, c) && OnLine(b, k, c)
    ensures Crosses(a, b, p) <==> Straddles(a, b, p.y) && p.x < c + k * p.y
  {
    if Straddles(a, b, p.y) {
      var d, n := b.y - a.y, (p.y - a.y) * (b.x - a.x);
      assert b.x - a.x == k * d;
      ScaleLine(p.y - a.y, k, d, b.x - a.x);
      DivideOut(n, d, (p.y - a.y) * k);
      assert a.x + (p.y - a.y) * k == c + k * p.y;
    }
  }

  lemma ScaleLine(u: real, k: real, d: real, w: real)
    requires w == k * d
    ensures u * w == (u * k) * d
  {
  }

  /** Every edge that is not horizontal lies on such a line. */
  lemma LineThrough(a: Point, b: Point) returns (k: real, c: real)
    requires a.y != b.y
    ensures OnLine(a, k, c) && OnLine(b, k, c)
    ensures k * (b.y - a.y) == b.x - a.x
  {
    k := (b.x - a.x) / (b.y - a.y);
    c := a.x - k * a.y;
  }

  lemma CrossesEitherWay(a: Point, b: Point, p: Point)
    ensures Crosses(a, b, p) == Crosses(b, a, p)
  {
    if a.y != b.y {
      var k, c := LineThrough(a, b);
      CrossesOnLine(a, b, p, k, c);
      CrossesOnLine(b, a, p, k, c);
    }
  }

  predicate Collinear(a: Point, m: Point, b: Point)
  {
    (m.x - a.x) * (b.y - a.y) == (m.y - a.y) * (b.x - a.x)
  }

  lemma SameLine(a: Point, m: Point, b: Point, k: real, c: real)
    requires a.y != b.y && OnLine(a, k, c) && k * (b.y - a.y) == b.x - a.x && Collinear(a, m, b)
    ensures OnLine(m, k, c)
  {
    var d := b.y - a.y;
    ScaleLine(m.y - a.y, k, d, b.x - a.x);
    assert ((m.x - a.x) - (m.y - a.y) * k) * d == 0.0;
    NoZeroDivisors((m.x - a.x) - (m.y - a.y) * k, d);
  }

  lemma NoZeroDivisors(x: real, d: real)
    requires x * d == 0.0 && d != 0.0
    ensures x == 0.0
  {
  }

  lemma FlatCollinear(a: Point, m: Point, b: Point)
    requires a.y == b.y && a != b && Collinear(a, m, b)
    ensures m.y == a.y
  {
    NoZeroDivisors(m.y - a.y, b.x - a.x);
  }

  /** Any point of the line through an edge, between its ends or not, can be put in between. */
  lemma SplitEdge(a: Point, m: Point, b: Point, p: Point)
    requires Collinear(a, m, b)
    ensures Crosses(a, b, p) == (Crosses(a, m, p) != Crosses(m, b, p))
  {
    if a == b {
      CrossesEitherWay(a, m, p);
    } else if a.y == b.y {
      FlatCollinear(a, m, b);
    } else {
      var k, c := LineThrough(a, b);
      SameLine(a, m, b, k, c);
      CrossesOnLine(a, b, p, k, c);
      CrossesOnLine(a, m, p, k, c);
      CrossesOnLine(m, b, p, k, c);
    }
  }

  // ---------------------------------------------------------------------------------------
  // The algebra of rings
  // ---------------------------------------------------------------------------------------

  /** Where the outline starts does not matter. */
  lemma RotationInvariant(ring: Ring, k: nat, p: Point)
    requires k < |ring|
    ensures InRing(ring[k..] + ring[..k], p) == InRing(ring, p)
  {
    if k > 0 {
      var rotated := ring[k..] + ring[..k];
      var path, turned := Closed(ring), Closed(rotated);
      var n := |ring| - k;
      PathSplit(path, k, p);
      PathSplit(turned, n, p);
      assert turned[..n + 1] == path[k..];
      assert turned[n..] == path[..k + 1];
    } else {
      assert ring[0..] + ring[..0] == ring;
    }
  }

  /** Nor does its direction. */
  lemma ReversalInvariant(ring: Ring, p: Point)
    requires ring != []
    ensures InRing(Reverse(ring), p) == InRing(ring, p)
  {
    var r := Reverse(ring);
    var n := |ring| - 1;
    ReversePath(ring, p);
    ReversePath(Closed(ring), p);
    ReverseConcat(ring, [ring[0]]);
    assert Reverse([ring[0]]) == [ring[0]];
    // the reversed closed path starts one vertex early
    assert Reverse(Closed(ring)) == [ring[0]] + r;
    assert r[n] == ring[0];
    PathPush(r, r[0], p);
    assert ([ring[0]] + r)[1..] == r;
  }

  /** Spelling out the closing vertex does not matter. */
  lemma ClosingVertexInvariant(ring: Ring, p: Point)
    requires ring != []
    ensures InRing(ring + [ring[0]], p) == InRing(ring, p)
  {
    var longer := ring + [ring[0]];
    PathPush(longer, longer[0], p);
  }

  /** Nor does a vertex more on the line of an edge, the closing edge included. */
  lemma CollinearVertexInvariant(ring: Ring, i: nat, m: Point, p: Point)
    requires i < |ring| && Collinear(ring[i], m, Closed(ring)[i + 1])
    ensures InRing(ring[..i + 1] + [m] + ring[i + 1..], p) == InRing(ring, p)
  {
    var longer := ring[..i + 1] + [m] + ring[i + 1..];
    var path, more := Closed(ring), Closed(longer);
    var before, b, after := path[..i + 1], path[i + 1], path[i + 1..];
    SplitEdge(ring[i], m, b, p);
    PathSplit(path, i + 1, p);
    assert path[..i + 2] == before + [b];
    PathPush(before, b, p);
    PathSplit(more, i + 2, p);
    assert more[..i + 3] == (before + [m]) + [b];
    PathPush(before, m, p);
    PathPush(before + [m], b, p);
    assert more[i + 2..] == after;
  }

  /** The outline, cut at two of its vertices. */
  lemma WholeParity(ring: Ring, i: nat, j: nat, p: Point)
    requires i < j < |ring|
    ensures var first, mid, last := ring[..i + 1], ring[i..j + 1], Closed(ring)[j..];
            InRing(ring, p) == (PathParity(first, p) != (PathParity(mid, p) != PathParity(last, p)))
  {
    hide PathParity;
    var path := Closed(ring);
    PathSplit(path, i, p);
    PathSplit(path[i..], j - i, p);
    assert path[..i + 1] == ring[..i + 1];
    assert path[i..][..j - i + 1] == ring[i..j + 1] && path[i..][j - i..] == path[j..];
  }

  /** The outline with the vertices between the two left out. */
  lemma OuterParity(ring: Ring, i: nat, j: nat, p: Point)
    requires i < j < |ring|
    ensures var first, last := ring[..i + 1], Closed(ring)[j..];
            InRing(first + ring[j..], p)
            == ((PathParity(first, p) != Crosses(ring[i], ring[j], p)) != PathParity(last, p))
  {
    hide PathParity, Crosses;
    var first := ring[..i + 1];
    var out := Closed(first + ring[j..]);
    PathSplit(out, i + 1, p);
    assert out[..i + 2] == first + [ring[j]];
    PathPush(first, ring[j], p);
    assert out[i + 1..] == Closed(ring)[j..];
  }

  /** A chord between any two vertices cuts the outline into two whose answers add up. */
  lemma ChordSplits(ring: Ring, i: nat, j: nat, p: Point)
    requires i < j < |ring|
    ensures InRing(ring, p) == (InRing(ring[..i + 1] + ring[j..], p) != InRing(ring[i..j + 1], p))
  {
    hide PathParity, Crosses;
    var mid := ring[i..j + 1];
    WholeParity(ring, i, j, p);
    OuterParity(ring, i, j, p);
    assert Closed(mid) == mid + [ring[i]];
    PathPush(mid, ring[i], p);
    CrossesEitherWay(ring[i], ring[j], p);
  }

  function Box(west: real, south: real, east: real, north: real): Ring
  {
    [Point(west, south), Point(east, south), Point(east, north), Point(west, north)]
  }

  lemma UprightEdge(x: real, y0: real, y1: real, p: Point)
    ensures Crosses(Point(x, y0), Point(x, y1), p) <==> (y0 > p.y) != (y1 > p.y) && p.x < x
  {
    CrossesOnLine(Point(x, y0), Point(x, y1), p, 0.0, x);
  }

  /** An axis-aligned box is half open: its west and south sides belong to it, its east and north
      sides do not. */
  lemma BoxIsHalfOpen(west: real, south: real, east: real, north: real, p: Point)
    requires west <= east && south <= north
    ensures InRing(Box(west, south, east, north), p) <==> west <= p.x < east && south <= p.y < north
  {
    var path := Closed(Box(west, south, east, north));
    UprightEdge(east, south, north, p);
    UprightEdge(west, north, south, p);
    assert path[1..][1..][1..][1..] == [path[4]];
    assert PathParity(path[1..][1..][1..], p) == Crosses(path[3], path[4], p);
    assert PathParity(path[1..][1..], p) == (Crosses(path[2], path[3], p) != PathParity(path[1..][1..][1..], p));
    assert PathParity(path[1..], p) == (Crosses(path[1], path[2], p) != PathParity(path[1..][1..], p));
  }

  /** So boxes side by side share no point and leave no gap. */
  lemma BoxesTile(west: real, south: real, middle: real, east: real, north: real, p: Point)
    requires west <= middle <= east && south <= north
    ensures InRing(Box(west, south, east, north), p)
        <==> (InRing(Box(west, south, middle, north), p) != InRing(Box(middle, south, east, north), p))
  {
    BoxIsHalfOpen(west, south, east, north, p);
    BoxIsHalfOpen(west, south, middle, north, p);
    BoxIsHalfOpen(middle, south, east, north, p);
  }
}
