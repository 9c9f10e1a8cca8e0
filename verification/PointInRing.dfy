/** Ray casting over a GeoJSON linear ring, in exact arithmetic, and what its parity means geometrically. */
module PointInRing {
  import opened Sequences

  datatype Point = Point(lng: real, lat: real)

  predicate Above(p: Point, v: Point) {
    v.lat > p.lat
  }

  /** One vertex of the edge is above the point's latitude and the other is not. */
  predicate Straddles(p: Point, a: Point, b: Point) {
    Above(p, a) != Above(p, b)
  }

  /** The longitude at which the line through `a` and `b` meets the point's latitude. */
  function CrossingLng(p: Point, a: Point, b: Point): real
    requires a.lat != b.lat
  {
    ((b.lng - a.lng) * (p.lat - a.lat)) / (b.lat - a.lat) + a.lng
  }

  /** The ray from `p` towards greater longitudes crosses the edge. */
  predicate Crosses(p: Point, a: Point, b: Point) {
    Straddles(p, a, b) && p.lng < CrossingLng(p, a, b)
  }

  /** Parity of the crossings of an open chain of vertices. */
  predicate ChainParity(p: Point, chain: seq<Point>) {
    |chain| > 1 && (ChainParity(p, Front(chain)) != Crosses(p, Last(chain), Last(Front(chain))))
  }

  /** Parity of the crossings of the closed ring through these vertices. */
  predicate Inside(p: Point, ring: seq<Point>) {
    ring != [] && (ChainParity(p, ring) != Crosses(p, ring[0], Last(ring)))
  }

  /** The loop: vertex `i` with its predecessor `j`, starting at the closing edge. */
  method PointInRing(p: Point, ring: seq<Point>) returns (inside: bool)
    ensures inside == Inside(p, ring)
  {
    hide Crosses;
    inside := false;
    var i, j := 0, |ring| - 1;
    while i < |ring|
      invariant 0 <= i <= |ring|
      invariant j == if i == 0 then |ring| - 1 else i - 1
      invariant i == 0 ==> !inside
      invariant i > 0 ==> inside == (ChainParity(p, ring[..i]) != Crosses(p, ring[0], Last(ring)))
    {
      var intersect := Crosses(p, ring[i], ring[j]);
      if intersect {
        inside := !inside;
      }
      assert i > 0 ==> Front(ring[..i + 1]) == ring[..i] && Last(ring[..i]) == ring[j];
      i, j := i + 1, i;
    }
    assert ring[..|ring|] == ring;
  }

  // --- Edges have no direction ----------------------------------------------

  lemma Cancel(x: real, d: real, y: real)
    requires d != 0.0
    ensures x / d == y <==> x == y * d
  {
  }

  lemma CrossesIsSymmetric(p: Point, a: Point, b: Point)
    ensures Crosses(p, a, b) == Crosses(p, b, a)
  {
    if Straddles(p, a, b) {
      var d := b.lat - a.lat;
      var t := (p.lat - a.lat) / d;
      var w := b.lng - a.lng;
      Cancel(p.lat - a.lat, d, t);
      assert (w * (p.lat - a.lat)) == (w * t) * d;
      Cancel(w * (p.lat - a.lat), d, w * t);
      assert CrossingLng(p, a, b) == w * t + a.lng;
      assert -w * (p.lat - b.lat) == (w * (t - 1.0)) * (0.0 - d);
      Cancel(-w * (p.lat - b.lat), 0.0 - d, w * (t - 1.0));
      assert CrossingLng(p, b, a) == w * (t - 1.0) + b.lng;
    }
  }

  lemma DegenerateEdge(p: Point, a: Point)
    ensures !Crosses(p, a, a)
  {
  }

  lemma {:induction false} ChainConcat(p: Point, a: seq<Point>, b: seq<Point>)
    requires a != [] && b != []
    ensures ChainParity(p, a + b) == (ChainParity(p, a) != (Crosses(p, b[0], Last(a)) != ChainParity(p, b)))
    decreases |b|
  {
    hide Crosses;
    if |b| == 1 {
      assert Front(a + b) == a;
    } else {
      ChainConcat(p, a, Front(b));
      assert Front(a + b) == a + Front(b);
    }
  }

  // --- Which vertex comes first does not matter ------------------------------

  /** Starting the ring at another vertex changes nothing. */
  lemma RotationInvariant(p: Point, ring: seq<Point>, m: nat)
    requires m <= |ring|
    ensures Inside(p, ring[m..] + ring[..m]) == Inside(p, ring)
  {
    hide Crosses, ChainParity;
    var a, b := ring[..m], ring[m..];
    assert ring == a + b;
    if a == [] {
      assert b + a == ring;
    } else if b == [] {
      assert b + a == ring;
    } else {
      ChainConcat(p, a, b);
      ChainConcat(p, b, a);
      CrossesIsSymmetric(p, b[0], Last(a));
      CrossesIsSymmetric(p, a[0], Last(b));
    }
  }

  function Reverse<T>(s: seq<T>): seq<T> {
    if s == [] then [] else [Last(s)] + Reverse(Front(s))
  }

  lemma {:induction false} ReverseEnds<T>(s: seq<T>)
    requires s != []
    ensures |Reverse(s)| == |s| && Reverse(s)[0] == Last(s) && Last(Reverse(s)) == s[0]
  {
    if |s| > 1 {
      ReverseEnds(Front(s));
    } else {
      assert Reverse(Front(s)) == [];
    }
  }

  lemma {:induction false} ChainReversed(p: Point, chain: seq<Point>)
    ensures ChainParity(p, Reverse(chain)) == ChainParity(p, chain)
    decreases |chain|
  {
    hide Crosses;
    if |chain| > 1 {
      ChainReversed(p, Front(chain));
      ReverseEnds(Front(chain));
      ChainConcat(p, [Last(chain)], Reverse(Front(chain)));
      CrossesIsSymmetric(p, Last(chain), Last(Front(chain)));
    } else if |chain| == 1 {
      assert Reverse(Front(chain)) == [];
    }
  }

  /** Walking the ring the other way round changes nothing. */
  lemma ReversalInvariant(p: Point, ring: seq<Point>)
    ensures Inside(p, Reverse(ring)) == Inside(p, ring)
  {
    hide Crosses, ChainParity;
    if ring != [] {
      ChainReversed(p, ring);
      ReverseEnds(ring);
      CrossesIsSymmetric(p, ring[0], Last(ring));
    }
  }

  /** A ring may repeat its first vertex at the end, as GeoJSON rings do, or leave it out. */
  lemma ClosingVertexIsOptional(p: Point, ring: seq<Point>)
    requires ring != []
    ensures Inside(p, ring + [ring[0]]) == Inside(p, ring)
  {
    ChainConcat(p, ring, [ring[0]]);
    DegenerateEdge(p, ring[0]);
  }

  // --- Cutting a ring --------------------------------------------------------

  /** A chord splits a ring into two rings whose parities add up: the chord is crossed twice or not at all. */
  lemma CutAlongChord(p: Point, a: seq<Point>, b: seq<Point>)
    requires a != [] && b != []
    ensures Inside(p, a + b) == (Inside(p, a + [b[0]]) != Inside(p, b + [a[0]]))
  {
    hide Crosses;
    ChainConcat(p, a, b);
    ChainConcat(p, a, [b[0]]);
    ChainConcat(p, b, [a[0]]);
    CrossesIsSymmetric(p, a[0], b[0]);
    CrossesIsSymmetric(p, a[0], Last(b));
  }

  predicate InTriangle(p: Point, a: Point, b: Point, c: Point) {
    Inside(p, [a, b, c])
  }

  /** The parity of the number of triangles of the fan from the first vertex that contain the point. */
  predicate FanParity(p: Point, ring: seq<Point>) {
    |ring| > 2 && (FanParity(p, Front(ring)) != InTriangle(p, ring[0], Last(Front(ring)), Last(ring)))
  }

  lemma {:induction false} FanFromFirst(p: Point, ring: seq<Point>)
    ensures Inside(p, ring) == FanParity(p, ring)
  {
    hide Crosses;
    if |ring| == 1 {
      DegenerateEdge(p, ring[0]);
    } else if |ring| == 2 {
      ChainConcat(p, [ring[0]], [ring[1]]);
      assert ring == [ring[0]] + [ring[1]];
      CrossesIsSymmetric(p, ring[0], ring[1]);
    } else if |ring| > 2 {
      var front, apex := Front(ring), ring[0];
      FanFromFirst(p, front);
      TriangleParity(p, apex, Last(front), Last(ring));
      CrossesIsSymmetric(p, apex, Last(front));
    }
  }

  lemma TriangleParity(p: Point, a: Point, b: Point, c: Point)
    ensures InTriangle(p, a, b, c) == (Crosses(p, b, a) != (Crosses(p, c, b) != Crosses(p, a, c)))
  {
    hide Crosses;
    assert [a, b, c] == [a] + [b] + [c];
    ChainConcat(p, [a], [b]);
    ChainConcat(p, [a] + [b], [c]);
  }

  /** From whichever vertex the fan starts, the point is in the ring when it is in an odd number of its triangles. */
  lemma FanFromAnyVertex(p: Point, ring: seq<Point>, m: nat)
    requires m <= |ring|
    ensures Inside(p, ring) == FanParity(p, ring[m..] + ring[..m])
  {
    RotationInvariant(p, ring, m);
    FanFromFirst(p, ring[m..] + ring[..m]);
  }

  // --- What containment means for a triangle ---------------------------------

  /** Twice the signed area of (a, b, p): positive when `p` is to the left of the way from `a` to `b`. */
  function Side(p: Point, a: Point, b: Point): real {
    (b.lng - a.lng) * (p.lat - a.lat) - (p.lng - a.lng) * (b.lat - a.lat)
  }

  predicate Between(x: real, y: real, z: real) {
    x <= y <= z || z <= y <= x
  }

  predicate OnEdge(p: Point, a: Point, b: Point) {
    Side(p, a, b) == 0.0 && Between(a.lng, p.lng, b.lng) && Between(a.lat, p.lat, b.lat)
  }

  predicate OnBoundary(p: Point, a: Point, b: Point, c: Point) {
    OnEdge(p, a, b) || OnEdge(p, b, c) || OnEdge(p, c, a)
  }

  /** The point is strictly on the same side of all three edges. */
  predicate StrictlyInside(p: Point, a: Point, b: Point, c: Point) {
    || (Side(p, a, b) > 0.0 && Side(p, b, c) > 0.0 && Side(p, c, a) > 0.0)
    || (Side(p, a, b) < 0.0 && Side(p, b, c) < 0.0 && Side(p, c, a) < 0.0)
  }

  lemma DivideLess(x: real, n: real, d: real)
    requires d != 0.0
    ensures d > 0.0 ==> (x < n / d <==> x * d < n)
    ensures d < 0.0 ==> (x < n / d <==> x * d > n)
  {
    var q := n / d;
    Cancel(n, d, q);
    assert n == q * d;
    if x < q {
      if d > 0.0 { assert (q - x) * d > 0.0; } else { assert (q - x) * (0.0 - d) > 0.0; }
    } else {
      if d > 0.0 { assert (x - q) * d >= 0.0; } else { assert (x - q) * (0.0 - d) >= 0.0; }
    }
  }

  /** An upward edge is crossed exactly when the point is on one side of it, a downward edge on the other. */
  lemma CrossesBySide(p: Point, a: Point, b: Point)
    requires Straddles(p, a, b)
    ensures Above(p, b) ==> (Crosses(p, a, b) <==> Side(p, a, b) > 0.0)
    ensures Above(p, a) ==> (Crosses(p, a, b) <==> Side(p, a, b) < 0.0)
  {
    DivideLess(p.lng - a.lng, (b.lng - a.lng) * (p.lat - a.lat), b.lat - a.lat);
  }

  /** The three sides weigh the vertices so that they balance at the point. */
  lemma SidesBalance(p: Point, a: Point, b: Point, c: Point)
    ensures Side(p, b, c) * (a.lat - p.lat) + Side(p, c, a) * (b.lat - p.lat) + Side(p, a, b) * (c.lat - p.lat) == 0.0
  {
  }

  lemma OnLineIsOnEdge(p: Point, a: Point, b: Point)
    requires Straddles(p, a, b) && Side(p, a, b) == 0.0
    ensures OnEdge(p, a, b)
  {
    var d := b.lat - a.lat;
    var x, w, h := p.lng - a.lng, b.lng - a.lng, p.lat - a.lat;
    assert x * d == w * h;
    if d > 0.0 {
      BetweenByRatio(x, d, w, h);
    } else {
      assert x * (0.0 - d) == w * (0.0 - h);
      BetweenByRatio(x, 0.0 - d, w, 0.0 - h);
    }
  }

  lemma ProductSign(x: real, d: real)
    requires d > 0.0
    ensures (x > 0.0 <==> x * d > 0.0) && (x < 0.0 <==> x * d < 0.0)
  {
  }

  lemma BetweenByRatio(x: real, d: real, w: real, h: real)
    requires x * d == w * h && 0.0 <= h <= d && d > 0.0
    ensures Between(0.0, x, w)
  {
    ProductSign(x, d);
    ProductSign(x - w, d);
    assert (x - w) * d == w * (h - d);
    if w >= 0.0 {
      assert w * h >= 0.0 >= w * (h - d);
    } else {
      assert w * h <= 0.0 <= w * (h - d);
    }
  }

  /** The arithmetic of one vertex alone on its side of the ray: `v` weighs it against the two others. */
  lemma LoneVertexBelow(alpha: real, beta: real, gamma: real, u: real, v: real, w: real)
    requires alpha >= 0.0 && beta > 0.0 && gamma > 0.0 && v * alpha == w * beta + u * gamma
    ensures (u > 0.0 && w >= 0.0) ==> v > 0.0
    ensures (u <= 0.0 && w < 0.0) ==> v < 0.0
  {
    ProductSign(w, beta);
    ProductSign(u, gamma);
    if alpha > 0.0 {
      ProductSign(v, alpha);
    }
  }

  lemma LoneVertexAbove(alpha: real, beta: real, gamma: real, u: real, v: real, w: real)
    requires alpha > 0.0 && beta >= 0.0 && gamma >= 0.0 && beta + gamma > 0.0 && v * alpha == w * beta + u * gamma
    ensures (u > 0.0 && w > 0.0) ==> v > 0.0
    ensures (u < 0.0 && w < 0.0) ==> v < 0.0
  {
    ProductSign(v, alpha);
    if beta > 0.0 {
      ProductSign(w, beta);
    }
    if gamma > 0.0 {
      ProductSign(u, gamma);
    }
  }

  lemma OneBelow(p: Point, a: Point, b: Point, c: Point)
    requires !Above(p, a) && Above(p, b) && Above(p, c) && !OnBoundary(p, a, b, c)
    ensures InTriangle(p, a, b, c) <==> StrictlyInside(p, a, b, c)
  {
    hide Crosses, Side, OnEdge;
    var u, v, w := Side(p, a, b), Side(p, b, c), Side(p, c, a);
    TriangleParity(p, a, b, c);
    CrossesIsSymmetric(p, a, b);
    CrossesIsSymmetric(p, c, a);
    CrossesBySide(p, a, b);
    CrossesBySide(p, c, a);
    assert !Crosses(p, c, b) by { NoStraddleNoCrossing(p, c, b); }
    SidesBalance(p, a, b, c);
    LoneVertexBelow(p.lat - a.lat, b.lat - p.lat, c.lat - p.lat, u, v, w);
    if u == 0.0 {
      OnLineIsOnEdge(p, a, b);
    }
    if w == 0.0 {
      OnLineIsOnEdge(p, c, a);
    }
  }

  lemma NoStraddleNoCrossing(p: Point, a: Point, b: Point)
    requires !Straddles(p, a, b)
    ensures !Crosses(p, a, b)
  {
  }

  /** A base lying on the ray's latitude: the point is beside it exactly when the other two sides disagree. */
  lemma LevelBase(p: Point, a: Point, b: Point, c: Point)
    requires a.lat > p.lat && b.lat == p.lat && c.lat == p.lat
    requires (Side(p, a, b) > 0.0 && Side(p, c, a) > 0.0) || (Side(p, a, b) < 0.0 && Side(p, c, a) < 0.0)
    ensures OnEdge(p, b, c)
  {
    var d := a.lat - p.lat;
    assert Side(p, a, b) == (p.lng - b.lng) * d;
    assert Side(p, c, a) == (c.lng - p.lng) * d;
    ProductSign(p.lng - b.lng, d);
    ProductSign(c.lng - p.lng, d);
  }

  lemma OneAbove(p: Point, a: Point, b: Point, c: Point)
    requires Above(p, a) && !Above(p, b) && !Above(p, c) && !OnBoundary(p, a, b, c)
    ensures InTriangle(p, a, b, c) <==> StrictlyInside(p, a, b, c)
  {
    hide Crosses, Side, OnEdge;
    var u, v, w := Side(p, a, b), Side(p, b, c), Side(p, c, a);
    TriangleParity(p, a, b, c);
    CrossesIsSymmetric(p, a, b);
    CrossesIsSymmetric(p, c, a);
    CrossesBySide(p, a, b);
    CrossesBySide(p, c, a);
    assert !Crosses(p, c, b) by { NoStraddleNoCrossing(p, c, b); }
    if u == 0.0 {
      OnLineIsOnEdge(p, a, b);
    }
    if w == 0.0 {
      OnLineIsOnEdge(p, c, a);
    }
    if b.lat == p.lat && c.lat == p.lat {
      if (u > 0.0 && w > 0.0) || (u < 0.0 && w < 0.0) {
        LevelBase(p, a, b, c);
      }
    } else {
      SidesBalance(p, a, b, c);
      LoneVertexAbove(a.lat - p.lat, p.lat - b.lat, p.lat - c.lat, u, v, w);
    }
  }

  lemma AllOnOneSide(p: Point, a: Point, b: Point, c: Point)
    requires Above(p, a) == Above(p, b) == Above(p, c)
    ensures !InTriangle(p, a, b, c) && !StrictlyInside(p, a, b, c)
  {
    TriangleParity(p, a, b, c);
    SidesBalance(p, a, b, c);
    var u, v, w := Side(p, a, b), Side(p, b, c), Side(p, c, a);
    var x, y, z := a.lat - p.lat, b.lat - p.lat, c.lat - p.lat;
    if Above(p, a) {
      ProductSign(v, x);
      ProductSign(w, y);
      ProductSign(u, z);
    } else if x == 0.0 && y == 0.0 {
      assert u == 0.0;
    } else if StrictlyInside(p, a, b, c) {
      NonPositiveBalance(x, y, z, v, w, u);
    }
  }

  lemma NonPositiveBalance(x: real, y: real, z: real, v: real, w: real, u: real)
    requires x <= 0.0 && y <= 0.0 && z <= 0.0 && (x < 0.0 || y < 0.0)
    requires (v > 0.0 && w > 0.0 && u > 0.0) || (v < 0.0 && w < 0.0 && u < 0.0)
    ensures v * x + w * y + u * z != 0.0
  {
    if v > 0.0 {
      assert v * x <= 0.0 && w * y <= 0.0 && u * z <= 0.0;
      ProductSign(x, v);
      ProductSign(y, w);
    } else {
      assert v * x >= 0.0 && w * y >= 0.0 && u * z >= 0.0;
      ProductSign(x, 0.0 - v);
      ProductSign(y, 0.0 - w);
    }
  }

  lemma TriangleRotates(p: Point, a: Point, b: Point, c: Point)
    ensures InTriangle(p, b, c, a) == InTriangle(p, a, b, c)
  {
    hide Crosses;
    TriangleParity(p, a, b, c);
    TriangleParity(p, b, c, a);
  }

  /** Off the boundary the parity test is geometric containment, for triangles of either orientation and flat ones. */
  lemma TriangleMeaning(p: Point, a: Point, b: Point, c: Point)
    requires !OnBoundary(p, a, b, c)
    ensures InTriangle(p, a, b, c) <==> StrictlyInside(p, a, b, c)
  {
    hide InTriangle, Side, OnEdge;
    TriangleRotates(p, a, b, c);
    TriangleRotates(p, b, c, a);
    if Above(p, a) == Above(p, b) == Above(p, c) {
      AllOnOneSide(p, a, b, c);
    } else if Above(p, b) == Above(p, c) {
      if Above(p, a) { OneAbove(p, a, b, c); } else { OneBelow(p, a, b, c); }
    } else if Above(p, c) == Above(p, a) {
      if Above(p, b) { OneAbove(p, b, c, a); } else { OneBelow(p, b, c, a); }
    } else {
      if Above(p, c) { OneAbove(p, c, a, b); } else { OneBelow(p, c, a, b); }
    }
  }

  // --- What containment means for any ring -----------------------------------

  /** How many triangles of the fan strictly contain the point. */
  function FanCount(p: Point, ring: seq<Point>): nat {
    if |ring| <= 2 then 0
    else FanCount(p, Front(ring)) + if StrictlyInside(p, ring[0], Last(Front(ring)), Last(ring)) then 1 else 0
  }

  predicate OffFan(p: Point, ring: seq<Point>) {
    |ring| <= 2 || (OffFan(p, Front(ring)) && !OnBoundary(p, ring[0], Last(Front(ring)), Last(ring)))
  }

  lemma {:induction false} FanParityCounts(p: Point, ring: seq<Point>)
    requires OffFan(p, ring)
    ensures FanParity(p, ring) <==> FanCount(p, ring) % 2 == 1
  {
    hide InTriangle, StrictlyInside, OnBoundary;
    if |ring| > 2 {
      FanParityCounts(p, Front(ring));
      TriangleMeaning(p, ring[0], Last(Front(ring)), Last(ring));
    }
  }

  /** Away from the fan's edges: inside means strictly inside an odd number of the ring's fan triangles. */
  lemma RingMeaning(p: Point, ring: seq<Point>, m: nat)
    requires m <= |ring| && OffFan(p, ring[m..] + ring[..m])
    ensures Inside(p, ring) <==> FanCount(p, ring[m..] + ring[..m]) % 2 == 1
  {
    FanFromAnyVertex(p, ring, m);
    FanParityCounts(p, ring[m..] + ring[..m]);
  }

  // --- Outside the bounding box ----------------------------------------------

  /** The crossing lies between the endpoints, so a point left or right of both knows the answer. */
  lemma CrossingOfFarEdge(p: Point, a: Point, b: Point)
    requires Straddles(p, a, b)
    ensures p.lng < a.lng && p.lng < b.lng ==> Crosses(p, a, b)
    ensures p.lng >= a.lng && p.lng >= b.lng ==> !Crosses(p, a, b)
  {
    var d, h := b.lat - a.lat, p.lat - a.lat;
    var x, y := p.lng - a.lng, p.lng - b.lng;
    CrossesBySide(p, a, b);
    assert Side(p, a, b) == (0.0 - x) * (d - h) - y * h;
    if p.lng < a.lng && p.lng < b.lng {
      FarSide(0.0 - x, 0.0 - y, d, h);
    } else if p.lng >= a.lng && p.lng >= b.lng {
      FarSideWeak(x, y, d, h);
      assert Side(p, a, b) == 0.0 - (x * (d - h) + y * h);
    }
  }

  lemma FarSide(x: real, y: real, d: real, h: real)
    requires x > 0.0 && y > 0.0
    ensures 0.0 <= h < d ==> x * (d - h) + y * h > 0.0
    ensures d <= h < 0.0 ==> x * (d - h) + y * h < 0.0
  {
    if 0.0 <= h < d {
      assert x * (d - h) > 0.0 && y * h >= 0.0;
    } else if d <= h < 0.0 {
      assert x * (d - h) <= 0.0;
      ProductSign(h, y);
    }
  }

  lemma FarSideWeak(x: real, y: real, d: real, h: real)
    requires x >= 0.0 && y >= 0.0
    ensures 0.0 <= h < d ==> x * (d - h) + y * h >= 0.0
    ensures d <= h < 0.0 ==> x * (d - h) + y * h <= 0.0
  {
    if 0.0 <= h < d {
      assert x * (d - h) >= 0.0 && y * h >= 0.0;
    } else if d <= h < 0.0 {
      assert x * (d - h) <= 0.0 && y * h <= 0.0;
    }
  }

  /** A chain seen from its left crosses the latitude an odd number of times just when its ends lie on either side. */
  lemma {:induction false} ChainToTheRight(p: Point, chain: seq<Point>)
    requires chain != [] && forall v :: v in chain ==> p.lng < v.lng
    ensures ChainParity(p, chain) == Straddles(p, chain[0], Last(chain))
  {
    hide Crosses;
    if |chain| > 1 {
      assert Last(chain) in chain && Last(Front(chain)) in chain;
      ChainToTheRight(p, Front(chain));
      EdgeToTheRight(p, Last(chain), Last(Front(chain)));
    }
  }

  lemma EdgeToTheRight(p: Point, a: Point, b: Point)
    requires p.lng < a.lng && p.lng < b.lng
    ensures Crosses(p, a, b) == Straddles(p, a, b)
  {
    if Straddles(p, a, b) {
      CrossingOfFarEdge(p, a, b);
    }
  }

  lemma {:induction false} ChainNeverCrossed(p: Point, chain: seq<Point>)
    requires forall a, b :: a in chain && b in chain ==> !Crosses(p, a, b)
    ensures !ChainParity(p, chain)
  {
    if |chain| > 1 {
      assert Last(chain) in chain && Last(Front(chain)) in chain;
      ChainNeverCrossed(p, Front(chain));
    }
  }

  /** Outside the ring's bounding box, and on its upper and right borders, no point is inside. */
  lemma OutsideTheBox(p: Point, ring: seq<Point>)
    requires || (forall v :: v in ring ==> p.lng < v.lng)
             || (forall v :: v in ring ==> p.lng >= v.lng)
             || (forall v :: v in ring ==> p.lat < v.lat)
             || (forall v :: v in ring ==> p.lat >= v.lat)
    ensures !Inside(p, ring)
  {
    if ring != [] {
      assert ring[0] in ring && Last(ring) in ring;
      if forall v :: v in ring ==> p.lng < v.lng {
        ChainToTheRight(p, ring);
        EdgeToTheRight(p, ring[0], Last(ring));
      } else {
        forall a, b | a in ring && b in ring
          ensures !Crosses(p, a, b)
        {
          if Straddles(p, a, b) {
            CrossingOfFarEdge(p, a, b);
          }
        }
        ChainNeverCrossed(p, ring);
      }
    }
  }

  /** For an upright rectangle the test is membership with the lower and left borders in, the others out. */
  lemma RectangleIsHalfOpen(p: Point, west: real, south: real, east: real, north: real)
    requires west < east && south < north
    ensures Inside(p, [Point(west, south), Point(east, south), Point(east, north), Point(west, north)])
            <==> west <= p.lng < east && south <= p.lat < north
  {
    var a, b, c, d := Point(west, south), Point(east, south), Point(east, north), Point(west, north);
    assert [a, b, c, d] == [a] + [b] + [c] + [d];
    ChainConcat(p, [a], [b]);
    ChainConcat(p, [a] + [b], [c]);
    ChainConcat(p, [a] + [b] + [c], [d]);
    UprightEdge(p, b, c);
    UprightEdge(p, a, d);
    CrossesIsSymmetric(p, b, c);
  }

  lemma UprightEdge(p: Point, a: Point, b: Point)
    requires a.lng == b.lng
    ensures Crosses(p, a, b) <==> Straddles(p, a, b) && p.lng < a.lng
  {
    if Straddles(p, a, b) {
      CrossingOfFarEdge(p, a, b);
    }
  }
}
