/** Which region a point is in (internal/region/region.go): a bounding box and a 256-band edge
    index over the plain even-odd test. Coordinates are exact reals, so rounding is not modelled. */
module RegionLookup {
  import opened Common

  datatype Point = Point(lon: real, lat: real)

  type Ring = seq<Point>

  /** One side of a closed ring, from a vertex back to the one before it. */
  datatype Edge = Edge(a: Point, b: Point)

  datatype Box = Box(minLon: real, minLat: real, maxLon: real, maxLat: real)

  const BAND_COUNT := 256

  // ---------------------------------------------------------------------------------------------
  // The plain even-odd test
  // ---------------------------------------------------------------------------------------------

  function EdgeAt(ring: Ring, i: nat): Edge
    requires i < |ring|
  {
    Edge(ring[i], ring[if i == 0 then |ring| - 1 else i - 1])
  }

  function Edges(ring: Ring): (es: seq<Edge>)
    ensures |es| == |ring|
  {
    seq(|ring|, i requires 0 <= i < |ring| => EdgeAt(ring, i))
  }

  function AllEdges(rings: seq<Ring>): seq<Edge>
  {
    if rings == [] then [] else AllEdges(rings[..|rings| - 1]) + Edges(rings[|rings| - 1])
  }

  predicate Straddles(e: Edge, lat: real)
  {
    (e.a.lat > lat) != (e.b.lat > lat)
  }

  /** Where the edge meets a latitude it straddles. */
  function CrossLon(e: Edge, lat: real): real
    requires Straddles(e, lat)
  {
    e.a.lon + (lat - e.a.lat) * (e.b.lon - e.a.lon) / (e.b.lat - e.a.lat)
  }

  predicate Crosses(e: Edge, p: Point)
  {
    Straddles(e, p.lat) && p.lon < CrossLon(e, p.lat)
  }

  /** How many edges a ray from p toward the east crosses. */
  function Crossings(es: seq<Edge>, p: Point): nat
  {
    if es == [] then 0
    else Crossings(es[..|es| - 1], p) + if Crosses(es[|es| - 1], p) then 1 else 0
  }

  predicate Odd(n: nat) { n % 2 == 1 }

  /** The reference meaning of "inside": an odd number of crossings over every ring. */
  predicate Inside(rings: seq<Ring>, p: Point)
  {
    Odd(Crossings(AllEdges(rings), p))
  }

  lemma {:induction false} CrossingsConcat(xs: seq<Edge>, ys: seq<Edge>, p: Point)
    ensures Crossings(xs + ys, p) == Crossings(xs, p) + Crossings(ys, p)
    decreases |ys|
  {
    if ys == [] {
      assert xs + ys == xs;
    } else {
      var n := |ys| - 1;
      CrossingsConcat(xs, ys[..n], p);
      assert (xs + ys)[..|xs + ys| - 1] == xs + ys[..n];
    }
  }

  /** Testing every ring alone and flipping on each that contains the point is the same question. */
  lemma InsideIsRingByRing(rings: seq<Ring>, ring: Ring, p: Point)
    ensures Inside(rings + [ring], p) == (Inside(rings, p) != Odd(Crossings(Edges(ring), p)))
  {
    assert (rings + [ring])[..|rings|] == rings;
    CrossingsConcat(AllEdges(rings), Edges(ring), p);
  }

  method InRing(ring: Ring, p: Point) returns (inside: bool)
    ensures inside == Odd(Crossings(Edges(ring), p))
  {
    inside := false;
    var i, j := 0, |ring| - 1;
    while i < |ring|
      invariant 0 <= i <= |ring|
      invariant j == if i == 0 then |ring| - 1 else i - 1
      invariant inside == Odd(Crossings(Edges(ring)[..i], p))
    {
      var a, b := ring[i], ring[j];
      assert Edges(ring)[..i + 1][..i] == Edges(ring)[..i];
      assert Edges(ring)[i] == Edge(a, b);
      if Crosses(Edge(a, b), p) {
        inside := !inside;
      }
      j, i := i, i + 1;
    }
    assert Edges(ring)[..i] == Edges(ring);
  }

  // ---------------------------------------------------------------------------------------------
  // The bounding box
  // ---------------------------------------------------------------------------------------------

  predicate HasPoint(rings: seq<Ring>, p: Point)
  {
    exists r, i :: 0 <= r < |rings| && 0 <= i < |rings[r]| && rings[r][i] == p
  }

  predicate InBox(b: Box, p: Point)
  {
    b.minLon <= p.lon <= b.maxLon && b.minLat <= p.lat <= b.maxLat
  }

  ghost function Vertices(rings: seq<Ring>): iset<Point> { iset p | HasPoint(rings, p) }

  /** The smallest box around the points; None stands for the program's inverted infinite box. */
  ghost predicate IsBoxOf(points: iset<Point>, box: Option<Box>)
  {
    match box
    case None => points == iset{}
    case Some(b) =>
      && (forall p | p in points :: InBox(b, p))
      && (exists p :: p in points && p.lon == b.minLon)
      && (exists p :: p in points && p.lon == b.maxLon)
      && (exists p :: p in points && p.lat == b.minLat)
      && (exists p :: p in points && p.lat == b.maxLat)
  }

  function Widen(box: Option<Box>, p: Point): Option<Box>
  {
    match box
    case None => Some(Box(p.lon, p.lat, p.lon, p.lat))
    case Some(b) => Some(Box(
      if p.lon < b.minLon then p.lon else b.minLon, if p.lat < b.minLat then p.lat else b.minLat,
      if p.lon > b.maxLon then p.lon else b.maxLon, if p.lat > b.maxLat then p.lat else b.maxLat))
  }

  method RingsBox(rings: seq<Ring>) returns (box: Option<Box>)
    ensures IsBoxOf(Vertices(rings), box)
  {
    box := None;
    ghost var seen: iset<Point> := iset{};
    for r := 0 to |rings|
      invariant IsBoxOf(seen, box)
      invariant seen <= Vertices(rings)
      invariant forall s, k | 0 <= s < r && 0 <= k < |rings[s]| :: rings[s][k] in seen
    {
      for i := 0 to |rings[r]|
        invariant IsBoxOf(seen, box)
        invariant seen <= Vertices(rings)
        invariant forall s, k | 0 <= s < r && 0 <= k < |rings[s]| :: rings[s][k] in seen
        invariant forall k | 0 <= k < i :: rings[r][k] in seen
      {
        box, seen := Widen(box, rings[r][i]), seen + iset{rings[r][i]};
      }
    }
    assert seen == Vertices(rings);
  }

  // ---------------------------------------------------------------------------------------------
  // Outside the box the crossings are even
  // ---------------------------------------------------------------------------------------------

  function Straddling(es: seq<Edge>, lat: real): nat
  {
    if es == [] then 0
    else Straddling(es[..|es| - 1], lat) + if Straddles(es[|es| - 1], lat) then 1 else 0
  }

  /** Going round a ring, the side of the latitude we are on records how often it was crossed. */
  lemma {:induction false} SideTellsParity(ring: Ring, lat: real, k: nat)
    requires 0 < k <= |ring|
    ensures Odd(Straddling(Edges(ring)[..k], lat)) == ((ring[k - 1].lat > lat) != (ring[|ring| - 1].lat > lat))
  {
    assert Edges(ring)[..k][..k - 1] == Edges(ring)[..k - 1];
    if k > 1 {
      SideTellsParity(ring, lat, k - 1);
    }
  }

  /** A closed ring straddles any latitude an even number of times. */
  lemma ClosedRingStraddlesEvenly(ring: Ring, lat: real)
    ensures !Odd(Straddling(Edges(ring), lat))
  {
    if ring != [] {
      SideTellsParity(ring, lat, |ring|);
      assert Edges(ring)[..|ring|] == Edges(ring);
    }
  }

  lemma ProductNotNegative(x: real, y: real)
    requires x >= 0.0 && y >= 0.0
    ensures x * y >= 0.0
  {
  }

  /** A fraction of the way along a span stays within it. */
  lemma InterpolationBounds(x0: real, x1: real, t: real, d: real, lo: real, hi: real)
    requires d != 0.0 && 0.0 <= t / d <= 1.0
    requires lo <= x0 <= hi && lo <= x1 <= hi
    ensures lo <= x0 + t * (x1 - x0) / d <= hi
  {
    var f := t / d;
    assert t * (x1 - x0) / d == f * (x1 - x0);
    var w := if x1 >= x0 then x1 - x0 else x0 - x1;
    ProductNotNegative(f, w);
    ProductNotNegative(1.0 - f, w);
    assert (1.0 - f) * w == w - f * w;
    assert f * (x1 - x0) == if x1 >= x0 then f * w else -(f * w);
  }

  lemma CrossLonWithin(e: Edge, lat: real, lo: real, hi: real)
    requires Straddles(e, lat)
    requires lo <= e.a.lon <= hi && lo <= e.b.lon <= hi
    ensures lo <= CrossLon(e, lat) <= hi
  {
    var t, d := lat - e.a.lat, e.b.lat - e.a.lat;
    assert 0.0 <= t / d <= 1.0 by {
      if d > 0.0 { assert 0.0 <= t <= d; } else { assert d <= t <= 0.0; }
    }
    InterpolationBounds(e.a.lon, e.b.lon, t, d, lo, hi);
  }

  ghost predicate EdgeInBox(e: Edge, b: Box) { InBox(b, e.a) && InBox(b, e.b) }

  /** Edges within the box: a point beside or above or below it crosses none, or exactly those that straddle. */
  lemma {:induction false} CrossingsFromOutside(es: seq<Edge>, b: Box, p: Point)
    requires forall i | 0 <= i < |es| :: EdgeInBox(es[i], b)
    requires !InBox(b, p)
    ensures Crossings(es, p) == if p.lon < b.minLon then Straddling(es, p.lat) else 0
  {
    if es != [] {
      var n := |es| - 1;
      var e := es[n];
      CrossingsFromOutside(es[..n], b, p);
      if Straddles(e, p.lat) {
        CrossLonWithin(e, p.lat, b.minLon, b.maxLon);
      }
    }
  }

  lemma {:induction false} OutsideBoxIsEven(rings: seq<Ring>, b: Box, p: Point)
    requires forall q | HasPoint(rings, q) :: InBox(b, q)
    requires !InBox(b, p)
    ensures !Inside(rings, p)
  {
    if rings != [] {
      var n := |rings| - 1;
      forall q | HasPoint(rings[..n], q) ensures InBox(b, q) {
        var r, i :| 0 <= r < n && 0 <= i < |rings[..n][r]| && rings[..n][r][i] == q;
        assert rings[r][i] == q;
      }
      OutsideBoxIsEven(rings[..n], b, p);
      forall i | 0 <= i < |rings[n]| ensures EdgeInBox(Edges(rings[n])[i], b) {
        var e := EdgeAt(rings[n], i);
        assert HasPoint(rings, e.a) && HasPoint(rings, e.b);
      }
      CrossingsFromOutside(Edges(rings[n]), b, p);
      ClosedRingStraddlesEvenly(rings[n], p.lat);
      assert rings == rings[..n] + [rings[n]];
      InsideIsRingByRing(rings[..n], rings[n], p);
    }
  }

  /** The prefilter never changes the answer. */
  lemma BoxNeverChangesTheAnswer(rings: seq<Ring>, box: Option<Box>, p: Point)
    requires IsBoxOf(Vertices(rings), box)
    requires Inside(rings, p)
    ensures box.Some? && InBox(box.value, p)
  {
    if r :| 0 <= r < |rings| && rings[r] != [] {
      assert HasPoint(rings, rings[r][0]);
      assert rings[r][0] in Vertices(rings);
    } else {
      NoPointsNoEdges(rings);
    }
    if box.Some? && !InBox(box.value, p) {
      assert forall q | HasPoint(rings, q) :: q in Vertices(rings);
      OutsideBoxIsEven(rings, box.value, p);
    }
  }

  lemma {:induction false} NoPointsNoEdges(rings: seq<Ring>)
    requires forall r | 0 <= r < |rings| :: rings[r] == []
    ensures AllEdges(rings) == []
  {
    if rings != [] {
      NoPointsNoEdges(rings[..|rings| - 1]);
    }
  }

  // ---------------------------------------------------------------------------------------------
  // The band index
  // ---------------------------------------------------------------------------------------------

  function Band(minLat: real, step: real, lat: real): (k: int)
    requires step > 0.0
    ensures 0 <= k < BAND_COUNT
  {
    Max(0, Min(BAND_COUNT - 1, Truncate((lat - minLat) / step)))
  }

  lemma BandIsMonotone(minLat: real, step: real, lo: real, hi: real)
    requires step > 0.0 && lo <= hi
    ensures Band(minLat, step, lo) <= Band(minLat, step, hi)
  {
    var x, y := (lo - minLat) / step, (hi - minLat) / step;
    assert x <= y by { DivisionIsMonotone(lo - minLat, hi - minLat, step); }
    assert Truncate(x) <= Truncate(y);
  }

  lemma DivisionIsMonotone(x: real, y: real, d: real)
    requires d > 0.0 && x <= y
    ensures x / d <= y / d
  {
    assert y / d - x / d == (y - x) / d;
    assert (y - x) / d >= 0.0;
  }

  function LowLat(e: Edge): real { if e.a.lat < e.b.lat then e.a.lat else e.b.lat }

  function HighLat(e: Edge): real { if e.a.lat > e.b.lat then e.a.lat else e.b.lat }

  predicate InBand(minLat: real, step: real, e: Edge, k: int)
    requires step > 0.0
  {
    Band(minLat, step, LowLat(e)) <= k <= Band(minLat, step, HighLat(e))
  }

  /** The edges filed under band k, in ring order, each once. */
  function Bucket(minLat: real, step: real, es: seq<Edge>, k: int): seq<Edge>
    requires step > 0.0
  {
    if es == [] then []
    else
      var n := |es| - 1;
      Bucket(minLat, step, es[..n], k) + if InBand(minLat, step, es[n], k) then [es[n]] else []
  }

  /** The band of a latitude holds every edge that can be crossed there. */
  lemma {:induction false} BandHoldsEveryCrossing(minLat: real, step: real, es: seq<Edge>, p: Point)
    requires step > 0.0
    ensures Crossings(Bucket(minLat, step, es, Band(minLat, step, p.lat)), p) == Crossings(es, p)
  {
    if es != [] {
      var n := |es| - 1;
      var k := Band(minLat, step, p.lat);
      BandHoldsEveryCrossing(minLat, step, es[..n], p);
      if InBand(minLat, step, es[n], k) {
        CrossingsConcat(Bucket(minLat, step, es[..n], k), [es[n]], p);
        assert [es[n]][..0] == [];
      } else {
        if Straddles(es[n], p.lat) {
          BandIsMonotone(minLat, step, LowLat(es[n]), p.lat);
          BandIsMonotone(minLat, step, p.lat, HighLat(es[n]));
          assert false;
        }
        assert Bucket(minLat, step, es[..n], k) + [] == Bucket(minLat, step, es[..n], k);
      }
    }
  }

  datatype BandIndex = BandIndex(minLat: real, step: real, bands: seq<seq<Edge>>)

  /** Every band holds exactly its bucket of the edges. */
  ghost predicate Filed(bands: seq<seq<Edge>>, minLat: real, step: real, es: seq<Edge>)
    requires step > 0.0
  {
    |bands| == BAND_COUNT && forall k | 0 <= k < BAND_COUNT :: bands[k] == Bucket(minLat, step, es, k)
  }

  ghost predicate IsIndexOf(idx: BandIndex, rings: seq<Ring>)
  {
    idx.step > 0.0 && Filed(idx.bands, idx.minLat, idx.step, AllEdges(rings))
  }

  method FileEdge(bands: array<seq<Edge>>, minLat: real, step: real, e: Edge, ghost before: seq<Edge>)
    requires step > 0.0 && bands.Length == BAND_COUNT
    requires Filed(bands[..], minLat, step, before)
    modifies bands
    ensures Filed(bands[..], minLat, step, before + [e])
  {
    var lo, hi := Band(minLat, step, LowLat(e)), Band(minLat, step, HighLat(e));
    BandIsMonotone(minLat, step, LowLat(e), HighLat(e));
    for k := lo to hi + 1
      invariant forall m | 0 <= m < BAND_COUNT ::
        bands[m] == Bucket(minLat, step, before, m) + if lo <= m < k then [e] else []
    {
      bands[k] := bands[k] + [e];
    }
    assert (before + [e])[..|before|] == before;
  }

  method FileRing(bands: array<seq<Edge>>, minLat: real, step: real, ring: Ring, ghost before: seq<Edge>)
    requires step > 0.0 && bands.Length == BAND_COUNT
    requires Filed(bands[..], minLat, step, before)
    modifies bands
    ensures Filed(bands[..], minLat, step, before + Edges(ring))
  {
    assert before + Edges(ring)[..0] == before;
    var i, j := 0, |ring| - 1;
    while i < |ring|
      invariant 0 <= i <= |ring|
      invariant j == if i == 0 then |ring| - 1 else i - 1
      invariant Filed(bands[..], minLat, step, before + Edges(ring)[..i])
    {
      FileEdge(bands, minLat, step, Edge(ring[i], ring[j]), before + Edges(ring)[..i]);
      assert before + Edges(ring)[..i] + [Edge(ring[i], ring[j])] == before + Edges(ring)[..i + 1];
      j, i := i, i + 1;
    }
    assert Edges(ring)[..i] == Edges(ring);
  }

  /** A decoded region; the index is built by the first point test that needs it. */
  class Region {
    const rings: seq<Ring>
    const box: Option<Box>
    var index: Option<BandIndex>

    ghost predicate Valid()
      reads this
    {
      IsBoxOf(Vertices(rings), box) && (index.Some? ==> IsIndexOf(index.value, rings))
    }

    constructor (rings: seq<Ring>)
      ensures Valid() && this.rings == rings && index.None?
    {
      var b := RingsBox(rings);
      this.rings := rings;
      box := b;
      index := None;
    }

    method BuildIndex()
      requires Valid()
      modifies this
      ensures Valid() && index.Some?
      ensures old(index).Some? ==> index == old(index)
    {
      if index.Some? {
        return;
      }
      var minLat, step := 0.0, 1.0;
      if box.Some? {
        minLat := box.value.minLat;
        step := (box.value.maxLat - box.value.minLat) / BAND_COUNT as real;
        if step <= 0.0 {
          step := 1.0;
        }
      }
      var bands := new seq<Edge>[BAND_COUNT](_ => []);
      for r := 0 to |rings|
        invariant Filed(bands[..], minLat, step, AllEdges(rings[..r]))
      {
        assert rings[..r + 1][..r] == rings[..r];
        FileRing(bands, minLat, step, rings[r], AllEdges(rings[..r]));
      }
      assert rings[..|rings|] == rings;
      index := Some(BandIndex(minLat, step, bands[..]));
    }

    /** Through the index, for every point, in the box or not. */
    method Contains(p: Point) returns (inside: bool)
      requires Valid()
      modifies this
      ensures Valid()
      ensures inside == Inside(rings, p)
    {
      inside := false;
      BuildIndex();
      var idx := index.value;
      var es := idx.bands[Band(idx.minLat, idx.step, p.lat)];
      for i := 0 to |es|
        invariant inside == Odd(Crossings(es[..i], p))
      {
        var e := es[i];
        assert es[..i + 1][..i] == es[..i];
        if Crosses(e, p) {
          inside := !inside;
        }
      }
      assert es[..|es|] == es;
      BandHoldsEveryCrossing(idx.minLat, idx.step, AllEdges(rings), p);
    }
  }

  /** The first region in file order that holds the point by the plain test, or None over the sea. */
  method At(all: seq<Region>, p: Point) returns (found: Option<Region>)
    requires forall r | r in all :: r.Valid()
    modifies all
    ensures forall r | r in all :: r.Valid()
    ensures match found
            case None => forall r | r in all :: !Inside(r.rings, p)
            case Some(r) =>
              exists i :: 0 <= i < |all| && all[i] == r && Inside(r.rings, p)
                          && forall j | 0 <= j < i :: !Inside(all[j].rings, p)
  {
    for i := 0 to |all|
      invariant forall r | r in all :: r.Valid()
      invariant forall j | 0 <= j < i :: !Inside(all[j].rings, p)
    {
      var r := all[i];
      assert r in all && r.Valid();
      if r.box.Some? && p.lon >= r.box.value.minLon && p.lon <= r.box.value.maxLon
         && p.lat >= r.box.value.minLat && p.lat <= r.box.value.maxLat {
        var inside := r.Contains(p);
        if inside {
          return Some(r);
        }
      } else {
        assert !Inside(r.rings, p) by {
          if Inside(r.rings, p) {
            BoxNeverChangesTheAnswer(r.rings, r.box, p);
          }
        }
      }
    }
    found := None;
  }
}
