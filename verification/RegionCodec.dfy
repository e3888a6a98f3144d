/** The region file (internal/region/codec.go): strings and counts as base-128 varints, coordinates as
    zigzag varints of running microdegree deltas. The gzip layer is taken as the identity on bytes. */
module RegionCodec {
  import opened Common

  type U64 = x: int | 0 <= x < TWO64

  type I64 = x: int | -TWO63 <= x < TWO63

  const TWO63 := 0x8000_0000_0000_0000
  const TWO64 := 0x1_0000_0000_0000_0000

  /** Go's signed 64-bit sum and difference wrap round. */
  function Wrap(x: int): (w: I64)
    ensures -TWO63 <= x < TWO63 ==> w == x
  {
    (x + TWO63) % TWO64 - TWO63
  }

  lemma WrappedDeltaComesBack(prev: I64, next: I64)
    ensures Wrap(prev + Wrap(next - prev)) == next
  {
    var d := next - prev;
    if d >= TWO63 {
      assert Wrap(d) == d - TWO64;
    } else if d < -TWO63 {
      assert Wrap(d) == d + TWO64;
    }
  }

  // ---------------------------------------------------------------------------------------------
  // Varints
  // ---------------------------------------------------------------------------------------------

  /** Seven bits a byte, low first, the high bit set on all but the last. */
  function PutUvarint(v: U64): seq<Byte>
  {
    if v < 128 then [v] else [v % 128 + 128] + PutUvarint(v / 128)
  }

  function Zigzag(x: I64): U64
  {
    if x >= 0 then 2 * x else -2 * x - 1
  }

  function Unzigzag(u: U64): I64
  {
    if u % 2 == 0 then u / 2 else -(u / 2) - 1
  }

  function PutVarint(x: I64): seq<Byte> { PutUvarint(Zigzag(x)) }

  lemma ZigzagInverts(x: I64, u: U64)
    ensures Unzigzag(Zigzag(x)) == x && Zigzag(Unzigzag(u)) == u
  {
  }

  function Pow128(i: nat): nat { if i == 0 then 1 else 128 * Pow128(i - 1) }

  /** A read: the value, where it ended, and whether it succeeded; a failed read still returns what it gathered. */
  datatype Read = Read(value: U64, pos: nat, ok: bool)

  const MAX_VARINT_LEN := 10

  /** x with seven more bits above the 7i it has, cut to 64. */
  function Shifted(x: U64, bits: nat, i: nat): U64 { (x + bits * Pow128(i)) % TWO64 }

  /** binary.ReadUvarint from its i-th byte, with x gathered so far. */
  function ReadUvarint(data: seq<Byte>, pos: nat, i: nat, x: U64): Read
    requires i <= MAX_VARINT_LEN
    decreases MAX_VARINT_LEN - i
  {
    if i == MAX_VARINT_LEN || pos >= |data| then Read(x, pos, false)
    else
      var b := data[pos];
      if b < 128 then
        if i == MAX_VARINT_LEN - 1 && b > 1 then Read(x, pos + 1, false)
        else Read(Shifted(x, b, i), pos + 1, true)
      else ReadUvarint(data, pos + 1, i + 1, Shifted(x, b - 128, i))
  }

  /** chunk is what data holds from pos on. */
  predicate At(data: seq<Byte>, pos: nat, chunk: seq<Byte>)
  {
    pos + |chunk| <= |data| && data[pos..pos + |chunk|] == chunk
  }

  lemma AtSplits(data: seq<Byte>, pos: nat, a: seq<Byte>, b: seq<Byte>)
    requires At(data, pos, a + b)
    ensures At(data, pos, a) && At(data, pos + |a|, b)
  {
    assert data[pos..pos + |a|] == data[pos..pos + |a + b|][..|a|];
    assert data[pos + |a|..pos + |a| + |b|] == data[pos..pos + |a + b|][|a|..];
  }

  lemma PowTable()
    ensures Pow128(9) == TWO63
  {
    assert Pow128(1) == 128 && Pow128(2) == 0x4000 && Pow128(3) == 0x20_0000 && Pow128(4) == 0x1000_0000;
    assert Pow128(5) == 0x8_0000_0000 && Pow128(6) == 0x400_0000_0000 && Pow128(7) == 0x2_0000_0000_0000;
    assert Pow128(8) == 0x100_0000_0000_0000;
  }

  lemma {:induction false} PowGrows(i: nat, j: nat)
    requires i <= j
    ensures Pow128(i) <= Pow128(j)
    decreases j
  {
    if i < j {
      PowGrows(i, j - 1);
    }
  }

  /** Ten bytes are enough: a value that still has room has a ninth shift at most, and then one bit. */
  lemma ShiftHasRoom(v: nat, i: nat)
    requires i < MAX_VARINT_LEN && v * Pow128(i) < TWO64
    ensures v >= 128 ==> i < MAX_VARINT_LEN - 1
    ensures i == MAX_VARINT_LEN - 1 ==> v <= 1
  {
    PowTable();
  }

  /** A varint read where one was put gives the value back and stops right after it. */
  lemma {:induction false} UvarintComesBack(data: seq<Byte>, pos: nat, v: U64, i: nat, x: U64)
    requires i < MAX_VARINT_LEN
    requires x + v * Pow128(i) < TWO64
    requires At(data, pos, PutUvarint(v))
    ensures ReadUvarint(data, pos, i, x) == Read(x + v * Pow128(i), pos + |PutUvarint(v)|, true)
    decreases v
  {
    var p := Pow128(i);
    ShiftHasRoom(v, i);
    assert data[pos] == PutUvarint(v)[0] by { assert data[pos] == data[pos..pos + |PutUvarint(v)|][0]; }
    if v < 128 {
      LastByte(data, pos, v, i, x);
    } else {
      var low, rest := v % 128, v / 128;
      AtSplits(data, pos, [low + 128], PutUvarint(rest));
      var x' := x + low * p;
      LowAndRest(v, p);
      assert Pow128(i + 1) == 128 * p;
      hide Pow128, ReadUvarint;
      assert x' + rest * Pow128(i + 1) == x + v * p;
      UvarintComesBack(data, pos + 1, rest, i + 1, x');
      ReadStep(data, pos, i, x, low);
    }
  }

  lemma LowAndRest(v: nat, p: nat)
    ensures v % 128 * p + v / 128 * (128 * p) == v * p
    ensures 0 <= v % 128 * p && 0 <= v / 128 * (128 * p)
  {
    assert v == v / 128 * 128 + v % 128;
    assert v / 128 * (128 * p) == v / 128 * 128 * p;
  }

  lemma LastByte(data: seq<Byte>, pos: nat, v: U64, i: nat, x: U64)
    requires i < MAX_VARINT_LEN && pos < |data| && v < 128 && data[pos] == v
    requires i == MAX_VARINT_LEN - 1 ==> v <= 1
    requires 0 <= x + v * Pow128(i) < TWO64
    ensures ReadUvarint(data, pos, i, x) == Read(x + v * Pow128(i), pos + 1, true)
  {
    assert Shifted(x, v, i) == x + v * Pow128(i);
  }

  /** One continuation byte: its seven bits are shifted in and the read goes on. */
  lemma {:induction false} ReadStep(data: seq<Byte>, pos: nat, i: nat, x: U64, low: nat)
    requires i < MAX_VARINT_LEN && pos < |data| && low < 128 && data[pos] == low + 128
    requires 0 <= x + low * Pow128(i) < TWO64
    ensures ReadUvarint(data, pos, i, x) == ReadUvarint(data, pos + 1, i + 1, x + low * Pow128(i))
  {
    assert data[pos] - 128 == low;
    assert Shifted(x, low, i) == x + low * Pow128(i);
  }

  // ---------------------------------------------------------------------------------------------
  // Regions
  // ---------------------------------------------------------------------------------------------

  /** Degrees. */
  datatype Point = Point(lon: real, lat: real)

  type Ring = seq<Point>

  /** area is the bits of a 64-bit float, copied as they are. */
  datatype Region = Region(id: seq<Byte>, name: seq<Byte>, country: seq<Byte>, area: U64, rings: seq<Ring>)

  const MAGIC: seq<Byte> := [79, 87, 76, 82, 71, 78, 49, 10] // "OWLRGN1\n"
  const MAX_REGIONS := 0x1_0000
  const MAX_RINGS := 0x1_0000
  const MAX_POINTS := 0x40_0000
  const MAX_STRING := 1024

  function Micro(degrees: real): int { Round(degrees * 1000000.0) }

  function Degrees(micro: I64): real { micro as real / 1000000.0 }

  function RoundedPoint(p: Point): Point
    requires Encodable(p)
  {
    Point(Degrees(Micro(p.lon)), Degrees(Micro(p.lat)))
  }

  /** Its microdegrees fit the signed 64-bit integers they are converted to. */
  predicate Encodable(p: Point)
  {
    -TWO63 <= Micro(p.lon) < TWO63 && -TWO63 <= Micro(p.lat) < TWO63
  }

  predicate RingEncodable(ring: Ring)
  {
    |ring| < TWO63 && forall i | 0 <= i < |ring| :: Encodable(ring[i])
  }

  /** Every length is one Go can hold and every coordinate fits. */
  predicate RegionEncodable(r: Region)
  {
    |r.id| < TWO63 && |r.name| < TWO63 && |r.country| < TWO63 && |r.rings| < TWO63
    && forall i | 0 <= i < |r.rings| :: RingEncodable(r.rings[i])
  }

  predicate AllEncodable(rs: seq<Region>)
  {
    |rs| < TWO63 && forall i | 0 <= i < |rs| :: RegionEncodable(rs[i])
  }

  function PutString(s: seq<Byte>): seq<Byte>
    requires |s| < TWO63
  {
    PutUvarint(|s|) + s
  }

  function PutDelta(p: Point, px: I64, py: I64): seq<Byte>
    requires Encodable(p)
  {
    PutVarint(Wrap(Micro(p.lon) - px)) + PutVarint(Wrap(Micro(p.lat) - py))
  }

  function PutPoints(ring: Ring, px: I64, py: I64): seq<Byte>
    requires forall i | 0 <= i < |ring| :: Encodable(ring[i])
  {
    if ring == [] then [] else
    assert Encodable(ring[0]);
    PutDelta(ring[0], px, py) + PutPoints(ring[1..], Micro(ring[0].lon), Micro(ring[0].lat))
  }

  function PutRing(ring: Ring): seq<Byte>
    requires RingEncodable(ring)
  {
    PutUvarint(|ring|) + PutPoints(ring, 0, 0)
  }

  function PutRings(rings: seq<Ring>): seq<Byte>
    requires forall i | 0 <= i < |rings| :: RingEncodable(rings[i])
  {
    if rings == [] then [] else
    assert RingEncodable(rings[0]);
    PutRing(rings[0]) + PutRings(rings[1..])
  }

  /** The fields of a region ahead of its rings. */
  function PutHead(r: Region): seq<Byte>
    requires RegionEncodable(r)
  {
    PutString(r.id) + PutString(r.name) + PutString(r.country) + PutUvarint(r.area) + PutUvarint(|r.rings|)
  }

  function PutRegion(r: Region): seq<Byte>
    requires RegionEncodable(r)
  {
    PutHead(r) + PutRings(r.rings)
  }

  function PutRegions(rs: seq<Region>): seq<Byte>
    requires forall i | 0 <= i < |rs| :: RegionEncodable(rs[i])
  {
    if rs == [] then [] else
    assert RegionEncodable(rs[0]);
    PutRegion(rs[0]) + PutRegions(rs[1..])
  }

  function File(rs: seq<Region>): seq<Byte>
    requires AllEncodable(rs)
  {
    MAGIC + PutUvarint(|rs|) + PutRegions(rs)
  }

  lemma Associates(a: seq<Byte>, b: seq<Byte>, c: seq<Byte>)
    ensures (a + b) + c == a + (b + c)
  {
  }

  method EncodeRing(out0: seq<Byte>, ring: Ring) returns (out: seq<Byte>)
    requires RingEncodable(ring)
    ensures out == out0 + PutRing(ring)
  {
    out := out0 + PutUvarint(|ring|);
    Associates(out0, PutUvarint(|ring|), PutPoints(ring, 0, 0));
    var px: I64, py: I64 := 0, 0;
    assert ring[0..] == ring;
    for j := 0 to |ring|
      invariant out + PutPoints(ring[j..], px, py) == out0 + PutRing(ring)
    {
      assert Encodable(ring[j]);
      var x: I64, y: I64 := Micro(ring[j].lon), Micro(ring[j].lat);
      assert ring[j..][0] == ring[j] && ring[j..][1..] == ring[j + 1..];
      Associates(out, PutDelta(ring[j], px, py), PutPoints(ring[j + 1..], x, y));
      Associates(out, PutVarint(Wrap(x - px)), PutVarint(Wrap(y - py)));
      out := out + PutVarint(Wrap(x - px)) + PutVarint(Wrap(y - py));
      px, py := x, y;
    }
    assert out + [] == out;
  }

  method EncodeRegion(out0: seq<Byte>, r: Region) returns (out: seq<Byte>)
    requires RegionEncodable(r)
    ensures out == out0 + PutRegion(r)
  {
    out := out0 + PutHead(r);
    Associates(out0, PutHead(r), PutRings(r.rings));
    assert r.rings[0..] == r.rings;
    for i := 0 to |r.rings|
      invariant out + PutRings(r.rings[i..]) == out0 + PutRegion(r)
    {
      assert RingEncodable(r.rings[i]);
      assert r.rings[i..][0] == r.rings[i] && r.rings[i..][1..] == r.rings[i + 1..];
      Associates(out, PutRing(r.rings[i]), PutRings(r.rings[i + 1..]));
      out := EncodeRing(out, r.rings[i]);
    }
    assert out + [] == out;
  }

  method Encode(rs: seq<Region>) returns (out: seq<Byte>)
    requires AllEncodable(rs)
    ensures out == File(rs)
  {
    out := MAGIC + PutUvarint(|rs|);
    assert rs[0..] == rs;
    for i := 0 to |rs|
      invariant out + PutRegions(rs[i..]) == File(rs)
    {
      assert RegionEncodable(rs[i]);
      assert rs[i..][0] == rs[i] && rs[i..][1..] == rs[i + 1..];
      Associates(out, PutRegion(rs[i]), PutRegions(rs[i + 1..]));
      out := EncodeRegion(out, rs[i]);
    }
    assert out + [] == out;
  }

  // ---------------------------------------------------------------------------------------------
  // Decoding
  // ---------------------------------------------------------------------------------------------

  /** Where reading has got to, and the sticky read error. */
  datatype Cursor = Cursor(pos: nat, failed: bool)

  function GetUvarint(data: seq<Byte>, c: Cursor): (U64, Cursor)
  {
    var r := ReadUvarint(data, c.pos, 0, 0);
    (r.value, Cursor(r.pos, c.failed || !r.ok))
  }

  function GetVarint(data: seq<Byte>, c: Cursor): (I64, Cursor)
  {
    var (u, next) := GetUvarint(data, c);
    (Unzigzag(u), next)
  }

  function GetBounded(data: seq<Byte>, c: Cursor, limit: U64): (r: (U64, Cursor))
    ensures r.0 <= limit
  {
    var (v, next) := GetUvarint(data, c);
    (Min(v, limit), next.(failed := next.failed || v > limit))
  }

  /** A string cut short by the end of the data is padded with zeros, and the error sticks. */
  function GetString(data: seq<Byte>, c: Cursor): (r: (seq<Byte>, Cursor))
    ensures |r.0| <= MAX_STRING
  {
    var (n, next) := GetBounded(data, c, MAX_STRING);
    if next.pos + n <= |data| then (data[next.pos..next.pos + n], next.(pos := next.pos + n))
    else
      var have := if next.pos <= |data| then data[next.pos..] else [];
      (have + seq(n - |have|, _ => 0), Cursor(next.pos + |have|, true))
  }

  /** One delta pair onto the running coordinates. */
  function GetDelta(data: seq<Byte>, c: Cursor, x: I64, y: I64): (I64, I64, Cursor)
  {
    var (dx, c1) := GetVarint(data, c);
    var (dy, c2) := GetVarint(data, c1);
    (Wrap(x + dx), Wrap(y + dy), c2)
  }

  function GetPoints(data: seq<Byte>, c: Cursor, n: nat, x: I64, y: I64): (Ring, Cursor)
    decreases n
  {
    if n == 0 then ([], c) else
    var (x', y', next) := GetDelta(data, c, x, y);
    var (rest, last) := GetPoints(data, next, n - 1, x', y');
    ([Point(Degrees(x'), Degrees(y'))] + rest, last)
  }

  lemma PointsStep(data: seq<Byte>, c: Cursor, n: nat, x: I64, y: I64, ring: Ring)
    requires n > 0
    ensures var (x', y', next) := GetDelta(data, c, x, y);
      var before, after := GetPoints(data, c, n, x, y), GetPoints(data, next, n - 1, x', y');
      ring + before.0 == ring + [Point(Degrees(x'), Degrees(y'))] + after.0 && before.1 == after.1
  {
    var (x', y', next) := GetDelta(data, c, x, y);
    var p, after := Point(Degrees(x'), Degrees(y')), GetPoints(data, next, n - 1, x', y');
    assert ring + ([p] + after.0) == ring + [p] + after.0;
  }

  function GetRings(data: seq<Byte>, c: Cursor, n: nat): (seq<Ring>, Cursor)
    decreases n
  {
    if n == 0 then ([], c) else
    var (k, c1) := GetBounded(data, c, MAX_POINTS);
    var (ring, c2) := GetPoints(data, c1, k, 0, 0);
    var (rest, last) := GetRings(data, c2, n - 1);
    ([ring] + rest, last)
  }

  lemma NoMoreRings(data: seq<Byte>, c: Cursor)
    ensures GetRings(data, c, 0) == ([], c)
  {
  }

  lemma RingsStep(data: seq<Byte>, c: Cursor, n: nat, rings: seq<Ring>)
    requires n > 0
    ensures var (k, c1) := GetBounded(data, c, MAX_POINTS);
      var (ring, c2) := GetPoints(data, c1, k, 0, 0);
      var before, after := GetRings(data, c, n), GetRings(data, c2, n - 1);
      rings + before.0 == rings + [ring] + after.0 && before.1 == after.1
  {
    hide GetBounded, GetPoints;
    var (k, c1) := GetBounded(data, c, MAX_POINTS);
    var (ring, c2) := GetPoints(data, c1, k, 0, 0);
    var after := GetRings(data, c2, n - 1);
    assert rings + ([ring] + after.0) == rings + [ring] + after.0;
  }

  function GetRegion(data: seq<Byte>, c: Cursor): (Region, Cursor)
  {
    var (id, c1) := GetString(data, c);
    var (name, c2) := GetString(data, c1);
    var (country, c3) := GetString(data, c2);
    var (area, c4) := GetUvarint(data, c3);
    var (n, c5) := GetBounded(data, c4, MAX_RINGS);
    var (rings, c6) := GetRings(data, c5, n);
    (Region(id, name, country, area, rings), c6)
  }

  datatype Error = NotARegionFile | BadRegion | TrailingBytes

  datatype Result = Ok(regions: seq<Region>) | Err(error: Error)

  /** n more regions, then nothing more in the file. */
  function GetRegions(data: seq<Byte>, c: Cursor, n: nat): Result
    decreases n
  {
    if n == 0 then
      if c.pos < |data| then Err(TrailingBytes) else Ok([])
    else
      var (r, next) := GetRegion(data, c);
      if next.failed then Err(BadRegion)
      else Prepend([r], GetRegions(data, next, n - 1))
  }

  function Decoded(data: seq<Byte>): Result
  {
    if !At(data, 0, MAGIC) then Err(NotARegionFile)
    else
      var (n, c) := GetBounded(data, Cursor(|MAGIC|, false), MAX_REGIONS);
      GetRegions(data, c, n)
  }

  /** The decoder's reader: a position and an error that is set once. */
  class Reader {
    const data: seq<Byte>
    var pos: nat
    var failed: bool

    constructor (data: seq<Byte>, pos: nat)
      ensures this.data == data && Here() == Cursor(pos, false)
    {
      this.data := data;
      this.pos, failed := pos, false;
    }

    function Here(): Cursor
      reads this
    {
      Cursor(pos, failed)
    }

    method Uvarint() returns (v: U64)
      modifies this
      ensures (v, Here()) == GetUvarint(data, old(Here()))
    {
      v := 0;
      var i := 0;
      while i < MAX_VARINT_LEN && pos < |data|
        invariant i <= MAX_VARINT_LEN && failed == old(failed)
        invariant ReadUvarint(data, pos, i, v) == ReadUvarint(data, old(pos), 0, 0)
      {
        var b := data[pos];
        pos := pos + 1;
        if b < 128 {
          if i == MAX_VARINT_LEN - 1 && b > 1 {
            failed := true;
          } else {
            v := Shifted(v, b, i);
          }
          return;
        }
        v := Shifted(v, b - 128, i);
        i := i + 1;
      }
      failed := true;
    }

    method Varint() returns (v: I64)
      modifies this
      ensures (v, Here()) == GetVarint(data, old(Here()))
    {
      var u := Uvarint();
      v := Unzigzag(u);
    }

    method Bounded(limit: U64) returns (v: U64)
      modifies this
      ensures (v, Here()) == GetBounded(data, old(Here()), limit)
    {
      v := Uvarint();
      if v > limit {
        failed := true;
      }
      v := Min(v, limit);
    }

    method Str() returns (s: seq<Byte>)
      modifies this
      ensures (s, Here()) == GetString(data, old(Here()))
    {
      var n := Bounded(MAX_STRING);
      if pos + n <= |data| {
        s := data[pos..pos + n];
        pos := pos + n;
      } else {
        var have := if pos <= |data| then data[pos..] else [];
        s := have + seq(n - |have|, _ => 0);
        pos, failed := pos + |have|, true;
      }
    }

    method Delta(x0: I64, y0: I64) returns (x: I64, y: I64)
      modifies this
      ensures (x, y, Here()) == GetDelta(data, old(Here()), x0, y0)
    {
      var dx := Varint();
      x := Wrap(x0 + dx);
      var dy := Varint();
      y := Wrap(y0 + dy);
    }

    method Points(n: nat) returns (ring: Ring)
      modifies this
      ensures (ring, Here()) == GetPoints(data, old(Here()), n, 0, 0)
    {
      ring := [];
      var x: I64, y: I64 := 0, 0;
      ghost var whole := GetPoints(data, Here(), n, 0, 0);
      assert [] + whole.0 == whole.0;
      for j := 0 to n
        invariant ring + GetPoints(data, Here(), n - j, x, y).0 == whole.0
        invariant GetPoints(data, Here(), n - j, x, y).1 == whole.1
      {
        PointsStep(data, Here(), n - j, x, y, ring);
        x, y := Delta(x, y);
        ring := ring + [Point(Degrees(x), Degrees(y))];
      }
      assert ring + [] == ring;
    }

    method Rings(n: nat) returns (rings: seq<Ring>)
      modifies this
      ensures (rings, Here()) == GetRings(data, old(Here()), n)
    {
      hide GetRings, GetPoints, GetBounded;
      rings := [];
      ghost var whole := GetRings(data, Here(), n);
      assert [] + whole.0 == whole.0;
      for i := 0 to n
        invariant rings + GetRings(data, Here(), n - i).0 == whole.0
        invariant GetRings(data, Here(), n - i).1 == whole.1
      {
        RingsStep(data, Here(), n - i, rings);
        var k := Bounded(MAX_POINTS);
        var ring := Points(k);
        rings := rings + [ring];
      }
      NoMoreRings(data, Here());
      assert rings + [] == rings;
    }

    method OneRegion() returns (r: Region)
      modifies this
      ensures (r, Here()) == GetRegion(data, old(Here()))
    {
      var id := Str();
      var name := Str();
      var country := Str();
      var area := Uvarint();
      var n := Bounded(MAX_RINGS);
      var rings := Rings(n);
      r := Region(id, name, country, area, rings);
    }
  }

  lemma RegionsStep(data: seq<Byte>, c: Cursor, n: nat, out: seq<Region>)
    requires n > 0
    ensures var (r, next) := GetRegion(data, c);
      Prepend(out, GetRegions(data, c, n))
        == if next.failed then Err(BadRegion) else Prepend(out + [r], GetRegions(data, next, n - 1))
  {
    var (r, next) := GetRegion(data, c);
    PrependAssociates(out, r, GetRegions(data, next, n - 1));
  }

  lemma RegionsEnd(data: seq<Byte>, c: Cursor, out: seq<Region>)
    ensures Prepend(out, GetRegions(data, c, 0)) == if c.pos < |data| then Err(TrailingBytes) else Ok(out)
  {
    assert out + [] == out;
  }

  method DecodeRegions(reader: Reader, n: nat) returns (result: Result)
    modifies reader
    ensures result == GetRegions(reader.data, old(reader.Here()), n)
  {
    hide GetRegion;
    var out: seq<Region>, left := [], n;
    ghost var whole := GetRegions(reader.data, reader.Here(), n);
    PrependNothing(whole);
    while left > 0
      invariant Prepend(out, GetRegions(reader.data, reader.Here(), left)) == whole
    {
      RegionsStep(reader.data, reader.Here(), left, out);
      var r := reader.OneRegion();
      if reader.failed {
        return Err(BadRegion);
      }
      out, left := out + [r], left - 1;
    }
    RegionsEnd(reader.data, reader.Here(), out);
    if reader.pos < |reader.data| {
      return Err(TrailingBytes);
    }
    result := Ok(out);
  }

  method Decode(data: seq<Byte>) returns (result: Result)
    ensures result == Decoded(data)
  {
    if !At(data, 0, MAGIC) {
      return Err(NotARegionFile);
    }
    var reader := new Reader(data, |MAGIC|);
    var n := reader.Bounded(MAX_REGIONS);
    result := DecodeRegions(reader, n);
  }

  function Prepend(rs: seq<Region>, result: Result): Result
  {
    if result.Err? then result else Ok(rs + result.regions)
  }

  lemma PrependNothing(result: Result)
    ensures Prepend([], result) == result
  {
    if result.Ok? {
      assert [] + result.regions == result.regions;
    }
  }

  lemma PrependAssociates(rs: seq<Region>, r: Region, result: Result)
    ensures Prepend(rs, Prepend([r], result)) == Prepend(rs + [r], result)
  {
    if result.Ok? {
      assert rs + ([r] + result.regions) == rs + [r] + result.regions;
    }
  }

  // ---------------------------------------------------------------------------------------------
  // The round trip
  // ---------------------------------------------------------------------------------------------

  function RoundedRing(ring: Ring): (r: Ring)
    requires forall i | 0 <= i < |ring| :: Encodable(ring[i])
    ensures |r| == |ring| && forall i | 0 <= i < |ring| :: r[i] == RoundedPoint(ring[i])
  {
    if ring == [] then [] else
    assert Encodable(ring[0]);
    [RoundedPoint(ring[0])] + RoundedRing(ring[1..])
  }

  function RoundedRings(rings: seq<Ring>): (r: seq<Ring>)
    requires forall i | 0 <= i < |rings| :: RingEncodable(rings[i])
    ensures |r| == |rings| && forall i | 0 <= i < |rings| :: RingEncodable(rings[i]) && r[i] == RoundedRing(rings[i])
  {
    if rings == [] then [] else
    assert RingEncodable(rings[0]);
    [RoundedRing(rings[0])] + RoundedRings(rings[1..])
  }

  function Rounded(r: Region): Region
    requires RegionEncodable(r)
  {
    r.(rings := RoundedRings(r.rings))
  }

  function RoundedAll(rs: seq<Region>): (r: seq<Region>)
    requires forall i | 0 <= i < |rs| :: RegionEncodable(rs[i])
    ensures |r| == |rs| && forall i | 0 <= i < |rs| :: r[i] == Rounded(rs[i])
  {
    if rs == [] then [] else
    assert RegionEncodable(rs[0]);
    [Rounded(rs[0])] + RoundedAll(rs[1..])
  }

  /** Rounding moves a coordinate by at most half a microdegree. */
  lemma RoundingIsClose(degrees: real)
    requires -TWO63 <= Micro(degrees) < TWO63
    ensures -0.0000005 <= Degrees(Micro(degrees)) - degrees <= 0.0000005
  {
    var x := degrees * 1000000.0;
    assert -0.5 <= Round(x) as real - x <= 0.5;
    assert (Round(x) as real - x) / 1000000.0 == Degrees(Micro(degrees)) - degrees;
  }

  /** A decoded coordinate encodes as the microdegrees it came from. */
  lemma DegreesComeBack(micro: I64)
    ensures Micro(Degrees(micro)) == micro
  {
    assert Degrees(micro) * 1000000.0 == micro as real;
  }

  predicate RegionWithinLimits(r: Region)
  {
    |r.id| <= MAX_STRING && |r.name| <= MAX_STRING && |r.country| <= MAX_STRING && |r.rings| <= MAX_RINGS
    && forall i | 0 <= i < |r.rings| :: |r.rings[i]| <= MAX_POINTS
  }

  predicate WithinLimits(rs: seq<Region>)
  {
    |rs| <= MAX_REGIONS && forall i | 0 <= i < |rs| :: RegionWithinLimits(rs[i])
  }

  lemma {:induction false} VarintComesBack(data: seq<Byte>, c: Cursor, v: U64)
    requires At(data, c.pos, PutUvarint(v))
    ensures GetUvarint(data, c) == (v, c.(pos := c.pos + |PutUvarint(v)|))
  {
    UvarintComesBack(data, c.pos, v, 0, 0);
  }

  lemma {:induction false} SignedComesBack(data: seq<Byte>, c: Cursor, x: I64)
    requires At(data, c.pos, PutVarint(x))
    ensures GetVarint(data, c) == (x, c.(pos := c.pos + |PutVarint(x)|))
  {
    VarintComesBack(data, c, Zigzag(x));
    ZigzagInverts(x, 0);
  }

  /** A bounded read of a put length gives it back, capped; over the limit the error sticks. */
  lemma {:induction false} BoundedComesBack(data: seq<Byte>, c: Cursor, v: U64, limit: U64)
    requires At(data, c.pos, PutUvarint(v))
    ensures GetBounded(data, c, limit) == (Min(v, limit), Cursor(c.pos + |PutUvarint(v)|, c.failed || v > limit))
  {
    VarintComesBack(data, c, v);
  }

  lemma StringComesBack(data: seq<Byte>, c: Cursor, s: seq<Byte>)
    requires |s| < TWO63 && At(data, c.pos, PutString(s))
    ensures |s| <= MAX_STRING ==> GetString(data, c) == (s, c.(pos := c.pos + |PutString(s)|))
    ensures |s| > MAX_STRING ==> GetString(data, c).1.failed
  {
    AtSplits(data, c.pos, PutUvarint(|s|), s);
    BoundedComesBack(data, c, |s|, MAX_STRING);
  }

  lemma {:induction false} DeltaComesBack(data: seq<Byte>, c: Cursor, p: Point, px: I64, py: I64)
    requires Encodable(p) && At(data, c.pos, PutDelta(p, px, py))
    ensures GetDelta(data, c, px, py) == (Micro(p.lon), Micro(p.lat), c.(pos := c.pos + |PutDelta(p, px, py)|))
  {
    hide GetVarint, PutVarint, Round;
    var dx, dy := Wrap(Micro(p.lon) - px), Wrap(Micro(p.lat) - py);
    AtSplits(data, c.pos, PutVarint(dx), PutVarint(dy));
    SignedComesBack(data, c, dx);
    SignedComesBack(data, c.(pos := c.pos + |PutVarint(dx)|), dy);
    WrappedDeltaComesBack(px, Micro(p.lon));
    WrappedDeltaComesBack(py, Micro(p.lat));
  }

  /** The running deltas telescope. */
  lemma {:induction false} PointsComeBack(data: seq<Byte>, c: Cursor, ring: Ring, px: I64, py: I64)
    requires forall i | 0 <= i < |ring| :: Encodable(ring[i])
    requires At(data, c.pos, PutPoints(ring, px, py))
    ensures GetPoints(data, c, |ring|, px, py) == (RoundedRing(ring), c.(pos := c.pos + |PutPoints(ring, px, py)|))
    decreases |ring|
  {
    hide GetDelta;
    if ring != [] {
      assert Encodable(ring[0]);
      var x, y := Micro(ring[0].lon), Micro(ring[0].lat);
      AtSplits(data, c.pos, PutDelta(ring[0], px, py), PutPoints(ring[1..], x, y));
      DeltaComesBack(data, c, ring[0], px, py);
      PointsComeBack(data, c.(pos := c.pos + |PutDelta(ring[0], px, py)|), ring[1..], x, y);
    }
  }

  lemma {:induction false} RingComesBack(data: seq<Byte>, c: Cursor, ring: Ring)
    requires RingEncodable(ring) && |ring| <= MAX_POINTS && At(data, c.pos, PutRing(ring))
    ensures GetBounded(data, c, MAX_POINTS) == (|ring|, c.(pos := c.pos + |PutUvarint(|ring|)|))
    ensures GetPoints(data, c.(pos := c.pos + |PutUvarint(|ring|)|), |ring|, 0, 0) ==
      (RoundedRing(ring), c.(pos := c.pos + |PutRing(ring)|))
  {
    hide GetBounded, GetPoints, PutPoints, PutUvarint, RoundedRing;
    AtSplits(data, c.pos, PutUvarint(|ring|), PutPoints(ring, 0, 0));
    BoundedComesBack(data, c, |ring|, MAX_POINTS);
    PointsComeBack(data, c.(pos := c.pos + |PutUvarint(|ring|)|), ring, 0, 0);
  }

  // A failed cursor stays failed ------------------------------------------------------------------

  lemma {:induction false} PointsKeepFailure(data: seq<Byte>, c: Cursor, n: nat, x: I64, y: I64)
    requires c.failed
    ensures GetPoints(data, c, n, x, y).1.failed
    decreases n
  {
    if n > 0 {
      DeltaKeepsFailure(data, c, x, y);
      hide GetDelta, Degrees;
      var (x', y', next) := GetDelta(data, c, x, y);
      PointsKeepFailure(data, next, n - 1, x', y');
    }
  }

  lemma DeltaKeepsFailure(data: seq<Byte>, c: Cursor, x: I64, y: I64)
    requires c.failed
    ensures GetDelta(data, c, x, y).2.failed
  {
    hide ReadUvarint, Unzigzag, Wrap;
  }

  lemma {:induction false} RingsKeepFailure(data: seq<Byte>, c: Cursor, n: nat)
    requires c.failed
    ensures GetRings(data, c, n).1.failed
    decreases n
  {
    if n > 0 {
      var (k, c1) := GetBounded(data, c, MAX_POINTS);
      PointsKeepFailure(data, c1, k, 0, 0);
      RingsKeepFailure(data, GetPoints(data, c1, k, 0, 0).1, n - 1);
    }
  }

  lemma StringKeepsFailure(data: seq<Byte>, c: Cursor)
    requires c.failed
    ensures GetString(data, c).1.failed
  {
  }

  /** From any field of a region on, an error is still there at its end. */
  lemma {:induction false} RegionKeepsFailure(data: seq<Byte>, c: Cursor)
    ensures c.failed || GetString(data, c).1.failed ==> GetRegion(data, c).1.failed
    ensures var c1 := GetString(data, c).1; GetString(data, c1).1.failed ==> GetRegion(data, c).1.failed
    ensures var c2 := GetString(data, GetString(data, c).1).1; GetString(data, c2).1.failed ==>
      GetRegion(data, c).1.failed
    ensures var c4 := GetUvarint(data, GetString(data, GetString(data, GetString(data, c).1).1).1).1;
      GetBounded(data, c4, MAX_RINGS).1.failed ==> GetRegion(data, c).1.failed
  {
    hide GetString;
    var c1 := GetString(data, c).1;
    var c2 := GetString(data, c1).1;
    var c3 := GetString(data, c2).1;
    var (area, c4) := GetUvarint(data, c3);
    var (n, c5) := GetBounded(data, c4, MAX_RINGS);
    if c.failed { StringKeepsFailure(data, c); }
    if c1.failed { StringKeepsFailure(data, c1); }
    if c2.failed { StringKeepsFailure(data, c2); }
    if c5.failed { RingsKeepFailure(data, c5, n); }
  }

  /** A ring over the limit leaves the error set, whatever is read after it. */
  lemma LongRingFails(data: seq<Byte>, c: Cursor, ring: Ring, more: nat)
    requires RingEncodable(ring) && |ring| > MAX_POINTS && At(data, c.pos, PutRing(ring))
    ensures GetRings(data, c, more + 1).1.failed
  {
    hide GetPoints, PutPoints, PutUvarint;
    AtSplits(data, c.pos, PutUvarint(|ring|), PutPoints(ring, 0, 0));
    BoundedComesBack(data, c, |ring|, MAX_POINTS);
    var (k, c1) := GetBounded(data, c, MAX_POINTS);
    PointsKeepFailure(data, c1, k, 0, 0);
    RingsKeepFailure(data, GetPoints(data, c1, k, 0, 0).1, more);
  }

  lemma {:induction false} RingsComeBack(data: seq<Byte>, c: Cursor, rings: seq<Ring>)
    requires forall i | 0 <= i < |rings| :: RingEncodable(rings[i])
    requires At(data, c.pos, PutRings(rings))
    ensures if forall i | 0 <= i < |rings| :: |rings[i]| <= MAX_POINTS
            then GetRings(data, c, |rings|) == (RoundedRings(rings), c.(pos := c.pos + |PutRings(rings)|))
            else GetRings(data, c, |rings|).1.failed
    decreases |rings|
  {
    hide GetBounded, GetPoints, PutRing, RoundedRing;
    if rings != [] {
      var first, rest := rings[0], rings[1..];
      assert RingEncodable(first);
      assert rings == [first] + rest;
      AtSplits(data, c.pos, PutRing(first), PutRings(rest));
      if |first| <= MAX_POINTS {
        RingComesBack(data, c, first);
        RingsComeBack(data, c.(pos := c.pos + |PutRing(first)|), rest);
      } else {
        LongRingFails(data, c, first, |rest|);
      }
    }
  }

  /** The pieces of a put region, each where the reads before it end. */
  lemma RegionPieces(data: seq<Byte>, pos: nat, r: Region)
    requires RegionEncodable(r) && At(data, pos, PutRegion(r))
    ensures At(data, pos, PutString(r.id))
    ensures At(data, pos + |PutString(r.id)|, PutString(r.name))
    ensures At(data, pos + |PutString(r.id)| + |PutString(r.name)|, PutString(r.country))
    ensures At(data, pos + |PutString(r.id)| + |PutString(r.name)| + |PutString(r.country)|, PutUvarint(r.area))
    ensures At(data, pos + |PutString(r.id)| + |PutString(r.name)| + |PutString(r.country)| + |PutUvarint(r.area)|,
      PutUvarint(|r.rings|))
    ensures At(data, pos + |PutHead(r)|, PutRings(r.rings))
  {
    hide PutString, PutUvarint, PutRings;
    AtSplits(data, pos, PutHead(r), PutRings(r.rings));
    var strings := PutString(r.id) + PutString(r.name) + PutString(r.country);
    AtSplits(data, pos, strings + PutUvarint(r.area), PutUvarint(|r.rings|));
    AtSplits(data, pos, strings, PutUvarint(r.area));
    AtSplits(data, pos, PutString(r.id) + PutString(r.name), PutString(r.country));
    AtSplits(data, pos, PutString(r.id), PutString(r.name));
  }

  /** A put region reads back rounded when it is within the limits, and otherwise leaves the error set. */
  lemma {:induction false} RegionComesBack(data: seq<Byte>, c: Cursor, r: Region)
    requires RegionEncodable(r) && At(data, c.pos, PutRegion(r))
    ensures if RegionWithinLimits(r) then GetRegion(data, c) == (Rounded(r), c.(pos := c.pos + |PutRegion(r)|))
            else GetRegion(data, c).1.failed
  {
    hide GetString, GetUvarint, GetBounded, GetRings, PutString, PutUvarint, PutRings, At, RoundedRings;
    RegionPieces(data, c.pos, r);
    StringComesBack(data, c, r.id);
    RegionKeepsFailure(data, c);
    if |r.id| <= MAX_STRING {
      var c1 := c.(pos := c.pos + |PutString(r.id)|);
      StringComesBack(data, c1, r.name);
      if |r.name| <= MAX_STRING {
        var c2 := c1.(pos := c1.pos + |PutString(r.name)|);
        StringComesBack(data, c2, r.country);
        if |r.country| <= MAX_STRING {
          var c3 := c2.(pos := c2.pos + |PutString(r.country)|);
          VarintComesBack(data, c3, r.area);
          var c4 := c3.(pos := c3.pos + |PutUvarint(r.area)|);
          BoundedComesBack(data, c4, |r.rings|, MAX_RINGS);
          if |r.rings| <= MAX_RINGS {
            RingsComeBack(data, c4.(pos := c4.pos + |PutUvarint(|r.rings|)|), r.rings);
          }
        }
      }
    }
  }

  lemma {:induction false} RegionsComeBack(data: seq<Byte>, c: Cursor, rs: seq<Region>)
    requires !c.failed && forall i | 0 <= i < |rs| :: RegionEncodable(rs[i])
    requires At(data, c.pos, PutRegions(rs)) && c.pos + |PutRegions(rs)| == |data|
    ensures GetRegions(data, c, |rs|) ==
      if forall i | 0 <= i < |rs| :: RegionWithinLimits(rs[i]) then Ok(RoundedAll(rs)) else Err(BadRegion)
    decreases |rs|
  {
    hide GetRegion, PutRegion, RegionWithinLimits, RegionEncodable, Rounded;
    if rs != [] {
      var first, rest := rs[0], rs[1..];
      assert RegionEncodable(first);
      assert rs == [first] + rest;
      AtSplits(data, c.pos, PutRegion(first), PutRegions(rest));
      RegionComesBack(data, c, first);
      if RegionWithinLimits(first) {
        RegionsComeBack(data, c.(pos := c.pos + |PutRegion(first)|), rest);
      }
    }
  }

  lemma {:induction false} FailedRegionsAreRefused(data: seq<Byte>, c: Cursor, n: nat)
    requires c.failed && n > 0
    ensures GetRegions(data, c, n) == Err(BadRegion)
  {
    hide GetRegion;
    RegionKeepsFailure(data, c);
  }

  /** Decoding what was encoded gives the regions back, each coordinate rounded to microdegrees, exactly
      when every length is within the decoder's limits; past them it is refused. */
  lemma {:induction false} DecodeUndoesEncode(rs: seq<Region>)
    requires AllEncodable(rs)
    ensures Decoded(File(rs)) == if WithinLimits(rs) then Ok(RoundedAll(rs)) else Err(BadRegion)
  {
    hide GetRegion, PutRegion, RegionWithinLimits, RegionEncodable, Rounded, GetRegions, PutUvarint, GetBounded,
      RoundedAll;
    var data := File(rs);
    ThreeParts(MAGIC, PutUvarint(|rs|), PutRegions(rs));
    hide File, At, PutRegions;
    var c := Cursor(|MAGIC|, false);
    BoundedComesBack(data, c, |rs|, MAX_REGIONS);
    var next := Cursor(|MAGIC| + |PutUvarint(|rs|)|, |rs| > MAX_REGIONS);
    assert next.pos + |PutRegions(rs)| == |data|;
    if |rs| <= MAX_REGIONS {
      RegionsComeBack(data, next, rs);
    } else {
      FailedRegionsAreRefused(data, next, MAX_REGIONS);
    }
  }

  lemma ThreeParts(a: seq<Byte>, b: seq<Byte>, c: seq<Byte>)
    ensures At(a + b + c, 0, a) && At(a + b + c, |a|, b) && At(a + b + c, |a| + |b|, c)
  {
    assert At(a + b + c, 0, a + b + c);
    AtSplits(a + b + c, 0, a + b, c);
    AtSplits(a + b + c, 0, a, b);
  }

  // What decoding accepts -------------------------------------------------------------------------

  /** A region as the decoder can produce it: within the limits, each coordinate a whole microdegree. */
  predicate IsDecodedPoint(p: Point)
  {
    Encodable(p) && RoundedPoint(p) == p
  }

  predicate IsDecodedRegion(r: Region)
  {
    RegionWithinLimits(r) && forall i, j | 0 <= i < |r.rings| && 0 <= j < |r.rings[i]| :: IsDecodedPoint(r.rings[i][j])
  }

  lemma {:induction false} PointsAreDecoded(data: seq<Byte>, c: Cursor, n: nat, x: I64, y: I64)
    ensures var ring := GetPoints(data, c, n, x, y).0; |ring| == n && forall j | 0 <= j < n :: IsDecodedPoint(ring[j])
    decreases n
  {
    hide GetDelta;
    if n > 0 {
      var (x', y', next) := GetDelta(data, c, x, y);
      PointsAreDecoded(data, next, n - 1, x', y');
      DegreesComeBack(x');
      DegreesComeBack(y');
    }
  }

  lemma {:induction false} RingsAreDecoded(data: seq<Byte>, c: Cursor, n: nat)
    ensures var rings := GetRings(data, c, n).0;
      |rings| == n
      && forall i | 0 <= i < n :: |rings[i]| <= MAX_POINTS && forall j | 0 <= j < |rings[i]| ::
        IsDecodedPoint(rings[i][j])
    decreases n
  {
    hide GetPoints, GetUvarint, IsDecodedPoint;
    if n > 0 {
      var (k, c1) := GetBounded(data, c, MAX_POINTS);
      PointsAreDecoded(data, c1, k, 0, 0);
      RingsAreDecoded(data, GetPoints(data, c1, k, 0, 0).1, n - 1);
    }
  }

  lemma {:induction false} RegionIsDecoded(data: seq<Byte>, c: Cursor)
    ensures IsDecodedRegion(GetRegion(data, c).0)
  {
    hide GetRings, IsDecodedPoint;
    var (id, c1) := GetString(data, c);
    var (name, c2) := GetString(data, c1);
    var (country, c3) := GetString(data, c2);
    var (area, c4) := GetUvarint(data, c3);
    var (n, c5) := GetBounded(data, c4, MAX_RINGS);
    RingsAreDecoded(data, c5, n);
  }

  lemma {:induction false} RegionsAreDecoded(data: seq<Byte>, c: Cursor, n: nat)
    requires GetRegions(data, c, n).Ok?
    ensures var rs := GetRegions(data, c, n).regions; |rs| == n && forall i | 0 <= i < n :: IsDecodedRegion(rs[i])
    ensures n > 0 ==> !c.failed
    decreases n
  {
    hide GetRegion, IsDecodedRegion;
    if n > 0 {
      RegionIsDecoded(data, c);
      RegionKeepsFailure(data, c);
      RegionsAreDecoded(data, GetRegion(data, c).1, n - 1);
    }
  }

  lemma {:induction false} DecodedIsFixed(rs: seq<Region>)
    requires forall i | 0 <= i < |rs| :: IsDecodedRegion(rs[i])
    requires |rs| <= MAX_REGIONS
    ensures AllEncodable(rs) && WithinLimits(rs) && RoundedAll(rs) == rs
  {
    forall i | 0 <= i < |rs| ensures RegionEncodable(rs[i]) && RegionWithinLimits(rs[i]) {
      assert IsDecodedRegion(rs[i]);
    }
    forall i | 0 <= i < |rs| ensures RoundedAll(rs)[i] == rs[i] {
      assert IsDecodedRegion(rs[i]);
      forall k | 0 <= k < |rs[i].rings| ensures RoundedRing(rs[i].rings[k]) == rs[i].rings[k] {
        assert RingEncodable(rs[i].rings[k]);
      }
      assert RoundedRings(rs[i].rings) == rs[i].rings;
    }
  }

  /** Whatever was decoded, from any bytes, survives being encoded and decoded again unchanged. */
  lemma {:induction false} DecodedSurvives(data: seq<Byte>)
    requires Decoded(data).Ok?
    ensures var rs := Decoded(data).regions; AllEncodable(rs) && Decoded(File(rs)) == Ok(rs)
  {
    var (n, c) := GetBounded(data, Cursor(|MAGIC|, false), MAX_REGIONS);
    RegionsAreDecoded(data, c, n);
    DecodedIsFixed(Decoded(data).regions);
    DecodeUndoesEncode(Decoded(data).regions);
  }

  /** What decodes has as many regions as its count says, and none if that was not read in full. */
  lemma {:induction false} SomeRegionsMeanTheCountWasRead(data: seq<Byte>)
    requires Decoded(data).Ok?
    ensures var count := ReadUvarint(data, |MAGIC|, 0, 0);
      |Decoded(data).regions| == if count.ok then count.value else 0
  {
    var (n, c) := GetBounded(data, Cursor(|MAGIC|, false), MAX_REGIONS);
    RegionsAreDecoded(data, c, n);
  }

  /** From the i-th byte of a count on: bytes that add nothing and promise more, up to the end of the data, or a tenth
      that takes it past 64 bits. */
  predicate NoCount(tail: seq<Byte>, i: nat)
  {
    && i + |tail| <= MAX_VARINT_LEN
    && (forall j | 0 <= j < |tail| && i + j < MAX_VARINT_LEN - 1 :: tail[j] == 128)
    && (tail != [] && i + |tail| == MAX_VARINT_LEN ==>
        var last := tail[|tail| - 1]; last > 1 && (last < 128 || last % 2 == 0))
  }

  /** Once the gathered bits are not all zero they stay so. */
  lemma {:induction false} GatheredStays(data: seq<Byte>, pos: nat, i: nat, x: U64)
    requires i <= MAX_VARINT_LEN && 0 < x && (i < MAX_VARINT_LEN ==> x < Pow128(i))
    ensures ReadUvarint(data, pos, i, x).value != 0
    decreases MAX_VARINT_LEN - i
  {
    if i < MAX_VARINT_LEN && pos < |data| {
      ShiftedStays(x, if data[pos] < 128 then data[pos] else data[pos] - 128, i);
      if data[pos] >= 128 {
        GatheredStays(data, pos + 1, i + 1, Shifted(x, data[pos] - 128, i));
      }
    }
  }

  lemma ShiftedStays(x: U64, bits: nat, i: nat)
    requires i < MAX_VARINT_LEN && bits < 128 && x < Pow128(i)
    ensures x > 0 ==> Shifted(x, bits, i) > 0
    ensures i < MAX_VARINT_LEN - 1 ==> Shifted(x, bits, i) == x + bits * Pow128(i) < Pow128(i + 1)
  {
    PowTable();
    if i < MAX_VARINT_LEN - 1 {
      PowGrows(i + 1, MAX_VARINT_LEN - 1);
      TimesGrows(bits, 127, Pow128(i));
    } else {
      LastShift(x, bits);
    }
  }

  lemma TimesGrows(a: nat, b: nat, m: nat)
    requires a <= b
    ensures 0 <= a * m <= b * m
  {
  }

  /** Of the tenth byte's bits only the lowest has a place. */
  lemma LastShift(x: U64, bits: nat)
    requires x < TWO63
    ensures Shifted(x, bits, MAX_VARINT_LEN - 1) == x + bits % 2 * TWO63
  {
    PowTable();
    var h := bits / 2;
    assert x + bits * TWO63 == x + bits % 2 * TWO63 + h * TWO64;
    WrapsRound(x + bits % 2 * TWO63, h);
  }

  lemma WrapsRound(x: U64, h: nat)
    ensures (x + h * TWO64) % TWO64 == x
  {
  }

  /** A read of a varint that fails at the end of the data with nothing gathered. */
  ghost predicate ReadsNothing(data: seq<Byte>, pos: nat, i: nat)
    requires i <= MAX_VARINT_LEN
  {
    var r := ReadUvarint(data, pos, i, 0);
    !r.ok && r.value == 0 && r.pos == |data|
  }

  lemma {:induction false} ReadsNothingExactly(data: seq<Byte>, pos: nat, i: nat)
    requires i <= MAX_VARINT_LEN && pos <= |data|
    ensures ReadsNothing(data, pos, i) <==> NoCount(data[pos..], i)
    decreases MAX_VARINT_LEN - i
  {
    if i == MAX_VARINT_LEN || pos == |data| {
    } else if i == MAX_VARINT_LEN - 1 {
      TenthReadsNothing(data, pos);
    } else if data[pos] < 128 {
      assert data[pos..][0] == data[pos];
    } else {
      var x := Shifted(0, data[pos] - 128, i);
      PowGrows(0, i);
      ShiftedStays(0, data[pos] - 128, i);
      if data[pos] == 128 {
        NoCountFromTheNext(data[pos..], i);
        ReadsNothingExactly(data, pos + 1, i + 1);
        assert data[pos..][1..] == data[pos + 1..];
      } else {
        assert data[pos..][0] != 128;
        assert x > 0 by { TimesGrows(1, data[pos] - 128, Pow128(i)); }
        GatheredStays(data, pos + 1, i + 1, x);
      }
    }
  }

  lemma TenthReadsNothing(data: seq<Byte>, pos: nat)
    requires pos < |data|
    ensures ReadsNothing(data, pos, MAX_VARINT_LEN - 1) <==> NoCount(data[pos..], MAX_VARINT_LEN - 1)
  {
    var b := data[pos];
    assert data[pos..][0] == b;
    if b >= 128 {
      LastShift(0, b - 128);
      var x := Shifted(0, b - 128, MAX_VARINT_LEN - 1);
      assert ReadUvarint(data, pos + 1, MAX_VARINT_LEN, x) == Read(x, pos + 1, false);
    }
  }

  lemma NoCountFromTheNext(tail: seq<Byte>, i: nat)
    requires i < MAX_VARINT_LEN - 1 && tail != [] && tail[0] == 128
    ensures NoCount(tail, i) <==> NoCount(tail[1..], i + 1)
  {
    if NoCount(tail[1..], i + 1) {
      forall j | 0 <= j < |tail| && i + j < MAX_VARINT_LEN - 1 ensures tail[j] == 128 {
        assert j > 0 ==> tail[j] == tail[1..][j - 1];
      }
    }
  }

  /** Any content that decodes though its count was not read decodes to no regions, and it is the magic with at most
      ten bytes more: all 128, but for a tenth that no count can end in. */
  lemma UncountedDecodesExactly(data: seq<Byte>)
    ensures Decoded(data).Ok? && !ReadUvarint(data, |MAGIC|, 0, 0).ok <==>
      At(data, 0, MAGIC) && NoCount(data[|MAGIC|..], 0)
    ensures Decoded(data).Ok? && !ReadUvarint(data, |MAGIC|, 0, 0).ok ==> Decoded(data) == Ok([])
  {
    if At(data, 0, MAGIC) {
      var count := ReadUvarint(data, |MAGIC|, 0, 0);
      var (n, c) := GetBounded(data, Cursor(|MAGIC|, false), MAX_REGIONS);
      ReadsNothingExactly(data, |MAGIC|, 0);
      ReadEndsInside(data, |MAGIC|, 0, 0);
      if Decoded(data).Ok? {
        RegionsAreDecoded(data, c, n);
      }
    }
  }

  lemma {:induction false} ReadEndsInside(data: seq<Byte>, pos: nat, i: nat, x: U64)
    requires i <= MAX_VARINT_LEN && pos <= |data|
    ensures pos <= ReadUvarint(data, pos, i, x).pos <= |data|
    decreases MAX_VARINT_LEN - i
  {
    if i < MAX_VARINT_LEN && pos < |data| && data[pos] >= 128 {
      ReadEndsInside(data, pos + 1, i + 1, Shifted(x, data[pos] - 128, i));
    }
  }

  /** The magic alone is such content, and so is the magic with any few bytes 128 after it. */
  lemma MagicAloneDecodes(k: nat)
    requires k < MAX_VARINT_LEN
    ensures Decoded(MAGIC + seq(k, _ => 128)) == Ok([])
    ensures !ReadUvarint(MAGIC + seq(k, _ => 128), |MAGIC|, 0, 0).ok
  {
    var data: seq<Byte> := MAGIC + seq(k, _ => 128);
    assert data[|MAGIC|..] == seq(k, _ => 128);
    UncountedDecodesExactly(data);
  }
}
