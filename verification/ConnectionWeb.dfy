/** Flood paths folded into routes toward this node (internal/api/routes_connection_web.go): which route a
    received packet came over. The fold itself is in WebFold. */
module ConnectionWeb {
  import opened Common

  datatype LatLon = LatLon(lat: real, lon: real)

  /** A node we have heard an advert from; at is None without a position. */
  datatype Peer = Peer(pubkey: seq<Byte>, name: string, kind: string, at: Option<LatLon>, lastSeen: int)

  /** A parsed packet: advertKey is the sender's key of an advert long enough to hold one. */
  datatype Packet = Packet(flood: bool, trace: bool, advertKey: Option<seq<Byte>>, hashSize: nat, path: seq<Byte>)

  /** A packet log row; packet is None where the raw bytes do not parse. */
  datatype Record = Record(
    id: int, received: bool, packet: Option<Packet>, hash: string, receivedAt: int, snr: Option<real>,
      rssi: Option<int>)

  /** What the builder is given. pins: a hash to the operator's choice, None where it is nobody we know; sent: a packet
      hash we transmitted to whether we started it. */
  datatype Setup = Setup(
    self: Option<LatLon>, relay: seq<Byte>, byPubkey: map<string, Peer>, repByHash: map<string, seq<Peer>>,
    pins: map<string, Option<seq<Byte>>>, sent: map<string, bool>, ownEchoes: bool,
    distance: (LatLon, LatLon) -> real)

  const SELF := "self"

  // ---------------------------------------------------------------------------------------------
  // Node ids
  // ---------------------------------------------------------------------------------------------

  const HEX_DIGITS := "0123456789abcdef"

  function Hex(bytes: seq<Byte>): (s: string)
    ensures |s| == 2 * |bytes|
    ensures forall i | 0 <= i < |s| :: s[i] in HEX_DIGITS
  {
    if bytes == [] then "" else [HEX_DIGITS[bytes[0] / 16], HEX_DIGITS[bytes[0] % 16]] + Hex(bytes[1..])
  }

  function UnresolvedId(hop: seq<Byte>): string { "h:" + Hex(hop) }

  /** An id a route may carry: not empty, and free of the two characters a route's key is built with. */
  ghost predicate IsId(id: string)
  {
    id != "" && forall i | 0 <= i < |id| :: id[i] != '>' && id[i] != '+'
  }

  lemma HexIsId(bytes: seq<Byte>)
    ensures bytes != [] ==> IsId(Hex(bytes)) && Hex(bytes) != SELF
    ensures IsId(UnresolvedId(bytes)) && UnresolvedId(bytes) != SELF
    ensures IsId(SELF)
  {
    assert bytes != [] && Hex(bytes) == SELF ==> 's' in HEX_DIGITS by {
      if bytes != [] && Hex(bytes) == SELF { assert Hex(bytes)[0] == 's'; }
    }
    assert UnresolvedId(bytes)[0] == 'h' && SELF[0] == 's';
  }

  /** The peers are keyed by their own public key, and no key is empty. */
  ghost predicate WellFormed(s: Setup)
  {
    && (forall k | k in s.byPubkey :: s.byPubkey[k].pubkey != [] && Hex(s.byPubkey[k].pubkey) == k)
    && (forall h, i | h in s.repByHash && 0 <= i < |s.repByHash[h]| :: s.repByHash[h][i].pubkey != [])
  }

  // ---------------------------------------------------------------------------------------------
  // Who owns a hop
  // ---------------------------------------------------------------------------------------------

  /** The located candidate nearest to a point; of equals, the first. */
  function Nearest(cands: seq<Peer>, to: LatLon, distance: (LatLon, LatLon) -> real): (best: Option<Peer>)
    ensures best.None? <==> forall i | 0 <= i < |cands| :: cands[i].at.None?
    ensures best.Some? ==> best.value in cands && best.value.at.Some?
    ensures best.Some? ==> forall i | 0 <= i < |cands| && cands[i].at.Some? ::
      distance(to, best.value.at.value) <= distance(to, cands[i].at.value)
  {
    if cands == [] then None else
    var n := |cands| - 1;
    var c, before := cands[n], Nearest(cands[..n], to, distance);
    assert cands == cands[..n] + [c];
    if c.at.Some? && (before.None? || distance(to, c.at.value) < distance(to, before.value.at.value)) then Some(c)
    else before
  }

  /** The candidate heard most recently; of equals, the first. */
  function Latest(cands: seq<Peer>): (best: Peer)
    requires cands != []
    ensures best in cands && forall i | 0 <= i < |cands| :: cands[i].lastSeen <= best.lastSeen
  {
    var n := |cands| - 1;
    if n == 0 then cands[0] else
    var c, before := cands[n], Latest(cands[..n]);
    assert cands == cands[..n] + [c];
    if c.lastSeen > before.lastSeen then c else before
  }

  function Candidates(s: Setup, hop: seq<Byte>): seq<Peer>
  {
    if Hex(hop) in s.repByHash then s.repByHash[Hex(hop)] else []
  }

  /** Who a hop is taken to be: whom the operator pinned, or of the candidates the one nearest to where the search has
      got, or with none located the one heard last; None when there is nobody. */
  function Owner(s: Setup, hop: seq<Byte>, next: Option<LatLon>): Option<Peer>
  {
    var h, cands := Hex(hop), Candidates(s, hop);
    if h in s.pins && s.pins[h].None? then None
    else if h in s.pins && Hex(s.pins[h].value) in s.byPubkey then Some(s.byPubkey[Hex(s.pins[h].value)])
    else if cands == [] then None
    else
      var near := if next.Some? then Nearest(cands, next.value, s.distance) else None;
      if near.Some? then near else Some(Latest(cands))
  }

  /** A hop of ours that no pin decides goes to a peer whose key the hash matched, whenever there is one. */
  lemma OwnerIsACandidate(s: Setup, hop: seq<Byte>, next: Option<LatLon>)
    requires Hex(hop) !in s.pins
    ensures Owner(s, hop, next).Some? <==> Candidates(s, hop) != []
    ensures Owner(s, hop, next).Some? ==> Owner(s, hop, next).value in Candidates(s, hop)
  {
  }

  function HopId(s: Setup, hop: seq<Byte>, next: Option<LatLon>): string
  {
    var o := Owner(s, hop, next);
    if o.Some? then Hex(o.value.pubkey) else UnresolvedId(hop)
  }

  /** Where the search for the hop before goes on from. */
  function Onward(s: Setup, hop: seq<Byte>, next: Option<LatLon>): Option<LatLon>
  {
    var o := Owner(s, hop, next);
    if o.Some? && o.value.at.Some? then o.value.at else next
  }

  lemma HopIdIsId(s: Setup, hop: seq<Byte>, next: Option<LatLon>)
    requires WellFormed(s)
    ensures IsId(HopId(s, hop, next)) && HopId(s, hop, next) != SELF
  {
    var o := Owner(s, hop, next);
    HexIsId(hop);
    if o.Some? {
      HexIsId(o.value.pubkey);
      if o.value in Candidates(s, hop) {
        assert o.value.pubkey != [];
      }
    }
  }

  // ---------------------------------------------------------------------------------------------
  // The route of a record
  // ---------------------------------------------------------------------------------------------

  /** The path cut into whole hashes. */
  function Hops(path: seq<Byte>, size: nat): seq<seq<Byte>>
    decreases |path|
  {
    if size == 0 || size > |path| then [] else [path[..size]] + Hops(path[size..], size)
  }

  predicate IsOwnHop(s: Setup, hop: seq<Byte>)
  {
    |hop| <= |s.relay| && hop == s.relay[..|hop|]
  }

  /** The hops of a record that is folded in; None for one that is ignored. */
  function UsableHops(s: Setup, rec: Record): Option<seq<seq<Byte>>>
  {
    if !rec.received || rec.packet.None? || !rec.packet.value.flood || rec.packet.value.trace then None
    else if rec.hash in s.sent && s.sent[rec.hash] && !s.ownEchoes then None
    else
      var hops := Hops(rec.packet.value.path, rec.packet.value.hashSize);
      if rec.hash in s.sent && exists i :: 0 <= i < |hops| && IsOwnHop(s, hops[i]) then None else Some(hops)
  }

  /** The hops' ids in path order, each resolved from the one after it. */
  function HopIds(s: Setup, hops: seq<seq<Byte>>, next: Option<LatLon>): (ids: seq<string>)
    ensures |ids| == |hops|
  {
    if hops == [] then [] else
    var n := |hops| - 1;
    HopIds(s, hops[..n], Onward(s, hops[n], next)) + [HopId(s, hops[n], next)]
  }

  /** The known peer an advert came from. */
  function Origin(s: Setup, p: Packet): Option<Peer>
  {
    if p.advertKey.Some? && Hex(p.advertKey.value) in s.byPubkey then Some(s.byPubkey[Hex(p.advertKey.value)]) else None
  }

  /** Without blanks and without repeats of the id before. */
  function Compact(ids: seq<string>): (r: seq<string>)
    ensures |r| <= |ids|
  {
    if ids == [] then [] else
    var n := |ids| - 1;
    var before := Compact(ids[..n]);
    if ids[n] != "" && (before == [] || before[|before| - 1] != ids[n]) then before + [ids[n]] else before
  }

  datatype Routed = Routed(origin: bool, chain: seq<string>)

  function AllIds(s: Setup, p: Packet, hops: seq<seq<Byte>>): seq<string>
  {
    var o := Origin(s, p);
    [if o.Some? then Hex(o.value.pubkey) else ""] + HopIds(s, hops, s.self) + [SELF]
  }

  function Route(s: Setup, rec: Record): Option<Routed>
  {
    var hops := UsableHops(s, rec);
    if hops.None? then None else
    var chain := Compact(AllIds(s, rec.packet.value, hops.value));
    if |chain| < 2 then None else Some(Routed(Origin(s, rec.packet.value).Some?, chain))
  }

  /** At least two nodes, ours last and only last, each a proper id, no node twice in a row. */
  ghost predicate IsRoute(chain: seq<string>)
  {
    && |chain| >= 2
    && chain[|chain| - 1] == SELF
    && (forall i | 0 <= i < |chain| :: IsId(chain[i]))
    && (forall i | 0 <= i < |chain| - 1 :: chain[i] != SELF && chain[i] != chain[i + 1])
  }

  ghost predicate BlankOrId(id: string) { id == "" || (IsId(id) && id != SELF) }

  lemma {:induction false} CompactShape(ids: seq<string>)
    requires forall i | 0 <= i < |ids| :: BlankOrId(ids[i])
    ensures var r := Compact(ids);
      && (forall i | 0 <= i < |r| :: IsId(r[i]) && r[i] != SELF)
      && (forall i | 0 <= i < |r| - 1 :: r[i] != r[i + 1])
      && (forall i | 0 <= i < |ids| && ids[i] != "" :: ids[i] in r)
    decreases |ids|
  {
    if ids != [] {
      var n := |ids| - 1;
      var before := Compact(ids[..n]);
      CompactShape(ids[..n]);
      assert BlankOrId(ids[n]);
      forall i | 0 <= i < |ids| && ids[i] != "" ensures ids[i] in Compact(ids) {
        if i < n {
          assert ids[..n][i] == ids[i];
        }
      }
    }
  }

  lemma {:induction false} CompactInvents(ids: seq<string>)
    ensures forall i | 0 <= i < |Compact(ids)| :: Compact(ids)[i] in ids && Compact(ids)[i] != ""
    decreases |ids|
  {
    if ids != [] {
      CompactInvents(ids[..|ids| - 1]);
    }
  }

  lemma {:induction false} HopIdsAreIds(s: Setup, hops: seq<seq<Byte>>, next: Option<LatLon>)
    requires WellFormed(s)
    ensures forall i | 0 <= i < |hops| :: BlankOrId(HopIds(s, hops, next)[i]) && HopIds(s, hops, next)[i] != ""
    decreases |hops|
  {
    if hops != [] {
      var n := |hops| - 1;
      HopIdsAreIds(s, hops[..n], Onward(s, hops[n], next));
      HopIdIsId(s, hops[n], next);
    }
  }

  lemma AllButOursAreIds(s: Setup, p: Packet, hops: seq<seq<Byte>>)
    requires WellFormed(s)
    ensures var ids := AllIds(s, p, hops); forall i | 0 <= i < |ids| - 1 ::
      BlankOrId(ids[i]) && (i > 0 ==> ids[i] != "")
    ensures Origin(s, p).Some? ==> AllIds(s, p, hops)[0] != ""
  {
    hide HopIds;
    var ids := AllIds(s, p, hops);
    HopIdsAreIds(s, hops, s.self);
    if Origin(s, p).Some? {
      HexIsId(Origin(s, p).value.pubkey);
    }
    forall i | 0 <= i < |ids| - 1 ensures BlankOrId(ids[i]) && (i > 0 ==> ids[i] != "") {
      if i > 0 {
        assert ids[i] == HopIds(s, hops, s.self)[i - 1];
      }
    }
  }

  /** Our own id at the end closes the route, and nothing resolved before it is lost. */
  lemma CompactClosed(ids: seq<string>)
    requires |ids| > 0 && ids[|ids| - 1] == SELF
    requires forall i | 0 <= i < |ids| - 1 :: BlankOrId(ids[i])
    ensures var r := Compact(ids); r != [] && (|r| >= 2 ==> IsRoute(r))
    ensures forall i | 0 <= i < |ids| && ids[i] != "" :: ids[i] in Compact(ids)
    ensures |Compact(ids)| < 2 ==> forall i | 0 <= i < |ids| - 1 :: ids[i] == ""
  {
    var n := |ids| - 1;
    CompactShape(ids[..n]);
    HexIsId([]);
    var before := Compact(ids[..n]);
    assert Compact(ids) == before + [SELF];
    forall i | 0 <= i < |ids| && ids[i] != "" ensures ids[i] in Compact(ids) && (i < n ==> before != []) {
      if i < n {
        assert ids[..n][i] == ids[i] && ids[i] in before;
      }
    }
  }

  /** Every route folded has a route's shape, and no hop or known origin is lost from it. */
  lemma RouteHasShape(s: Setup, rec: Record)
    requires WellFormed(s) && UsableHops(s, rec).Some?
    ensures Route(s, rec).Some? ==> IsRoute(Route(s, rec).value.chain)
    ensures var ids := AllIds(s, rec.packet.value, UsableHops(s, rec).value);
      forall i | 0 <= i < |ids| && ids[i] != "" :: ids[i] in Compact(ids)
    ensures Route(s, rec).None? <==> UsableHops(s, rec).value == [] && Origin(s, rec.packet.value).None?
  {
    hide HopIds, Compact, IsRoute;
    var p, hops := rec.packet.value, UsableHops(s, rec).value;
    var ids := AllIds(s, p, hops);
    AllButOursAreIds(s, p, hops);
    CompactClosed(ids);
    if hops != [] {
      assert ids[1] != "";
    }
    if hops == [] && Origin(s, p).None? {
      assert ids == ["", SELF];
      BlankThenSelf();
    }
  }

  lemma RoutesAreRoutes(s: Setup, rec: Record)
    requires WellFormed(s)
    ensures Route(s, rec).Some? ==> IsRoute(Route(s, rec).value.chain)
  {
    if UsableHops(s, rec).Some? {
      RouteHasShape(s, rec);
    }
  }

  lemma BlankThenSelf()
    ensures Compact(["", SELF]) == [SELF]
  {
    assert ["", SELF][..1] == [""];
    assert [""][..0] == [];
  }

  // ---------------------------------------------------------------------------------------------
  // A route's key
  // ---------------------------------------------------------------------------------------------

  function Join(chain: seq<string>): string
    requires chain != []
  {
    if |chain| == 1 then chain[0] else chain[0] + ">" + Join(chain[1..])
  }

  function KeyOf(r: Routed): string
    requires r.chain != []
  {
    if r.origin then "+" + Join(r.chain) else Join(r.chain)
  }

  /** Text free of the separator, then the separator: where the first one stands tells where the text ends. */
  lemma SameFirstWord(a: string, b: string, x: string, y: string)
    requires forall i | 0 <= i < |a| :: a[i] != '>'
    requires forall i | 0 <= i < |b| :: b[i] != '>'
    requires a + ">" + x == b + ">" + y
    ensures a == b && x == y
  {
    var s := a + ">" + x;
    assert s == b + ">" + y;
    assert forall i | 0 <= i < |a| :: s[i] == a[i];
    assert forall i | 0 <= i < |b| :: s[i] == b[i];
    assert s[|a|] == '>' && s[|b|] == '>';
    assert a == s[..|a|] && b == s[..|b|];
    assert x == s[|a| + 1..] && y == s[|b| + 1..];
  }

  lemma SeparatorTells(a: seq<string>)
    requires a != [] && IsId(a[0])
    ensures '>' in Join(a) <==> |a| > 1
  {
    if |a| > 1 {
      assert Join(a)[|a[0]|] == '>';
    }
  }

  lemma {:induction false} JoinIsInjective(a: seq<string>, b: seq<string>)
    requires a != [] && b != []
    requires (forall i | 0 <= i < |a| :: IsId(a[i])) && (forall i | 0 <= i < |b| :: IsId(b[i]))
    requires Join(a) == Join(b)
    ensures a == b
    decreases |a|
  {
    assert IsId(a[0]) && IsId(b[0]);
    SeparatorTells(a);
    SeparatorTells(b);
    if |a| > 1 {
      SameFirstWord(a[0], b[0], Join(a[1..]), Join(b[1..]));
      JoinIsInjective(a[1..], b[1..]);
      assert a == [a[0]] + a[1..] && b == [b[0]] + b[1..];
    }
  }

  /** Two routes with one key are one route. */
  lemma KeyIsInjective(a: Routed, b: Routed)
    requires IsRoute(a.chain) && IsRoute(b.chain) && KeyOf(a) == KeyOf(b)
    ensures a == b
  {
    assert IsId(a.chain[0]) && IsId(b.chain[0]);
    assert Join(a.chain)[0] == a.chain[0][0] && Join(b.chain)[0] == b.chain[0][0];
    assert a.origin == b.origin by {
      assert KeyOf(a)[0] == '+' <==> a.origin;
      assert KeyOf(b)[0] == '+' <==> b.origin;
    }
    if a.origin {
      assert KeyOf(a)[1..] == Join(a.chain) && KeyOf(b)[1..] == Join(b.chain);
    }
    JoinIsInjective(a.chain, b.chain);
  }
}
