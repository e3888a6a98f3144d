/** The builder that folds records into its maps in place (internal/api/routes_connection_web.go). */
module WebBuilding {
  import opened Common
  import opened ConnectionWeb
  import opened WebFold

  /** Who a node is: its peer, None for a hash no peer owns, and the path hash it was last seen under. */
  datatype Ident = Ident(peer: Option<Peer>, hash: string)

  datatype Node = Node(ident: Ident, tally: Tally)

  type Nodes = map<string, Node>

  function Idents(nodes: Nodes): map<string, Ident> { map id | id in nodes :: nodes[id].ident }

  function Tallies(nodes: Nodes): map<string, Tally> { map id | id in nodes :: nodes[id].tally }

  /** A resolved hop names its node, and the last hash it was seen under stays; an unresolved one has its own node. */
  function Stamp(idents: map<string, Ident>, s: Setup, hop: seq<Byte>, next: Option<LatLon>): map<string, Ident>
  {
    var o, id := Owner(s, hop, next), HopId(s, hop, next);
    if o.Some? then idents[id := Ident(if id in idents then idents[id].peer else o, Hex(hop))]
    else if id in idents then idents
    else idents[id := Ident(None, Hex(hop))]
  }

  /** The hops from the last to the first. */
  function StampAll(idents: map<string, Ident>, s: Setup, hops: seq<seq<Byte>>,
                    next: Option<LatLon>): map<string, Ident>
    decreases |hops|
  {
    if hops == [] then idents else
    var n := |hops| - 1;
    StampAll(Stamp(idents, s, hops[n], next), s, hops[..n], Onward(s, hops[n], next))
  }

  function StampOrigin(idents: map<string, Ident>, o: Option<Peer>): map<string, Ident>
  {
    if o.None? || Hex(o.value.pubkey) in idents then idents else idents[Hex(o.value.pubkey) := Ident(o, "")]
  }

  /** The nodes as a record leaves them, apart from the tallies. */
  function Named(idents: map<string, Ident>, s: Setup, rec: Record): map<string, Ident>
  {
    var hops := UsableHops(s, rec);
    if hops.None? then idents
    else StampOrigin(StampAll(idents, s, hops.value, s.self), Origin(s, rec.packet.value))
  }

  /** Tallies with a blank entry for each id that had none. */
  function WithBlanks(t: map<string, Tally>, ids: set<string>): (r: map<string, Tally>)
    ensures r.Keys == t.Keys + ids
  {
    map id | id in t.Keys + ids :: TallyOf(t, id)
  }

  /** The keys of the set, each once. */
  ghost predicate Lists(keys: seq<string>, all: set<string>)
  {
    (forall i, j | 0 <= i < j < |keys| :: keys[i] != keys[j]) && forall k :: k in all <==> k in keys
  }

  datatype OutNode = OutNode(id: string, ident: Ident, observations: nat, packets: nat, candidates: seq<Peer>,
                             pinned: bool)

  method CompactInPlace(ids: array<string>) returns (n: nat)
    modifies ids
    ensures n <= ids.Length && ids[..n] == Compact(old(ids[..]))
  {
    n := 0;
    for i := 0 to ids.Length
      invariant n <= i && ids[..n] == Compact(old(ids[..])[..i])
      invariant forall k | i <= k < ids.Length :: ids[k] == old(ids[k])
    {
      var id := ids[i];
      CompactOneMore(old(ids[..])[..i], id);
      assert old(ids[..])[..i + 1] == old(ids[..])[..i] + [id];
      hide Compact;
      if id != "" && (n == 0 || ids[n - 1] != id) {
        ids[n] := id;
        n := n + 1;
        assert ids[..n] == Compact(old(ids[..])[..i]) + [id];
      }
    }
    assert old(ids[..])[..ids.Length] == old(ids[..]);
  }

  lemma CompactOneMore(ids: seq<string>, id: string)
    ensures var before := Compact(ids);
      Compact(ids + [id]) == if id != "" && (before == [] || before[|before| - 1] != id) then before + [id] else before
  {
    assert (ids + [id])[..|ids|] == ids;
  }

  class WebBuilder {
    const setup: Setup
    var nodes: Nodes
    var chains: map<string, Chain>
    var firstCopy: map<string, Copy>

    constructor (setup: Setup)
      ensures this.setup == setup && Observed() == EMPTY && nodes == map[]
    {
      this.setup := setup;
      nodes, chains, firstCopy := map[], map[], map[];
    }

    ghost function Observed(): Web
      reads this
    {
      Web(chains, Tallies(nodes), firstCopy)
    }

    method UnresolvedNode(hop: seq<Byte>) returns (id: string)
      modifies this`nodes
      ensures id == UnresolvedId(hop)
      ensures Idents(nodes) == if id in old(nodes) then Idents(old(nodes))
        else Idents(old(nodes))[id := Ident(None, Hex(hop))]
      ensures Tallies(nodes) == WithBlanks(Tallies(old(nodes)), {id})
    {
      id := UnresolvedId(hop);
      if id !in nodes {
        nodes := nodes[id := Node(Ident(None, Hex(hop)), Tally(0, {}))];
      }
    }

    method PeerNode(p: Peer) returns (id: string)
      modifies this`nodes
      ensures id == Hex(p.pubkey)
      ensures Idents(nodes) == StampOrigin(Idents(old(nodes)), Some(p))
      ensures Tallies(nodes) == WithBlanks(Tallies(old(nodes)), {id})
    {
      id := Hex(p.pubkey);
      if id !in nodes {
        nodes := nodes[id := Node(Ident(Some(p), ""), Tally(0, {}))];
      }
    }

    method HopNode(p: Peer, hop: seq<Byte>) returns (id: string, at: Option<LatLon>)
      modifies this`nodes
      ensures id == Hex(p.pubkey) && at == p.at
      ensures Idents(nodes) ==
        Idents(old(nodes))[id := Ident(if id in old(nodes) then old(nodes)[id].ident.peer else Some(p), Hex(hop))]
      ensures Tallies(nodes) == WithBlanks(Tallies(old(nodes)), {id})
    {
      hide WithBlanks;
      id := PeerNode(p);
      assert id in Idents(nodes);
      Restamped(nodes, id, Hex(hop));
      nodes := nodes[id := nodes[id].(ident := nodes[id].ident.(hash := Hex(hop)))];
      at := p.at;
    }

    /** Tries the pin, then nearness to next, then the time last heard. */
    method FindOwner(hop: seq<Byte>, next: Option<LatLon>) returns (owner: Option<Peer>)
      ensures owner == Owner(setup, hop, next)
    {
      var h, cands := Hex(hop), Candidates(setup, hop);
      if h in setup.pins {
        if setup.pins[h].None? {
          return None;
        }
        // A pin on a peer we no longer know decides nothing.
        var pin := Hex(setup.pins[h].value);
        if pin in setup.byPubkey {
          return Some(setup.byPubkey[pin]);
        }
      }
      if |cands| == 0 {
        return None;
      }
      owner := None;
      if next.Some? {
        owner := FindNearest(cands, next.value);
      }
      if owner.None? {
        var latest := FindLatest(cands);
        owner := Some(latest);
      }
    }

    method ResolveHop(hop: seq<Byte>, next: Option<LatLon>) returns (id: string, at: Option<LatLon>)
      modifies this`nodes
      ensures id == HopId(setup, hop, next)
      ensures (if at.Some? then at else next) == Onward(setup, hop, next)
      ensures Idents(nodes) == Stamp(Idents(old(nodes)), setup, hop, next)
      ensures Tallies(nodes) == WithBlanks(Tallies(old(nodes)), {id})
    {
      hide Owner;
      var owner := FindOwner(hop, next);
      if owner.Some? {
        id, at := HopNode(owner.value, hop);
      } else {
        id := UnresolvedNode(hop);
        at := None;
      }
    }

    method FindNearest(cands: seq<Peer>, to: LatLon) returns (best: Option<Peer>)
      ensures best == Nearest(cands, to, setup.distance)
    {
      best := None;
      for i := 0 to |cands|
        invariant best == Nearest(cands[..i], to, setup.distance)
      {
        assert cands[..i + 1][..i] == cands[..i];
        var c := cands[i];
        if c.at.Some? && (best.None? || setup.distance(to, c.at.value) < setup.distance(to, best.value.at.value)) {
          best := Some(c);
        }
      }
      assert cands[..|cands|] == cands;
    }

    method FindLatest(cands: seq<Peer>) returns (best: Peer)
      requires cands != []
      ensures best == Latest(cands)
    {
      hide Latest;
      best := cands[0];
      LatestOfOne(best);
      assert cands[..1] == [best];
      for i := 1 to |cands|
        invariant best == Latest(cands[..i])
      {
        LatestOfOneMore(cands[..i], cands[i]);
        assert cands[..i + 1] == cands[..i] + [cands[i]];
        if cands[i].lastSeen > best.lastSeen {
          best := cands[i];
        }
      }
      assert cands[..|cands|] == cands;
    }

    /** The hops of a packet worth folding; our own relay heard back, or our own packet, is not. */
    method ReadHops(rec: Record) returns (hops: Option<seq<seq<Byte>>>)
      ensures hops == UsableHops(setup, rec) && (hops.Some? ==> rec.packet.Some?)
    {
      if !rec.received || rec.packet.None? || !rec.packet.value.flood || rec.packet.value.trace {
        return None;
      }
      var sent := rec.hash in setup.sent;
      if sent && setup.sent[rec.hash] && !setup.ownEchoes {
        return None;
      }
      var path, size := rec.packet.value.path, rec.packet.value.hashSize;
      var out: seq<seq<Byte>>, i := [], 0;
      while size > 0 && i + size <= |path|
        invariant i <= |path|
        invariant out + Hops(path[i..], size) == Hops(path, size)
        invariant sent ==> forall k | 0 <= k < |out| :: !IsOwnHop(setup, out[k])
        decreases |path| - i
      {
        var hop := path[i..i + size];
        assert path[i..][..size] == hop && path[i..][size..] == path[i + size..];
        assert out + ([hop] + Hops(path[i + size..], size)) == out + [hop] + Hops(path[i + size..], size);
        if sent && IsOwnHop(setup, hop) {
          assert Hops(path, size)[|out|] == hop;
          return None;
        }
        out, i := out + [hop], i + size;
      }
      assert out + [] == out;
      hops := Some(out);
    }

    /** Fills in the hops' ids from the last to the first, each resolved from where the one after it is. */
    method ResolveHops(hops: seq<seq<Byte>>, ids: array<string>)
      requires ids.Length == |hops| + 2
      modifies this`nodes, ids
      ensures ids[1..|hops| + 1] == HopIds(setup, hops, setup.self)
      ensures ids[0] == old(ids[0]) && ids[|hops| + 1] == old(ids[|hops| + 1])
      ensures Idents(nodes) == StampAll(Idents(old(nodes)), setup, hops, setup.self)
      ensures Tallies(nodes) == WithBlanks(Tallies(old(nodes)), Members(HopIds(setup, hops, setup.self)))
    {
      hide Onward, HopId, Stamp, HopIds, StampAll, WithBlanks, Members;
      var next, i := setup.self, |hops|;
      ghost var done: seq<string> := [];
      assert hops[..|hops|] == hops;
      NoBlanks(Tallies(nodes));
      assert HopIds(setup, hops, next) + [] == HopIds(setup, hops, next);
      while i > 0
        invariant 0 <= i <= |hops| && |done| == |hops| - i
        invariant ids[0] == old(ids[0]) && ids[|hops| + 1] == old(ids[|hops| + 1])
        invariant forall k | i < k <= |hops| :: ids[k] == done[k - i - 1]
        invariant HopIds(setup, hops[..i], next) + done == HopIds(setup, hops, setup.self)
        invariant StampAll(Idents(nodes), setup, hops[..i], next) ==
          StampAll(Idents(old(nodes)), setup, hops, setup.self)
        invariant Tallies(nodes) == WithBlanks(Tallies(old(nodes)), Members(done))
      {
        i := i - 1;
        ResolveStep(setup, Idents(nodes), hops, i, next, done);
        var id, at := ResolveHop(hops[i], next);
        ids[i + 1] := id;
        BlanksAdd(Tallies(old(nodes)), done, id);
        done := [id] + done;
        if at.Some? {
          next := at;
        }
      }
      NothingResolved(setup, Idents(nodes), next);
      assert hops[..0] == [] && [] + done == done;
      assert ids[1..|hops| + 1] == done;
    }

    /** The ids of a route before blanks and repeats are dropped: the sender's if known, the hops', ours. */
    method ResolveRoute(hops: seq<seq<Byte>>, origin: Option<Peer>) returns (ids: array<string>)
      modifies this`nodes
      ensures fresh(ids)
      ensures ids[..] == [if origin.Some? then Hex(origin.value.pubkey) else ""] +
        HopIds(setup, hops, setup.self) + [SELF]
      ensures Idents(nodes) == StampOrigin(StampAll(Idents(old(nodes)), setup, hops, setup.self), origin)
      ensures Tallies(nodes) == WithBlanks(Tallies(old(nodes)),
        Members(HopIds(setup, hops, setup.self)) + if origin.Some? then {Hex(origin.value.pubkey)} else {})
    {
      hide HopIds, StampAll, WithBlanks, Members, Hex, StampOrigin;
      ids := new string[|hops| + 2](_ => "");
      ids[ids.Length - 1] := SELF;
      ResolveHops(hops, ids);
      ghost var resolved := Members(HopIds(setup, hops, setup.self));
      if origin.Some? {
        ids[0] := PeerNode(origin.value);
        BlanksTwice(Tallies(old(nodes)), resolved, {ids[0]});
      } else {
        NoOrigin(Idents(nodes));
        assert resolved + {} == resolved;
      }
      Framed(ids[..], ids[1..|hops| + 1]);
    }

    /** Each node of the part is observed once more, in the packet of this hash. */
    method Observe(part: seq<string>, hash: string)
      requires Members(part) <= nodes.Keys
      modifies this`nodes
      ensures Idents(nodes) == Idents(old(nodes))
      ensures Tallies(nodes) == Tallied(Tallies(old(nodes)), part, hash)
    {
      hide Tallied, TallyOf, Members;
      TalliedNothing(Tallies(nodes), hash);
      for k := 0 to |part|
        invariant nodes.Keys == old(nodes).Keys && Idents(nodes) == Idents(old(nodes))
        invariant Tallies(nodes) == Tallied(Tallies(old(nodes)), part[..k], hash)
      {
        var id := part[k];
        assert id in Members(part);
        assert part[..k + 1] == part[..k] + [id];
        TalliedOneMore(Tallies(old(nodes)), part[..k], id, hash);
        assert id in Tallies(nodes);
        TallyIsEntry(Tallies(nodes), id);
        var t := nodes[id].tally;
        nodes := nodes[id := nodes[id].(tally := Tally(t.observations + 1, t.packets + {hash}))];
      }
      assert part[..|part|] == part;
    }

    /** Folds one record in; one without a usable relay path leaves everything as it was. */
    method Add(rec: Record)
      requires WellFormed(setup)
      modifies this
      ensures Observed() == Fold(setup, old(Observed()), rec)
      ensures Idents(nodes) == Named(Idents(old(nodes)), setup, rec)
    {
      hide UsableHops, Route, Origin, Compact, HopIds, StampAll, Tallied, WithBlanks, WithChain, KeyOf, IsRoute,
        Members;
      var hops := ReadHops(rec);
      if hops.None? {
        IgnoredHasNoRoute(setup, rec);
        return;
      }
      var origin := Origin(setup, rec.packet.value);
      var ids := ResolveRoute(hops.value, origin);
      assert ids[..] == AllIds(setup, rec.packet.value, hops.value);
      var n := CompactInPlace(ids);
      var chainIds := ids[..n];
      RouteIs(setup, rec);
      if n < 2 {
        // No hop and no known sender, so no node was touched.
        NothingResolved(setup, Idents(old(nodes)), setup.self);
        NoBlanks(Tallies(old(nodes)));
        return;
      }
      var r := Routed(origin.Some?, chainIds);
      OthersAreResolved(setup, rec);
      BlanksTallied(Tallies(old(nodes)), Members(Others(chainIds)), Others(chainIds), rec.hash);
      assert nodes.Keys == Tallies(nodes).Keys;
      UpdateChain(r, rec);
      Observe(Others(chainIds), rec.hash);
      if rec.hash !in firstCopy || rec.id < firstCopy[rec.hash].id {
        firstCopy := firstCopy[rec.hash := Copy(rec.id, KeyOf(r))];
      }
    }

    /** Credits each packet's first copy to its chain, then lists every chain and node once, in any order. */
    method Result() returns (outNodes: seq<OutNode>, outChains: seq<Chain>, ghost ids: seq<string>,
                             ghost keys: seq<string>)
      requires forall h | h in firstCopy :: firstCopy[h].key in chains
      modifies this`chains
      ensures chains == Credited(old(chains), firstCopy)
      ensures Lists(keys, chains.Keys) && |outChains| == |keys| && forall i | 0 <= i < |keys| ::
        keys[i] in chains && outChains[i] == chains[keys[i]]
      ensures Lists(ids, nodes.Keys) && |outNodes| == |ids| && forall i | 0 <= i < |ids| ::
        ids[i] in nodes && outNodes[i] == OutOf(ids[i], nodes[ids[i]])
    {
      CreditFirsts();
      outChains, keys := [], [];
      var left := chains.Keys;
      while left != {}
        invariant left <= chains.Keys && Lists(keys, chains.Keys - left)
        invariant |outChains| == |keys| && forall i | 0 <= i < |keys| ::
          keys[i] in chains && outChains[i] == chains[keys[i]]
      {
        var k :| k in left;
        left, outChains, keys := left - {k}, outChains + [chains[k]], keys + [k];
      }
      outNodes, ids := [], [];
      left := nodes.Keys;
      while left != {}
        invariant left <= nodes.Keys && Lists(ids, nodes.Keys - left)
        invariant |outNodes| == |ids| && forall i | 0 <= i < |ids| ::
          ids[i] in nodes && outNodes[i] == OutOf(ids[i], nodes[ids[i]])
      {
        var id :| id in left;
        left, outNodes, ids := left - {id}, outNodes + [OutOf(id, nodes[id])], ids + [id];
      }
    }

    function OutOf(id: string, n: Node): OutNode
    {
      OutNode(id, n.ident, n.tally.observations, |n.tally.packets|,
        if n.ident.hash in setup.repByHash then setup.repByHash[n.ident.hash] else [], n.ident.hash in setup.pins)
    }

    method CreditFirsts()
      requires forall h | h in firstCopy :: firstCopy[h].key in chains
      modifies this`chains
      ensures chains == Credited(old(chains), firstCopy)
    {
      hide FirstVia, Credited;
      CreditNone(chains);
      var left := firstCopy.Keys;
      ghost var done: map<string, Copy> := map[];
      while left != {}
        invariant left <= firstCopy.Keys
        invariant chains == Credited(old(chains), done) && chains.Keys == old(chains).Keys
        invariant done.Keys == firstCopy.Keys - left && forall h | h in done :: done[h] == firstCopy[h]
      {
        var h :| h in left;
        left := left - {h};
        var key := firstCopy[h].key;
        CreditOne(old(chains), done, h, firstCopy[h]);
        done := done[h := firstCopy[h]];
        chains := chains[key := chains[key].(first := chains[key].first + 1)];
      }
      assert done == firstCopy;
    }

    method UpdateChain(r: Routed, rec: Record)
      requires r.chain != []
      modifies this`chains
      ensures chains == WithChain(old(chains), r, rec)
    {
      var key := KeyOf(r);
      var c := if key in chains then chains[key] else NewChain(r);
      c := c.(count := c.count + 1);
      if rec.receivedAt > c.lastSeen {
        c := c.(lastSeen := rec.receivedAt);
      }
      if rec.snr.Some? {
        var v := rec.snr.value;
        c := c.(snrSum := c.snrSum + v, snrN := c.snrN + 1);
        if c.snrMin.None? || v < c.snrMin.value {
          c := c.(snrMin := Some(v));
        }
        if c.snrMax.None? || v > c.snrMax.value {
          c := c.(snrMax := Some(v));
        }
      }
      if rec.rssi.Some? {
        c := c.(rssiSum := c.rssiSum + rec.rssi.value, rssiN := c.rssiN + 1);
      }
      chains := chains[key := c];
    }
  }

  lemma NoOrigin(idents: map<string, Ident>)
    ensures StampOrigin(idents, None) == idents
  {
  }

  lemma IgnoredHasNoRoute(s: Setup, rec: Record)
    requires UsableHops(s, rec).None?
    ensures Route(s, rec).None?
  {
  }

  lemma RouteIs(s: Setup, rec: Record)
    requires WellFormed(s) && UsableHops(s, rec).Some?
    ensures var hops, o := UsableHops(s, rec).value, Origin(s, rec.packet.value);
      var chain := Compact(AllIds(s, rec.packet.value, hops));
      if |chain| < 2 then Route(s, rec).None? && hops == [] && o.None?
      else Route(s, rec) == Some(Routed(o.Some?, chain))
  {
    RouteHasShape(s, rec);
  }

  /** The chains with each first copy credited. */
  ghost function Credited(chains: map<string, Chain>, copies: map<string, Copy>): map<string, Chain>
  {
    map k | k in chains :: chains[k].(first := chains[k].first + |FirstVia(copies, k)|)
  }

  lemma CreditNone(chains: map<string, Chain>)
    ensures Credited(chains, map[]) == chains
  {
    forall k ensures FirstVia(map[], k) == {} { }
    assert Credited(chains, map[]).Keys == chains.Keys;
  }

  lemma CreditOne(chains: map<string, Chain>, copies: map<string, Copy>, h: string, copy: Copy)
    requires h !in copies && copy.key in chains
    ensures var c := Credited(chains, copies);
      Credited(chains, copies[h := copy]) == c[copy.key := c[copy.key].(first := c[copy.key].first + 1)]
  {
    hide FirstVia;
    FirstViaGrows(copies, h, copy);
    var x, y := Credited(chains, copies[h := copy]), Credited(chains, copies);
    var k0 := copy.key;
    assert x.Keys == y.Keys && k0 in y;
    assert x[k0] == y[k0].(first := y[k0].first + 1);
  }

  lemma FirstViaGrows(copies: map<string, Copy>, h: string, copy: Copy)
    requires h !in copies
    ensures forall k :: |FirstVia(copies[h := copy], k)| == |FirstVia(copies, k)| + if k == copy.key then 1 else 0
  {
    forall k ensures |FirstVia(copies[h := copy], k)| == |FirstVia(copies, k)| + if k == copy.key then 1 else 0 {
      assert FirstVia(copies[h := copy], k) == FirstVia(copies, k) + if k == copy.key then {h} else {};
    }
  }

  lemma BlanksAdd(t: map<string, Tally>, done: seq<string>, id: string)
    ensures WithBlanks(WithBlanks(t, Members(done)), {id}) == WithBlanks(t, Members([id] + done))
  {
    BlanksTwice(t, Members(done), {id});
    assert Members(done) + {id} == Members([id] + done);
  }

  lemma BlanksTwice(t: map<string, Tally>, a: set<string>, b: set<string>)
    ensures WithBlanks(WithBlanks(t, a), b) == WithBlanks(t, a + b)
  {
    var x, y := WithBlanks(WithBlanks(t, a), b), WithBlanks(t, a + b);
    assert x.Keys == y.Keys;
    forall k | k in x ensures x[k] == y[k] {
      assert TallyOf(WithBlanks(t, a), k) == TallyOf(t, k);
    }
  }

  lemma NoBlanks(t: map<string, Tally>)
    ensures WithBlanks(t, Members([])) == t && WithBlanks(t, Members([]) + {}) == t
  {
    assert Members([]) == {} && Members([]) + {} == {};
    assert WithBlanks(t, {}).Keys == t.Keys;
    assert forall k | k in t :: WithBlanks(t, {})[k] == t[k];
  }

  lemma NothingResolved(s: Setup, idents: map<string, Ident>, next: Option<LatLon>)
    ensures StampAll(idents, s, [], next) == idents && HopIds(s, [], next) == []
  {
  }

  /** A new hash changes the one node and no tally. */
  lemma Restamped(nodes: map<string, Node>, id: string, hash: string)
    requires id in nodes
    ensures var n := nodes[id := nodes[id].(ident := nodes[id].ident.(hash := hash))];
      Idents(n) == Idents(nodes)[id := nodes[id].ident.(hash := hash)] && Tallies(n) == Tallies(nodes)
  {
  }

  lemma LatestOfOne(c: Peer)
    ensures Latest([c]) == c
  {
  }

  lemma LatestOfOneMore(cands: seq<Peer>, c: Peer)
    requires cands != []
    ensures Latest(cands + [c]) == if c.lastSeen > Latest(cands).lastSeen then c else Latest(cands)
  {
    assert (cands + [c])[..|cands|] == cands;
  }

  lemma Framed(ids: seq<string>, hops: seq<string>)
    requires |ids| == |hops| + 2 && ids[1..|hops| + 1] == hops
    ensures ids == [ids[0]] + hops + [ids[|hops| + 1]]
  {
  }

  /** The last of the hops left is resolved first. */
  lemma ResolveStep(s: Setup, idents: map<string, Ident>, hops: seq<seq<Byte>>, i: nat, next: Option<LatLon>,
                    done: seq<string>)
    requires i < |hops|
    ensures HopIds(s, hops[..i + 1], next) + done
      == HopIds(s, hops[..i], Onward(s, hops[i], next)) + ([HopId(s, hops[i], next)] + done)
    ensures StampAll(idents, s, hops[..i + 1], next) ==
      StampAll(Stamp(idents, s, hops[i], next), s, hops[..i], Onward(s, hops[i], next))
  {
    hide Onward, HopId, Stamp;
    assert hops[..i + 1][..i] == hops[..i] && hops[..i + 1][i] == hops[i];
  }

  /** The nodes of a route other than ours are the ones its resolution touched. */
  lemma OthersAreResolved(s: Setup, rec: Record)
    requires WellFormed(s) && Route(s, rec).Some?
    ensures IsRoute(Route(s, rec).value.chain)
    ensures var o := Origin(s, rec.packet.value);
      Members(Others(Route(s, rec).value.chain))
        == Members(HopIds(s, UsableHops(s, rec).value, s.self)) + if o.Some? then {Hex(o.value.pubkey)} else {}
  {
    RouteHasShape(s, rec);
    AllButOursAreIds(s, rec.packet.value, UsableHops(s, rec).value);
    SplitMembers(s, rec.packet.value, UsableHops(s, rec).value);
  }

  lemma {:induction false} SplitMembers(s: Setup, p: Packet, hops: seq<seq<Byte>>)
    requires var ids := AllIds(s, p, hops);
      && IsRoute(Compact(ids))
      && (forall i | 0 <= i < |ids| && ids[i] != "" :: ids[i] in Compact(ids))
      && (forall i | 0 <= i < |ids| - 1 :: BlankOrId(ids[i]) && (i > 0 ==> ids[i] != ""))
      && (Origin(s, p).Some? ==> ids[0] != "")
    ensures var o := Origin(s, p);
      Members(Others(Compact(AllIds(s, p, hops)))) ==
        Members(HopIds(s, hops, s.self)) + if o.Some? then {Hex(o.value.pubkey)} else {}
  {
    hide HopIds, Compact, Origin;
    var o, ids := Origin(s, p), AllIds(s, p, hops);
    var chain, hopIds := Compact(ids), HopIds(s, hops, s.self);
    CompactInvents(ids);
    forall id | id in Others(chain) ensures id in hopIds || (o.Some? && id == Hex(o.value.pubkey)) {
      var i :| 0 <= i < |chain| - 1 && chain[i] == id;
      assert id in ids && id != SELF && id != "";
      var k :| 0 <= k < |ids| && ids[k] == id;
      if 0 < k {
        assert id == hopIds[k - 1];
      }
    }
    forall k | 0 <= k < |ids| - 1 && ids[k] != "" ensures ids[k] in Others(chain) {
      assert BlankOrId(ids[k]) && ids[k] in chain;
    }
    forall id | id in hopIds ensures id in Others(chain) {
      var k :| 0 <= k < |hopIds| && hopIds[k] == id;
      assert ids[k + 1] == id;
    }
    if o.Some? {
      assert ids[0] == Hex(o.value.pubkey);
    }
  }

  lemma TalliedNothing(t: map<string, Tally>, hash: string)
    ensures Tallied(t, [], hash) == t
  {
    var x := Tallied(t, [], hash);
    assert x.Keys == t.Keys;
    forall k | k in x ensures x[k] == t[k] {
      TallyGrows(t, [], hash, k);
    }
  }

  lemma TalliedOneMore(t: map<string, Tally>, part: seq<string>, id: string, hash: string)
    requires id in t
    ensures var before := TallyOf(Tallied(t, part, hash), id);
      Tallied(t, part + [id], hash) ==
        Tallied(t, part, hash)[id := Tally(before.observations + 1, before.packets + {hash})]
  {
    hide Tallied, TallyOf;
    var x, y := Tallied(t, part + [id], hash), Tallied(t, part, hash);
    assert Members(part + [id]) == Members(part) + {id};
    assert x.Keys == y.Keys == y.Keys + {id};
    forall k | k in x ensures x[k] == if k == id then Tally(y[id].observations + 1, y[id].packets + {hash}) else y[k] {
      assert k in part + [id] <==> k in part || k == id;
      assert multiset(part + [id])[k] == multiset(part)[k] + if k == id then 1 else 0;
      TallyGrows(t, part + [id], hash, k);
      TallyGrows(t, part, hash, k);
      TallyIsEntry(x, k);
      TallyIsEntry(y, k);
    }
    TallyIsEntry(y, id);
  }

  lemma BlanksTallied(t: map<string, Tally>, ids: set<string>, part: seq<string>, hash: string)
    requires ids <= Members(part)
    ensures Tallied(WithBlanks(t, ids), part, hash) == Tallied(t, part, hash)
  {
    var x, y := Tallied(WithBlanks(t, ids), part, hash), Tallied(t, part, hash);
    assert x.Keys == y.Keys;
    forall k | k in x ensures x[k] == y[k] {
      assert TallyOf(WithBlanks(t, ids), k) == TallyOf(t, k);
    }
  }

  lemma {:induction false} NothingCreditedYet(s: Setup, recs: seq<Record>)
    requires WellFormed(s)
    ensures forall k | k in FoldAll(s, recs).chains :: FoldAll(s, recs).chains[k].first == 0
    decreases |recs|
  {
    hide Route, Tallied, WithCopy, KeyOf;
    if recs != [] {
      NothingCreditedYet(s, recs[..|recs| - 1]);
    }
  }

  /** In what is shown of a log, every chain leads with at most the packets it was heard with, and together the
      chains lead with each packet once. */
  lemma {:induction false} ShownFirstsConserve(s: Setup, recs: seq<Record>)
    requires WellFormed(s)
    ensures var w := FoldAll(s, recs);
      var shown := Credited(w.chains, w.firstCopy);
      && (forall k | k in shown :: shown[k].first <= shown[k].count)
      && SumOf(map k | k in shown :: shown[k].first) == |PacketHashes(s, recs)|
      && (forall h | h in w.firstCopy :: w.firstCopy[h].key in w.chains)
  {
    hide FoldAll, FirstVia;
    var w := FoldAll(s, recs);
    var shown := Credited(w.chains, w.firstCopy);
    NothingCreditedYet(s, recs);
    FirstsSumToPackets(s, recs);
    forall k | k in shown ensures shown[k].first == |FirstVia(w.firstCopy, k)| <= shown[k].count {
      FirstAtMostCount(s, recs, k);
      CountIsRecordsVia(s, recs, k);
    }
    assert (map k | k in shown :: shown[k].first) == FirstCounts(w.firstCopy, w.chains.Keys);
    forall h | h in w.firstCopy ensures w.firstCopy[h].key in w.chains {
      FirstAtMostCount(s, recs, w.firstCopy[h].key);
      InFirstVia(w.firstCopy, h);
    }
  }

  lemma InFirstVia(copies: map<string, Copy>, h: string)
    requires h in copies
    ensures FirstVia(copies, copies[h].key) != {}
  {
    assert h in FirstVia(copies, copies[h].key);
  }
}
