/** Which path hash a node shows once a whole log is folded, and when the order of the log decides it
    (internal/api/routes_connection_web.go 150-166, 256-284). */
module WebHashes {
  import opened Common
  import opened ConnectionWeb
  import opened PeerIndex
  import opened WebFold
  import opened WebBuilding
  import opened WebOfLog

  // ---------------------------------------------------------------------------------------------
  // One record
  // ---------------------------------------------------------------------------------------------

  /** The hash of the first hop, in path order, that is the node. */
  function HashIn(ids: seq<string>, hops: seq<seq<Byte>>, id: string): (h: Option<string>)
    requires |ids| == |hops|
    ensures h.None? <==> id !in ids
    ensures h.Some? ==>
      exists i :: 0 <= i < |ids| && ids[i] == id && id !in ids[..i] && h.value == Hex(hops[i])
    decreases |ids|
  {
    if ids == [] then None else
    var n := |ids| - 1;
    var before := HashIn(ids[..n], hops[..n], id);
    assert ids == ids[..n] + [ids[n]];
    if before.Some? then
      assert forall i | 0 <= i < n :: ids[..n][..i] == ids[..i];
      before
    else if ids[n] == id then Some(Hex(hops[n])) else None
  }

  /** The hash a record leaves the node under; None when no hop of it is the node. */
  function HashLeft(s: Setup, rec: Record, id: string): Option<string>
  {
    var hops := UsableHops(s, rec);
    if hops.None? then None else HashIn(HopIds(s, hops.value, s.self), hops.value, id)
  }

  /** A node no peer owns has the hash its id is made of. */
  ghost predicate OwnHash(idents: map<string, Ident>)
  {
    forall id | id in idents && |id| >= 2 && id[..2] == "h:" :: idents[id].hash == id[2..]
  }

  /** What a hop makes of the nodes' hashes. */
  lemma StampHash(idents: map<string, Ident>, s: Setup, hop: seq<Byte>, next: Option<LatLon>)
    requires OwnHash(idents)
    ensures var m, x := Stamp(idents, s, hop, next), HopId(s, hop, next);
      && OwnHash(m) && m.Keys == idents.Keys + {x} && m[x].hash == Hex(hop)
      && forall id | id in idents && id != x :: m[id] == idents[id]
  {
    var o, x := Owner(s, hop, next), HopId(s, hop, next);
    hide Owner, Hex;
    if o.Some? {
      PeersAreApart(o.value.pubkey);
    } else {
      assert x[..2] == "h:" && x[2..] == Hex(hop);
    }
  }

  lemma PeersAreApart(pubkey: seq<Byte>)
    ensures var id := Hex(pubkey); !(|id| >= 2 && id[..2] == "h:")
  {
    var id := Hex(pubkey);
    if |id| >= 2 {
      assert id[0] in HEX_DIGITS && id[..2][0] == id[0];
    }
  }

  /** A path leaves each node on it the hash of its first hop that is the node, as the last to be resolved. */
  lemma {:induction false} StampAllHash(idents: map<string, Ident>, s: Setup, hops: seq<seq<Byte>>,
                                        next: Option<LatLon>, id: string)
    requires OwnHash(idents)
    ensures var m, h := StampAll(idents, s, hops, next), HashIn(HopIds(s, hops, next), hops, id);
      && OwnHash(m) && (id in m <==> id in idents || h.Some?)
      && (id in m ==> m[id].hash == if h.Some? then h.value else idents[id].hash)
    decreases |hops|
  {
    if hops != [] {
      var n := |hops| - 1;
      var m := Stamp(idents, s, hops[n], next);
      StampHash(idents, s, hops[n], next);
      StampAllHash(m, s, hops[..n], Onward(s, hops[n], next), id);
      HashInGrows(HopIds(s, hops[..n], Onward(s, hops[n], next)), HopId(s, hops[n], next), hops, id);
      hide Stamp, HashIn, Onward, HopId, Hex, OwnHash;
    }
  }

  lemma HashInGrows(before: seq<string>, last: string, hops: seq<seq<Byte>>, id: string)
    requires |hops| == |before| + 1
    ensures var n := |before|; var h := HashIn(before, hops[..n], id);
      HashIn(before + [last], hops, id) == if h.Some? then h else if last == id then Some(Hex(hops[n])) else None
  {
    assert (before + [last])[..|before|] == before;
  }

  lemma NamedHash(idents: map<string, Ident>, s: Setup, rec: Record, id: string)
    requires OwnHash(idents)
    ensures var m, h := Named(idents, s, rec), HashLeft(s, rec, id);
      && OwnHash(m) && (id in idents || h.Some? ==> id in m)
      && (id in m ==> m[id].hash == if h.Some? then h.value else if id in idents then idents[id].hash else "")
  {
    var hops := UsableHops(s, rec);
    if hops.Some? {
      StampAllHash(idents, s, hops.value, s.self, id);
      OriginHash(StampAll(idents, s, hops.value, s.self), Origin(s, rec.packet.value), id);
      hide StampAll, StampOrigin, HashIn, UsableHops, Origin, HopIds, OwnHash;
    }
  }

  /** A sender not met before shows no hash. */
  lemma OriginHash(idents: map<string, Ident>, o: Option<Peer>, id: string)
    requires OwnHash(idents)
    ensures var m := StampOrigin(idents, o);
      && OwnHash(m) && (id in idents ==> id in m && m[id] == idents[id])
      && (id in m && id !in idents ==> m[id].hash == "")
  {
    if o.Some? {
      PeersAreApart(o.value.pubkey);
    }
    hide Hex;
  }

  // ---------------------------------------------------------------------------------------------
  // A log
  // ---------------------------------------------------------------------------------------------

  /** The hash that the last record of the log that passes the node leaves it. */
  function LogHash(s: Setup, log: seq<Record>, id: string): Option<string>
  {
    if log == [] then None else
    var n := |log| - 1;
    var last := HashLeft(s, log[n], id);
    if last.Some? then last else LogHash(s, log[..n], id)
  }

  lemma {:induction false} LogHashIsTheLast(s: Setup, log: seq<Record>, id: string)
    ensures LogHash(s, log, id).None? <==> forall i | 0 <= i < |log| :: HashLeft(s, log[i], id).None?
    ensures LogHash(s, log, id).Some? ==>
      exists i :: IsLastToPass(s, log, id, i) && LogHash(s, log, id) == HashLeft(s, log[i], id)
    decreases |log|
  {
    hide HashLeft;
    if log != [] {
      var n := |log| - 1;
      LogHashIsTheLast(s, log[..n], id);
      if HashLeft(s, log[n], id).Some? {
        assert IsLastToPass(s, log, id, n);
      } else if i :| IsLastToPass(s, log[..n], id, i) {
        assert IsLastToPass(s, log, id, i);
      }
    }
  }

  ghost predicate IsLastToPass(s: Setup, log: seq<Record>, id: string, i: int)
  {
    && 0 <= i < |log| && HashLeft(s, log[i], id).Some?
    && forall j | i < j < |log| :: HashLeft(s, log[j], id).None?
  }

  /** What a node shows: none for one that is not there. */
  function HashShown(s: Setup, log: seq<Record>, id: string): string
  {
    var idents := NamedAll(s, log);
    if id in idents then idents[id].hash else ""
  }

  /** The hash a node shows is the one the last record of the log that passes it leaves it, at the first such hop of its
      path; a node met only as a sender shows none. */
  lemma {:induction false} HashShownIsTheLast(s: Setup, log: seq<Record>, id: string)
    ensures OwnHash(NamedAll(s, log))
    ensures var h := LogHash(s, log, id);
      (h.Some? ==> id in NamedAll(s, log)) && HashShown(s, log, id) == if h.Some? then h.value else ""
    decreases |log|
  {
    if log != [] {
      var n := |log| - 1;
      HashShownIsTheLast(s, log[..n], id);
      NamedHash(NamedAll(s, log[..n]), s, log[n], id);
      hide Named, HashLeft, OwnHash;
    }
  }

  /** The records that pass the node all leave it one hash. */
  ghost predicate OneHash(s: Setup, log: seq<Record>, id: string)
  {
    forall x, y | x in log && y in log && HashLeft(s, x, id).Some? && HashLeft(s, y, id).Some? ::
      HashLeft(s, x, id) == HashLeft(s, y, id)
  }

  lemma InBoth(a: seq<Record>, b: seq<Record>)
    requires multiset(a) == multiset(b)
    ensures forall x :: x in a <==> x in b
  {
    forall x ensures x in a <==> x in b {
      assert x in multiset(a) <==> x in multiset(b);
    }
  }

  /** The log with its ith record moved to the end. */
  lemma LastMoved(log: seq<Record>, i: nat) returns (b: seq<Record>)
    requires i < |log|
    ensures multiset(b) == multiset(log) && b != [] && b[|b| - 1] == log[i]
  {
    b := log[..i] + log[i + 1..] + [log[i]];
    assert log == log[..i] + [log[i]] + log[i + 1..];
  }

  /** The order of the log decides the hash a node shows exactly when two of its records leave the node different
      ones. */
  lemma OrderShowsOneHashExactly(s: Setup, log: seq<Record>, id: string)
    ensures (forall b | multiset(b) == multiset(log) :: HashShown(s, b, id) == HashShown(s, log, id)) <==>
      OneHash(s, log, id)
  {
    hide HashShown, HashLeft;
    if OneHash(s, log, id) {
      forall b | multiset(b) == multiset(log) ensures HashShown(s, b, id) == HashShown(s, log, id) {
        InBoth(b, log);
        HashShownIsTheLast(s, b, id);
        HashShownIsTheLast(s, log, id);
        OneHashIsShown(s, log, b, id);
      }
    } else {
      var x, y :| x in log && y in log && HashLeft(s, x, id).Some? && HashLeft(s, y, id).Some? &&
        HashLeft(s, x, id) != HashLeft(s, y, id);
      var i :| 0 <= i < |log| && log[i] == x;
      var j :| 0 <= j < |log| && log[j] == y;
      var a := LastMoved(log, i);
      var b := LastMoved(log, j);
      HashShownIsTheLast(s, a, id);
      HashShownIsTheLast(s, b, id);
      assert HashShown(s, a, id) != HashShown(s, b, id);
    }
  }

  lemma OneHashIsShown(s: Setup, a: seq<Record>, b: seq<Record>, id: string)
    requires OneHash(s, a, id) && forall x :: x in a <==> x in b
    ensures LogHash(s, a, id) == LogHash(s, b, id)
  {
    LogHashIsTheLast(s, a, id);
    LogHashIsTheLast(s, b, id);
    hide HashLeft, LogHash;
    if i :| 0 <= i < |a| && HashLeft(s, a[i], id).Some? {
      assert a[i] in b;
    }
    if j :| 0 <= j < |b| && HashLeft(s, b[j], id).Some? {
      assert b[j] in a;
    }
  }

  /** Two given orders show one hash exactly when the last records to pass the node in each leave it one. */
  lemma TwoOrdersAgreeExactly(s: Setup, a: seq<Record>, b: seq<Record>, id: string, i: int, j: int)
    requires IsLastToPass(s, a, id, i) && IsLastToPass(s, b, id, j)
    ensures HashShown(s, a, id) == HashShown(s, b, id) <==> HashLeft(s, a[i], id) == HashLeft(s, b[j], id)
  {
    LastPassed(s, a, id, i);
    LastPassed(s, b, id, j);
    hide HashLeft, HashShown, IsLastToPass;
  }

  lemma LastPassed(s: Setup, log: seq<Record>, id: string, i: int)
    requires IsLastToPass(s, log, id, i)
    ensures HashLeft(s, log[i], id).Some? && HashShown(s, log, id) == HashLeft(s, log[i], id).value
  {
    HashShownIsTheLast(s, log, id);
    LogHashIsTheLast(s, log, id);
    hide HashLeft, HashShown, LogHash;
    var j :| IsLastToPass(s, log, id, j) && LogHash(s, log, id) == HashLeft(s, log[j], id);
    assert i == j;
  }

  /** The hash, the candidates and the pin mark a listed node shows all come from that one hash. */
  lemma ListedHash(s: Setup, log: seq<Record>, chains: seq<Chain>, keys: seq<string>, nodes: seq<OutNode>,
                   ids: seq<string>, i: nat)
    requires WellFormed(s) && Shows(s, log, chains, keys, nodes, ids) && i < |nodes|
    ensures var h, n := LogHash(s, log, ids[i]), nodes[i];
      && n.ident.hash == (if h.Some? then h.value else "")
      && n.candidates == Under(s.repByHash, n.ident.hash) && n.pinned == (n.ident.hash in s.pins)
  {
    HashShownIsTheLast(s, log, ids[i]);
    hide LogHash, FoldAll, NamedAll, Lists;
  }

  /** It does happen: a repeater met under one byte of its key and under two shows whichever came last. */
  lemma TwoOrdersTwoHashes() returns (s: Setup, x: Record, y: Record, id: string)
    ensures WellFormed(s) && x.id != y.id
    ensures HashShown(s, [x, y], id) == "0102" && HashShown(s, [y, x], id) == "01"
  {
    var p := Peer([1, 2], "", "REPEATER", None, 0);
    s := OneRepeater(p);
    x := Record(1, true, Some(Packet(true, false, None, 1, [1])), "x", 0, None, None);
    y := Record(2, true, Some(Packet(true, false, None, 2, [1, 2])), "y", 0, None, None);
    id := Hex(p.pubkey);
    hide HashLeft, HashShown, LogHash, Hex, Candidates, WellFormed;
    OneHop(s, x, p, [1]);
    OneHop(s, y, p, [1, 2]);
    HexOfTwo();
    LastOfTwo(s, x, y, id);
    LastOfTwo(s, y, x, id);
  }

  lemma OneRepeater(p: Peer) returns (s: Setup)
    requires p.pubkey == [1, 2]
    ensures WellFormed(s) && s.sent == map[] && s.pins == map[] && s.self.None?
    ensures Candidates(s, [1]) == [p] && Candidates(s, [1, 2]) == [p]
  {
    HexOfTwo();
    hide Hex;
    s := Setup(None, [], map["0102" := p], map["01" := [p], "0102" := [p]], map[], map[], false, (a, b) => 0.0);
  }

  lemma LastOfTwo(s: Setup, x: Record, y: Record, id: string)
    requires HashLeft(s, y, id).Some?
    ensures HashShown(s, [x, y], id) == HashLeft(s, y, id).value
  {
    hide HashLeft, HashShown;
    HashShownIsTheLast(s, [x, y], id);
  }

  lemma HexOfTwo()
    ensures Hex([1]) == "01" && Hex([1, 2]) == "0102"
  {
    assert [1 as Byte, 2][1..] == [2] && [1 as Byte][1..] == [] && [2 as Byte][1..] == [];
    assert Hex([2]) == "02";
  }

  /** A path of a single hop that one peer alone may own. */
  lemma OneHop(s: Setup, rec: Record, p: Peer, hop: seq<Byte>)
    requires rec.received && rec.hash !in s.sent && s.pins == map[] && hop != []
    requires rec.packet.Some? && rec.packet.value == Packet(true, false, None, |hop|, hop)
    requires Candidates(s, hop) == [p] && s.self.None?
    ensures HashLeft(s, rec, Hex(p.pubkey)) == Some(Hex(hop))
  {
    OneUsableHop(s, rec, hop);
    OneHopId(s, p, hop);
    hide UsableHops, HopIds, Hex, Candidates;
    assert [Hex(p.pubkey)][..0] == [];
  }

  lemma OneUsableHop(s: Setup, rec: Record, hop: seq<Byte>)
    requires rec.received && rec.hash !in s.sent && hop != []
    requires rec.packet.Some? && rec.packet.value == Packet(true, false, None, |hop|, hop)
    ensures UsableHops(s, rec) == Some([hop])
  {
    assert hop[..|hop|] == hop && hop[|hop|..] == [];
    assert Hops(hop, |hop|) == [hop] + Hops([], |hop|) == [hop];
  }

  lemma OneHopId(s: Setup, p: Peer, hop: seq<Byte>)
    requires s.pins == map[] && Candidates(s, hop) == [p]
    ensures HopIds(s, [hop], None) == [Hex(p.pubkey)]
  {
    hide Hex, Candidates;
    assert Latest([p]) == p && HopId(s, hop, None) == Hex(p.pubkey);
    hide HopId, Onward;
    assert [hop][..0] == [];
  }
}
