/** The peers as the connection web looks them up: by key, and repeaters by the first bytes of theirs
    (internal/api/routes_connection_web.go 102-124). */
module PeerIndex {
  import opened Common
  import opened ConnectionWeb

  const MAX_HASH_SIZE := 3

  /** A hop's hash is the first bytes of a forwarder's key, and only a repeater forwards. */
  predicate Carries(p: Peer, hop: seq<Byte>)
  {
    p.kind == "REPEATER" && |hop| <= |p.pubkey| && p.pubkey[..|hop|] == hop
  }

  /** The peer is filed under this hash by one of its first sizes. */
  predicate FiledBelow(p: Peer, key: string, sizes: nat)
  {
    p.kind == "REPEATER" && exists size :: 1 <= size < sizes && size <= |p.pubkey| && Hex(p.pubkey[..size]) == key
  }

  function RepeatersOf(peers: seq<Peer>, key: string): seq<Peer>
  {
    if peers == [] then [] else
    var n := |peers| - 1;
    RepeatersOf(peers[..n], key) + if FiledBelow(peers[n], key, MAX_HASH_SIZE + 1) then [peers[n]] else []
  }

  /** Of two peers with one key the later counts. */
  function ByKey(peers: seq<Peer>): map<string, Peer>
  {
    if peers == [] then map[] else
    var n := |peers| - 1;
    ByKey(peers[..n])[Hex(peers[n].pubkey) := peers[n]]
  }

  function Under(index: map<string, seq<Peer>>, key: string): seq<Peer>
  {
    if key in index then index[key] else []
  }

  ghost predicate Indexes(s: Setup, peers: seq<Peer>)
  {
    s.byPubkey == ByKey(peers) && forall key :: Under(s.repByHash, key) == RepeatersOf(peers, key)
  }

  lemma HexOfFirst(a: seq<Byte>)
    requires a != []
    ensures Hex(a)[0] == HEX_DIGITS[a[0] / 16] && Hex(a)[1] == HEX_DIGITS[a[0] % 16] && Hex(a)[2..] == Hex(a[1..])
  {
  }

  lemma {:induction false} HexIsInjective(a: seq<Byte>, b: seq<Byte>)
    requires Hex(a) == Hex(b)
    ensures a == b
    decreases |a|
  {
    hide Hex;
    assert |a| == |b|;
    if a != [] {
      HexOfFirst(a);
      HexOfFirst(b);
      DigitsDiffer(a[0] / 16, b[0] / 16);
      DigitsDiffer(a[0] % 16, b[0] % 16);
      HalvesMake(a[0], b[0]);
      HexIsInjective(a[1..], b[1..]);
      assert a == [a[0]] + a[1..] && b == [b[0]] + b[1..];
    }
  }

  lemma HalvesMake(a: Byte, b: Byte)
    requires a / 16 == b / 16 && a % 16 == b % 16
    ensures a == b
  {
  }

  lemma DigitsDiffer(i: int, j: int)
    requires 0 <= i < 16 && 0 <= j < 16 && HEX_DIGITS[i] == HEX_DIGITS[j]
    ensures i == j
  {
  }

  /** Filed under a hop's hash exactly when it carries the hop, for hops of one to three bytes. */
  lemma FiledMeansCarries(p: Peer, hop: seq<Byte>)
    ensures FiledBelow(p, Hex(hop), MAX_HASH_SIZE + 1) <==> 1 <= |hop| <= MAX_HASH_SIZE && Carries(p, hop)
  {
    hide Hex;
    if size :| 1 <= size < MAX_HASH_SIZE + 1 && size <= |p.pubkey| && Hex(p.pubkey[..size]) == Hex(hop) {
      HexIsInjective(p.pubkey[..size], hop);
    }
    if 1 <= |hop| <= MAX_HASH_SIZE && Carries(p, hop) {
      assert Hex(p.pubkey[..|hop|]) == Hex(hop);
    }
  }

  lemma {:induction false} RepeatersCarry(peers: seq<Peer>, hop: seq<Byte>)
    ensures forall p :: p in RepeatersOf(peers, Hex(hop)) <==>
      p in peers && 1 <= |hop| <= MAX_HASH_SIZE && Carries(p, hop)
    decreases |peers|
  {
    if peers != [] {
      var n := |peers| - 1;
      RepeatersCarry(peers[..n], hop);
      FiledMeansCarries(peers[n], hop);
      assert peers == peers[..n] + [peers[n]];
    }
  }

  /** A hop no pin decides is resolved exactly when some known repeater's key begins with it, and then to such a one. */
  lemma HopGoesToACarrier(s: Setup, peers: seq<Peer>, hop: seq<Byte>, next: Option<LatLon>)
    requires Indexes(s, peers) && Hex(hop) !in s.pins
    ensures Owner(s, hop, next).Some? <==> 1 <= |hop| <= MAX_HASH_SIZE && exists p :: p in peers && Carries(p, hop)
    ensures Owner(s, hop, next).Some? ==> Owner(s, hop, next).value in peers && Carries(Owner(s, hop, next).value, hop)
  {
    RepeatersCarry(peers, hop);
    OwnerIsACandidate(s, hop, next);
    assert Candidates(s, hop) == Under(s.repByHash, Hex(hop));
    if Candidates(s, hop) != [] {
      assert Candidates(s, hop)[0] in RepeatersOf(peers, Hex(hop));
    }
  }

  lemma {:induction false} ByKeyHoldsKeys(peers: seq<Peer>, key: string)
    requires key in ByKey(peers)
    ensures ByKey(peers)[key] in peers && Hex(ByKey(peers)[key].pubkey) == key
    decreases |peers|
  {
    var n := |peers| - 1;
    if key != Hex(peers[n].pubkey) {
      ByKeyHoldsKeys(peers[..n], key);
    }
  }

  lemma {:induction false} RepeatersArePeers(peers: seq<Peer>, key: string)
    ensures forall p :: p in RepeatersOf(peers, key) ==> p in peers
    decreases |peers|
  {
    if peers != [] {
      RepeatersArePeers(peers[..|peers| - 1], key);
    }
  }

  /** What the fold asks of its start is what indexing the peers gives. */
  lemma IndexedIsWellFormed(s: Setup, peers: seq<Peer>)
    requires Indexes(s, peers) && forall i | 0 <= i < |peers| :: peers[i].pubkey != []
    ensures WellFormed(s)
  {
    forall k | k in s.byPubkey ensures s.byPubkey[k].pubkey != [] && Hex(s.byPubkey[k].pubkey) == k {
      ByKeyHoldsKeys(peers, k);
    }
    forall h, i | h in s.repByHash && 0 <= i < |s.repByHash[h]| ensures s.repByHash[h][i].pubkey != [] {
      RepeatersArePeers(peers, h);
      assert s.repByHash[h][i] in Under(s.repByHash, h);
    }
  }

  lemma OneSizeMore(p: Peer, size: nat)
    requires p.kind == "REPEATER" && 1 <= size <= |p.pubkey|
    ensures forall key :: FiledBelow(p, key, size + 1) <==> FiledBelow(p, key, size) || key == Hex(p.pubkey[..size])
    ensures !FiledBelow(p, Hex(p.pubkey[..size]), size)
  {
    hide Hex;
    forall key | FiledBelow(p, key, size) ensures FiledBelow(p, key, size + 1) {
      var s :| 1 <= s < size && s <= |p.pubkey| && Hex(p.pubkey[..s]) == key;
      assert 1 <= s < size + 1;
    }
    forall key | FiledBelow(p, key, size + 1) && key != Hex(p.pubkey[..size]) ensures FiledBelow(p, key, size) {
      var s :| 1 <= s < size + 1 && s <= |p.pubkey| && Hex(p.pubkey[..s]) == key;
      assert s < size;
    }
    assert FiledBelow(p, Hex(p.pubkey[..size]), size + 1) by {
      assert 1 <= size < size + 1 && Hex(p.pubkey[..size]) == Hex(p.pubkey[..size]);
    }
  }

  lemma NoSizeMore(p: Peer, size: nat)
    requires 1 <= size && (size > MAX_HASH_SIZE || size > |p.pubkey|) && size <= MAX_HASH_SIZE + 1
    ensures forall key :: FiledBelow(p, key, MAX_HASH_SIZE + 1) <==> FiledBelow(p, key, size)
  {
    hide Hex;
    forall key | FiledBelow(p, key, MAX_HASH_SIZE + 1) ensures FiledBelow(p, key, size) {
      var s :| 1 <= s < MAX_HASH_SIZE + 1 && s <= |p.pubkey| && Hex(p.pubkey[..s]) == key;
    }
    forall key | FiledBelow(p, key, size) ensures FiledBelow(p, key, MAX_HASH_SIZE + 1) {
      var s :| 1 <= s < size && s <= |p.pubkey| && Hex(p.pubkey[..s]) == key;
    }
  }

  /** Files one repeater under each of its first sizes. */
  method FilePeer(p: Peer, index0: map<string, seq<Peer>>) returns (index: map<string, seq<Peer>>)
    ensures forall key ::
      Under(index, key) ==
      Under(index0, key) + if FiledBelow(p, key, MAX_HASH_SIZE + 1) then [p] else []
  {
    index := index0;
    if p.kind != "REPEATER" {
      return;
    }
    var size := 1;
    while size <= MAX_HASH_SIZE && size <= |p.pubkey|
      invariant 1 <= size <= MAX_HASH_SIZE + 1 && size <= |p.pubkey| + 1
      invariant forall key :: Under(index, key) == Under(index0, key) + if FiledBelow(p, key, size) then [p] else []
    {
      OneSizeMore(p, size);
      hide FiledBelow, Hex;
      var k := Hex(p.pubkey[..size]);
      index := index[k := Under(index, k) + [p]];
      size := size + 1;
    }
    NoSizeMore(p, size);
    hide FiledBelow;
  }

  method IndexPeers(peers: seq<Peer>) returns (byPubkey: map<string, Peer>, repByHash: map<string, seq<Peer>>)
    ensures byPubkey == ByKey(peers)
    ensures forall key :: Under(repByHash, key) == RepeatersOf(peers, key)
  {
    byPubkey, repByHash := map[], map[];
    for i := 0 to |peers|
      invariant byPubkey == ByKey(peers[..i])
      invariant forall key :: Under(repByHash, key) == RepeatersOf(peers[..i], key)
    {
      assert peers[..i + 1][..i] == peers[..i];
      byPubkey := byPubkey[Hex(peers[i].pubkey) := peers[i]];
      repByHash := FilePeer(peers[i], repByHash);
    }
    assert peers[..|peers|] == peers;
  }
}
