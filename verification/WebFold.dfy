/** The fold of received packets into chains, node tallies and first copies
    (internal/api/routes_connection_web.go), what it conserves and what it does not depend on. */
module WebFold {
  import opened Common
  import opened ConnectionWeb

  /** A route and what was heard over it; the signal figures are of the hop that reached us. */
  datatype Chain = Chain(
    nodes: seq<string>, origin: bool, count: nat, first: nat, lastSeen: int,
    snrSum: real, snrN: nat, snrMin: Option<real>, snrMax: Option<real>, rssiSum: int, rssiN: nat)

  /** How often a node was on a route, and in which packets. */
  datatype Tally = Tally(observations: nat, packets: set<string>)

  /** The copy of a packet that was logged first, and its chain. */
  datatype Copy = Copy(id: int, key: string)

  /** The builder's counts, without the nodes' names and hashes. */
  datatype Web = Web(chains: map<string, Chain>, tallies: map<string, Tally>, firstCopy: map<string, Copy>)

  const EMPTY := Web(map[], map[], map[])

  const ZERO_TIME := 0

  function NewChain(r: Routed): Chain { Chain(r.chain, r.origin, 0, 0, ZERO_TIME, 0.0, 0, None, None, 0, 0) }

  function Lower(a: Option<real>, v: real): Option<real> { if a.None? || v < a.value then Some(v) else a }

  function Higher(a: Option<real>, v: real): Option<real> { if a.None? || v > a.value then Some(v) else a }

  function Heard(c: Chain, rec: Record): Chain
  {
    var c := c.(count := c.count + 1, lastSeen := Max(c.lastSeen, rec.receivedAt));
    var c := if rec.snr.None? then c else
      c.(snrSum := c.snrSum + rec.snr.value, snrN := c.snrN + 1,
         snrMin := Lower(c.snrMin, rec.snr.value), snrMax := Higher(c.snrMax, rec.snr.value));
    if rec.rssi.None? then c else c.(rssiSum := c.rssiSum + rec.rssi.value, rssiN := c.rssiN + 1)
  }

  /** The nodes of a route other than ours. */
  function Others(chain: seq<string>): seq<string>
    requires chain != []
  {
    chain[..|chain| - 1]
  }

  function Members(ids: seq<string>): (s: set<string>)
    ensures forall id :: id in s <==> id in ids
  {
    set i | 0 <= i < |ids| :: ids[i]
  }

  function TallyOf(tallies: map<string, Tally>, id: string): Tally
  {
    if id in tallies then tallies[id] else Tally(0, {})
  }

  /** Each node of the part counts once for each time it is on it. */
  function Tallied(tallies: map<string, Tally>, part: seq<string>, hash: string): (r: map<string, Tally>)
    ensures r.Keys == tallies.Keys + Members(part)
  {
    map id | id in tallies.Keys + Members(part) ::
      Tally(TallyOf(tallies, id).observations + multiset(part)[id],
            TallyOf(tallies, id).packets + if id in part then {hash} else {})
  }

  function WithCopy(copies: map<string, Copy>, hash: string, copy: Copy): map<string, Copy>
  {
    if hash !in copies || copy.id < copies[hash].id then copies[hash := copy] else copies
  }

  function WithChain(chains: map<string, Chain>, r: Routed, rec: Record): map<string, Chain>
    requires r.chain != []
  {
    var key := KeyOf(r);
    chains[key := Heard(if key in chains then chains[key] else NewChain(r), rec)]
  }

  /** One record that came over route r. */
  function FoldRoute(w: Web, r: Routed, rec: Record): Web
    requires r.chain != []
  {
    Web(WithChain(w.chains, r, rec), Tallied(w.tallies, Others(r.chain), rec.hash),
        WithCopy(w.firstCopy, rec.hash, Copy(rec.id, KeyOf(r))))
  }

  function Fold(s: Setup, w: Web, rec: Record): Web
    requires WellFormed(s)
  {
    var r := Route(s, rec);
    RoutesAreRoutes(s, rec);
    if r.None? then w else FoldRoute(w, r.value, rec)
  }

  /** The web of a log, folded in order. */
  function FoldAll(s: Setup, recs: seq<Record>): Web
    requires WellFormed(s)
  {
    if recs == [] then EMPTY else Fold(s, FoldAll(s, recs[..|recs| - 1]), recs[|recs| - 1])
  }

  // ---------------------------------------------------------------------------------------------
  // Each chain is its records' route
  // ---------------------------------------------------------------------------------------------

  /** What holds of every web folded from records. */
  ghost predicate Sound(w: Web)
  {
    forall key | key in w.chains ::
      && IsRoute(w.chains[key].nodes)
      && key == KeyOf(Routed(w.chains[key].origin, w.chains[key].nodes))
      && Members(Others(w.chains[key].nodes)) <= w.tallies.Keys
  }

  lemma FoldRouteStaysSound(w: Web, r: Routed, rec: Record)
    requires Sound(w) && IsRoute(r.chain)
    ensures var after := FoldRoute(w, r, rec);
      && Sound(after)
      && after.chains[KeyOf(r)].nodes == r.chain && after.chains[KeyOf(r)].origin == r.origin
  {
    hide KeyOf;
    var key := KeyOf(r);
    if key in w.chains {
      KeyIsInjective(r, Routed(w.chains[key].origin, w.chains[key].nodes));
    }
    var after := FoldRoute(w, r, rec);
    assert after.chains[key].nodes == r.chain && after.chains[key].origin == r.origin;
    forall k | k in after.chains ensures
      && IsRoute(after.chains[k].nodes)
      && k == KeyOf(Routed(after.chains[k].origin, after.chains[k].nodes))
      && Members(Others(after.chains[k].nodes)) <= after.tallies.Keys
    {
      if k != key {
        assert k in w.chains && after.chains[k] == w.chains[k];
      }
    }
  }

  lemma SelfEndsRoute(chain: seq<string>)
    requires IsRoute(chain)
    ensures |chain| >= 2
  {
  }

  lemma EmptyIsSound()
    ensures Sound(EMPTY)
  {
  }

  lemma {:induction false} FoldAllIsSound(s: Setup, recs: seq<Record>)
    requires WellFormed(s)
    ensures Sound(FoldAll(s, recs))
    decreases |recs|
  {
    hide Route, IsRoute, Sound, FoldRoute;
    assert Sound(EMPTY) by { EmptyIsSound(); }
    if recs != [] {
      var n := |recs| - 1;
      FoldAllIsSound(s, recs[..n]);
      RoutesAreRoutes(s, recs[n]);
      if Route(s, recs[n]).Some? {
        FoldRouteStaysSound(FoldAll(s, recs[..n]), Route(s, recs[n]).value, recs[n]);
      }
    }
  }

  // ---------------------------------------------------------------------------------------------
  // Sums over a map
  // ---------------------------------------------------------------------------------------------

  ghost function Pick(m: map<string, nat>): (k: string)
    requires m != map[]
    ensures k in m
  {
    var k :| k in m;
    k
  }

  ghost function SumOf(m: map<string, nat>): nat
    decreases |m|
  {
    if m == map[] then 0 else
    assert (m - {Pick(m)}).Keys == m.Keys - {Pick(m)};
    m[Pick(m)] + SumOf(m - {Pick(m)})
  }

  lemma {:induction false} SumTakesOut(m: map<string, nat>, k: string)
    requires k in m
    ensures SumOf(m) == m[k] + SumOf(m - {k})
    decreases |m|
  {
    var p := Pick(m);
    if p != k {
      assert (m - {p}).Keys == m.Keys - {p};
      SumTakesOut(m - {p}, k);
      SumTakesOut(m - {k}, p);
      assert m - {p} - {k} == m - {k} - {p};
    }
  }

  lemma SumOnePut(m: map<string, nat>, k: string, v: nat)
    ensures SumOf(m[k := v]) == SumOf(m) - (if k in m then m[k] else 0) + v
  {
    SumTakesOut(m[k := v], k);
    assert m[k := v] - {k} == m - {k};
    if k in m {
      SumTakesOut(m, k);
    } else {
      assert m - {k} == m;
    }
  }

  // ---------------------------------------------------------------------------------------------
  // Conservation
  // ---------------------------------------------------------------------------------------------

  predicate Via(s: Setup, rec: Record, key: string)
    requires WellFormed(s)
  {
    Route(s, rec).Some? && (RoutesAreRoutes(s, rec); KeyOf(Route(s, rec).value) == key)
  }

  function CountVia(s: Setup, recs: seq<Record>, key: string): nat
    requires WellFormed(s)
  {
    if recs == [] then 0 else
    CountVia(s, recs[..|recs| - 1], key) + if Via(s, recs[|recs| - 1], key) then 1 else 0
  }

  /** How many records were folded, not ignored. */
  function Folded(s: Setup, recs: seq<Record>): nat
  {
    if recs == [] then 0 else
    Folded(s, recs[..|recs| - 1]) + if Route(s, recs[|recs| - 1]).Some? then 1 else 0
  }

  ghost function Counts(w: Web): map<string, nat> { map key | key in w.chains :: w.chains[key].count }

  /** A chain's count is the number of records that came over it. */
  lemma {:induction false} CountIsRecordsVia(s: Setup, recs: seq<Record>, key: string)
    requires WellFormed(s)
    ensures key in FoldAll(s, recs).chains <==> CountVia(s, recs, key) > 0
    ensures key in FoldAll(s, recs).chains ==> FoldAll(s, recs).chains[key].count == CountVia(s, recs, key)
    decreases |recs|
  {
    hide Route;
    if recs != [] {
      CountIsRecordsVia(s, recs[..|recs| - 1], key);
    }
  }

  /** Every record folded is counted on one chain. */
  lemma {:induction false} CountsSumToRecords(s: Setup, recs: seq<Record>)
    requires WellFormed(s)
    ensures SumOf(Counts(FoldAll(s, recs))) == Folded(s, recs)
    decreases |recs|
  {
    hide Route, KeyOf;
    var w := FoldAll(s, recs);
    if recs == [] {
      assert Counts(w) == map[];
    } else {
      var n := |recs| - 1;
      var before := FoldAll(s, recs[..n]);
      CountsSumToRecords(s, recs[..n]);
      RoutesAreRoutes(s, recs[n]);
      if Route(s, recs[n]).Some? {
        FoldCountsOne(before, Route(s, recs[n]).value, recs[n]);
      }
    }
  }

  lemma FoldCountsOne(w: Web, r: Routed, rec: Record)
    requires r.chain != []
    ensures SumOf(Counts(FoldRoute(w, r, rec))) == SumOf(Counts(w)) + 1
  {
    hide KeyOf, Tallied;
    var key := KeyOf(r);
    var was := if key in w.chains then w.chains[key].count else 0;
    SumOnePut(Counts(w), key, was + 1);
    assert Counts(FoldRoute(w, r, rec)) == Counts(w)[key := was + 1];
  }

  /** A chain heard count times puts a node's places on it that many times. */
  ghost function Weight(count: nat, chain: seq<string>, id: string): nat
    requires chain != []
  {
    count * multiset(Others(chain))[id]
  }

  /** How often a node is on each chain, as often as the chain was heard. */
  ghost function Weights(w: Web, id: string): map<string, nat>
    requires Sound(w)
  {
    map key | key in w.chains :: Weight(w.chains[key].count, w.chains[key].nodes, id)
  }

  /** A node's observations are the count-weighted number of its places on the chains. */
  lemma {:induction false} ObservationsAreWeighted(s: Setup, recs: seq<Record>, id: string)
    requires WellFormed(s)
    ensures Sound(FoldAll(s, recs))
    ensures TallyOf(FoldAll(s, recs).tallies, id).observations == SumOf(Weights(FoldAll(s, recs), id))
    decreases |recs|
  {
    FoldAllIsSound(s, recs);
    if recs == [] {
      assert Weights(FoldAll(s, recs), id) == map[];
    } else {
      var n := |recs| - 1;
      ObservationsAreWeighted(s, recs[..n], id);
      RoutesAreRoutes(s, recs[n]);
      if Route(s, recs[n]).Some? {
        FoldWeighsOne(FoldAll(s, recs[..n]), Route(s, recs[n]).value, recs[n], id);
      }
    }
  }

  lemma TallyGrows(tallies: map<string, Tally>, part: seq<string>, hash: string, id: string)
    ensures var after := TallyOf(Tallied(tallies, part, hash), id);
      && after.observations == TallyOf(tallies, id).observations + multiset(part)[id]
      && after.packets == TallyOf(tallies, id).packets + if id in part then {hash} else {}
  {
    assert multiset(part)[id] > 0 ==> id in part;
  }

  lemma {:induction false} OneWeightGrows(w: Web, r: Routed, rec: Record, id: string)
    requires Sound(w) && IsRoute(r.chain) && Sound(FoldRoute(w, r, rec))
    ensures var was := if KeyOf(r) in w.chains then w.chains[KeyOf(r)].count else 0;
      Weights(FoldRoute(w, r, rec), id) == Weights(w, id)[KeyOf(r) := Weight(was + 1, r.chain, id)]
  {
    hide KeyOf, Tallied, Weight, WithCopy, IsRoute, Members;
    SelfEndsRoute(r.chain);
    FoldRouteStaysSound(w, r, rec);
    var key, after := KeyOf(r), FoldRoute(w, r, rec);
    var was := if key in w.chains then w.chains[key].count else 0;
    assert after.chains[key].count == was + 1;
    assert Weights(after, id).Keys == Weights(w, id).Keys + {key};
    forall k | k in Weights(after, id)
      ensures Weights(after, id)[k] == if k == key then Weight(was + 1, r.chain, id) else Weights(w, id)[k]
    {
      assert k != key ==> after.chains[k] == w.chains[k];
    }
  }

  lemma {:induction false} FoldWeighsOne(w: Web, r: Routed, rec: Record, id: string)
    requires Sound(w) && IsRoute(r.chain)
    ensures var after := FoldRoute(w, r, rec);
      Sound(after) && SumOf(Weights(after, id)) - SumOf(Weights(w, id))
        == TallyOf(after.tallies, id).observations - TallyOf(w.tallies, id).observations
  {
    hide KeyOf, Tallied, TallyOf;
    FoldRouteStaysSound(w, r, rec);
    OneWeightGrows(w, r, rec, id);
    var key, places := KeyOf(r), multiset(Others(r.chain))[id];
    var was := if key in w.chains then w.chains[key].count else 0;
    if key in w.chains {
      KeyIsInjective(r, Routed(w.chains[key].origin, w.chains[key].nodes));
      assert Weights(w, id)[key] == was * places;
    }
    SumOnePut(Weights(w, id), key, Weight(was + 1, r.chain, id));
    assert (was + 1) * places == was * places + places;
    TallyGrows(w.tallies, Others(r.chain), rec.hash, id);
  }

  // First copies ----------------------------------------------------------------------------------

  /** The hashes of the records folded. */
  ghost function PacketHashes(s: Setup, recs: seq<Record>): set<string>
  {
    if recs == [] then {} else
    PacketHashes(s, recs[..|recs| - 1]) + if Route(s, recs[|recs| - 1]).Some? then {recs[|recs| - 1].hash} else {}
  }

  ghost function HashesVia(s: Setup, recs: seq<Record>, key: string): set<string>
    requires WellFormed(s)
  {
    if recs == [] then {} else
    HashesVia(s, recs[..|recs| - 1], key) + if Via(s, recs[|recs| - 1], key) then {recs[|recs| - 1].hash} else {}
  }

  /** The packets whose first copy came over the chain. */
  ghost function FirstVia(copies: map<string, Copy>, key: string): set<string>
  {
    set h | h in copies && copies[h].key == key
  }

  ghost function FirstCounts(copies: map<string, Copy>, keys: set<string>): map<string, nat>
  {
    map k | k in keys :: |FirstVia(copies, k)|
  }

  lemma {:induction false} ZerosSumToZero(m: map<string, nat>)
    requires forall k | k in m :: m[k] == 0
    ensures SumOf(m) == 0
    decreases |m|
  {
    if m != map[] {
      var p := Pick(m);
      assert (m - {p}).Keys == m.Keys - {p};
      ZerosSumToZero(m - {p});
    }
  }

  lemma OneMoreFirst(copies: map<string, Copy>, keys: set<string>, h: string)
    requires h in copies && copies[h].key in keys
    ensures var k, rest := copies[h].key, copies - {h};
      FirstCounts(copies, keys) == FirstCounts(rest, keys)[k := |FirstVia(rest, k)| + 1]
  {
    var k, rest := copies[h].key, copies - {h};
    forall j | j in keys ensures |FirstVia(copies, j)| == |FirstVia(rest, j)| + if j == k then 1 else 0 {
      FirstViaWithout(copies, j, h);
    }
    hide FirstVia;
    assert FirstCounts(copies, keys).Keys == FirstCounts(rest, keys).Keys;
  }

  lemma FirstViaWithout(copies: map<string, Copy>, key: string, h: string)
    requires h in copies
    ensures |FirstVia(copies, key)| == |FirstVia(copies - {h}, key)| + if copies[h].key == key then 1 else 0
  {
    var all, rest := FirstVia(copies, key), FirstVia(copies - {h}, key);
    if copies[h].key == key {
      assert all == rest + {h} && h !in rest;
    } else {
      assert all == rest;
    }
  }

  /** Every packet has one first copy, so over the chains they sum to the packets. */
  lemma {:induction false} FirstsPartition(copies: map<string, Copy>, keys: set<string>)
    requires forall h | h in copies :: copies[h].key in keys
    ensures SumOf(FirstCounts(copies, keys)) == |copies|
    decreases |copies|
  {
    if h :| h in copies {
      var k, rest := copies[h].key, copies - {h};
      assert rest.Keys == copies.Keys - {h};
      FirstsPartition(rest, keys);
      OneMoreFirst(copies, keys, h);
      SumOnePut(FirstCounts(rest, keys), k, |FirstVia(rest, k)| + 1);
    } else {
      forall j | j in keys ensures FirstVia(copies, j) == {} { }
      ZerosSumToZero(FirstCounts(copies, keys));
      assert copies == map[];
    }
  }

  /** The first copy kept for a packet: no copy folded has a lower id, and the chain is that copy's own. */
  ghost predicate IsFirstCopy(s: Setup, recs: seq<Record>, hash: string, copy: Copy)
    requires WellFormed(s)
  {
    && (exists i :: 0 <= i < |recs| && recs[i].hash == hash && recs[i].id == copy.id && Via(s, recs[i], copy.key))
    && forall i | 0 <= i < |recs| && recs[i].hash == hash && Route(s, recs[i]).Some? :: copy.id <= recs[i].id
  }

  lemma FirstCopyCarriesOver(s: Setup, recs: seq<Record>, rec: Record, hash: string, copy: Copy)
    requires WellFormed(s) && IsFirstCopy(s, recs, hash, copy)
    requires Route(s, rec).None? || rec.hash != hash || copy.id <= rec.id
    ensures IsFirstCopy(s, recs + [rec], hash, copy)
  {
    hide Route, Via;
    var i :| 0 <= i < |recs| && recs[i].hash == hash && recs[i].id == copy.id && Via(s, recs[i], copy.key);
    assert (recs + [rec])[i] == recs[i];
  }

  lemma NewFirstCopy(s: Setup, recs: seq<Record>, rec: Record, copy: Copy)
    requires WellFormed(s) && Via(s, rec, copy.key) && copy.id == rec.id
    requires forall i | 0 <= i < |recs| && recs[i].hash == rec.hash && Route(s, recs[i]).Some? :: rec.id <= recs[i].id
    ensures IsFirstCopy(s, recs + [rec], rec.hash, copy)
  {
    hide Route, Via;
    assert (recs + [rec])[|recs|] == rec;
  }

  lemma {:induction false} FirstCopiesAreFirst(s: Setup, recs: seq<Record>)
    requires WellFormed(s)
    ensures var copies := FoldAll(s, recs).firstCopy;
      copies.Keys == PacketHashes(s, recs) && forall h | h in copies :: IsFirstCopy(s, recs, h, copies[h])
    ensures forall i | 0 <= i < |recs| && Route(s, recs[i]).Some? :: recs[i].hash in PacketHashes(s, recs)
    decreases |recs|
  {
    hide Route, Via, KeyOf, IsFirstCopy, Tallied, Heard;
    if recs != [] {
      var n := |recs| - 1;
      var rec, before := recs[n], FoldAll(s, recs[..n]).firstCopy;
      var copies := FoldAll(s, recs).firstCopy;
      assert recs == recs[..n] + [rec];
      FirstCopiesAreFirst(s, recs[..n]);
      RoutesAreRoutes(s, rec);
      forall h | h in copies ensures IsFirstCopy(s, recs, h, copies[h]) {
        if h in before && copies[h] == before[h] {
          FirstCopyCarriesOver(s, recs[..n], rec, h, copies[h]);
        } else {
          NewestIsFirst(s, recs[..n], rec, before);
        }
      }
      forall i | 0 <= i < |recs| && Route(s, recs[i]).Some? ensures recs[i].hash in PacketHashes(s, recs) {
        if i < n {
          assert recs[..n][i] == recs[i];
        }
      }
    }
  }

  lemma NewestIsFirst(s: Setup, recs: seq<Record>, rec: Record, before: map<string, Copy>)
    requires WellFormed(s) && Route(s, rec).Some? && Route(s, rec).value.chain != []
    requires forall h | h in before :: IsFirstCopy(s, recs, h, before[h])
    requires forall i | 0 <= i < |recs| && Route(s, recs[i]).Some? :: recs[i].hash in before
    requires rec.hash !in before || rec.id < before[rec.hash].id
    ensures IsFirstCopy(s, recs + [rec], rec.hash, Copy(rec.id, KeyOf(Route(s, rec).value)))
  {
    hide Route, KeyOf;
    NewFirstCopy(s, recs, rec, Copy(rec.id, KeyOf(Route(s, rec).value)));
  }

  lemma {:induction false} HashesViaAreFew(s: Setup, recs: seq<Record>, key: string)
    requires WellFormed(s)
    ensures |HashesVia(s, recs, key)| <= CountVia(s, recs, key)
    ensures forall i | 0 <= i < |recs| && Via(s, recs[i], key) :: recs[i].hash in HashesVia(s, recs, key)
    decreases |recs|
  {
    hide Via;
    if recs != [] {
      var n := |recs| - 1;
      HashesViaAreFew(s, recs[..n], key);
      forall i | 0 <= i < |recs| && Via(s, recs[i], key) ensures recs[i].hash in HashesVia(s, recs, key) {
        if i < n {
          assert recs[..n][i] == recs[i];
        }
      }
    }
  }

  lemma SubsetIsSmaller<T>(a: set<T>, b: set<T>)
    requires a <= b
    ensures |a| <= |b|
  {
    assert |b - a| == |b| - |a|;
  }

  /** A chain carries the first copy of no more packets than records came over it, and every one that does exists. */
  lemma {:induction false} FirstAtMostCount(s: Setup, recs: seq<Record>, key: string)
    requires WellFormed(s)
    ensures |FirstVia(FoldAll(s, recs).firstCopy, key)| <= CountVia(s, recs, key)
    ensures FirstVia(FoldAll(s, recs).firstCopy, key) != {} ==> key in FoldAll(s, recs).chains
  {
    hide Via, Route;
    var copies := FoldAll(s, recs).firstCopy;
    FirstCopiesAreFirst(s, recs);
    HashesViaAreFew(s, recs, key);
    forall h | h in FirstVia(copies, key) ensures h in HashesVia(s, recs, key) {
      assert IsFirstCopy(s, recs, h, copies[h]);
    }
    SubsetIsSmaller(FirstVia(copies, key), HashesVia(s, recs, key));
    CountIsRecordsVia(s, recs, key);
    if h :| h in FirstVia(copies, key) {
      assert h in HashesVia(s, recs, key);
      SubsetIsSmaller({h}, HashesVia(s, recs, key));
    }
  }

  /** First sums over the chains to the distinct packets folded. */
  lemma {:induction false} FirstsSumToPackets(s: Setup, recs: seq<Record>)
    requires WellFormed(s)
    ensures var w := FoldAll(s, recs); SumOf(FirstCounts(w.firstCopy, w.chains.Keys)) == |PacketHashes(s, recs)|
  {
    hide Route;
    var w := FoldAll(s, recs);
    FirstCopiesAreFirst(s, recs);
    forall h | h in w.firstCopy ensures w.firstCopy[h].key in w.chains {
      assert h in FirstVia(w.firstCopy, w.firstCopy[h].key);
      FirstAtMostCount(s, recs, w.firstCopy[h].key);
    }
    FirstsPartition(w.firstCopy, w.chains.Keys);
    assert |w.firstCopy| == |w.firstCopy.Keys|;
  }

  // ---------------------------------------------------------------------------------------------
  // The order of the log does not matter
  // ---------------------------------------------------------------------------------------------

  lemma HeardCommutes(c: Chain, a: Record, b: Record)
    ensures Heard(Heard(c, a), b) == Heard(Heard(c, b), a)
  {
  }

  lemma {:induction false} TalliedCommutes(t: map<string, Tally>, p: seq<string>, a: string, q: seq<string>, b: string)
    ensures Tallied(Tallied(t, p, a), q, b) == Tallied(Tallied(t, q, b), p, a)
  {
    hide Tallied, TallyOf, Members;
    var x, y := Tallied(Tallied(t, p, a), q, b), Tallied(Tallied(t, q, b), p, a);
    assert x.Keys == y.Keys;
    forall id | id in x ensures x[id] == y[id] {
      TallyGrows(t, p, a, id);
      TallyGrows(Tallied(t, p, a), q, b, id);
      TallyGrows(t, q, b, id);
      TallyGrows(Tallied(t, q, b), p, a, id);
      TallyIsEntry(x, id);
      TallyIsEntry(y, id);
    }
  }

  lemma TallyIsEntry(t: map<string, Tally>, id: string)
    requires id in t
    ensures TallyOf(t, id) == t[id]
  {
  }

  lemma CopiesCommute(m: map<string, Copy>, h: string, a: Copy, g: string, b: Copy)
    requires h == g ==> a.id != b.id
    ensures WithCopy(WithCopy(m, h, a), g, b) == WithCopy(WithCopy(m, g, b), h, a)
  {
  }

  lemma ChainsCommute(chains: map<string, Chain>, p: Routed, a: Record, q: Routed, b: Record)
    requires IsRoute(p.chain) && IsRoute(q.chain)
    ensures WithChain(WithChain(chains, p, a), q, b) == WithChain(WithChain(chains, q, b), p, a)
  {
    hide Heard, KeyOf;
    if KeyOf(p) == KeyOf(q) {
      KeyIsInjective(p, q);
      HeardCommutes(if KeyOf(p) in chains then chains[KeyOf(p)] else NewChain(p), a, b);
    }
  }

  lemma {:induction false} RoutesCommute(w: Web, p: Routed, a: Record, q: Routed, b: Record)
    requires IsRoute(p.chain) && IsRoute(q.chain) && a.id != b.id
    ensures FoldRoute(FoldRoute(w, p, a), q, b) == FoldRoute(FoldRoute(w, q, b), p, a)
  {
    hide WithChain, Tallied, WithCopy, KeyOf, Others, Members;
    ChainsCommute(w.chains, p, a, q, b);
    TalliedCommutes(w.tallies, Others(p.chain), a.hash, Others(q.chain), b.hash);
    CopiesCommute(w.firstCopy, a.hash, Copy(a.id, KeyOf(p)), b.hash, Copy(b.id, KeyOf(q)));
  }

  lemma {:induction false} FoldsCommute(s: Setup, w: Web, a: Record, b: Record)
    requires WellFormed(s) && a.id != b.id
    ensures Fold(s, Fold(s, w, a), b) == Fold(s, Fold(s, w, b), a)
  {
    hide Route, FoldRoute, IsRoute;
    RoutesAreRoutes(s, a);
    RoutesAreRoutes(s, b);
    if Route(s, a).Some? && Route(s, b).Some? {
      RoutesCommute(w, Route(s, a).value, a, Route(s, b).value, b);
    }
  }

  ghost predicate DistinctIds(recs: seq<Record>)
  {
    forall i, j | 0 <= i < j < |recs| :: recs[i].id != recs[j].id
  }

  /** A record can be folded last instead. */
  lemma {:induction false} FoldLast(s: Setup, before: seq<Record>, rec: Record, after: seq<Record>)
    requires WellFormed(s) && DistinctIds(before + [rec] + after)
    ensures FoldAll(s, before + [rec] + after) == FoldAll(s, before + after + [rec])
    decreases |after|
  {
    hide Fold;
    if after == [] {
      assert before + [rec] + after == before + after + [rec];
    } else {
      var n := |after| - 1;
      var all, last := before + [rec] + after, after[n];
      assert all[..|all| - 1] == before + [rec] + after[..n];
      FoldLast(s, before, rec, after[..n]);
      var most := before + after[..n];
      assert (most + [rec])[..|most|] == most;
      assert all[|before|] == rec && all[|all| - 1] == last;
      FoldsCommute(s, FoldAll(s, most), rec, last);
      assert (before + after)[..|before + after| - 1] == most && (before + after)[|before + after| - 1] == last;
      assert (before + after + [rec])[..|before + after|] == before + after;
    }
  }

  function WithoutAt(a: seq<Record>, i: nat): seq<Record>
    requires i < |a|
  {
    a[..i] + a[i + 1..]
  }

  lemma OneLess(a: seq<Record>, i: nat)
    requires i < |a| && DistinctIds(a)
    ensures DistinctIds(WithoutAt(a, i))
    ensures multiset(WithoutAt(a, i)) == multiset(a) - multiset{a[i]}
    ensures a == a[..i] + [a[i]] + a[i + 1..]
  {
    OneTakenOut(a, i);
    var rest := WithoutAt(a, i);
    forall j, k | 0 <= j < k < |rest| ensures rest[j].id != rest[k].id {
      assert rest[j] == a[if j < i then j else j + 1] && rest[k] == a[if k < i then k else k + 1];
    }
  }

  lemma OneTakenOut(a: seq<Record>, i: nat)
    requires i < |a|
    ensures multiset(WithoutAt(a, i)) == multiset(a) - multiset{a[i]}
  {
    assert a == a[..i] + [a[i]] + a[i + 1..];
  }

  lemma FoldAppended(s: Setup, recs: seq<Record>, rec: Record)
    requires WellFormed(s)
    ensures FoldAll(s, recs + [rec]) == Fold(s, FoldAll(s, recs), rec)
  {
    assert (recs + [rec])[..|recs|] == recs;
  }

  lemma PlaceOf(a: seq<Record>, b: seq<Record>, n: nat) returns (i: nat)
    requires multiset(a) == multiset(b) && n < |b|
    ensures i < |a| && a[i] == b[n]
  {
    assert b[n] in multiset(b);
    assert b[n] in a;
    i :| 0 <= i < |a| && a[i] == b[n];
  }

  /** The same records in any order give the same chains, tallies and first copies. */
  lemma {:induction false} OrderDoesNotMatter(s: Setup, a: seq<Record>, b: seq<Record>)
    requires WellFormed(s) && DistinctIds(a) && multiset(a) == multiset(b)
    ensures FoldAll(s, a) == FoldAll(s, b)
    decreases |b|
  {
    hide Fold, FoldAll, DistinctIds, WellFormed;
    if b == [] {
      assert |multiset(a)| == 0;
      assert a == b;
    } else {
      var n := |b| - 1;
      var rec := b[n];
      assert b == b[..n] + [rec];
      var i := PlaceOf(a, b, n);
      OneLess(a, i);
      FoldLast(s, a[..i], rec, a[i + 1..]);
      OrderDoesNotMatter(s, WithoutAt(a, i), b[..n]);
      FoldAppended(s, WithoutAt(a, i), rec);
      FoldAppended(s, b[..n], rec);
    }
  }
}
