/** A whole log shown as a web: peers indexed, every record folded in, the builder's maps listed
    (internal/api/routes_connection_web.go 376-391). */
module WebOfLog {
  import opened Common
  import opened ConnectionWeb
  import opened PeerIndex
  import opened WebFold
  import opened WebBuilding

  /** The nodes as the whole log leaves them, apart from the tallies. */
  function NamedAll(s: Setup, recs: seq<Record>): map<string, Ident>
  {
    if recs == [] then map[] else Named(NamedAll(s, recs[..|recs| - 1]), s, recs[|recs| - 1])
  }

  function Total(values: seq<nat>): nat
  {
    if values == [] then 0 else Total(values[..|values| - 1]) + values[|values| - 1]
  }

  function CountsIn(chains: seq<Chain>): seq<nat> { seq(|chains|, i requires 0 <= i < |chains| => chains[i].count) }

  function FirstsIn(chains: seq<Chain>): seq<nat> { seq(|chains|, i requires 0 <= i < |chains| => chains[i].first) }

  ghost function CountsOf(chains: map<string, Chain>): map<string, nat> { map k | k in chains :: chains[k].count }

  ghost function FirstsOf(chains: map<string, Chain>): map<string, nat> { map k | k in chains :: chains[k].first }

  lemma ListWithoutLast(keys: seq<string>, all: set<string>)
    requires Lists(keys, all) && keys != []
    ensures var n := |keys| - 1; keys[n] in all && Lists(keys[..n], all - {keys[n]})
  {
    var n := |keys| - 1;
    assert keys == keys[..n] + [keys[n]];
    assert keys[n] in keys && keys[n] !in keys[..n];
  }

  /** Listing the values of a map keeps their sum. */
  lemma {:induction false} ListingKeepsTotal(values: seq<nat>, keys: seq<string>, m: map<string, nat>)
    requires Lists(keys, m.Keys) && |values| == |keys| && forall i | 0 <= i < |keys| ::
      keys[i] in m && values[i] == m[keys[i]]
    ensures Total(values) == SumOf(m)
    decreases |keys|
  {
    if keys == [] {
      assert m.Keys == {};
      assert m == map[];
    } else {
      var n := |keys| - 1;
      ListWithoutLast(keys, m.Keys);
      assert (m - {keys[n]}).Keys == m.Keys - {keys[n]};
      SumTakesOut(m, keys[n]);
      hide SumOf, Lists;
      forall i | 0 <= i < n ensures keys[..n][i] in m - {keys[n]} && values[..n][i] == (m - {keys[n]})[keys[..n][i]] {
        KeysDiffer(keys, m.Keys, i, n);
      }
      ListingKeepsTotal(values[..n], keys[..n], m - {keys[n]});
    }
  }

  lemma KeysDiffer(keys: seq<string>, all: set<string>, i: nat, j: nat)
    requires Lists(keys, all) && i < j < |keys|
    ensures keys[i] != keys[j]
  {
  }

  /** The chains of a map, each once. */
  ghost predicate IsListOf(out: seq<Chain>, keys: seq<string>, chains: map<string, Chain>)
  {
    && Lists(keys, chains.Keys) && |out| == |keys|
    && forall i | 0 <= i < |keys| :: keys[i] in chains && out[i] == chains[keys[i]]
  }

  /** What a log's web shows: each chain once, with the first copies it carries, and each node once. */
  ghost predicate Shows(s: Setup, log: seq<Record>, chains: seq<Chain>, keys: seq<string>, nodes: seq<OutNode>,
                        ids: seq<string>)
    requires WellFormed(s)
  {
    var w := FoldAll(s, log);
    && IsListOf(chains, keys, Credited(w.chains, w.firstCopy))
    && Lists(ids, w.tallies.Keys) && |nodes| == |ids| && NamedAll(s, log).Keys == w.tallies.Keys
    && forall i | 0 <= i < |ids| ::
      ids[i] in w.tallies && ids[i] in NamedAll(s, log) && nodes[i] == Shown(s, ids[i], NamedAll(s, log), w)
  }

  ghost function Shown(s: Setup, id: string, idents: map<string, Ident>, w: Web): OutNode
    requires id in w.tallies && id in idents
  {
    var ident, t := idents[id], w.tallies[id];
    OutNode(id, ident, t.observations, |t.packets|, Under(s.repByHash, ident.hash), ident.hash in s.pins)
  }

  lemma CountsAreKept(w: Web)
    ensures CountsOf(Credited(w.chains, w.firstCopy)) == Counts(w)
  {
    hide FirstVia;
    assert CountsOf(Credited(w.chains, w.firstCopy)).Keys == Counts(w).Keys;
  }

  /** Everything shown of a log adds up: the chains' counts are the records folded, no chain leads with more packets
      than it was heard with, and together they lead with each packet once. */
  lemma ShownAddsUp(s: Setup, log: seq<Record>, chains: seq<Chain>, keys: seq<string>, nodes: seq<OutNode>,
                    ids: seq<string>)
    requires WellFormed(s) && Shows(s, log, chains, keys, nodes, ids)
    ensures Total(CountsIn(chains)) == Folded(s, log) && Total(FirstsIn(chains)) == |PacketHashes(s, log)|
    ensures forall i | 0 <= i < |chains| :: chains[i].first <= chains[i].count
  {
    var w := FoldAll(s, log);
    ShownFirstsConserve(s, log);
    CountsSumToRecords(s, log);
    CountsAreKept(w);
    var credited := Credited(w.chains, w.firstCopy);
    hide FoldAll, Credited, Counts, WellFormed, Lists;
    assert CountsOf(credited).Keys == credited.Keys == FirstsOf(credited).Keys;
    ListingKeepsTotal(CountsIn(chains), keys, CountsOf(credited));
    ListingKeepsTotal(FirstsIn(chains), keys, FirstsOf(credited));
  }

  /** Two orders of a log show the same chains, and the same nodes with the same tallies. */
  lemma ShownInAnyOrder(s: Setup, a: seq<Record>, b: seq<Record>)
    requires WellFormed(s) && DistinctIds(a) && multiset(a) == multiset(b)
    ensures var v, w := FoldAll(s, a), FoldAll(s, b);
      Credited(v.chains, v.firstCopy) == Credited(w.chains, w.firstCopy) && v.tallies == w.tallies
  {
    OrderDoesNotMatter(s, a, b);
  }

  /** Adds every record of the log. */
  method ScanLog(b: WebBuilder, log: seq<Record>)
    requires WellFormed(b.setup) && b.Observed() == EMPTY && b.nodes == map[]
    modifies b
    ensures b.Observed() == FoldAll(b.setup, log) && Idents(b.nodes) == NamedAll(b.setup, log)
  {
    for i := 0 to |log|
      invariant b.Observed() == FoldAll(b.setup, log[..i]) && Idents(b.nodes) == NamedAll(b.setup, log[..i])
    {
      hide FoldAll, Named, Fold, WellFormed;
      assert log[..i + 1] == log[..i] + [log[i]] && log[..i + 1][..i] == log[..i];
      FoldAppended(b.setup, log[..i], log[i]);
      b.Add(log[i]);
    }
    assert log[..|log|] == log;
  }

  lemma CopiesAreFiled(s: Setup, log: seq<Record>)
    requires WellFormed(s)
    ensures forall h | h in FoldAll(s, log).firstCopy :: FoldAll(s, log).firstCopy[h].key in FoldAll(s, log).chains
  {
    ShownFirstsConserve(s, log);
  }

  lemma OutIsShown(b: WebBuilder, id: string, idents: map<string, Ident>, w: Web)
    requires id in b.nodes && id in idents && id in w.tallies
    requires b.nodes[id].ident == idents[id] && b.nodes[id].tally == w.tallies[id]
    ensures b.OutOf(id, b.nodes[id]) == Shown(b.setup, id, idents, w)
  {
  }

  /** Lists what the builder holds of the log. */
  method ShowBuilt(b: WebBuilder, ghost log: seq<Record>)
    returns (nodes: seq<OutNode>, chains: seq<Chain>, ghost ids: seq<string>, ghost keys: seq<string>)
    requires WellFormed(b.setup) && b.Observed() == FoldAll(b.setup, log) && Idents(b.nodes) == NamedAll(b.setup, log)
    modifies b
    ensures Shows(b.setup, log, chains, keys, nodes, ids)
  {
    CopiesAreFiled(b.setup, log);
    hide FoldAll, NamedAll, WellFormed, Credited, Lists, Under, Shown, SumOf;
    ghost var w, idents := FoldAll(b.setup, log), NamedAll(b.setup, log);
    nodes, chains, ids, keys := b.Result();
    assert w.tallies.Keys == b.nodes.Keys == idents.Keys;
    forall i | 0 <= i < |ids| ensures nodes[i] == Shown(b.setup, ids[i], idents, w) {
      OutIsShown(b, ids[i], idents, w);
    }
  }

  /** A new builder, every record of the log added, and what it shows. */
  method ShowLog(peers: seq<Peer>, given: Setup, log: seq<Record>)
    returns (nodes: seq<OutNode>, chains: seq<Chain>, ghost s: Setup, ghost ids: seq<string>, ghost keys: seq<string>)
    requires forall i | 0 <= i < |peers| :: peers[i].pubkey != []
    ensures s == given.(byPubkey := s.byPubkey, repByHash := s.repByHash) && Indexes(s, peers) && WellFormed(s)
    ensures Shows(s, log, chains, keys, nodes, ids)
    ensures Total(CountsIn(chains)) == Folded(s, log) && Total(FirstsIn(chains)) == |PacketHashes(s, log)|
    ensures forall i | 0 <= i < |chains| :: chains[i].first <= chains[i].count
  {
    var byPubkey, repByHash := IndexPeers(peers);
    var setup := given.(byPubkey := byPubkey, repByHash := repByHash);
    s := setup;
    assert Indexes(s, peers);
    IndexedIsWellFormed(s, peers);
    var b := new WebBuilder(setup);
    ScanLog(b, log);
    hide FoldAll, NamedAll, WellFormed, Credited, Indexes, Shows;
    nodes, chains, ids, keys := ShowBuilt(b, log);
    ShownAddsUp(s, log, chains, keys, nodes, ids);
  }
}
