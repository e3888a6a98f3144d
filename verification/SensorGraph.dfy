/** The configured sensors and which of them read which (internal/sensor/hub.go and the create,
    update and delete operations of internal/app/sensors.go). */
module SensorGraph {
  import opened Common

  datatype Binding = Binding(name: string, sensorId: int, metric: string)

  datatype Spec = Spec(
    id: int, provider: string, kind: string, name: string, options: map<string, string>, bindings: seq<Binding>)

  type Specs = map<int, Spec>

  // ---------------------------------------------------------------------------------------------
  // The graph of reads
  // ---------------------------------------------------------------------------------------------

  predicate Binds(s: Spec, id: int)
  {
    exists k :: 0 <= k < |s.bindings| && s.bindings[k].sensorId == id
  }

  /** Sensor a reads configured sensor b; a binding to an unconfigured one is no edge. */
  predicate Reads(specs: Specs, a: int, b: int)
  {
    a in specs && b in specs && Binds(specs[a], b)
  }

  ghost predicate IsWalk(specs: Specs, w: seq<int>)
  {
    && w != []
    && (forall i | 0 <= i < |w| :: w[i] in specs)
    && forall i | 0 <= i < |w| - 1 :: Reads(specs, w[i], w[i + 1])
  }

  ghost predicate Revisits(w: seq<int>)
  {
    exists i, j :: 0 <= i < j < |w| && w[i] == w[j]
  }

  ghost predicate IsLoop(specs: Specs, w: seq<int>)
  {
    IsWalk(specs, w) && |w| >= 2 && w[0] == w[|w| - 1]
  }

  /** Some sensor reads itself, directly or round a chain of reads. */
  ghost predicate HasLoop(specs: Specs)
  {
    exists w :: IsLoop(specs, w)
  }

  /** Following reads from this sensor can go round for ever. */
  ghost predicate LeadsToLoop(specs: Specs, id: int)
  {
    exists w :: IsWalk(specs, w) && w[0] == id && Revisits(w)
  }

  lemma LeadingToALoopNeedsOne(specs: Specs, id: int)
    requires LeadsToLoop(specs, id)
    ensures HasLoop(specs)
  {
    var w :| IsWalk(specs, w) && w[0] == id && Revisits(w);
    var i, j :| 0 <= i < j < |w| && w[i] == w[j];
    assert IsLoop(specs, w[i..j + 1]);
  }

  lemma ALoopLeadsToItself(specs: Specs)
    requires HasLoop(specs)
    ensures exists id :: id in specs && LeadsToLoop(specs, id)
  {
    var w :| IsLoop(specs, w);
    assert Revisits(w);
    assert LeadsToLoop(specs, w[0]);
  }

  /** Every sensor once, each after all the sensors it reads. */
  ghost predicate IsOrder(specs: Specs, order: seq<int>)
  {
    && Distinct(order)
    && (forall i | 0 <= i < |order| :: order[i] in specs)
    && (forall id | id in specs :: id in order)
    && SourcesFirst(specs, order)
  }

  ghost predicate Distinct(s: seq<int>)
  {
    forall i, j | 0 <= i < j < |s| :: s[i] != s[j]
  }

  ghost predicate SourcesFirst(specs: Specs, order: seq<int>)
  {
    forall i, b | 0 <= i < |order| && Reads(specs, order[i], b) :: b in order[..i]
  }

  /** Along a walk that starts in an ordered prefix, positions only fall, so it never revisits. */
  lemma {:induction false} OrderedWalkFalls(specs: Specs, order: seq<int>, w: seq<int>, at: nat)
    requires Distinct(order) && SourcesFirst(specs, order)
    requires IsWalk(specs, w) && at < |order| && order[at] == w[0]
    ensures forall j | 0 < j < |w| :: w[j] in order[..at]
    decreases |w|
  {
    if |w| > 1 {
      assert Reads(specs, w[0], w[1]);
      var next :| 0 <= next < at && order[next] == w[1];
      OrderedWalkFalls(specs, order, w[1..], next);
      forall j | 0 < j < |w| ensures w[j] in order[..at] {
        if j > 1 {
          assert w[j] == w[1..][j - 1];
        }
      }
    }
  }

  lemma OrderedNeverLeadsToLoop(specs: Specs, order: seq<int>, id: int)
    requires Distinct(order) && SourcesFirst(specs, order) && id in order
    ensures !LeadsToLoop(specs, id)
  {
    if LeadsToLoop(specs, id) {
      var w :| IsWalk(specs, w) && w[0] == id && Revisits(w);
      var i, j :| 0 <= i < j < |w| && w[i] == w[j];
      var at :| 0 <= at < |order| && order[at] == id;
      OrderedWalkFalls(specs, order, w, at);
      var p :| 0 <= p < |order| && order[p] == w[i];
      OrderedWalkFalls(specs, order, w[i..], p);
    }
  }

  ghost predicate ReadsInto(specs: Specs, a: int, stuck: set<int>)
  {
    a in specs && exists b :: b in stuck && Reads(specs, a, b)
  }

  /** Every sensor of the set reads another of the set. */
  ghost predicate WaitsOnItself(specs: Specs, stuck: set<int>)
  {
    forall a {:trigger ReadsInto(specs, a, stuck)} :: a in stuck ==> ReadsInto(specs, a, stuck)
  }

  lemma {:induction false} StuckWalk(specs: Specs, stuck: set<int>, id: int, n: nat) returns (w: seq<int>)
    requires id in stuck && WaitsOnItself(specs, stuck)
    ensures |w| == n + 1 && w[0] == id && IsWalk(specs, w)
    ensures forall i | 0 <= i < |w| :: w[i] in stuck
    decreases n
  {
    assert ReadsInto(specs, id, stuck);
    w := [id];
    if n > 0 {
      var b :| b in stuck && Reads(specs, id, b);
      var rest := StuckWalk(specs, stuck, b, n - 1);
      w := w + rest;
    }
  }

  lemma StuckLeadsToLoop(specs: Specs, stuck: set<int>, id: int)
    requires id in stuck && WaitsOnItself(specs, stuck)
    ensures LeadsToLoop(specs, id)
  {
    var w := StuckWalk(specs, stuck, id, |stuck|);
    Pigeonhole(w, stuck);
    assert Revisits(w);
  }

  // ---------------------------------------------------------------------------------------------
  // orderByDependency
  // ---------------------------------------------------------------------------------------------

  /** The configured sensors a spec reads, each once. */
  method Sources(specs: Specs, id: int) returns (deps: seq<int>)
    requires id in specs
    ensures forall b :: b in deps <==> Reads(specs, id, b)
  {
    deps := [];
    var bs := specs[id].bindings;
    for k := 0 to |bs|
      invariant forall b :: b in deps <==> b in specs && exists m :: 0 <= m < k && bs[m].sensorId == b
    {
      if bs[k].sensorId in specs && bs[k].sensorId !in deps {
        deps := deps + [bs[k].sensorId];
      }
    }
  }

  datatype OrderResult = Ordered(order: seq<int>) | Stuck(ids: seq<int>)

  lemma SubsetOfSameSize(a: set<int>, b: set<int>)
    requires a <= b && |a| == |b|
    ensures a == b
  {
    assert |b - a| == |b| - |a|;
  }

  lemma AppendKeepsOrder(specs: Specs, out: seq<int>, id: int)
    requires Distinct(out) && SourcesFirst(specs, out)
    requires id !in out && forall b | Reads(specs, id, b) :: b in out
    ensures Distinct(out + [id]) && SourcesFirst(specs, out + [id])
  {
    var next := out + [id];
    forall i, b | 0 <= i < |next| && Reads(specs, next[i], b) ensures b in next[..i] {
      assert next[..i] == out[..i];
    }
  }

  /** What the passes keep: done and out agree, and out is an order of what is done. */
  ghost predicate OrderedSoFar(specs: Specs, done: set<int>, out: seq<int>)
  {
    && done <= specs.Keys && |done| == |out|
    && (forall i | 0 <= i < |out| :: out[i] in done) && (forall id | id in done :: id in out)
    && Distinct(out) && SourcesFirst(specs, out)
  }

  predicate IsReady(deps: seq<int>, done: set<int>) { forall k | 0 <= k < |deps| :: deps[k] in done }

  method Ready(deps: seq<int>, done: set<int>) returns (ready: bool)
    ensures ready == IsReady(deps, done)
  {
    ready := true;
    for k := 0 to |deps|
      invariant ready && forall m | 0 <= m < k :: deps[m] in done
    {
      if deps[k] !in done {
        return false;
      }
    }
  }

  ghost predicate HasSources(specs: Specs, deps: map<int, seq<int>>)
  {
    forall id {:trigger id in deps} | id in specs :: id in deps && forall b :: b in deps[id] <==> Reads(specs, id, b)
  }

  /** One pass over the ids, adding each that became ready. */
  method OnePass(specs: Specs, ids: seq<int>, deps: map<int, seq<int>>, done0: set<int>, out0: seq<int>)
    returns (done: set<int>, out: seq<int>, progressed: bool)
    requires forall id :: id in ids <==> id in specs
    requires HasSources(specs, deps)
    requires OrderedSoFar(specs, done0, out0)
    ensures OrderedSoFar(specs, done, out)
    ensures if progressed then |out| > |out0|
      else done == done0 && out == out0 && WaitsOnItself(specs, specs.Keys - done)
  {
    done, out, progressed := done0, out0, false;
    for i := 0 to |ids|
      invariant OrderedSoFar(specs, done, out)
      invariant if progressed then |out| > |out0| else done == done0 && out == out0
      invariant !progressed ==> forall k | 0 <= k < i && ids[k] !in done :: ReadsInto(specs, ids[k], specs.Keys - done)
    {
      var id := ids[i];
      if id in done {
        continue;
      }
      assert id in specs && id in deps;
      var ready := Ready(deps[id], done);
      if ready {
        AppendKeepsOrder(specs, out, id);
        done, out, progressed := done + {id}, out + [id], true;
      } else {
        ghost var k :| 0 <= k < |deps[id]| && deps[id][k] !in done;
        assert Reads(specs, id, deps[id][k]) && deps[id][k] in specs.Keys - done;
      }
    }
    if !progressed {
      forall a | a in specs.Keys - done ensures ReadsInto(specs, a, specs.Keys - done) {
        var k :| 0 <= k < |ids| && ids[k] == a;
      }
    }
  }

  method OrderByDependency(specs: Specs) returns (r: OrderResult)
    ensures r.Ordered? <==> !HasLoop(specs)
    ensures r.Ordered? ==> IsOrder(specs, r.order)
    ensures r.Stuck? ==> Increasing(r.ids) && forall id :: id in r.ids <==> id in specs && LeadsToLoop(specs, id)
  {
    var ids := SortedIds(specs.Keys);
    var deps: map<int, seq<int>> := map[];
    for i := 0 to |ids|
      invariant forall k | 0 <= k < i :: ids[k] in deps && forall b :: b in deps[ids[k]] <==> Reads(specs, ids[k], b)
    {
      var d := Sources(specs, ids[i]);
      deps := deps[ids[i] := d];
    }
    assert HasSources(specs, deps);

    var done: set<int>, out: seq<int> := {}, [];
    while |out| < |ids|
      invariant OrderedSoFar(specs, done, out) && |out| <= |ids|
      decreases |ids| - |out|
    {
      var progressed;
      done, out, progressed := OnePass(specs, ids, deps, done, out);
      if !progressed {
        r := ReportStuck(specs, ids, done, out);
        return;
      }
      assert |specs.Keys - done| == |specs.Keys| - |done|;
    }
    SubsetOfSameSize(done, specs.Keys);
    assert IsOrder(specs, out);
    if HasLoop(specs) {
      ALoopLeadsToItself(specs);
      ghost var id :| id in specs && LeadsToLoop(specs, id);
      OrderedNeverLeadsToLoop(specs, out, id);
    }
    r := Ordered(out);
  }

  /** A pass that orders nothing leaves a remainder in which each sensor waits for another: the error names it. */
  method ReportStuck(specs: Specs, ids: seq<int>, done: set<int>, ghost out: seq<int>) returns (r: OrderResult)
    requires Increasing(ids) && forall id :: id in ids <==> id in specs
    requires |out| < |ids| && |ids| == |specs|
    requires OrderedSoFar(specs, done, out)
    requires WaitsOnItself(specs, specs.Keys - done)
    ensures r.Stuck? && HasLoop(specs)
    ensures Increasing(r.ids) && forall id :: id in r.ids <==> id in specs && LeadsToLoop(specs, id)
  {
    var stuck: seq<int> := [];
    for i := 0 to |ids|
      invariant forall id :: id in stuck <==> id in ids[..i] && id !in done
      invariant Increasing(stuck)
      invariant forall k, m | 0 <= k < |stuck| && i <= m < |ids| :: stuck[k] < ids[m]
    {
      if ids[i] !in done {
        stuck := stuck + [ids[i]];
      }
    }
    assert ids[..|ids|] == ids;
    ghost var left := specs.Keys - done;
    forall id | id in specs ensures LeadsToLoop(specs, id) <==> id !in done {
      if id in done {
        OrderedNeverLeadsToLoop(specs, out, id);
      } else {
        StuckLeadsToLoop(specs, left, id);
      }
    }
    assert |left| == |specs.Keys| - |done|;
    assert left != {};
    ghost var id := AnElement(left);
    LeadingToALoopNeedsOne(specs, id);
    r := Stuck(stuck);
  }
}
