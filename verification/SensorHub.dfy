/** The live sensor set (internal/sensor/hub.go: Set, pass, checkBindings) and the stored set behind it
    (internal/app/sensors.go: create, update, delete). */
module SensorHub {
  import opened Common
  import opened SensorGraph

  /** What an open sensor holds on its bus. */
  type Handle = nat

  /** One configured sensor; sensor is None until a read opens it. */
  datatype Entry = Entry(
    spec: Spec, sensor: Option<Handle>, readings: seq<(string, real)>, at: Option<int>, err: string,
    openFails: nat, nextOpen: Option<int>)

  function Fresh(s: Spec): Entry { Entry(s, None, [], None, "", 0, None) }

  /** Everything but the name and the id. */
  predicate SpecEqual(a: Spec, b: Spec)
  {
    a.provider == b.provider && a.kind == b.kind && a.options == b.options && a.bindings == b.bindings
  }

  ghost predicate DistinctIds(specs: seq<Spec>)
  {
    forall i, j | 0 <= i < j < |specs| :: specs[i].id != specs[j].id
  }

  ghost predicate Keeps(entries: map<int, Entry>, s: Spec)
  {
    s.id in entries && SpecEqual(entries[s.id].spec, s)
  }

  /** The entry a spec ends with: the old one, sensor and reading, if the spec is the same but for its name, else a
      closed one. */
  ghost function Reconciled(entries: map<int, Entry>, s: Spec): Entry
  {
    if Keeps(entries, s) then entries[s.id].(spec := s) else Fresh(s)
  }

  ghost predicate Listed(specs: seq<Spec>, id: int)
  {
    exists i :: 0 <= i < |specs| && specs[i].id == id
  }

  ghost predicate Kept(entries: map<int, Entry>, specs: seq<Spec>, id: int)
  {
    exists i :: 0 <= i < |specs| && specs[i].id == id && Keeps(entries, specs[i])
  }

  lemma ListedGrows(entries: map<int, Entry>, specs: seq<Spec>, i: nat)
    requires i < |specs|
    ensures forall id :: Listed(specs[..i + 1], id) <==> Listed(specs[..i], id) || id == specs[i].id
    ensures forall id :: Kept(entries, specs[..i + 1], id) <==>
      Kept(entries, specs[..i], id) || (id == specs[i].id && Keeps(entries, specs[i]))
  {
    var before, after := specs[..i], specs[..i + 1];
    assert after[i] == specs[i];
    forall id | Listed(before, id) ensures Listed(after, id) {
      var k :| 0 <= k < |before| && before[k].id == id;
      assert after[k].id == id;
    }
    forall id | Kept(entries, before, id) ensures Kept(entries, after, id) {
      var k :| 0 <= k < |before| && before[k].id == id && Keeps(entries, before[k]);
      assert after[k] == before[k];
    }
  }

  ghost function Next(entries: map<int, Entry>, specs: seq<Spec>): map<int, Entry>
  {
    if specs == [] then map[] else
    var n := |specs| - 1;
    Next(entries, specs[..n])[specs[n].id := Reconciled(entries, specs[n])]
  }

  lemma {:induction false} NextHoldsEach(entries: map<int, Entry>, specs: seq<Spec>)
    requires DistinctIds(specs)
    ensures var next := Next(entries, specs);
      && (forall id :: id in next <==> Listed(specs, id))
      && forall i | 0 <= i < |specs| :: specs[i].id in next && next[specs[i].id] == Reconciled(entries, specs[i])
    decreases |specs|
  {
    if specs != [] {
      var n := |specs| - 1;
      NextHoldsEach(entries, specs[..n]);
      ListedGrows(entries, specs, n);
      assert specs[..n + 1] == specs;
      forall i | 0 <= i < |specs|
        ensures specs[i].id in Next(entries, specs) &&
          Next(entries, specs)[specs[i].id] == Reconciled(entries, specs[i])
      {
        if i < n {
          assert specs[..n][i] == specs[i];
        }
      }
    }
  }

  /** The ids whose stored spec changed, in the new specs' order. */
  ghost function Replaced(entries: map<int, Entry>, specs: seq<Spec>): seq<int>
  {
    if specs == [] then [] else
    var n := |specs| - 1;
    Replaced(entries, specs[..n]) + if specs[n].id in entries && !Keeps(entries, specs[n]) then [specs[n].id] else []
  }

  lemma {:induction false} ReplacedOnce(entries: map<int, Entry>, specs: seq<Spec>)
    requires DistinctIds(specs)
    ensures Distinct(Replaced(entries, specs))
    ensures forall id :: id in Replaced(entries, specs) <==>
      id in entries && Listed(specs, id) && !Kept(entries, specs, id)
    decreases |specs|
  {
    if specs != [] {
      var n := |specs| - 1;
      ReplacedOnce(entries, specs[..n]);
      ListedGrows(entries, specs, n);
      assert specs[..n + 1] == specs;
      assert !Listed(specs[..n], specs[n].id);
    }
  }

  /** closing holds the sensor of each closed entry, in step. */
  ghost predicate ClosedSensors(entries: map<int, Entry>, closed: seq<int>, closing: seq<Option<Handle>>)
  {
    && |closed| == |closing|
    && forall k | 0 <= k < |closed| :: closed[k] in entries && closing[k] == entries[closed[k]].sensor
  }

  function SpecsOf(entries: map<int, Entry>): Specs
  {
    map id | id in entries :: entries[id].spec
  }

  /** The entries of an order that a pass reads. */
  ghost function ToRead(entries: map<int, Entry>, order: seq<int>, unopened: bool): seq<int>
  {
    if order == [] then [] else
    var n := |order| - 1;
    ToRead(entries, order[..n], unopened)
      + if order[n] in entries && (!unopened || entries[order[n]].sensor.None?) then [order[n]] else []
  }

  /** Of the sensors read, each comes after those of its sources that are read too. */
  ghost predicate SourcesReadFirst(specs: Specs, todo: seq<int>)
  {
    forall i, b | 0 <= i < |todo| && Reads(specs, todo[i], b) && b in todo :: b in todo[..i]
  }

  /** A pass reads each entry of the order at most once: all, or the unopened. */
  lemma {:induction false} PassReadsOnce(entries: map<int, Entry>, order: seq<int>, unopened: bool)
    requires Distinct(order)
    ensures var todo := ToRead(entries, order, unopened);
      Distinct(todo) && forall id :: id in todo <==>
        id in order && id in entries && (!unopened || entries[id].sensor.None?)
    decreases |order|
  {
    if order != [] {
      var n := |order| - 1;
      PassReadsOnce(entries, order[..n], unopened);
      assert order[n] !in order[..n];
      assert order == order[..n] + [order[n]];
    }
  }

  lemma {:induction false} PassKeepsOrder(entries: map<int, Entry>, order: seq<int>, unopened: bool)
    requires Distinct(order) && SourcesFirst(SpecsOf(entries), order)
    ensures var todo := ToRead(entries, order, unopened);
      SourcesReadFirst(SpecsOf(entries), todo)
    decreases |order|
  {
    if order != [] {
      var n := |order| - 1;
      var last, specs := order[n], SpecsOf(entries);
      FirstOrder(specs, order);
      PassReadsOnce(entries, order, unopened);
      var before, todo := ToRead(entries, order[..n], unopened), ToRead(entries, order, unopened);
      assert todo == before || todo == before + [last];
      hide ToRead, SpecsOf, Distinct, SourcesFirst, Reads, SourcesReadFirst;
      PassKeepsOrder(entries, order[..n], unopened);
      forall a | a in todo ensures !Reads(specs, a, last) {
        NothingReadsTheLast(specs, order, a);
      }
      if todo != before {
        OneMoreRead(specs, before, last);
      }
    }
  }

  lemma FirstOrder(specs: Specs, order: seq<int>)
    requires order != [] && Distinct(order) && SourcesFirst(specs, order)
    ensures var before := order[..|order| - 1]; Distinct(before) && SourcesFirst(specs, before)
  {
    var before := order[..|order| - 1];
    forall i, b | 0 <= i < |before| && Reads(specs, before[i], b) ensures b in before[..i] {
      assert before[..i] == order[..i];
    }
  }

  lemma OneMoreRead(specs: Specs, before: seq<int>, last: int)
    requires SourcesReadFirst(specs, before) && forall a | a in before + [last] :: !Reads(specs, a, last)
    ensures SourcesReadFirst(specs, before + [last])
  {
    var todo := before + [last];
    forall i, b | 0 <= i < |todo| && Reads(specs, todo[i], b) && b in todo ensures b in todo[..i] {
      assert todo[i] in todo && todo[..i] == before[..i];
    }
  }

  lemma NothingReadsTheLast(specs: Specs, order: seq<int>, a: int)
    requires Distinct(order) && SourcesFirst(specs, order) && a in order
    ensures !Reads(specs, a, order[|order| - 1])
  {
    var p :| 0 <= p < |order| && order[p] == a;
    assert order[|order| - 1] !in order[..p];
  }

  datatype BindError = NotConfigured(name: string) | NotReported(name: string) | ReadsInLoop

  /** What a sensor of each spec publishes: its provider's answer of the moment, which changes with the board asked. */
  type Reports = Spec -> set<string>

  class Hub {
    var entries: map<int, Entry>
    var order: seq<int>

    constructor ()
      ensures entries == map[] && order == []
    {
      entries := map[];
      order := [];
    }

    /** The entries the new specs have, and what replacing a changed one closes. */
    method KeepOrReplace(specs: seq<Spec>)
      returns (next: map<int, Entry>, closing: seq<Option<Handle>>, added: bool, ghost closed: seq<int>)
      requires DistinctIds(specs)
      ensures forall id :: id in next <==> Listed(specs, id)
      ensures forall i | 0 <= i < |specs| :: specs[i].id in next && next[specs[i].id] == Reconciled(entries, specs[i])
      ensures added <==> exists i :: 0 <= i < |specs| && !Keeps(entries, specs[i])
      ensures Distinct(closed) && ClosedSensors(entries, closed, closing)
      ensures forall id :: id in closed <==> id in entries && Listed(specs, id) && !Kept(entries, specs, id)
    {
      next, closing, closed, added := map[], [], [], false;
      for i := 0 to |specs|
        invariant next == Next(entries, specs[..i])
        invariant closed == Replaced(entries, specs[..i]) && ClosedSensors(entries, closed, closing)
        invariant added <==> exists k :: 0 <= k < i && !Keeps(entries, specs[k])
      {
        var s := specs[i];
        assert specs[..i + 1][..i] == specs[..i];
        if s.id in entries && SpecEqual(entries[s.id].spec, s) {
          next := next[s.id := entries[s.id].(spec := s)];
        } else {
          if s.id in entries {
            closing, closed := closing + [entries[s.id].sensor], closed + [s.id];
          }
          next, added := next[s.id := Fresh(s)], true;
        }
      }
      assert specs[..|specs|] == specs;
      ReplacedOnce(entries, specs);
      NextHoldsEach(entries, specs);
    }

    /** What is closed because no new spec has its id, added to what is closed already. */
    method LetGo(next: map<int, Entry>, closing0: seq<Option<Handle>>, ghost closed0: seq<int>)
      returns (closing: seq<Option<Handle>>, ghost closed: seq<int>)
      requires Distinct(closed0) && ClosedSensors(entries, closed0, closing0) && forall id | id in closed0 :: id in next
      ensures closing0 <= closing && closed0 <= closed
      ensures Distinct(closed) && ClosedSensors(entries, closed, closing)
      ensures forall id :: id in closed <==> id in closed0 || (id in entries && id !in next)
    {
      closing, closed := closing0, closed0;
      var left := entries.Keys;
      while left != {}
        invariant left <= entries.Keys && closing0 <= closing && closed0 <= closed
        invariant Distinct(closed) && ClosedSensors(entries, closed, closing)
        invariant forall id :: id in closed <==> id in closed0 || (id in entries && id !in next && id !in left)
        decreases left
      {
        ghost var some := AnElement(left);
        var id :| id in left;
        left := left - {id};
        if id !in next {
          closing, closed := closing + [entries[id].sensor], closed + [id];
        }
      }
    }

    /** Reconciles the live set; closing lists the sensor of each entry let go, looped says the order fell back. */
    method Set(specs: seq<Spec>)
      returns (closing: seq<Option<Handle>>, added: bool, looped: bool, ghost closed: seq<int>)
      requires DistinctIds(specs)
      modifies this
      ensures forall id :: id in entries <==> Listed(specs, id)
      ensures forall i | 0 <= i < |specs| ::
        specs[i].id in entries && entries[specs[i].id] == Reconciled(old(entries), specs[i])
      ensures added <==> exists i :: 0 <= i < |specs| && !Keeps(old(entries), specs[i])
      // Each entry let go is closed once, and no kept one is.
      ensures Distinct(closed) && ClosedSensors(old(entries), closed, closing)
      ensures forall id :: id in closed <==> id in old(entries) && !Kept(old(entries), specs, id)
      ensures looped <==> HasLoop(SpecsOf(entries))
      ensures if looped then Increasing(order) && forall id :: id in order <==> id in entries
              else IsOrder(SpecsOf(entries), order)
    {
      var next;
      next, closing, added, closed := KeepOrReplace(specs);
      closing, closed := LetGo(next, closing, closed);
      assert forall id | Kept(entries, specs, id) :: Listed(specs, id);
      var byId := SpecsOf(next);
      var result := OrderByDependency(byId);
      looped := result.Stuck?;
      if looped {
        order := SortedIds(byId.Keys);
      } else {
        order := result.order;
      }
      entries := next;
    }

    /** The sensors one pass reads, in order: all, or only those not open yet. */
    method PassOrder(unopened: bool) returns (todo: seq<int>)
      requires Distinct(order)
      ensures Distinct(todo) && (SourcesFirst(SpecsOf(entries), order) ==> SourcesReadFirst(SpecsOf(entries), todo))
      ensures forall id :: id in todo <==> id in order && id in entries && (!unopened || entries[id].sensor.None?)
    {
      todo := [];
      for k := 0 to |order|
        invariant todo == ToRead(entries, order[..k], unopened)
      {
        assert order[..k + 1][..k] == order[..k];
        var id := order[k];
        if id in entries && (!unopened || entries[id].sensor.None?) {
          todo := todo + [id];
        }
      }
      assert order[..|order|] == order;
      PassReadsOnce(entries, order, unopened);
      if SourcesFirst(SpecsOf(entries), order) {
        PassKeepsOrder(entries, order, unopened);
      }
    }

    /** Whether a spec may be stored: each source is there and reports what is read of it, and, for one stored already,
        no loop comes of it. */
    method CheckBindings(spec: Spec, reports: Reports) returns (err: Option<BindError>)
      ensures err.None? <==> BindingsOk(reports, SpecsOf(entries), spec)
    {
      if |spec.bindings| == 0 {
        return None;
      }
      var byId := SpecsOf(entries);
      for k := 0 to |spec.bindings|
        invariant forall m | 0 <= m < k :: BindingHolds(reports, byId, spec.bindings[m])
      {
        var b := spec.bindings[k];
        if b.sensorId !in byId {
          return Some(NotConfigured(b.name));
        }
        if b.metric !in reports(byId[b.sensorId]) {
          return Some(NotReported(b.name));
        }
      }
      if spec.id == 0 {
        return None;
      }
      var result := OrderByDependency(byId[spec.id := spec]);
      return if result.Ordered? then None else Some(ReadsInLoop);
    }
  }

  /** The source is configured and reports what is read from it. */
  predicate BindingHolds(reports: Reports, specs: Specs, b: Binding)
  {
    b.sensorId in specs && b.metric in reports(specs[b.sensorId])
  }

  ghost predicate BindingsOk(reports: Reports, specs: Specs, spec: Spec)
  {
    spec.bindings != [] ==>
      && (forall k | 0 <= k < |spec.bindings| :: BindingHolds(reports, specs, spec.bindings[k]))
      && (spec.id != 0 ==> !HasLoop(specs[spec.id := spec]))
  }

  // ---------------------------------------------------------------------------------------------
  // The stored set and its edits
  // ---------------------------------------------------------------------------------------------

  /** The sensor rows, with the next id the table hands out. */
  datatype Table = Table(rows: Specs, nextId: int)

  /** An edit; othersOk is the verdict of the checks not about bindings (options, unique name, claims, channel maps). */
  datatype Edit =
    | Create(spec: Spec, othersOk: bool)
    | Update(id: int, spec: Spec, othersOk: bool)
    | Delete(id: int)

  /** Ids are positive and never handed out twice. */
  ghost predicate Keyed(t: Table)
  {
    t.nextId >= 1 && forall id | id in t.rows :: 1 <= id < t.nextId && t.rows[id].id == id
  }

  /** Every binding names a configured sensor, and nothing reads itself round a loop, whatever anyone reports. */
  ghost predicate Whole(specs: Specs)
  {
    && !HasLoop(specs)
    && forall id, k | id in specs && 0 <= k < |specs[id].bindings| :: specs[id].bindings[k].sensorId in specs
  }

  /** Every source reports, just now, what is read from it. */
  ghost predicate AllReported(reports: Reports, specs: Specs)
  {
    forall id, k | id in specs && 0 <= k < |specs[id].bindings| :: BindingHolds(reports, specs, specs[id].bindings[k])
  }

  /** No other sensor reads something this edit takes away. */
  ghost predicate DependentsOk(reports: Reports, specs: Specs, spec: Spec)
  {
    spec.id in specs ==>
      forall id, k | id in specs && 0 <= k < |specs[id].bindings| && specs[id].bindings[k].sensorId == spec.id ::
        specs[id].bindings[k].metric in reports(specs[spec.id]) ==> specs[id].bindings[k].metric in reports(spec)
  }

  ghost predicate NobodyReads(specs: Specs, id: int)
  {
    forall r | r in specs :: !Binds(specs[r], id)
  }

  ghost predicate Accepted(reports: Reports, t: Table, e: Edit)
  {
    match e
    case Create(spec, othersOk) => othersOk && BindingsOk(reports, t.rows, spec.(id := 0))
    case Update(id, spec, othersOk) =>
      var s := spec.(id := id);
      othersOk && BindingsOk(reports, t.rows, s) && DependentsOk(reports, t.rows, s) && id in t.rows
    case Delete(id) => NobodyReads(t.rows, id) && id in t.rows
  }

  ghost function Step(reports: Reports, t: Table, e: Edit): Table
  {
    if !Accepted(reports, t, e) then t
    else match e
      case Create(spec, _) => Table(t.rows[t.nextId := spec.(id := t.nextId)], t.nextId + 1)
      case Update(id, spec, _) => t.(rows := t.rows[id := spec.(id := id)])
      case Delete(id) => t.(rows := t.rows - {id})
  }

  /** One edit, and what the sensors report while it is checked. */
  datatype Turn = Turn(reports: Reports, edit: Edit)

  /** From one edit to the next what is reported may change in any way. */
  ghost function Run(t: Table, turns: seq<Turn>): Table
    decreases |turns|
  {
    if turns == [] then t else Run(Step(turns[0].reports, t, turns[0].edit), turns[1..])
  }

  /** A sensor nothing reads, or that reads nothing, is on no loop; the loops are the other sensors'. */
  lemma LoopAvoids(specs: Specs, other: Specs, x: int)
    requires HasLoop(specs)
    requires (forall a :: !Reads(specs, a, x)) || (forall b :: !Reads(specs, x, b))
    requires forall a | a in specs && a != x :: a in other && other[a].bindings == specs[a].bindings
    ensures HasLoop(other)
  {
    var w :| IsLoop(specs, w);
    var n := |w|;
    forall i | 0 <= i < n ensures w[i] != x {
      assert Reads(specs, w[0], w[1]) && Reads(specs, w[n - 2], w[n - 1]);
      assert i < n - 1 ==> Reads(specs, w[i], w[i + 1]);
      assert i > 0 ==> Reads(specs, w[i - 1], w[i]);
    }
    forall i | 0 <= i < n - 1 ensures Reads(other, w[i], w[i + 1]) {
      assert Reads(specs, w[i], w[i + 1]);
      var k :| 0 <= k < |specs[w[i]].bindings| && specs[w[i]].bindings[k].sensorId == w[i + 1];
      assert other[w[i]].bindings[k].sensorId == w[i + 1];
    }
    assert IsLoop(other, w);
  }

  lemma CreateKeepsGraph(reports: Reports, t: Table, spec: Spec)
    requires Keyed(t) && Whole(t.rows)
    requires BindingsOk(reports, t.rows, spec.(id := 0))
    ensures Whole(t.rows[t.nextId := spec.(id := t.nextId)])
  {
    var n := t.nextId;
    var rows := t.rows[n := spec.(id := n)];
    forall id, k | id in rows && 0 <= k < |rows[id].bindings| ensures rows[id].bindings[k].sensorId in t.rows {
      if id == n {
        assert BindingHolds(reports, t.rows, spec.(id := 0).bindings[k]);
      }
    }
    if HasLoop(rows) {
      // Every row, the new one too, reads only ids already stored, so nothing reads the new one.
      LoopAvoids(rows, t.rows, n);
    }
  }

  lemma UpdateKeepsGraph(reports: Reports, t: Table, id: int, spec: Spec)
    requires Keyed(t) && Whole(t.rows) && id in t.rows && spec.id == id && BindingsOk(reports, t.rows, spec)
    ensures Whole(t.rows[id := spec])
  {
    var rows := t.rows[id := spec];
    if HasLoop(rows) {
      assert spec.bindings == [];
      LoopAvoids(rows, t.rows, id);
    }
    forall r, k | r in rows && 0 <= k < |rows[r].bindings| ensures rows[r].bindings[k].sensorId in rows {
      if r == id {
        assert BindingHolds(reports, t.rows, spec.bindings[k]);
      }
    }
  }

  lemma DeleteKeepsGraph(t: Table, id: int)
    requires Keyed(t) && Whole(t.rows) && NobodyReads(t.rows, id)
    ensures Whole(t.rows - {id})
  {
    var rows := t.rows - {id};
    if HasLoop(rows) {
      LoopAvoids(rows, t.rows, id);
    }
    forall r, k | r in rows && 0 <= k < |rows[r].bindings| ensures rows[r].bindings[k].sensorId in rows {
      assert t.rows[r].bindings[k].sensorId in t.rows;
      assert !Binds(t.rows[r], id);
    }
  }

  lemma StepKeepsGraph(reports: Reports, t: Table, e: Edit)
    requires Keyed(t) && Whole(t.rows)
    ensures Keyed(Step(reports, t, e)) && Whole(Step(reports, t, e).rows)
  {
    hide Whole;
    if Accepted(reports, t, e) {
      match e
      case Create(spec, _) => CreateKeepsGraph(reports, t, spec);
      case Update(id, spec, _) => UpdateKeepsGraph(reports, t, id, spec.(id := id));
      case Delete(id) => DeleteKeepsGraph(t, id);
    }
  }

  /** Every run of edits, from the empty table or any sound one, keeps the graph whole, whatever the sensors report
      from one edit to the next. */
  lemma {:induction false} RunKeepsGraph(t: Table, turns: seq<Turn>)
    requires Keyed(t) && Whole(t.rows)
    ensures Keyed(Run(t, turns)) && Whole(Run(t, turns).rows)
    decreases |turns|
  {
    hide Keyed, Whole, Step;
    if turns != [] {
      StepKeepsGraph(turns[0].reports, t, turns[0].edit);
      RunKeepsGraph(Step(turns[0].reports, t, turns[0].edit), turns[1..]);
    }
  }

  const NO_SENSORS := Table(map[], 1)

  lemma EmptyTableHolds(reports: Reports)
    ensures Keyed(NO_SENSORS) && Whole(NO_SENSORS.rows) && AllReported(reports, NO_SENSORS.rows)
  {
  }

  // What is reported ------------------------------------------------------------------------------

  predicate Touches(t: Table, e: Edit, id: int)
  {
    match e
    case Create(_, _) => id == t.nextId
    case Update(edited, _, _) => id == edited
    case Delete(deleted) => id == deleted
  }

  /** An edit takes no reading away: what a sensor it does not touch reads, and its source reported as the edit was
      checked, the source reports after it too. */
  lemma EditTakesNothing(reports: Reports, t: Table, e: Edit, id: int, k: nat)
    requires Keyed(t) && id in t.rows && k < |t.rows[id].bindings| && !Touches(t, e, id)
    requires BindingHolds(reports, t.rows, t.rows[id].bindings[k])
    ensures var rows := Step(reports, t, e).rows;
      id in rows && rows[id] == t.rows[id] && BindingHolds(reports, rows, rows[id].bindings[k])
  {
    hide HasLoop;
    if Accepted(reports, t, e) && e.Delete? {
      assert !Binds(t.rows[id], e.id);
    }
  }

  /** And what the sensor it stores reads is there as it stores it. */
  lemma StoredIsReported(reports: Reports, t: Table, e: Edit, id: int, k: nat)
    requires Keyed(t) && Accepted(reports, t, e) && Touches(t, e, id)
    requires var rows := Step(reports, t, e).rows; id in rows && k < |rows[id].bindings|
    ensures var rows := Step(reports, t, e).rows; BindingHolds(reports, rows, rows[id].bindings[k])
  {
    var rows := Step(reports, t, e).rows;
    var b := rows[id].bindings[k];
    var s := if e.Create? then e.spec.(id := 0) else e.spec.(id := id);
    assert BindingHolds(reports, t.rows, s.bindings[k]);
    if e.Update? && b.sensorId == id {
      assert Binds(rows[id], id) && Reads(rows, id, id);
      assert IsLoop(rows, [id, id]);
    }
  }

  /** So while what is reported stays, all that is read stays reported. */
  lemma StepKeepsReports(reports: Reports, t: Table, e: Edit)
    requires Keyed(t) && AllReported(reports, t.rows)
    ensures AllReported(reports, Step(reports, t, e).rows)
  {
    hide BindingHolds;
    var rows := Step(reports, t, e).rows;
    forall id, k: nat | id in rows && k < |rows[id].bindings|
      ensures BindingHolds(reports, rows, rows[id].bindings[k]) {
      if Touches(t, e, id) && Accepted(reports, t, e) {
        StoredIsReported(reports, t, e, id, k);
      } else if Accepted(reports, t, e) {
        EditTakesNothing(reports, t, e, id, k);
      }
    }
  }

  lemma {:induction false} SteadyRunKeepsReports(reports: Reports, t: Table, turns: seq<Turn>)
    requires Keyed(t) && Whole(t.rows) && AllReported(reports, t.rows)
    requires forall i | 0 <= i < |turns| :: turns[i].reports == reports
    ensures AllReported(reports, Run(t, turns).rows)
    decreases |turns|
  {
    hide Keyed, Whole, Step, AllReported;
    if turns != [] {
      StepKeepsReports(reports, t, turns[0].edit);
      StepKeepsGraph(reports, t, turns[0].edit);
      SteadyRunKeepsReports(reports, Step(reports, t, turns[0].edit), turns[1..]);
    }
  }

  lemma EntriesAreRows(entries: map<int, Entry>, specs: seq<Spec>, rows: Specs)
    requires forall id :: id in entries <==> Listed(specs, id)
    requires forall id :: Listed(specs, id) <==> id in rows
    requires forall i | 0 <= i < |specs| ::
      && specs[i].id in rows && specs[i] == rows[specs[i].id]
      && specs[i].id in entries && entries[specs[i].id].spec == specs[i]
    ensures SpecsOf(entries) == rows
  {
    forall id | id in rows ensures id in entries && entries[id].spec == rows[id] {
      var k :| 0 <= k < |specs| && specs[k].id == id;
      assert entries[specs[k].id].spec == specs[k];
    }
    forall id ensures id in entries <==> id in rows {
      assert Listed(specs, id) <==> id in rows;
    }
  }

  const BOARD := Spec(1, "board", "sensor", "out", map[], [])
  const DERIVED := Spec(2, "derived", "sum", "dew", map[], [Binding("t", 1, "temperature")])
  const PAIR := Table(map[1 := BOARD, 2 := DERIVED], 3)

  /** A change in what is reported does take a reading away: two sensors stored one after the other, and then the board
      of the first no longer has what the second reads. Its owner may still be renamed; the reader may not be stored. */
  lemma ABoardRenumbers(name: string) returns (before: Reports, now: Reports, turns: seq<Turn>)
    ensures forall i | 0 <= i < |turns| :: turns[i].reports == before
    ensures Run(NO_SENSORS, turns) == PAIR
    ensures Whole(PAIR.rows) && AllReported(before, PAIR.rows) && !AllReported(now, PAIR.rows)
    ensures Accepted(now, PAIR, Update(1, BOARD.(name := name), true)) && !Accepted(now, PAIR, Update(2, DERIVED, true))
  {
    before, now := (s => {"temperature"}), (s => {});
    var one := Table(map[1 := BOARD], 2);
    var first, second := Turn(before, Create(BOARD, true)), Turn(before, Create(DERIVED, true));
    turns := [first, second];
    assert NO_SENSORS.rows[1 := BOARD] == one.rows && one.rows[2 := DERIVED] == PAIR.rows;
    assert Step(before, NO_SENSORS, first.edit) == one;
    assert BindingHolds(before, one.rows, DERIVED.bindings[0]);
    assert Step(before, one, second.edit) == PAIR;
    RunOfTwo(NO_SENSORS, first, second);
    EmptyTableHolds(before);
    RunKeepsGraph(NO_SENSORS, turns);
    SteadyRunKeepsReports(before, NO_SENSORS, turns);
    assert !BindingHolds(now, PAIR.rows, PAIR.rows[2].bindings[0]);
    assert !BindingHolds(now, PAIR.rows, DERIVED.(id := 2).bindings[0]);
  }

  lemma RunOfTwo(t: Table, a: Turn, b: Turn)
    ensures Run(t, [a, b]) == Step(b.reports, Step(a.reports, t, a.edit), b.edit)
  {
    hide Step;
    assert [a, b][1..] == [b] && [b][1..] == [];
    assert Run(t, [a, b]) == Run(Step(a.reports, t, a.edit), [b]);
  }

  /** The rows in id order. */
  method ListRows(t: Table) returns (specs: seq<Spec>)
    requires Keyed(t)
    ensures DistinctIds(specs)
    ensures forall id :: Listed(specs, id) <==> id in t.rows
    ensures forall i | 0 <= i < |specs| :: specs[i].id in t.rows && specs[i] == t.rows[specs[i].id]
  {
    var ids := SortedIds(t.rows.Keys);
    specs := [];
    for i := 0 to |ids|
      invariant |specs| == i && forall k | 0 <= k < i :: specs[k] == t.rows[ids[k]] && specs[k].id == ids[k]
    {
      specs := specs + [t.rows[ids[i]]];
    }
    forall id | id in t.rows ensures Listed(specs, id) {
      var k :| 0 <= k < |ids| && ids[k] == id;
      assert specs[k].id == id;
    }
  }

  /** The backend: the rows, and the hub reloaded from them after each write. */
  class Backend {
    const hub: Hub
    var table: Table

    ghost predicate Valid()
      reads this, hub
    {
      && Keyed(table) && Whole(table.rows)
      && SpecsOf(hub.entries) == table.rows
      && IsOrder(table.rows, hub.order)
    }

    constructor ()
      ensures Valid() && table == NO_SENSORS && fresh(hub)
    {
      hub := new Hub();
      table := NO_SENSORS;
      new;
      EmptyTableHolds(s => {});
      assert SpecsOf(hub.entries) == map[];
    }

    /** Reads the rows in id order and sets the hub to them; the order never falls back, whatever is reported. */
    method LoadSensors() returns (looped: bool)
      requires Keyed(table) && Whole(table.rows)
      modifies hub
      ensures Valid() && !looped
    {
      var specs := ListRows(table);
      var closing, added;
      ghost var closed;
      closing, added, looped, closed := hub.Set(specs);
      hide HasLoop, IsOrder, Keyed, Distinct, ClosedSensors, Kept;
      forall i | 0 <= i < |specs| ensures specs[i].id in hub.entries && hub.entries[specs[i].id].spec == specs[i] { }
      EntriesAreRows(hub.entries, specs, table.rows);
    }

    method CreateSensor(spec: Spec, othersOk: bool, reports: Reports) returns (ok: bool)
      requires Valid()
      modifies this, hub
      ensures Valid()
      ensures ok == Accepted(reports, old(table), Create(spec, othersOk))
      ensures table == Step(reports, old(table), Create(spec, othersOk))
    {
      var err := hub.CheckBindings(spec.(id := 0), reports);
      ok := othersOk && err.None?;
      if ok {
        StepKeepsGraph(reports, table, Create(spec, othersOk));
        table := Table(table.rows[table.nextId := spec.(id := table.nextId)], table.nextId + 1);
        var looped := LoadSensors();
      }
    }

    /** Refuses an edit that stops reporting what another sensor reads. */
    method CheckDependents(spec: Spec, reports: Reports) returns (ok: bool)
      ensures ok == DependentsOk(reports, table.rows, spec)
    {
      if spec.id !in table.rows {
        return true;
      }
      var had, now := reports(table.rows[spec.id]), reports(spec);
      var ids := SortedIds(table.rows.Keys);
      for i := 0 to |ids|
        invariant forall m, k | 0 <= m < i && 0 <= k < |table.rows[ids[m]].bindings| &&
          table.rows[ids[m]].bindings[k].sensorId == spec.id ::
          table.rows[ids[m]].bindings[k].metric in had ==> table.rows[ids[m]].bindings[k].metric in now
      {
        var bs := table.rows[ids[i]].bindings;
        for k := 0 to |bs|
          invariant forall m | 0 <= m < k && bs[m].sensorId == spec.id :: bs[m].metric in had ==> bs[m].metric in now
        {
          if bs[k].sensorId == spec.id && bs[k].metric in had && bs[k].metric !in now {
            return false;
          }
        }
      }
      ok := true;
      forall id | id in table.rows ensures id in ids { }
    }

    method UpdateSensor(id: int, spec: Spec, othersOk: bool, reports: Reports) returns (ok: bool)
      requires Valid()
      modifies this, hub
      ensures Valid()
      ensures ok == Accepted(reports, old(table), Update(id, spec, othersOk))
      ensures table == Step(reports, old(table), Update(id, spec, othersOk))
    {
      var s := spec.(id := id);
      var err := hub.CheckBindings(s, reports);
      var dependents := CheckDependents(s, reports);
      ok := othersOk && err.None? && dependents && id in table.rows;
      if ok {
        StepKeepsGraph(reports, table, Update(id, spec, othersOk));
        table := table.(rows := table.rows[id := s]);
        var looped := LoadSensors();
      }
    }

    method DeleteSensor(id: int) returns (ok: bool)
      requires Valid()
      modifies this, hub
      ensures Valid()
      ensures forall reports :: ok == Accepted(reports, old(table), Delete(id))
      ensures forall reports :: table == Step(reports, old(table), Delete(id))
    {
      var ids := SortedIds(table.rows.Keys);
      for i := 0 to |ids|
        invariant forall m | 0 <= m < i :: !Binds(table.rows[ids[m]], id)
      {
        if Binds(table.rows[ids[i]], id) {
          assert ids[i] in table.rows;
          return false;
        }
      }
      assert NobodyReads(table.rows, id) by {
        forall r | r in table.rows ensures !Binds(table.rows[r], id) {
          assert r in ids;
        }
      }
      ok := id in table.rows;
      if ok {
        DeleteKeepsGraph(table, id);
        table := table.(rows := table.rows - {id});
        var looped := LoadSensors();
      }
    }
  }
}
