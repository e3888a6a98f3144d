/** Writing a companion's running channels back to its stored rows (internal/app/backend.go 389-455,
    internal/store/config_companions.go 225-295). */
module ChannelSave {
  import opened Common

  // ---------------------------------------------------------------------------------------------
  // The stored rows
  // ---------------------------------------------------------------------------------------------

  datatype Channel = Channel(companion: int, name: string, privateKey: string, scope: string, slot: nat)

  type Table = map<int, Channel>

  /** The table, the id the next row gets, and how many rows have been written. */
  datatype Db = Db(table: Table, nextId: int, writes: nat)

  function Slots(t: Table, companion: int): set<nat>
  {
    set id | id in t && t[id].companion == companion :: t[id].slot
  }

  function LowestFree(from: nat, slots: set<nat>): (n: nat)
    ensures n !in slots && from <= n && forall m | from <= m < n :: m in slots
    decreases slots
  {
    if from in slots then LowestFree(from + 1, slots - {from}) else from
  }

  /** The row another channel of the companion already has this name in, which the table refuses. */
  ghost predicate NameTaken(t: Table, companion: int, name: string, own: set<int>)
  {
    exists id :: id in t && id !in own && t[id].companion == companion && t[id].name == name
  }

  function Inserted(db: Db, c: Channel): Db
  {
    Db(db.table[db.nextId := c], db.nextId + 1, db.writes + 1)
  }

  function Replaced(db: Db, id: int, c: Channel): Db
  {
    Db(db.table[id := c], db.nextId, db.writes + 1)
  }

  function Removed(db: Db, id: int): Db
  {
    Db(db.table - {id}, db.nextId, db.writes + 1)
  }

  /** By slot, then by id. */
  predicate Before(t: Table, a: int, b: int)
    requires a in t && b in t
  {
    t[a].slot < t[b].slot || (t[a].slot == t[b].slot && a < b)
  }

  ghost predicate IsListing(t: Table, companion: int, ids: seq<int>)
  {
    && (forall k | 0 <= k < |ids| :: ids[k] in t && t[ids[k]].companion == companion)
    && (forall id | id in t && t[id].companion == companion :: id in ids)
    && (forall a, b | 0 <= a < b < |ids| :: ids[a] in t && ids[b] in t && Before(t, ids[a], ids[b]))
  }

  lemma {:induction false} FirstOf(t: Table, left: set<int>) returns (first: int)
    requires left != {} && forall id | id in left :: id in t
    ensures first in left && forall id | id in left && id != first :: Before(t, first, id)
    decreases left
  {
    var one := AnElement(left);
    var rest := left - {one};
    first := one;
    if rest == {} {
      assert left == {one};
    } else {
      var other := FirstOf(t, rest);
      first := if Before(t, other, one) then other else one;
      forall id | id in left && id != first ensures Before(t, first, id) {
        assert id == one || id == other || (id in rest && Before(t, other, id));
      }
    }
  }

  // ---------------------------------------------------------------------------------------------
  // One save
  // ---------------------------------------------------------------------------------------------

  datatype Ref = Ref(name: string, privateKey: string, scope: string, slot: nat)

  /** What a save reads: the table as it was and its rows for the companion in listed order, the channels the node
      runs, the names it let go of, and how a name and a private key make a channel key. */
  datatype Save = Save(was: Db, companion: int, ids: seq<int>, running: seq<Ref>, dropped: set<string>,
                       keyOf: (string, string) -> seq<int>)
  {
    ghost predicate Listed() { IsListing(was.table, companion, ids) }

    function Row(k: nat): Channel
      requires Listed() && k < |ids|
    {
      was.table[ids[k]]
    }

    /** What the table's constraints and the node's own checks promise: no name twice in the table or on the node, no
        slot twice on the node, no row without a scope, and ids only ever growing. */
    ghost predicate Sane(): (sane: bool)
      ensures sane ==> Listed()
    {
      && Listed()
      && (forall a, b | 0 <= a < b < |ids| :: Row(a).name != Row(b).name)
      && (forall k | 0 <= k < |ids| :: Row(k).scope != "")
      && (forall id | id in was.table :: id < was.nextId)
      && (forall i, j | 0 <= i < j < |running| ::
        running[i].name != running[j].name && running[i].slot != running[j].slot)
    }

    predicate Runs(name: string) { exists i :: 0 <= i < |running| && running[i].name == name }

    ghost predicate Named(i: nat, k: nat)
      requires Listed() && i < |running| && k < |ids|
    {
      Row(k).name == running[i].name
    }

    /** A rename keeps the slot and the key, and the old name is one the node let go of and runs no more. */
    ghost predicate Renamed(i: nat, k: nat)
      requires Listed() && i < |running| && k < |ids|
    {
      && Row(k).slot == running[i].slot && Row(k).name in dropped && !Runs(Row(k).name)
      && keyOf(Row(k).name, Row(k).privateKey) == keyOf(running[i].name, running[i].privateKey)
    }

    ghost function FirstNamed(i: nat, k: nat): (found: int)
      requires Listed() && i < |running| && k <= |ids|
      ensures found == -1 || k <= found < |ids|
      ensures found == -1 ==> forall m | k <= m < |ids| :: !Named(i, m)
      ensures found >= 0 ==> Named(i, found) && forall m | k <= m < found :: !Named(i, m)
      decreases |ids| - k
    {
      if k == |ids| then -1 else if Named(i, k) then k else FirstNamed(i, k + 1)
    }

    ghost function FirstRenamed(i: nat, k: nat): (found: int)
      requires Listed() && i < |running| && k <= |ids|
      ensures found == -1 || k <= found < |ids|
      ensures found == -1 ==> forall m | k <= m < |ids| :: !Renamed(i, m)
      ensures found >= 0 ==> Renamed(i, found) && forall m | k <= m < found :: !Renamed(i, m)
      decreases |ids| - k
    {
      if k == |ids| then -1 else if Renamed(i, k) then k else FirstRenamed(i, k + 1)
    }

    /** The row a running channel is kept in: the one of its name, or else the first it was renamed from; -1 for
        none. */
    ghost function RowFor(i: nat): (k: int)
      requires Listed() && i < |running|
      ensures -1 <= k < |ids|
    {
      if FirstNamed(i, 0) >= 0 then FirstNamed(i, 0) else FirstRenamed(i, 0)
    }

    ghost predicate Claimed(k: nat)
      requires Listed()
    {
      exists i :: 0 <= i < |running| && RowFor(i) == k
    }

    ghost predicate Gone(k: nat)
      requires Listed() && k < |ids|
    {
      !Claimed(k) && Row(k).name in dropped
    }

    ghost predicate Stays(k: nat)
      requires Listed() && k < |ids|
    {
      !Claimed(k) && Row(k).name !in dropped
    }

    /** The slots of the rows the save leaves alone. */
    ghost predicate Shut(slot: nat)
      requires Listed()
    {
      exists k :: 0 <= k < |ids| && Stays(k) && Row(k).slot == slot
    }

    /** The table once the first k rows have been gone through for deletion. */
    ghost function Swept(k: nat): Db
      requires Listed() && k <= |ids|
    {
      if k == 0 then was else if Gone(k - 1) then Removed(Swept(k - 1), ids[k - 1]) else Swept(k - 1)
    }

    /** The slot a channel gets: its own, unless a row left alone has it; then its row's, or the lowest free one. */
    ghost function SlotFor(i: nat, db: Db): nat
      requires Listed() && i < |running|
    {
      if !Shut(running[i].slot) then running[i].slot
      else if RowFor(i) >= 0 then Row(RowFor(i)).slot
      else LowestFree(0, Slots(db.table, companion))
    }

    ghost function Wanted(i: nat, db: Db): Channel
      requires Listed() && i < |running|
    {
      Channel(companion, running[i].name, running[i].privateKey, ScopeOrInherit(running[i].scope), SlotFor(i, db))
    }

    /** A row is written only when it differs, an unset scope counting as different from the inherit it is stored as. */
    ghost predicate Differs(i: nat)
      requires Listed() && i < |running| && RowFor(i) >= 0
    {
      var r := Row(RowFor(i));
      || r.name != running[i].name || r.privateKey != running[i].privateKey || r.scope != running[i].scope
      || (!Shut(running[i].slot) && r.slot != running[i].slot)
    }

    /** The table once the first i running channels have been written. */
    ghost function Written(i: nat): Db
      requires Listed() && i <= |running|
    {
      if i == 0 then Swept(|ids|)
      else
        var db, j := Written(i - 1), i - 1;
        if RowFor(j) < 0 then Inserted(db, Wanted(j, db))
        else if Differs(j) then Replaced(db, ids[RowFor(j)], Wanted(j, db))
        else db
    }

    ghost function Final(): Db
      requires Listed()
    {
      Written(|running|)
    }

    /** The slots taken when the ith channel's turn comes: of the rows left alone, of the rows of channels from it on,
        and of the places of those before it. */
    ghost function InUse(i: nat): set<nat>
      requires Listed() && i <= |running|
      decreases i, 0
    {
      (set k | 0 <= k < |ids| && Stays(k) :: Row(k).slot)
      + (set j | i <= j < |running| && RowFor(j) >= 0 :: Row(RowFor(j)).slot)
      + (set j | 0 <= j < i :: Place(j))
    }

    /** Where a channel goes, from the rows and the running channels alone. */
    ghost function Place(i: nat): nat
      requires Listed() && i < |running|
      decreases i, 1
    {
      if !Shut(running[i].slot) then running[i].slot
      else if RowFor(i) >= 0 then Row(RowFor(i)).slot
      else LowestFree(0, InUse(i))
    }

    /** The row a running channel ends in. */
    ghost function IdOf(i: nat): int
      requires Listed() && i < |running|
    {
      if RowFor(i) >= 0 then ids[RowFor(i)] else Written(i).nextId
    }

    /** What the channel's row then holds. */
    ghost function Kept(i: nat): Channel
      requires Listed() && i < |running|
    {
      Wanted(i, Written(i))
    }
  }

  // ---------------------------------------------------------------------------------------------
  // What a save does to the table
  // ---------------------------------------------------------------------------------------------

  /** No two running channels claim one row. */
  lemma ClaimsAreInjective(s: Save, i: nat, j: nat)
    requires s.Sane() && i < j < |s.running|
    ensures s.RowFor(i) == -1 || s.RowFor(i) != s.RowFor(j)
  {
  }

  /** The row of a running channel's name is the one it is kept in, and only a renamed row has another name. */
  lemma SameNameSameRow(s: Save, i: nat, k: nat)
    requires s.Sane() && i < |s.running| && k < |s.ids|
    ensures s.Named(i, k) ==> s.RowFor(i) == k
    ensures s.RowFor(i) == k ==> s.Named(i, k) || !s.Runs(s.Row(k).name)
  {
  }

  ghost predicate Untouched(s: Save, id: int)
    requires s.Listed()
  {
    id in s.was.table && s.was.table[id].companion != s.companion
  }

  /** The row is there for a reason: it stays, or is waiting for a channel from the ith on, or holds one before it. */
  ghost predicate Accounted(s: Save, i: nat, id: int)
    requires s.Listed() && i <= |s.running|
  {
    || (exists k :: 0 <= k < |s.ids| && s.Stays(k) && s.ids[k] == id)
    || (exists j :: i <= j < |s.running| && s.RowFor(j) >= 0 && s.IdOf(j) == id)
    || (exists j :: 0 <= j < i && s.IdOf(j) == id)
  }

  /** Where a save stands after the first i channels. */
  ghost predicate Midway(s: Save, i: nat, db: Db)
    requires s.Listed() && i <= |s.running|
  {
    && (forall id | Untouched(s, id) :: id in db.table && db.table[id] == s.was.table[id])
    && (forall k | 0 <= k < |s.ids| && s.Stays(k) :: s.ids[k] in db.table && db.table[s.ids[k]] == s.Row(k))
    && (forall j | i <= j < |s.running| && s.RowFor(j) >= 0 ::
      s.IdOf(j) in db.table && db.table[s.IdOf(j)] == s.Row(s.RowFor(j)))
    && (forall j | 0 <= j < i :: s.IdOf(j) in db.table && db.table[s.IdOf(j)] == s.Kept(j))
    && (forall id | id in db.table ::
      if db.table[id].companion == s.companion then Accounted(s, i, id) else Untouched(s, id))
    && (forall id | id in db.table :: id < db.nextId)
    && s.was.nextId <= db.nextId
  }

  lemma {:induction false} SweptIs(s: Save, k: nat)
    requires s.Sane() && k <= |s.ids|
    ensures forall id :: id in s.Swept(k).table <==>
      id in s.was.table && forall m | 0 <= m < k && s.Gone(m) :: s.ids[m] != id
    ensures forall id | id in s.Swept(k).table :: s.Swept(k).table[id] == s.was.table[id]
    ensures s.Swept(k).nextId == s.was.nextId
    decreases k
  {
    hide Save.Gone;
    if k > 0 {
      SweptIs(s, k - 1);
    }
  }

  lemma MidwayStarts(s: Save)
    requires s.Sane()
    ensures Midway(s, 0, s.Written(0))
  {
    SweptIs(s, |s.ids|);
    forall id | id in s.Swept(|s.ids|).table && s.Swept(|s.ids|).table[id].companion == s.companion
      ensures Accounted(s, 0, id)
    {
      SweptIsAccounted(s, id);
    }
    SweptKeepsTheRest(s);
    hide Save.RowFor, Save.Swept, Save.Gone, Save.Stays, Accounted, Untouched, Save.Sane;
  }

  lemma SweptIsAccounted(s: Save, id: int)
    requires s.Sane() && id in s.Swept(|s.ids|).table && s.Swept(|s.ids|).table[id].companion == s.companion
    ensures Accounted(s, 0, id)
  {
    SweptIs(s, |s.ids|);
    hide Save.RowFor, Save.Swept;
    var k :| 0 <= k < |s.ids| && s.ids[k] == id;
    assert !s.Gone(k);
    if s.Claimed(k) {
      var j :| 0 <= j < |s.running| && s.RowFor(j) == k;
      assert s.IdOf(j) == id;
    }
  }

  /** The rows of others, the rows that stay and the rows of channels are not swept. */
  lemma SweptKeepsTheRest(s: Save)
    requires s.Sane()
    ensures var t := s.Swept(|s.ids|).table;
      && (forall id | Untouched(s, id) :: id in t && t[id] == s.was.table[id])
      && (forall k | 0 <= k < |s.ids| && !s.Gone(k) :: s.ids[k] in t && t[s.ids[k]] == s.Row(k))
      && (forall j | 0 <= j < |s.running| && s.RowFor(j) >= 0 :: !s.Gone(s.RowFor(j)))
      && (forall id | id in t :: t[id].companion != s.companion ==> Untouched(s, id))
  {
    SweptIs(s, |s.ids|);
    hide Save.RowFor, Save.Swept;
  }

  lemma {:induction false} NextIdGrows(s: Save, i: nat)
    requires s.Sane() && i <= |s.running|
    ensures s.Written(i).nextId >= s.was.nextId
  {
    if i == 0 {
      SweptIs(s, |s.ids|);
    } else {
      NextIdGrows(s, i - 1);
    }
  }

  /** A row being written is no other running channel's, nor one that stays. */
  lemma {:induction false} IdsApart(s: Save, i: nat)
    requires s.Sane() && i < |s.running| && Midway(s, i, s.Written(i))
    ensures forall j | 0 <= j < |s.running| && j != i && (j < i || s.RowFor(j) >= 0) :: s.IdOf(j) != s.IdOf(i)
    ensures forall k | 0 <= k < |s.ids| && s.Stays(k) :: s.IdOf(i) != s.ids[k]
    ensures forall id | Untouched(s, id) :: s.IdOf(i) != id
  {
    hide Save.Wanted, Save.FirstNamed, Save.FirstRenamed, Save.Written, Save.Differs;
    forall j | 0 <= j < |s.running| && j != i && (j < i || s.RowFor(j) >= 0) ensures s.IdOf(j) != s.IdOf(i) {
      if s.RowFor(i) >= 0 {
        NextIdGrows(s, j);
        if i < j { ClaimsAreInjective(s, i, j); } else { ClaimsAreInjective(s, j, i); }
      }
    }
    forall k | 0 <= k < |s.ids| && s.Stays(k) ensures s.IdOf(i) != s.ids[k] {
      assert s.RowFor(i) != k;
    }
  }

  /** One step writes the channel's own row and no other. */
  lemma {:induction false} StepWritesOneRow(s: Save, i: nat)
    requires s.Sane() && i < |s.running| && Midway(s, i, s.Written(i))
    ensures var was, now, id0 := s.Written(i), s.Written(i + 1), s.IdOf(i);
      && now.table == was.table[id0 := s.Kept(i)]
      && was.nextId <= now.nextId && (forall id | id in now.table :: id < now.nextId)
  {
  }

  lemma {:induction false} MidwayStep(s: Save, i: nat)
    requires s.Sane() && i < |s.running| && Midway(s, i, s.Written(i))
    ensures Midway(s, i + 1, s.Written(i + 1))
  {
    hide Save.Sane, Save.Listed, Save.Row, Save.Stays, Save.Wanted, Save.Written, Save.IdOf, Save.Kept, Save.RowFor,
      Accounted;
    StepWritesOneRow(s, i);
    IdsApart(s, i);
    var t := s.Written(i + 1).table;
    assert t[s.IdOf(i)].companion == s.companion by { KeptIs(s, i); }
    forall id | id in t && t[id].companion == s.companion ensures Accounted(s, i + 1, id) {
      StillAccounted(s, i, id);
    }
  }

  lemma KeptIs(s: Save, i: nat)
    requires s.Listed() && i < |s.running|
    ensures var r := s.running[i];
      s.Kept(i) == Channel(s.companion, r.name, r.privateKey, ScopeOrInherit(r.scope), s.SlotFor(i, s.Written(i)))
  {
  }

  lemma StillAccounted(s: Save, i: nat, id: int)
    requires s.Listed() && i < |s.running|
    requires id == s.IdOf(i) || Accounted(s, i, id)
    ensures Accounted(s, i + 1, id)
  {
    hide IsListing, Save.Stays, Save.IdOf, Save.RowFor;
  }

  lemma {:induction false} MidwayHolds(s: Save, i: nat)
    requires s.Sane() && i <= |s.running|
    ensures Midway(s, i, s.Written(i))
  {
    hide *;
    if i == 0 {
      MidwayStarts(s);
    } else {
      MidwayHolds(s, i - 1);
      MidwayStep(s, i - 1);
    }
  }

  /** The table's unique names never refuse a write: at each step the name is free but for the channel's own row. */
  lemma NeverRefused(s: Save, i: nat)
    requires s.Sane() && i < |s.running|
    ensures !NameTaken(s.Written(i).table, s.companion, s.running[i].name,
                       if s.RowFor(i) >= 0 then {s.ids[s.RowFor(i)]} else {})
  {
    MidwayHolds(s, i);
    forall id | id in s.Written(i).table && s.Written(i).table[id].companion == s.companion &&
      s.Written(i).table[id].name == s.running[i].name
      ensures s.RowFor(i) >= 0 && id == s.ids[s.RowFor(i)]
    {
      NameIsItsOwn(s, i, id);
    }
  }

  lemma {:induction false} NameIsItsOwn(s: Save, i: nat, id: int)
    requires s.Sane() && i < |s.running| && Midway(s, i, s.Written(i))
    requires id in s.Written(i).table && s.Written(i).table[id].companion == s.companion &&
      s.Written(i).table[id].name == s.running[i].name
    ensures s.RowFor(i) >= 0 && s.IdOf(i) == id
  {
    hide Save.Sane, IsListing, Save.Written, Save.RowFor, Save.SlotFor, Save.Stays, Untouched;
    assert Accounted(s, i, id);
    if k :| 0 <= k < |s.ids| && s.Stays(k) && s.ids[k] == id {
      StayingNamesAreNotRun(s, k, i);
    } else if j :| i <= j < |s.running| && s.RowFor(j) >= 0 && s.IdOf(j) == id {
      if j != i {
        ClaimedNamesAreApart(s, j, i);
      }
    } else {
      RunningNamesApart(s);
    }
  }

  lemma RunningNamesApart(s: Save)
    requires s.Sane()
    ensures forall i, j | 0 <= i < j < |s.running| :: s.running[i].name != s.running[j].name
  {
  }

  lemma StayingNamesAreNotRun(s: Save, k: nat, i: nat)
    requires s.Sane() && i < |s.running| && k < |s.ids| && s.Stays(k)
    ensures s.Row(k).name != s.running[i].name
  {
    SameNameSameRow(s, i, k);
    assert s.RowFor(i) != k;
  }

  lemma ClaimedNamesAreApart(s: Save, j: nat, i: nat)
    requires s.Sane() && i < |s.running| && j < |s.running| && i != j && s.RowFor(j) >= 0
    ensures s.Row(s.RowFor(j)).name != s.running[i].name
  {
    SameNameSameRow(s, j, s.RowFor(j));
    assert s.Runs(s.running[i].name);
  }

  /** A row of the companion's after a save: one that stayed, or the one a running channel ended in. */
  lemma FinalRow(s: Save, id: int) returns (k: int, j: int)
    requires s.Sane() && id in s.Final().table && s.Final().table[id].companion == s.companion
    ensures (0 <= k < |s.ids| && s.Stays(k) && s.ids[k] == id && s.Final().table[id] == s.Row(k))
         || (0 <= j < |s.running| && s.IdOf(j) == id && s.Final().table[id] == s.Kept(j))
  {
    var n := |s.running|;
    MidwayHolds(s, n);
    hide Save.Sane, IsListing, Save.Written, Save.RowFor, Save.Kept, Save.Stays, Untouched;
    assert Accounted(s, n, id);
    k, j := -1, -1;
    if m :| 0 <= m < |s.ids| && s.Stays(m) && s.ids[m] == id {
      k := m;
    } else {
      j :| 0 <= j < n && s.IdOf(j) == id;
    }
  }

  lemma ChannelIsStored(s: Save, i: nat)
    requires s.Sane() && i < |s.running|
    ensures s.IdOf(i) in s.Final().table && s.Final().table[s.IdOf(i)] == s.Kept(i)
    ensures var c, r := s.Kept(i), s.running[i];
      c.companion == s.companion && c.name == r.name && c.privateKey == r.privateKey &&
        c.scope == ScopeOrInherit(r.scope)
  {
    MidwayHolds(s, |s.running|);
    KeptIs(s, i);
    hide Save.Sane, IsListing, Save.Written, Save.RowFor, Save.SlotFor, Save.Stays, Save.IdOf, Untouched, Accounted;
  }

  /** After a save each running channel has exactly one row, holding its name, key and scope. */
  lemma EachChannelHasOneRow(s: Save, i: nat)
    requires s.Sane() && i < |s.running|
    ensures s.IdOf(i) in s.Final().table
    ensures var c, r := s.Final().table[s.IdOf(i)], s.running[i];
      c.companion == s.companion && c.name == r.name && c.privateKey == r.privateKey &&
        c.scope == ScopeOrInherit(r.scope)
    ensures forall id | id in s.Final().table && s.Final().table[id].companion == s.companion &&
      s.Final().table[id].name == s.running[i].name ::
      id == s.IdOf(i)
  {
    ChannelIsStored(s, i);
    RunningNamesApart(s);
    hide Save.Sane, IsListing, Save.Written, Save.Final, Save.RowFor, Save.Stays, Save.IdOf, Save.Kept;
    var t, name := s.Final().table, s.running[i].name;
    forall id | id in t && t[id].companion == s.companion && t[id].name == name ensures id == s.IdOf(i) {
      var k, j := FinalRow(s, id);
      if 0 <= k < |s.ids| && s.Stays(k) && t[id] == s.Row(k) {
        StayingNamesAreNotRun(s, k, i);
      } else {
        KeptIs(s, j);
      }
    }
  }

  /** A row no channel claims is left as it was, or deleted when the node let its name go; other companions' rows
      are left alone. */
  lemma UnclaimedSurvivesUnlessDropped(s: Save, k: nat)
    requires s.Sane() && k < |s.ids| && !s.Claimed(k)
    ensures s.ids[k] in s.Final().table <==> s.Row(k).name !in s.dropped
    ensures s.ids[k] in s.Final().table ==> s.Final().table[s.ids[k]] == s.Row(k)
  {
    var n, t, id := |s.running|, s.Final().table, s.ids[k];
    MidwayHolds(s, n);
    UnclaimedIsNoChannels(s, k);
    hide Save.Sane, Save.Written, Save.RowFor, Save.SlotFor;
    assert !Untouched(s, id);
    if id in t {
      assert Accounted(s, n, id);
      var m :| 0 <= m < |s.ids| && s.Stays(m) && s.ids[m] == id;
      ListedOnce(s, m, k);
    }
  }

  lemma ListedOnce(s: Save, m: nat, k: nat)
    requires s.Listed() && m < |s.ids| && k < |s.ids| && s.ids[m] == s.ids[k]
    ensures m == k
  {
  }

  lemma UnclaimedIsNoChannels(s: Save, k: nat)
    requires s.Sane() && k < |s.ids| && !s.Claimed(k)
    ensures forall j | 0 <= j < |s.running| :: s.IdOf(j) != s.ids[k]
  {
    forall j | 0 <= j < |s.running| ensures s.IdOf(j) != s.ids[k] {
      NextIdGrows(s, j);
      assert s.RowFor(j) != k;
    }
  }

  lemma OthersAreUntouched(s: Save, id: int)
    requires s.Sane()
    ensures Untouched(s, id) <==> id in s.Final().table && s.Final().table[id].companion != s.companion
    ensures Untouched(s, id) ==> s.Final().table[id] == s.was.table[id]
  {
    MidwayHolds(s, |s.running|);
    hide Save.Sane, IsListing, Save.Written, Accounted;
  }

  /** A channel stored under its name keeps that row, and one renamed in place keeps the row of its old name. */
  lemma RowIdsAreKept(s: Save, i: nat, k: nat)
    requires s.Sane() && i < |s.running| && k < |s.ids|
    ensures s.Named(i, k) ==> s.IdOf(i) == s.ids[k]
    ensures s.Renamed(i, k) ==> s.RowFor(i) >= 0 && s.IdOf(i) == s.ids[s.RowFor(i)]
  {
    SameNameSameRow(s, i, k);
  }

  // ---------------------------------------------------------------------------------------------
  // A second save
  // ---------------------------------------------------------------------------------------------

  /** The same save over what the first one left. */
  ghost function Again(s: Save, ids: seq<int>): Save
    requires s.Listed()
  {
    s.(was := s.Final(), ids := ids)
  }

  lemma FinalNamesApart(s: Save, a: int, b: int)
    requires s.Sane() && a != b && a in s.Final().table && b in s.Final().table
    requires s.Final().table[a].companion == s.companion && s.Final().table[b].companion == s.companion
    ensures s.Final().table[a].name != s.Final().table[b].name
  {
    var ka, ja := FinalRow(s, a);
    var kb, jb := FinalRow(s, b);
    if 0 <= ja < |s.running| && s.IdOf(ja) == a {
      EachChannelHasOneRow(s, ja);
    } else if 0 <= jb < |s.running| && s.IdOf(jb) == b {
      EachChannelHasOneRow(s, jb);
    }
  }

  lemma AgainIsSane(s: Save, ids: seq<int>)
    requires s.Sane() && IsListing(s.Final().table, s.companion, ids)
    ensures Again(s, ids).Sane()
  {
    var n, t, s2 := |s.running|, s.Final().table, Again(s, ids);
    MidwayHolds(s, n);
    forall a, b | 0 <= a < b < |ids| ensures t[ids[a]].name != t[ids[b]].name {
      FinalNamesApart(s, ids[a], ids[b]);
    }
    forall k | 0 <= k < |ids| ensures t[ids[k]].scope != "" {
      var m, j := FinalRow(s, ids[k]);
    }
  }

  /** Every running channel's row is found again by its name. */
  lemma AgainFinds(s: Save, ids: seq<int>, i: nat)
    requires s.Sane() && IsListing(s.Final().table, s.companion, ids) && i < |s.running|
    ensures Again(s, ids).RowFor(i) >= 0 && ids[Again(s, ids).RowFor(i)] == s.IdOf(i)
    ensures Again(s, ids).Row(Again(s, ids).RowFor(i)) == s.Kept(i)
  {
    AgainIsSane(s, ids);
    EachChannelHasOneRow(s, i);
    MidwayHolds(s, |s.running|);
    hide Save.RowFor, Save.Written, Save.SlotFor, Save.Stays, Accounted, Untouched;
    var k :| 0 <= k < |ids| && ids[k] == s.IdOf(i);
    SameNameSameRow(Again(s, ids), i, k);
  }

  /** What the second save leaves alone is what the first left alone, and it finds nothing to delete. */
  lemma AgainLeavesTheSame(s: Save, ids: seq<int>, k: nat)
    requires s.Sane() && IsListing(s.Final().table, s.companion, ids) && k < |ids|
    ensures !Again(s, ids).Gone(k)
    ensures Again(s, ids).Stays(k) ==> exists m :: 0 <= m < |s.ids| && s.Stays(m) && s.Row(m) == Again(s, ids).Row(k)
  {
    var s2 := Again(s, ids);
    var m, j := FinalRow(s, ids[k]);
    if 0 <= j < |s.running| && s.IdOf(j) == ids[k] {
      AgainFinds(s, ids, j);
      ListedOnce(s2, s2.RowFor(j), k);
      assert s2.Claimed(k);
    }
  }

  lemma AgainShutsTheSame(s: Save, ids: seq<int>, slot: nat)
    requires s.Sane() && IsListing(s.Final().table, s.companion, ids)
    ensures Again(s, ids).Shut(slot) <==> s.Shut(slot)
  {
    var s2 := Again(s, ids);
    if k :| 0 <= k < |ids| && s2.Stays(k) && s2.Row(k).slot == slot {
      AgainLeavesTheSame(s, ids, k);
    }
    if m :| 0 <= m < |s.ids| && s.Stays(m) && s.Row(m).slot == slot {
      MidwayHolds(s, |s.running|);
      var k :| 0 <= k < |ids| && ids[k] == s.ids[m];
      AgainClaimsNoStayer(s, ids, m, k);
    }
  }

  lemma AgainClaimsNoStayer(s: Save, ids: seq<int>, m: nat, k: nat)
    requires s.Sane() && IsListing(s.Final().table, s.companion, ids)
    requires m < |s.ids| && s.Stays(m) && k < |ids| && ids[k] == s.ids[m]
    ensures Again(s, ids).Stays(k) && Again(s, ids).Row(k) == s.Row(m)
  {
    var s2 := Again(s, ids);
    MidwayHolds(s, |s.running|);
    if s2.Claimed(k) {
      var i :| 0 <= i < |s.running| && s2.RowFor(i) == k;
      AgainFinds(s, ids, i);
      StayingNamesAreNotRun(s, m, i);
    }
  }

  /** Only a running channel whose scope is unset differs from its row again: it was stored as inherit. */
  lemma AgainDiffers(s: Save, ids: seq<int>, i: nat)
    requires s.Sane() && IsListing(s.Final().table, s.companion, ids) && i < |s.running|
    ensures Again(s, ids).RowFor(i) >= 0
    ensures Again(s, ids).Differs(i) <==> s.running[i].scope == ""
    ensures forall db :: Again(s, ids).Wanted(i, db) == s.Kept(i)
  {
    AgainFinds(s, ids, i);
    AgainShutsTheSame(s, ids, s.running[i].slot);
    hide Save.RowFor, Save.Written, Save.Shut, Save.Row;
  }

  lemma {:induction false} AgainSweepsNothing(s: Save, ids: seq<int>, k: nat)
    requires s.Sane() && IsListing(s.Final().table, s.companion, ids) && k <= |ids|
    ensures Again(s, ids).Swept(k) == s.Final()
    decreases k
  {
    if k > 0 {
      AgainSweepsNothing(s, ids, k - 1);
      AgainLeavesTheSame(s, ids, k - 1);
    }
  }

  ghost predicate AllScoped(running: seq<Ref>, n: nat)
    requires n <= |running|
  {
    forall j | 0 <= j < n :: running[j].scope != ""
  }

  lemma OneMoreScoped(running: seq<Ref>, n: nat)
    requires n < |running|
    ensures AllScoped(running, n + 1) <==> AllScoped(running, n) && running[n].scope != ""
  {
  }

  lemma AgainBegins(s: Save, ids: seq<int>)
    requires s.Sane() && IsListing(s.Final().table, s.companion, ids)
    ensures Again(s, ids).Written(0) == s.Final()
  {
    AgainSweepsNothing(s, ids, |ids|);
  }

  lemma {:induction false} AgainWrites(s: Save, ids: seq<int>, i: nat)
    requires s.Sane() && IsListing(s.Final().table, s.companion, ids) && i <= |s.running|
    ensures Again(s, ids).Written(i).table == s.Final().table && Again(s, ids).Written(i).nextId == s.Final().nextId
    ensures Again(s, ids).Written(i).writes >= s.Final().writes
    ensures Again(s, ids).Written(i).writes == s.Final().writes <==> AllScoped(s.running, i)
    decreases i
  {
    hide Save.Sane, IsListing, Save.Listed;
    if i == 0 {
      hide Save.Written, Save.Final;
      AgainBegins(s, ids);
    } else {
      hide Save.Written, Save.RowFor, Save.Final, AllScoped;
      AgainWrites(s, ids, i - 1);
      AgainStep(s, ids, i - 1);
      OneMoreScoped(s.running, i - 1);
    }
  }

  lemma AgainStep(s: Save, ids: seq<int>, i: nat)
    requires s.Sane() && IsListing(s.Final().table, s.companion, ids) && i < |s.running|
    requires Again(s, ids).Written(i).table == s.Final().table
    ensures var was, now := Again(s, ids).Written(i), Again(s, ids).Written(i + 1);
      now.table == was.table && now.nextId == was.nextId &&
        now.writes == was.writes + if s.running[i].scope == "" then 1 else 0
  {
    AgainDiffers(s, ids, i);
    AgainFinds(s, ids, i);
    ChannelIsStored(s, i);
    hide Save.RowFor, Save.Wanted, Save.Differs, IsListing, Save.Sane, Save.Kept, Save.IdOf, Save.Final;
    assert s.Final().table[s.IdOf(i) := s.Kept(i)] == s.Final().table;
  }

  /** Saving again changes nothing, and writes nothing exactly when no running channel's scope is unset. */
  lemma SecondSaveWritesNothing(s: Save, ids: seq<int>)
    requires s.Sane() && IsListing(s.Final().table, s.companion, ids)
    ensures Again(s, ids).Final().table == s.Final().table
    ensures Again(s, ids).Final().writes == s.Final().writes <==>
      forall i | 0 <= i < |s.running| :: s.running[i].scope != ""
  {
    AgainWrites(s, ids, |s.running|);
  }

  // ---------------------------------------------------------------------------------------------
  // No slot twice
  // ---------------------------------------------------------------------------------------------

  ghost predicate SlotsApart(t: Table, companion: int)
  {
    forall a, b | a in t && b in t && a != b && t[a].companion == companion && t[b].companion == companion ::
      t[a].slot != t[b].slot
  }

  /** A channel is put in the slot another one runs in. */
  ghost predicate Meets(s: Save, i: nat, j: nat)
    requires s.Listed() && i < |s.running| && j < |s.running|
  {
    s.Shut(s.running[i].slot) && !s.Shut(s.running[j].slot) && s.SlotFor(i, s.Written(i)) == s.running[j].slot
  }

  /** The channel's slot is shut and the other's is not; and the first one's row has the other's slot, or, without a
      row, it takes a free slot that a later one runs in and has no row in. */
  ghost predicate Crowds(s: Save, i: nat, j: nat)
    requires s.Listed() && i < |s.running| && j < |s.running|
  {
    && s.Shut(s.running[i].slot) && !s.Shut(s.running[j].slot)
    && if s.RowFor(i) >= 0 then s.Row(s.RowFor(i)).slot == s.running[j].slot
       else
         && i < j && (s.RowFor(j) >= 0 ==> s.Row(s.RowFor(j)).slot != s.running[j].slot)
         && LowestFree(0, s.InUse(i)) == s.running[j].slot
  }

  /** The slots in use midway through the save are the ones worked out before it. */
  lemma {:induction false} SlotsAreInUse(s: Save, i: nat)
    requires s.Sane() && i <= |s.running|
    ensures Slots(s.Written(i).table, s.companion) == s.InUse(i)
    ensures forall j | 0 <= j < i :: s.Kept(j).slot == s.Place(j)
    decreases i
  {
    forall j | 0 <= j < i ensures s.Kept(j).slot == s.Place(j) {
      SlotsAreInUse(s, j);
      KeptIs(s, j);
    }
    MidwayHolds(s, i);
    SlotsMidway(s, i);
  }

  lemma {:induction false} SlotsMidway(s: Save, i: nat)
    requires s.Sane() && i <= |s.running| && Midway(s, i, s.Written(i))
    requires forall j | 0 <= j < i :: s.Kept(j).slot == s.Place(j)
    ensures Slots(s.Written(i).table, s.companion) == s.InUse(i)
  {
    hide Save.Sane, IsListing, Save.Written, Save.RowFor, Save.Stays, Save.IdOf, Save.Place, Untouched;
    var t := s.Written(i).table;
    forall id | id in t && t[id].companion == s.companion ensures t[id].slot in s.InUse(i) {
      assert Accounted(s, i, id);
      if k :| 0 <= k < |s.ids| && s.Stays(k) && s.ids[k] == id {
        assert t[id] == s.Row(k);
      } else if j :| i <= j < |s.running| && s.RowFor(j) >= 0 && s.IdOf(j) == id {
        assert t[id] == s.Row(s.RowFor(j));
      } else {
        var j :| 0 <= j < i && s.IdOf(j) == id;
        assert t[id] == s.Kept(j);
      }
    }
    forall k | 0 <= k < |s.ids| && s.Stays(k) ensures s.Row(k).slot in Slots(t, s.companion) {
      RowIsOurs(s, k);
      SlotIsTaken(t, s.companion, s.ids[k]);
    }
    forall j | i <= j < |s.running| && s.RowFor(j) >= 0 ensures s.Row(s.RowFor(j)).slot in Slots(t, s.companion) {
      RowIsOurs(s, s.RowFor(j));
      SlotIsTaken(t, s.companion, s.IdOf(j));
    }
    forall j | 0 <= j < i ensures s.Place(j) in Slots(t, s.companion) {
      KeptIs(s, j);
      SlotIsTaken(t, s.companion, s.IdOf(j));
    }
  }

  lemma SlotIsTaken(t: Table, companion: int, id: int)
    requires id in t && t[id].companion == companion
    ensures t[id].slot in Slots(t, companion)
  {
  }

  lemma RowIsOurs(s: Save, k: nat)
    requires s.Listed() && k < |s.ids|
    ensures s.Row(k).companion == s.companion
  {
  }

  /** What the save gives a channel is the place worked out before it. */
  lemma PlaceIsKept(s: Save, i: nat)
    requires s.Sane() && i < |s.running|
    ensures s.SlotFor(i, s.Written(i)) == s.Place(i)
  {
    SlotsAreInUse(s, i);
    hide Save.Sane, IsListing, Save.Written, Save.RowFor, Save.Stays, Save.Shut, Save.InUse, Slots;
  }

  /** A slot a channel before it runs in, or that a later one has its row in, is none it finds free. */
  lemma FreeForALaterOne(s: Save, i: nat, j: nat)
    requires s.Sane() && i < |s.running| && j < |s.running|
    requires s.Shut(s.running[i].slot) && !s.Shut(s.running[j].slot) && LowestFree(0, s.InUse(i)) == s.running[j].slot
    ensures i < j && (s.RowFor(j) >= 0 ==> s.Row(s.RowFor(j)).slot != s.running[j].slot)
  {
    hide Save.Sane, IsListing, Save.Written, Save.RowFor, Save.Stays, Save.Shut;
    if j < i {
      PlacedIsInUse(s, i, j);
    }
  }

  lemma PlacedIsInUse(s: Save, i: nat, j: nat)
    requires s.Listed() && j < i < |s.running| && !s.Shut(s.running[j].slot)
    ensures s.running[j].slot in s.InUse(i)
  {
    assert s.Place(j) in s.InUse(i);
  }

  lemma MeetingIsCrowding(s: Save, i: nat, j: nat)
    requires s.Sane() && i < |s.running| && j < |s.running|
    ensures Meets(s, i, j) <==> Crowds(s, i, j)
  {
    PlaceIsKept(s, i);
    hide Save.Sane, IsListing, Save.Written, Save.RowFor, Save.Stays, Save.Shut, Save.InUse, Save.SlotFor;
    if s.Shut(s.running[i].slot) && !s.Shut(s.running[j].slot) && LowestFree(0, s.InUse(i)) == s.running[j].slot {
      FreeForALaterOne(s, i, j);
    }
  }

  lemma StayerKeepsItsSlot(s: Save, k: nat, i: nat)
    requires s.Sane() && SlotsApart(s.was.table, s.companion) && k < |s.ids| && s.Stays(k) && i < |s.running|
    ensures s.Kept(i).slot != s.Row(k).slot
  {
    MidwayHolds(s, i);
    hide Save.Sane, Save.Written, Save.RowFor, Accounted, Untouched, Save.FirstNamed, Save.FirstRenamed;
    if s.RowFor(i) >= 0 {
      assert s.RowFor(i) != k;
    }
  }

  lemma ChannelsKeepApart(s: Save, i: nat, j: nat)
    requires s.Sane() && SlotsApart(s.was.table, s.companion) && i < j < |s.running|
    ensures s.Kept(i).slot == s.Kept(j).slot <==> Meets(s, i, j) || Meets(s, j, i)
  {
    MidwayHolds(s, i);
    MidwayHolds(s, j);
    ClaimsAreInjective(s, i, j);
    hide Save.Written, Save.RowFor, Accounted, Untouched;
  }

  lemma ChannelAndRowApart(s: Save, a: int, b: int, i: nat)
    requires s.Sane() && SlotsApart(s.was.table, s.companion) && i < |s.running| && s.IdOf(i) == a && a != b
    requires b in s.Final().table && s.Final().table[b].companion == s.companion
    requires s.Kept(i).slot == s.Final().table[b].slot
    ensures exists m, n :: 0 <= m < |s.running| && 0 <= n < |s.running| && Meets(s, m, n)
  {
    hide Save.Written, Save.RowFor, Save.Stays, Save.Sane, Save.IdOf, SlotsApart, Save.Kept, IsListing, Meets;
    var k, j := FinalRow(s, b);
    if 0 <= k < |s.ids| && s.Stays(k) && s.ids[k] == b && s.Final().table[b] == s.Row(k) {
      StayerKeepsItsSlot(s, k, i);
    } else {
      ChannelsKeepApart(s, if i < j then i else j, if i < j then j else i);
    }
  }

  lemma RowsApart(s: Save, k: nat, m: nat)
    requires s.Sane() && SlotsApart(s.was.table, s.companion) && k < |s.ids| && m < |s.ids| && s.ids[k] != s.ids[m]
    ensures s.Row(k).slot != s.Row(m).slot
  {
  }

  lemma CrowdedChannels(s: Save, i: nat, j: nat)
    requires s.Sane() && SlotsApart(s.was.table, s.companion) && i < |s.running| && j < |s.running| && Meets(s, i, j)
    ensures s.IdOf(i) != s.IdOf(j) && s.Kept(i).slot == s.Kept(j).slot
  {
    assert i != j;
    if i < j { ChannelsKeepApart(s, i, j); } else { ChannelsKeepApart(s, j, i); }
    hide Save.RowFor, Save.Shut, Save.SlotFor, Save.IdOf, Save.Kept, Save.Final, Save.Sane;
    ChannelIsStored(s, i);
    ChannelIsStored(s, j);
    RunningNamesApart(s);
  }

  lemma SlotsEndApartUnlessTheyMeet(s: Save)
    requires s.Sane() && SlotsApart(s.was.table, s.companion)
    ensures SlotsApart(s.Final().table, s.companion) <==>
            forall i, j | 0 <= i < |s.running| && 0 <= j < |s.running| :: !Meets(s, i, j)
  {
    hide Save.Sane, Save.Written, Save.RowFor, Save.Stays, Save.IdOf, Save.Kept, Save.Listed, Save.Final, Meets;
    var t, n := s.Final().table, |s.running|;
    if !SlotsApart(t, s.companion) {
      var a, b :| a in t && b in t && a != b && t[a].companion == s.companion && t[b].companion == s.companion &&
        t[a].slot == t[b].slot;
      var ka, ja := FinalRow(s, a);
      var kb, jb := FinalRow(s, b);
      if 0 <= ja < n && s.IdOf(ja) == a && t[a] == s.Kept(ja) {
        ChannelAndRowApart(s, a, b, ja);
      } else if 0 <= jb < n && s.IdOf(jb) == b && t[b] == s.Kept(jb) {
        ChannelAndRowApart(s, b, a, jb);
      } else {
        RowsApart(s, ka, kb);
      }
    }
    if i, j :| 0 <= i < n && 0 <= j < n && Meets(s, i, j) {
      ChannelIsStored(s, i);
      ChannelIsStored(s, j);
      CrowdedChannels(s, i, j);
    }
  }

  /** From rows each in a slot of its own, a save leaves two in one slot exactly when, in the rows and the running
      channels it is given, a channel whose slot is shut crowds another. */
  lemma SlotsEndApart(s: Save)
    requires s.Sane() && SlotsApart(s.was.table, s.companion)
    ensures SlotsApart(s.Final().table, s.companion) <==>
            forall i, j | 0 <= i < |s.running| && 0 <= j < |s.running| :: !Crowds(s, i, j)
  {
    SlotsEndApartUnlessTheyMeet(s);
    forall i, j | 0 <= i < |s.running| && 0 <= j < |s.running| ensures Meets(s, i, j) <==> Crowds(s, i, j) {
      MeetingIsCrowding(s, i, j);
    }
    hide Save.Sane, Meets, Crowds, SlotsApart, Save.Final;
  }

  /** So they end apart whenever no row that is left alone holds a slot that a channel runs in. */
  lemma FreeSlotsEndApart(s: Save)
    requires s.Sane() && SlotsApart(s.was.table, s.companion)
    requires forall i | 0 <= i < |s.running| :: !s.Shut(s.running[i].slot)
    ensures SlotsApart(s.Final().table, s.companion)
  {
    SlotsEndApart(s);
    hide SlotsApart, Save.Sane, Save.Shut;
  }

  /** It happens: a row held for later in slot 0 sends the new channel of slot 0 to slot 1, where the next one runs. */
  lemma TwoInOneSlot(companion: int, keyOf: (string, string) -> seq<int>) returns (s: Save)
    ensures s.Sane() && SlotsApart(s.was.table, s.companion) && !SlotsApart(s.Final().table, s.companion)
  {
    var t: Table := map[1 := Channel(companion, "later", "", "inherit", 0)];
    s := Save(Db(t, 2, 0), companion, [1], [Ref("a", "", "inherit", 0), Ref("b", "", "inherit", 1)], {}, keyOf);
    assert s.ids[0] == 1 && s.Row(0).name == "later" && |s.ids| == 1;
    assert s.running[0].name == "a" && s.running[1].name == "b";
    NoRowFor(s, 0);
    NoRowFor(s, 1);
    assert s.Stays(0) && s.Row(0).slot == 0;
    assert s.running[0].slot == 0 && s.running[1].slot == 1;
    assert s.Shut(0) && !s.Shut(1);
    assert s.InUse(0) == {0};
    assert LowestFree(0, {0}) == LowestFree(1, {0} - {0}) == 1;
    assert Crowds(s, 0, 1);
    SlotsEndApart(s);
  }

  lemma NoRowFor(s: Save, i: nat)
    requires s.Listed() && i < |s.running| && forall k | 0 <= k < |s.ids| :: !s.Named(i, k) && !s.Renamed(i, k)
    ensures s.RowFor(i) == -1
  {
  }

  // ---------------------------------------------------------------------------------------------
  // The save itself
  // ---------------------------------------------------------------------------------------------

  /** The channel rows of every companion; ids are never used again. */
  class ChannelRepo {
    var table: Table
    var nextId: int
    ghost var writes: nat

    ghost function Now(): Db
      reads this
    {
      Db(table, nextId, writes)
    }

    method ListByCompanion(companion: int) returns (ids: seq<int>)
      ensures IsListing(table, companion, ids)
    {
      ids := [];
      var left := set id | id in table && table[id].companion == companion;
      while left != {}
        invariant forall id | id in left :: id in table && table[id].companion == companion
        invariant forall k | 0 <= k < |ids| :: ids[k] in table && table[ids[k]].companion == companion
        invariant forall id | id in table && table[id].companion == companion :: id in left || id in ids
        invariant forall a, b | 0 <= a < b < |ids| :: Before(table, ids[a], ids[b])
        invariant forall k, id | 0 <= k < |ids| && id in left :: Before(table, ids[k], id)
        decreases left
      {
        ghost var first := FirstOf(table, left);
        var id :| id in left && forall other | other in left && other != id :: Before(table, id, other);
        left, ids := left - {id}, ids + [id];
      }
    }

    /** Without a slot the row takes the lowest one the companion has free. */
    method Create(companion: int, name: string, privateKey: string, scope: string, slot: Option<nat>)
      returns (refused: bool)
      modifies this
      ensures refused <==> NameTaken(old(table), companion, name, {})
      ensures refused ==> Now() == old(Now())
      ensures !refused ==> Now() == Inserted(old(Now()), Channel(companion, name, privateKey, ScopeOrInherit(scope),
        if slot.Some? then slot.value else LowestFree(0, Slots(old(table), companion))))
    {
      refused := exists id | id in table :: table[id].companion == companion && table[id].name == name;
      if refused {
        return;
      }
      var s := if slot.Some? then slot.value else LowestFree(0, Slots(table, companion));
      table := table[nextId := Channel(companion, name, privateKey, ScopeOrInherit(scope), s)];
      nextId, writes := nextId + 1, writes + 1;
    }

    /** Without a slot the row keeps the one it has. */
    method Update(id: int, companion: int, name: string, privateKey: string, scope: string, slot: Option<nat>)
      returns (refused: bool)
      requires id in table && table[id].companion == companion
      modifies this
      ensures refused <==> NameTaken(old(table), companion, name, {id})
      ensures refused ==> Now() == old(Now())
      ensures !refused ==> Now() == Replaced(old(Now()), id, Channel(companion, name, privateKey, ScopeOrInherit(scope),
        if slot.Some? then slot.value else old(table[id].slot)))
    {
      refused := exists other | other in table ::
        other != id && table[other].companion == companion && table[other].name == name;
      if refused {
        return;
      }
      var s := if slot.Some? then slot.value else table[id].slot;
      table := table[id := Channel(companion, name, privateKey, ScopeOrInherit(scope), s)];
      writes := writes + 1;
    }

    method Delete(id: int)
      modifies this
      ensures Now() == Removed(old(Now()), id)
    {
      table, writes := table - {id}, writes + 1;
    }
  }

  /** The first row not taken that matches is taken. */
  method Claim(taken: array<bool>, match_: nat -> bool) returns (found: int)
    modifies taken
    ensures -1 <= found < taken.Length
    ensures found == -1 ==> taken[..] == old(taken[..]) && forall k | 0 <= k < taken.Length :: taken[k] || !match_(k)
    ensures found >= 0 ==> taken[..] == old(taken[..])[found := true] && !old(taken[found]) && match_(found)
    ensures found >= 0 ==> forall k | 0 <= k < found :: old(taken[k]) || !match_(k)
  {
    for i := 0 to taken.Length
      invariant taken[..] == old(taken[..])
      invariant forall k | 0 <= k < i :: taken[k] || !match_(k)
    {
      if !taken[i] && match_(i) {
        taken[i] := true;
        return i;
      }
    }
    found := -1;
  }

  /** A row is marked taken exactly when some channel has it. */
  ghost predicate Marks(row: seq<int>, taken: seq<bool>)
  {
    forall k | 0 <= k < |taken| :: taken[k] <==> exists j :: 0 <= j < |row| && row[j] == k
  }

  lemma MarksStep(row: seq<int>, taken: seq<bool>, i: nat, k: nat)
    requires Marks(row, taken) && i < |row| && row[i] == -1 && k < |taken|
    ensures Marks(row[i := k], taken[k := true])
  {
    var row2, taken2 := row[i := k], taken[k := true];
    forall m | 0 <= m < |taken2| ensures taken2[m] <==> exists j :: 0 <= j < |row2| && row2[j] == m {
      if j :| 0 <= j < |row| && row[j] == m {
        assert row2[j] == m;
      }
      assert row2[i] == k;
    }
  }

  ghost predicate Reads(s: Save, rows: seq<Channel>)
  {
    s.Sane() && |rows| == |s.ids| && forall k | 0 <= k < |rows| :: rows[k] == s.Row(k)
  }

  /** Before renames are looked for: a channel has the row of its name or none, and after the second pass none only
      when there is no such row. */
  ghost predicate ByName(s: Save, row: seq<int>, done: nat)
    requires s.Sane() && |row| == |s.running|
  {
    && (forall j | 0 <= j < |row| :: row[j] == -1 || row[j] == s.FirstNamed(j, 0))
    && (forall j | 0 <= j < |row| && j < done :: row[j] == s.FirstNamed(j, 0))
  }

  lemma NamedIsFirst(s: Save, j: nat, k: nat)
    requires s.Sane() && j < |s.running| && k < |s.ids| && s.Named(j, k)
    ensures s.FirstNamed(j, 0) == k
  {
  }

  /** While only names have been matched, the row of a channel's name is free until it has it. */
  lemma NameIsFree(s: Save, row: seq<int>, taken: seq<bool>, done: nat, i: nat, k: nat)
    requires s.Sane() && |row| == |s.running| && |taken| == |s.ids| && ByName(s, row, done) && Marks(row, taken)
    requires i < |row| && row[i] == -1 && k < |taken| && s.Named(i, k)
    ensures !taken[k]
  {
    RunningNamesApart(s);
  }

  /** First by name and slot, then by name alone. */
  method ClaimByName(ghost s: Save, rows: seq<Channel>, running: seq<Ref>, row: array<int>, taken: array<bool>)
    requires Reads(s, rows) && running == s.running && row.Length == |running| && taken.Length == |rows|
    requires (forall j | 0 <= j < row.Length :: row[j] == -1) && forall k | 0 <= k < taken.Length :: !taken[k]
    modifies row, taken
    ensures ByName(s, row[..], |running|) && Marks(row[..], taken[..])
  {
    for i := 0 to |running|
      invariant ByName(s, row[..], 0) && Marks(row[..], taken[..])
      invariant forall j | i <= j < |running| :: row[j] == -1
    {
      var ref := running[i];
      var exact := (k: nat) => k < |rows| && rows[k].name == ref.name && rows[k].slot == ref.slot;
      ClaimInto(s, row, taken, i, 0, exact);
    }
    for i := 0 to |running|
      invariant ByName(s, row[..], i) && Marks(row[..], taken[..])
    {
      if row[i] < 0 {
        var ref := running[i];
        var named := (k: nat) => k < |rows| && rows[k].name == ref.name;
        ClaimInto(s, row, taken, i, i, named);
      }
    }
  }

  /** Gives channel i the first free row that matches, when only rows of its name can. */
  method ClaimInto(ghost s: Save, row: array<int>, taken: array<bool>, i: nat, ghost done: nat, match_: nat -> bool)
    requires s.Sane() && row.Length == |s.running| && taken.Length == |s.ids| && i < row.Length
    requires ByName(s, row[..], done) && Marks(row[..], taken[..]) && row[i] == -1 && done <= i
    requires forall k | 0 <= k < |s.ids| && match_(k) :: s.Named(i, k)
    modifies row, taken
    ensures ByName(s, row[..], done) && Marks(row[..], taken[..])
    ensures forall j | 0 <= j < row.Length && j != i :: row[j] == old(row[j])
    ensures (forall k | 0 <= k < |s.ids| && s.Named(i, k) :: match_(k)) ==> row[i] == s.FirstNamed(i, 0)
  {
    ghost var was, before := row[..], taken[..];
    var found := Claim(taken, match_);
    row[i] := found;
    if found >= 0 {
      NamedIsFirst(s, i, found);
      MarksStep(was, before, i, found);
      assert row[..] == was[i := found] && taken[..] == before[found := true];
    } else {
      assert row[..] == was && taken[..] == before;
      if s.FirstNamed(i, 0) >= 0 {
        NameIsFree(s, was, before, done, i, s.FirstNamed(i, 0));
      }
    }
  }

  /** After so many channels of the third pass. */
  ghost predicate ByRename(s: Save, row: seq<int>, done: nat)
    requires s.Sane() && |row| == |s.running|
  {
    forall j | 0 <= j < |row| :: row[j] == if j < done then s.RowFor(j) else s.FirstNamed(j, 0)
  }

  ghost predicate InPlace(s: Save, i: nat, k: nat)
    requires s.Listed() && i < |s.running| && k < |s.ids|
  {
    && s.Row(k).slot == s.running[i].slot && s.Row(k).name in s.dropped
    && s.keyOf(s.Row(k).name, s.Row(k).privateKey) == s.keyOf(s.running[i].name, s.running[i].privateKey)
  }

  /** Of the rows a rename could have left, those still free are the ones whose name is run no more. */
  lemma FreeIsRenamed(s: Save, row: seq<int>, taken: seq<bool>, i: nat, k: nat)
    requires s.Sane() && |row| == |s.running| && |taken| == |s.ids| && ByRename(s, row, i) && Marks(row, taken)
    requires i < |row| && row[i] == -1 && k < |taken|
    ensures !taken[k] && InPlace(s, i, k) <==> s.Renamed(i, k)
  {
    if s.Runs(s.Row(k).name) {
      RunNameIsTaken(s, row, taken, i, k);
    }
    if taken[k] && InPlace(s, i, k) {
      var j :| 0 <= j < |row| && row[j] == k;
      assert s.Named(j, k) || s.Renamed(j, k);
      assert s.Renamed(j, k) ==> j == i;
    }
  }

  lemma RunNameIsTaken(s: Save, row: seq<int>, taken: seq<bool>, i: nat, k: nat)
    requires s.Sane() && |row| == |s.running| && |taken| == |s.ids| && ByRename(s, row, i) && Marks(row, taken)
    requires k < |taken| && s.Runs(s.Row(k).name)
    ensures taken[k]
  {
    var j :| 0 <= j < |s.running| && s.running[j].name == s.Row(k).name;
    NamedIsFirst(s, j, k);
    assert row[j] == k;
  }

  /** Third pass: a channel still without a row gets the first free one of its slot and key whose name the node let
      go of. */
  method ClaimByRename(ghost s: Save, rows: seq<Channel>, running: seq<Ref>, dropped: set<string>,
                       keyOf: (string, string) -> seq<int>, row: array<int>, taken: array<bool>)
    requires Reads(s, rows) && running == s.running && dropped == s.dropped && keyOf == s.keyOf
    requires row.Length == |running| && taken.Length == |rows|
    requires ByName(s, row[..], |running|) && Marks(row[..], taken[..])
    modifies row, taken
    ensures ByRename(s, row[..], |running|) && Marks(row[..], taken[..])
  {
    for i := 0 to |running|
      invariant ByRename(s, row[..], i) && Marks(row[..], taken[..])
    {
      if row[i] < 0 {
        var ref := running[i];
        var key := keyOf(ref.name, ref.privateKey);
        ghost var was, before := row[..], taken[..];
        var inPlace := (k: nat) => k < |rows| && rows[k].slot == ref.slot && rows[k].name in dropped &&
          keyOf(rows[k].name, rows[k].privateKey) == key;
        var found := Claim(taken, inPlace);
        row[i] := found;
        forall k | 0 <= k < |rows| ensures !before[k] && InPlace(s, i, k) <==> s.Renamed(i, k) {
          FreeIsRenamed(s, was, before, i, k);
        }
        if found >= 0 {
          MarksStep(was, before, i, found);
          assert row[..] == was[i := found] && taken[..] == before[found := true];
          RenamedIsFirst(s, i, found);
        } else {
          assert row[..] == was && taken[..] == before;
        }
      }
    }
  }

  lemma RenamedIsFirst(s: Save, i: nat, k: nat)
    requires s.Sane() && i < |s.running| && k < |s.ids| && s.FirstNamed(i, 0) == -1
    requires s.Renamed(i, k) && forall m | 0 <= m < k :: !s.Renamed(i, m)
    ensures s.RowFor(i) == k
  {
  }

  /** Deletes the rows the node let go of and collects the slots of the others no channel took. */
  method Sweep(repo: ChannelRepo, ghost s: Save, rows: seq<Channel>, ids: seq<int>, dropped: set<string>,
               taken: array<bool>)
    returns (held: set<nat>)
    requires Reads(s, rows) && ids == s.ids && dropped == s.dropped && repo.Now() == s.was && taken.Length == |ids|
    requires forall k | 0 <= k < taken.Length :: taken[k] <==> s.Claimed(k)
    modifies repo
    ensures repo.Now() == s.Swept(|ids|)
    ensures forall slot :: slot in held <==> s.Shut(slot)
  {
    held := {};
    for k := 0 to |rows|
      invariant repo.Now() == s.Swept(k)
      invariant forall slot :: slot in held <==> exists m :: 0 <= m < k && s.Stays(m) && s.Row(m).slot == slot
    {
      if taken[k] {
      } else if rows[k].name in dropped {
        repo.Delete(ids[k]);
      } else {
        assert s.Stays(k);
        held := held + {rows[k].slot};
      }
    }
  }

  lemma StepIsSafe(s: Save, i: nat)
    requires s.Sane() && i < |s.running|
    ensures !NameTaken(s.Written(i).table, s.companion, s.running[i].name,
                       if s.RowFor(i) >= 0 then {s.ids[s.RowFor(i)]} else {})
    ensures s.RowFor(i) >= 0 ==>
      s.ids[s.RowFor(i)] in s.Written(i).table &&
      s.Written(i).table[s.ids[s.RowFor(i)]] == s.Row(s.RowFor(i))
    ensures s.RowFor(i) >= 0 ==> s.Row(s.RowFor(i)).companion == s.companion
  {
    NeverRefused(s, i);
    MidwayHolds(s, i);
    assert s.RowFor(i) >= 0 ==> s.IdOf(i) == s.ids[s.RowFor(i)];
  }

  /** What one channel's turn does to the table. */
  lemma WrittenNext(s: Save, i: nat)
    requires s.Sane() && i < |s.running|
    ensures var db, ref, shut := s.Written(i), s.running[i], s.Shut(s.running[i].slot);
      var scope := ScopeOrInherit(ref.scope);
      s.Written(i + 1) ==
      if s.RowFor(i) < 0 then
        Inserted(db, Channel(s.companion, ref.name, ref.privateKey, scope,
                             if shut then LowestFree(0, Slots(db.table, s.companion)) else ref.slot))
      else
        var r, id := s.Row(s.RowFor(i)), s.ids[s.RowFor(i)];
        if r.name != ref.name || r.privateKey != ref.privateKey || r.scope != ref.scope || (!shut && r.slot != ref.slot)
        then Replaced(db, id, Channel(s.companion, ref.name, ref.privateKey, scope, if shut then r.slot else ref.slot))
        else db
  {
    hide Save.Sane, Save.Shut, Save.RowFor, LowestFree, Slots, Save.Row;
  }

  /** Creates or updates one running channel's row; at is -1 for none. */
  method WriteChannel(repo: ChannelRepo, ghost s: Save, companion: int, ghost i: nat, rows: seq<Channel>,
                      ids: seq<int>, ref: Ref, at: int, held: bool)
    returns (refused: bool)
    requires Reads(s, rows) && companion == s.companion && ids == s.ids
    requires i < |s.running| && ref == s.running[i] && at == s.RowFor(i) && held == s.Shut(ref.slot)
    requires repo.Now() == s.Written(i)
    modifies repo
    ensures !refused && repo.Now() == s.Written(i + 1)
  {
    StepIsSafe(s, i);
    WrittenNext(s, i);
    hide NameTaken, Save.Sane, Save.RowFor, Save.Shut, Save.Written, LowestFree, Slots;
    var slot := if held then None else Some(ref.slot);
    if at < 0 {
      refused := repo.Create(companion, ref.name, ref.privateKey, ref.scope, slot);
      return;
    }
    refused := false;
    var r := rows[at];
    if r.name != ref.name || r.privateKey != ref.privateKey || r.scope != ref.scope ||
      (slot.Some? && r.slot != slot.value) {
      refused := repo.Update(ids[at], companion, ref.name, ref.privateKey, ref.scope, slot);
    }
  }

  /** Creates or updates each running channel's row. */
  method WriteChannels(repo: ChannelRepo, ghost s: Save, companion: int, rows: seq<Channel>, ids: seq<int>,
                       running: seq<Ref>, row: array<int>, held: set<nat>)
    returns (refused: bool)
    requires Reads(s, rows) && companion == s.companion && ids == s.ids && running == s.running &&
      row.Length == |running|
    requires repo.Now() == s.Written(0) && forall slot :: slot in held <==> s.Shut(slot)
    requires forall j | 0 <= j < row.Length :: row[j] == s.RowFor(j)
    modifies repo
    ensures !refused && repo.Now() == s.Final()
  {
    refused := false;
    for i := 0 to |running|
      invariant repo.Now() == s.Written(i)
    {
      refused := WriteChannel(repo, s, companion, i, rows, ids, running[i], row[i], running[i].slot in held);
      if refused { return; }
    }
  }

  /** What the table's constraints promise of a companion's rows. */
  ghost predicate Consistent(t: Table, nextId: int, companion: int)
  {
    && (forall a, b | a in t && b in t && a != b && t[a].companion == companion && t[b].companion == companion ::
      t[a].name != t[b].name)
    && (forall id | id in t && t[id].companion == companion :: t[id].scope != "")
    && (forall id | id in t :: id < nextId)
  }

  /** The node holds one channel a slot and refuses a name it already has. */
  ghost predicate RunsApart(running: seq<Ref>)
  {
    forall i, j | 0 <= i < j < |running| :: running[i].name != running[j].name && running[i].slot != running[j].slot
  }

  lemma ConsistentIsSane(s: Save)
    requires s.Listed() && Consistent(s.was.table, s.was.nextId, s.companion) && RunsApart(s.running)
    ensures s.Sane()
  {
    var t := s.was.table;
    forall a, b | 0 <= a < b < |s.ids| ensures s.Row(a).name != s.Row(b).name {
      var x, y := s.ids[a], s.ids[b];
      assert Before(t, x, y) && x in t && y in t && t[x].companion == t[y].companion == s.companion;
      assert t[x].name != t[y].name;
    }
    forall k | 0 <= k < |s.ids| ensures s.Row(k).scope != "" {
      var id := s.ids[k];
      assert id in t && t[id].companion == s.companion && t[id].scope != "";
    }
  }

  /** Brings the companion's rows in line with the running channels. */
  method SaveRunningChannels(repo: ChannelRepo, companion: int, running: seq<Ref>, dropped: set<string>,
                             keyOf: (string, string) -> seq<int>)
    returns (refused: bool, ghost s: Save)
    requires Consistent(repo.table, repo.nextId, companion) && RunsApart(running)
    modifies repo
    ensures !refused && s.Sane() && repo.Now() == s.Final()
    ensures s == Save(old(repo.Now()), companion, s.ids, running, dropped, keyOf)
  {
    var ids := repo.ListByCompanion(companion);
    s := Save(repo.Now(), companion, ids, running, dropped, keyOf);
    ConsistentIsSane(s);
    var t := repo.table;
    var rows := seq(|ids|, k requires 0 <= k < |ids| && ids[k] in t => t[ids[k]]);
    var taken, row := new bool[|rows|](_ => false), new int[|running|](_ => -1);
    ClaimByName(s, rows, running, row, taken);
    ClaimByRename(s, rows, running, dropped, keyOf, row, taken);
    assert forall k | 0 <= k < taken.Length :: taken[k] <==> s.Claimed(k);
    var held := Sweep(repo, s, rows, ids, dropped, taken);
    refused := WriteChannels(repo, s, companion, rows, ids, running, row, held);
  }
}
