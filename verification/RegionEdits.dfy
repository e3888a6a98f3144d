/** Edits of a repeater's regions (internal/app/config_rest.go), each behind the validation of
    internal/config/load.go. */
module RegionEdits {
  import opened Common
  import opened RegionTree

  /** A flood scope: unset, everywhere, inherit, one region, or text of no known form. */
  datatype Scope = Unset | Everywhere | Inherit | OfRegion(name: string) | Malformed(text: string)

  predicate NamesRegion(s: Scope, region: string)
  {
    s.OfRegion? && SameRegionName(region, s.name)
  }

  datatype Repeater = Repeater(regions: seq<Region>, home: string, scope: Scope)

  /** The mesh library's limits on region names, which are not part of this model. */
  datatype Limits = Limits(maxRegions: nat, maxName: nat, nameChar: char -> bool)

  predicate RegionNameOk(l: Limits, name: string)
  {
    name == WILDCARD || (name != "" && |name| <= l.maxName && forall i | 0 <= i < |name| :: l.nameChar(name[i]))
  }

  predicate ScopeFormOk(l: Limits, s: Scope)
  {
    match s
    case Unset => true
    case Everywhere => true
    case Inherit => false
    case Malformed(_) => false
    case OfRegion(name) =>
      name != "" && |name| <= l.maxName
      && forall i | 0 <= i < |name| :: name[i] != '$' && name[i] != '#' && l.nameChar(name[i])
  }

  predicate Lists(regions: seq<Region>, name: string)
  {
    exists i :: 0 <= i < |regions| && regions[i].name == name
  }

  /** A region the firmware's lookup finds by this name, any "#" ignored. */
  predicate Knows(regions: seq<Region>, name: string)
  {
    exists i :: 0 <= i < |regions| && SameRegionName(regions[i].name, name)
  }

  function CountWildcard(regions: seq<Region>): int { if Lists(regions, WILDCARD) then 1 else 0 }

  ghost predicate UniqueBareNames(regions: seq<Region>)
  {
    forall i, j | 0 <= i < j < |regions| :: Bare(regions[i].name) != Bare(regions[j].name)
  }

  /** A scope of a region names one of these. */
  ghost predicate ScopeServed(regions: seq<Region>, s: Scope)
  {
    s.OfRegion? ==> exists i :: 0 <= i < |regions| && NamesRegion(s, regions[i].name)
  }

  predicate NamesOk(l: Limits, regions: seq<Region>)
  {
    forall i | 0 <= i < |regions| :: RegionNameOk(l, regions[i].name)
  }

  /** What the validation accepts of a repeater's regions, home and scope. */
  ghost predicate ValidRepeater(l: Limits, r: Repeater)
  {
    && ScopeFormOk(l, r.scope) && ScopeServed(r.regions, r.scope)
    && (r.home != "" ==> Lists(r.regions, r.home))
    && |r.regions| - CountWildcard(r.regions) <= l.maxRegions
    && NamesOk(l, r.regions) && UniqueBareNames(r.regions)
    && IsTree(r.regions)
  }

  lemma BareUniqueIsUnique(regions: seq<Region>)
    requires UniqueBareNames(regions)
    ensures UniqueNames(regions)
  {
    forall i, j | 0 <= i < j < |regions| ensures regions[i].name != regions[j].name {
      assert Bare(regions[i].name) != Bare(regions[j].name);
    }
  }

  method NamesValidAndUnique(l: Limits, regions: seq<Region>) returns (ok: bool)
    ensures ok <==> (forall i | 0 <= i < |regions| :: RegionNameOk(l, regions[i].name)) && UniqueBareNames(regions)
  {
    var seen: set<string> := {};
    for i := 0 to |regions|
      invariant forall k | 0 <= k < i :: RegionNameOk(l, regions[k].name)
      invariant forall j, k | 0 <= j < k < i :: Bare(regions[j].name) != Bare(regions[k].name)
      invariant forall x :: x in seen <==> exists k :: 0 <= k < i && Bare(regions[k].name) == x
    {
      if !RegionNameOk(l, regions[i].name) {
        return false;
      }
      var key := Bare(regions[i].name);
      if key in seen {
        ghost var k :| 0 <= k < i && Bare(regions[k].name) == key;
        assert !UniqueBareNames(regions);
        return false;
      }
      seen := seen + {key};
    }
    ok := true;
  }

  method Validate(l: Limits, r: Repeater) returns (ok: bool)
    ensures ok <==> ValidRepeater(l, r)
  {
    if !ScopeFormOk(l, r.scope) {
      return false;
    }
    if r.scope.OfRegion? && !exists i :: 0 <= i < |r.regions| && NamesRegion(r.scope, r.regions[i].name) {
      return false;
    }
    if r.home != "" && !Lists(r.regions, r.home) {
      return false;
    }
    if |r.regions| - CountWildcard(r.regions) > l.maxRegions {
      return false;
    }
    ok := NamesValidAndUnique(l, r.regions);
    if ok {
      BareUniqueIsUnique(r.regions);
      var err := ValidateRegionParents(r.regions);
      ok := err.None?;
    }
  }

  // ---------------------------------------------------------------------------------------------
  // The edits
  // ---------------------------------------------------------------------------------------------

  datatype Edit =
    | Add(name: string, parent: Option<string>, denyFlood: bool)
    | Move(name: string, under: string)
    | Remove(name: string)
    | SetFlood(name: string, denyFlood: bool)
    | SetHome(region: string)
    | SetScope(scope: Scope)

  /** The first region of this name with any "#" ignored. */
  function FirstNamed(regions: seq<Region>, name: string): (i: nat)
    ensures i <= |regions|
    ensures forall k | 0 <= k < i :: !SameRegionName(regions[k].name, name)
    ensures i < |regions| ==> SameRegionName(regions[i].name, name)
  {
    if regions == [] then 0
    else if SameRegionName(regions[0].name, name) then 0
    else 1 + FirstNamed(regions[1..], name)
  }

  /** The name as stored; an unknown one as given. */
  function StoredName(regions: seq<Region>, name: string): string
  {
    var i := FirstNamed(regions, name);
    if i < |regions| then regions[i].name else name
  }

  /** Every region the scope names allows flood. */
  function Allowed(regions: seq<Region>, s: Scope): (r: seq<Region>)
    ensures |r| == |regions|
    ensures forall i | 0 <= i < |r| ::
      r[i] == if NamesRegion(s, regions[i].name) then regions[i].(denyFlood := false) else regions[i]
  {
    seq(|regions|, i requires 0 <= i < |regions| =>
      if NamesRegion(s, regions[i].name) then regions[i].(denyFlood := false) else regions[i])
  }

  function Without(regions: seq<Region>, name: string): seq<Region>
  {
    if regions == [] then [] else
    var n := |regions| - 1;
    Without(regions[..n], name) + if regions[n].name == name then [] else [regions[n]]
  }

  predicate HasSubRegion(regions: seq<Region>, name: string)
  {
    exists i :: 0 <= i < |regions| && SameRegionName(regions[i].parent, name)
  }

  /** The edited row before validation; None where the edit itself refuses. */
  function Edited(l: Limits, r: Repeater, e: Edit): Option<Repeater>
  {
    match e
    case Add(name, parent, deny) =>
      if parent.None? || name == WILDCARD || Knows(r.regions, name) then None
      else Some(r.(regions := r.regions + [Region(name, StoredName(r.regions, parent.value), deny)]))
    case Move(name, under) =>
      var i := FirstNamed(r.regions, name);
      if name == WILDCARD || i == |r.regions| then None
      else Some(r.(regions := r.regions[i := r.regions[i].(parent := StoredName(r.regions, under))]))
    case Remove(name) =>
      if name == WILDCARD || !Knows(r.regions, name) || HasSubRegion(r.regions, name) then None
      else
        var stored := StoredName(r.regions, name);
        Some(Repeater(Without(r.regions, stored), if r.home == stored then "" else r.home,
                      if NamesRegion(r.scope, stored) then Everywhere else r.scope))
    case SetFlood(name, deny) =>
      var i := FirstNamed(r.regions, name);
      if i < |r.regions| then Some(r.(regions := r.regions[i := r.regions[i].(denyFlood := deny)]))
      else if name == WILDCARD then Some(r.(regions := r.regions + [Region(name, "", deny)]))
      else None
    case SetHome(region) =>
      if region == "" then None
      else Some(r.(home := if region == WILDCARD then "" else StoredName(r.regions, region)))
    case SetScope(scope) =>
      if scope.Unset? || !ScopeFormOk(l, scope) then None
      else Some(r.(scope := scope, regions := Allowed(r.regions, scope)))
  }

  ghost predicate Accepted(l: Limits, r: Repeater, e: Edit)
  {
    Edited(l, r, e).Some? && ValidRepeater(l, Edited(l, r, e).value)
  }

  ghost function Step(l: Limits, r: Repeater, e: Edit): Repeater
  {
    if Accepted(l, r, e) then Edited(l, r, e).value else r
  }

  ghost function Run(l: Limits, r: Repeater, edits: seq<Edit>): Repeater
    decreases |edits|
  {
    if edits == [] then r else Run(l, Step(l, r, edits[0]), edits[1..])
  }

  lemma {:induction false} RunStaysValid(l: Limits, r: Repeater, edits: seq<Edit>)
    requires ValidRepeater(l, r)
    ensures ValidRepeater(l, Run(l, r, edits))
    decreases |edits|
  {
    if edits != [] {
      RunStaysValid(l, Step(l, r, edits[0]), edits[1..]);
    }
  }

  // ---------------------------------------------------------------------------------------------
  // What each edit is refused for
  // ---------------------------------------------------------------------------------------------

  ghost predicate SameShape(a: seq<Region>, b: seq<Region>)
  {
    |a| == |b| && forall i | 0 <= i < |a| :: a[i].name == b[i].name && a[i].parent == b[i].parent
  }

  lemma {:induction false} SameShapeSameParents(a: seq<Region>, b: seq<Region>)
    requires SameShape(a, b)
    ensures Parents(a) == Parents(b)
    decreases |a|
  {
    if a != [] {
      SameShapeSameParents(a[..|a| - 1], b[..|b| - 1]);
    }
  }

  lemma SameShapeStaysValid(l: Limits, r: Repeater, regions: seq<Region>)
    requires ValidRepeater(l, r) && SameShape(r.regions, regions)
    ensures ValidRepeater(l, r.(regions := regions))
  {
    SameShapeSameParents(r.regions, regions);
    assert forall x :: Lists(regions, x) <==> Lists(r.regions, x) by {
      forall x, i | 0 <= i < |regions| && r.regions[i].name == x
        ensures Lists(regions, x) { assert regions[i].name == x; }
    }
    if r.scope.OfRegion? {
      var i :| 0 <= i < |r.regions| && NamesRegion(r.scope, r.regions[i].name);
      assert NamesRegion(r.scope, regions[i].name);
    }
    assert IsTree(regions) by {
      forall i | 0 <= i < |regions| && regions[i].name != WILDCARD
        ensures IsUnder(Parents(regions), regions[i].name, WILDCARD) {
        assert r.regions[i].name != WILDCARD;
      }
    }
  }

  // One name's parent replaced -------------------------------------------------------------------

  lemma {:induction false} ParentsUpdate(regions: seq<Region>, i: nat, t: string)
    requires UniqueNames(regions) && i < |regions|
    ensures Parents(regions[i := regions[i].(parent := t)]) == Parents(regions)[regions[i].name := t]
    decreases |regions|
  {
    var n := |regions| - 1;
    var changed := regions[i := regions[i].(parent := t)];
    if i == n {
      assert changed[..n] == regions[..n];
    } else {
      ParentsUpdate(regions[..n], i, t);
      assert changed[..n] == regions[..n][i := regions[..n][i].(parent := t)];
      assert regions[n].name != regions[i].name;
    }
  }

  lemma StepUp(up: map<string, string>, x: string, k: nat)
    requires x in up && x != WILDCARD
    ensures Climb(up, x, k + 1) == Climb(up, up[x], k)
  {
    ClimbOn(up, x, 1, k);
    assert Climb(up, x, 0) == Some(x);
  }

  lemma StepUpIsUnder(up: map<string, string>, x: string, y: string)
    requires x in up && x != WILDCARD && IsUnder(up, up[x], y)
    ensures IsUnder(up, x, y)
  {
    var k: nat :| Climb(up, up[x], k) == Some(y);
    StepUp(up, x, k);
  }

  /** A chain that does not meet y is the same after y's parent is replaced. */
  lemma {:induction false} ChainAvoidingIsKept(up: map<string, string>, y: string, t: string, x: string, k: nat)
    requires forall j: nat | j < k :: Climb(up, x, j) != Some(y)
    ensures Climb(up[y := t], x, k) == Climb(up, x, k)
    decreases k
  {
    if k > 0 {
      ChainAvoidingIsKept(up, y, t, x, k - 1);
    }
  }

  /** If y itself still reaches the top, so does every region that did. */
  lemma {:induction false} OthersStillReachTop(up: map<string, string>, y: string, t: string, x: string, m: nat)
    requires Climb(up, x, m) == Some(WILDCARD)
    requires IsUnder(up[y := t], y, WILDCARD)
    ensures IsUnder(up[y := t], x, WILDCARD)
    decreases m
  {
    if x == WILDCARD {
      assert Climb(up[y := t], x, 0) == Some(x);
    } else if x != y {
      assert Climb(up, x, 0) == Some(x);
      if x !in up {
        ClimbOn(up, x, 1, m - 1);
      } else {
        StepUp(up, x, m - 1);
        OthersStillReachTop(up, y, t, up[x], m - 1);
        StepUpIsUnder(up[y := t], x, WILDCARD);
      }
    }
  }

  lemma {:induction false} FirstMeeting(up: map<string, string>, x: string, y: string, k: nat) returns (first: nat)
    requires Climb(up, x, k) == Some(y)
    ensures Climb(up, x, first) == Some(y) && forall j: nat | j < first :: Climb(up, x, j) != Some(y)
    decreases k
  {
    if j: nat :| j < k && Climb(up, x, j) == Some(y) {
      first := FirstMeeting(up, x, y, j);
    } else {
      first := k;
    }
  }

  /** y put under t: y reaches the top exactly when t does without passing y. */
  lemma ReparentedReachesTop(up: map<string, string>, y: string, t: string)
    requires y != WILDCARD && (IsUnder(up, t, WILDCARD) || t !in up)
    ensures IsUnder(up[y := t], y, WILDCARD) <==> IsUnder(up, t, WILDCARD) && !IsUnder(up, t, y)
  {
    var up' := up[y := t];
    if IsUnder(up, t, y) {
      var k: nat :| Climb(up, t, k) == Some(y);
      var first := FirstMeeting(up, t, y, k);
      ChainAvoidingIsKept(up, y, t, t, first);
      StepUp(up', y, first);
      CycleIsNotUnderTop(up', y, first + 1);
    } else if IsUnder(up, t, WILDCARD) {
      var m: nat :| Climb(up, t, m) == Some(WILDCARD);
      ChainAvoidingIsKept(up, y, t, t, m);
      StepUpIsUnder(up', y, WILDCARD);
    } else {
      // t is neither "*" nor listed, and y itself is not t, so the chain ends at t.
      assert Climb(up, t, 0) == Some(t);
      forall m: nat ensures Climb(up', y, m) != Some(WILDCARD) {
        if m >= 2 {
          ClimbOn(up', y, 2, m - 2);
        }
        assert Climb(up', y, 0) == Some(y) && Climb(up', y, 1) == Some(t) && Climb(up', y, 2) == None;
      }
    }
  }

  /** What a name stands for: a listed region if one is known by it, else itself and unlisted. */
  lemma StoredOrUnknown(regions: seq<Region>, name: string)
    ensures Knows(regions, name) ==> Lists(regions, StoredName(regions, name))
    ensures !Knows(regions, name) ==> StoredName(regions, name) == name && !Lists(regions, name)
  {
    var i := FirstNamed(regions, name);
    if i < |regions| {
      assert SameRegionName(regions[i].name, name);
    } else if Lists(regions, name) {
      var k :| 0 <= k < |regions| && regions[k].name == name;
      assert SameRegionName(regions[k].name, name);
    }
  }

  lemma ListedIsUnderTop(regions: seq<Region>, x: string)
    requires UniqueNames(regions) && IsTree(regions)
    ensures x in Parents(regions) <==> Lists(regions, x)
    ensures Lists(regions, x) || x == WILDCARD ==> IsUnder(Parents(regions), x, WILDCARD)
  {
    if x in Parents(regions) {
      var i := Holder(regions, x);
    }
    if Lists(regions, x) {
      var i :| 0 <= i < |regions| && regions[i].name == x;
      ParentAt(regions, i);
    }
    assert Climb(Parents(regions), WILDCARD, 0) == Some(WILDCARD);
  }

  /** A place to put a region: the top, or a region known by that name. */
  predicate IsPlace(regions: seq<Region>, name: string)
  {
    name == WILDCARD || Knows(regions, name)
  }

  lemma PlaceIsUnderTop(regions: seq<Region>, name: string)
    requires UniqueNames(regions) && IsTree(regions)
    ensures IsPlace(regions, name) ==> IsUnder(Parents(regions), StoredName(regions, name), WILDCARD)
    ensures !IsPlace(regions, name) ==>
      StoredName(regions, name) !in Parents(regions) && StoredName(regions, name) != WILDCARD
  {
    StoredOrUnknown(regions, name);
    ListedIsUnderTop(regions, StoredName(regions, name));
    if name == WILDCARD && Knows(regions, name) {
      var i := FirstNamed(regions, name);
    }
  }

  lemma MovedIsTree(regions: seq<Region>, i: nat, t: string)
    requires UniqueNames(regions) && IsTree(regions) && i < |regions| && regions[i].name != WILDCARD
    requires !Lists(regions, "")
    ensures IsTree(regions[i := regions[i].(parent := t)]) <==>
      IsUnder(Parents(regions)[regions[i].name := t], regions[i].name, WILDCARD)
  {
    var up, y, moved := Parents(regions), regions[i].name, regions[i := regions[i].(parent := t)];
    ParentsUpdate(regions, i, t);
    if IsUnder(up[y := t], y, WILDCARD) {
      forall j | 0 <= j < |moved| && moved[j].name != WILDCARD ensures IsUnder(up[y := t], moved[j].name, WILDCARD) {
        var m: nat :| Climb(up, regions[j].name, m) == Some(WILDCARD);
        OthersStillReachTop(up, y, t, regions[j].name, m);
      }
      StepTowardTopIsListed(up[y := t], y);
      ListedIsUnderTop(regions, t);
      assert y != "";
    } else {
      assert moved[i].name == y;
    }
  }

  lemma MovedIsOtherwiseValid(l: Limits, r: Repeater, i: nat, t: string)
    requires ValidRepeater(l, r) && i < |r.regions|
    ensures var moved := r.regions[i := r.regions[i].(parent := t)];
      ValidRepeater(l, r.(regions := moved)) <==> IsTree(moved)
  {
    SameNamesSameParts(l, r.regions, r.regions[i := r.regions[i].(parent := t)], r.scope);
    hide IsTree, UniqueBareNames, Lists, ScopeFormOk, ScopeServed, NamesOk;
  }

  /** What is asked of the names does not look at anything else. */
  lemma SameNamesSameParts(l: Limits, a: seq<Region>, b: seq<Region>, s: Scope)
    requires |a| == |b| && forall k | 0 <= k < |a| :: a[k].name == b[k].name
    ensures forall x :: Lists(a, x) <==> Lists(b, x)
    ensures NamesOk(l, a) <==> NamesOk(l, b)
    ensures UniqueBareNames(a) <==> UniqueBareNames(b)
    ensures ScopeServed(a, s) <==> ScopeServed(b, s)
  {
    hide RegionNameOk, Bare, NamesRegion;
    forall x ensures Lists(a, x) <==> Lists(b, x) {
      if k :| 0 <= k < |a| && a[k].name == x { assert b[k].name == x; }
      if k :| 0 <= k < |b| && b[k].name == x { assert a[k].name == x; }
    }
    if k :| s.OfRegion? && 0 <= k < |a| && NamesRegion(s, a[k].name) { assert NamesRegion(s, b[k].name); }
    if k :| s.OfRegion? && 0 <= k < |b| && NamesRegion(s, b[k].name) { assert NamesRegion(s, a[k].name); }
  }

  lemma ValidParts(l: Limits, r: Repeater)
    requires ValidRepeater(l, r)
    ensures UniqueNames(r.regions) && IsTree(r.regions) && !Lists(r.regions, "")
  {
    BareUniqueIsUnique(r.regions);
  }

  lemma {:induction false} MoveIsReparenting(l: Limits, r: Repeater, name: string, under: string)
    requires ValidRepeater(l, r) && name != WILDCARD && Knows(r.regions, name)
    ensures var y, t := StoredName(r.regions, name), StoredName(r.regions, under);
      Accepted(l, r, Move(name, under)) <==> IsUnder(Parents(r.regions)[y := t], y, WILDCARD)
  {
    ValidParts(l, r);
    var i, t := FirstNamed(r.regions, name), StoredName(r.regions, under);
    MovedIsTree(r.regions, i, t);
    MovedIsOtherwiseValid(l, r, i, t);
  }

  /** A move of a known region is refused exactly when the target is unknown, the region itself or below it. */
  lemma MoveRefusedExactly(l: Limits, r: Repeater, name: string, under: string)
    requires ValidRepeater(l, r) && name != WILDCARD && Knows(r.regions, name)
    ensures Accepted(l, r, Move(name, under)) <==>
      IsPlace(r.regions, under)
      && !IsUnder(Parents(r.regions), StoredName(r.regions, under), StoredName(r.regions, name))
  {
    ValidParts(l, r);
    MoveIsReparenting(l, r, name, under);
    PlaceIsUnderTop(r.regions, under);
    StoredOrUnknown(r.regions, under);
    var t := StoredName(r.regions, under);
    if !IsPlace(r.regions, under) && IsUnder(Parents(r.regions), t, WILDCARD) {
      var m: nat :| Climb(Parents(r.regions), t, m) == Some(WILDCARD);
      UnlistedHasNothingAbove(Parents(r.regions), t, m);
    }
    ReparentedReachesTop(Parents(r.regions), StoredName(r.regions, name), t);
  }

  lemma UnlistedHasNothingAbove(up: map<string, string>, x: string, m: nat)
    requires x !in up
    ensures Climb(up, x, m) == if m == 0 then Some(x) else None
  {
    if m > 0 {
      ClimbOn(up, x, 1, m - 1);
      assert Climb(up, x, 0) == Some(x);
    }
  }

  // Removal --------------------------------------------------------------------------------------

  lemma {:induction false} WithoutMembers(regions: seq<Region>, x: string)
    ensures forall rg :: rg in Without(regions, x) <==> rg in regions && rg.name != x
    ensures |Without(regions, x)| <= |regions|
    decreases |regions|
  {
    if regions != [] {
      var n := |regions| - 1;
      WithoutMembers(regions[..n], x);
      assert regions == regions[..n] + [regions[n]];
    }
  }

  lemma {:induction false} WithoutStaysUnique(regions: seq<Region>, x: string)
    requires UniqueBareNames(regions)
    ensures UniqueBareNames(Without(regions, x))
    decreases |regions|
  {
    hide Bare;
    if regions != [] {
      var n := |regions| - 1;
      var kept := Without(regions[..n], x);
      assert Without(regions, x) == kept + if regions[n].name == x then [] else [regions[n]];
      hide Without;
      WithoutStaysUnique(regions[..n], x);
      WithoutMembers(regions[..n], x);
      forall i | 0 <= i < |kept| ensures Bare(kept[i].name) != Bare(regions[n].name) {
        assert kept[i] in regions[..n];
      }
    }
  }

  lemma {:induction false} ParentsWithout(regions: seq<Region>, x: string)
    ensures Parents(Without(regions, x)) == Parents(regions) - {x}
    decreases |regions|
  {
    if regions != [] {
      var n := |regions| - 1;
      ParentsWithout(regions[..n], x);
      var kept, last := Without(regions[..n], x), regions[n];
      UpdateAndDrop(Parents(regions[..n]), last.name, last.parent, x);
      if last.name != x {
        assert Without(regions, x) == kept + [last] && (kept + [last])[..|kept|] == kept;
      } else {
        assert Without(regions, x) == kept;
      }
    }
  }

  lemma UpdateAndDrop(up: map<string, string>, name: string, parent: string, x: string)
    ensures up[name := parent] - {x} == if name == x then up - {x} else (up - {x})[name := parent]
  {
  }

  /** Nothing sits under x, so no other chain passes through it. */
  lemma {:induction false} ChainsSurviveRemoval(up: map<string, string>, x: string, y: string, m: nat)
    requires y != x && (forall z | z in up :: up[z] != x)
    ensures Climb(up - {x}, y, m) == Climb(up, y, m) != Some(x)
    decreases m
  {
    if m > 0 {
      ChainsSurviveRemoval(up, x, y, m - 1);
    }
  }

  lemma RemovalKeepsNames(l: Limits, regions: seq<Region>, i: nat)
    requires UniqueBareNames(regions) && NamesOk(l, regions) && i < |regions|
    ensures var kept := Without(regions, regions[i].name);
      && UniqueBareNames(kept) && NamesOk(l, kept)
      && (forall k | 0 <= k < |kept| :: Bare(kept[k].name) != Bare(regions[i].name))
      && (forall y | y != regions[i].name && Lists(regions, y) :: Lists(kept, y))
  {
    var x := regions[i].name;
    var kept := Without(regions, x);
    WithoutMembers(regions, x);
    WithoutStaysUnique(regions, x);
    forall k | 0 <= k < |kept| ensures RegionNameOk(l, kept[k].name) && Bare(kept[k].name) != Bare(x) {
      assert kept[k] in kept;
      var j :| 0 <= j < |regions| && regions[j] == kept[k];
    }
    forall y | y != x && Lists(regions, y) ensures Lists(kept, y) {
      var k :| 0 <= k < |regions| && regions[k].name == y;
      assert regions[k] in kept;
    }
  }

  lemma ScopeSurvivesRemoval(regions: seq<Region>, s: Scope, x: string)
    requires ScopeServed(regions, s) && !NamesRegion(s, x)
    ensures ScopeServed(Without(regions, x), s)
  {
    WithoutMembers(regions, x);
    if k :| s.OfRegion? && 0 <= k < |regions| && NamesRegion(s, regions[k].name) {
      var kept := Without(regions, x);
      assert regions[k] in kept;
      var j :| 0 <= j < |kept| && kept[j] == regions[k];
      assert NamesRegion(s, kept[j].name);
    }
  }

  /** Past its own refusals, a removal always leaves a valid repeater, without the region. */
  lemma RemovalIsAlwaysValid(l: Limits, r: Repeater, name: string)
    requires ValidRepeater(l, r) && Edited(l, r, Remove(name)).Some?
    ensures Accepted(l, r, Remove(name))
    ensures !Knows(Edited(l, r, Remove(name)).value.regions, name)
  {
    ValidParts(l, r);
    var i := FirstNamed(r.regions, name);
    var x := r.regions[i].name;
    RemovalEdited(l, r, name);
    RemovalKeepsNames(l, r.regions, i);
    RemovalKeepsTree(r.regions, name, x);
    RemovalMakesRoom(r.regions, x);
    if !NamesRegion(r.scope, x) {
      ScopeSurvivesRemoval(r.regions, r.scope, x);
    }
    assert ScopeServed(Without(r.regions, x), Everywhere);
    RemovedIsUnknown(r.regions, x, name);
    hide ScopeServed, SameRegionName, IsTree, UniqueBareNames, Lists, NamesOk, NamesRegion, Knows, Edited, HasSubRegion,
      Without, FirstNamed;
  }

  lemma RemovalEdited(l: Limits, r: Repeater, name: string)
    requires Edited(l, r, Remove(name)).Some?
    ensures FirstNamed(r.regions, name) < |r.regions| && !HasSubRegion(r.regions, name)
    ensures var x := r.regions[FirstNamed(r.regions, name)].name;
      && x != WILDCARD && SameRegionName(x, name)
      && Edited(l, r, Remove(name)) ==
         Some(Repeater(Without(r.regions, x), if r.home == x then "" else r.home,
                       if NamesRegion(r.scope, x) then Everywhere else r.scope))
  {
  }

  lemma RemovalMakesRoom(regions: seq<Region>, x: string)
    requires x != WILDCARD
    ensures |Without(regions, x)| - CountWildcard(Without(regions, x)) <= |regions| - CountWildcard(regions)
  {
    WithoutMembers(regions, x);
    if i :| 0 <= i < |regions| && regions[i].name == WILDCARD {
      assert regions[i] in Without(regions, x);
    }
  }

  lemma RemovedIsUnknown(regions: seq<Region>, x: string, name: string)
    requires SameRegionName(x, name)
    requires var kept := Without(regions, x); forall k | 0 <= k < |kept| :: Bare(kept[k].name) != Bare(x)
    ensures !Knows(Without(regions, x), name)
  {
  }

  lemma RemovalKeepsTree(regions: seq<Region>, name: string, x: string)
    requires UniqueNames(regions) && IsTree(regions) && x != WILDCARD && SameRegionName(x, name) &&
      !HasSubRegion(regions, name)
    ensures IsTree(Without(regions, x))
  {
    var up, kept := Parents(regions), Without(regions, x);
    WithoutMembers(regions, x);
    ParentsWithout(regions, x);
    forall z | z in up ensures up[z] != x {
      var i := Holder(regions, z);
      assert !SameRegionName(regions[i].parent, name);
    }
    forall k | 0 <= k < |kept|
      ensures if kept[k].name == WILDCARD then kept[k].parent == ""
        else kept[k].parent != "" && IsUnder(up - {x}, kept[k].name, WILDCARD)
    {
      assert kept[k] in kept;
      var j :| 0 <= j < |regions| && regions[j] == kept[k];
      if kept[k].name != WILDCARD {
        var m: nat :| Climb(up, regions[j].name, m) == Some(WILDCARD);
        ChainsSurviveRemoval(up, x, regions[j].name, m);
      }
    }
  }

  // Addition and the rest ------------------------------------------------------------------------

  lemma AppendedParents(regions: seq<Region>, rg: Region)
    ensures Parents(regions + [rg]) == Parents(regions)[rg.name := rg.parent]
  {
    assert (regions + [rg])[..|regions|] == regions;
  }

  lemma AddedIsTree(regions: seq<Region>, rg: Region)
    requires UniqueNames(regions) && IsTree(regions) && !Lists(regions, "")
    requires rg.name != WILDCARD && rg.name != "" && !Lists(regions, rg.name)
    ensures IsTree(regions + [rg]) <==> IsUnder(Parents(regions)[rg.name := rg.parent], rg.name, WILDCARD)
  {
    var up, y, t, after := Parents(regions), rg.name, rg.parent, regions + [rg];
    AppendedParents(regions, rg);
    if IsUnder(up[y := t], y, WILDCARD) {
      forall j | 0 <= j < |after| && after[j].name != WILDCARD ensures IsUnder(up[y := t], after[j].name, WILDCARD) {
        if j < |regions| {
          assert after[j] == regions[j];
          var m: nat :| Climb(up, regions[j].name, m) == Some(WILDCARD);
          OthersStillReachTop(up, y, t, regions[j].name, m);
        }
      }
      StepTowardTopIsListed(up[y := t], y);
      ListedIsUnderTop(regions, t);
    } else {
      assert after[|regions|].name == y;
    }
  }

  lemma AddedIsOtherwiseValid(l: Limits, r: Repeater, rg: Region)
    requires ValidRepeater(l, r) && !Lists(r.regions, rg.name)
    ensures ValidRepeater(l, r.(regions := r.regions + [rg])) <==>
      && IsTree(r.regions + [rg])
      && RegionNameOk(l, rg.name)
      && (forall i | 0 <= i < |r.regions| :: Bare(r.regions[i].name) != Bare(rg.name))
      && (rg.name == WILDCARD || |r.regions| - CountWildcard(r.regions) < l.maxRegions)
  {
    AddedNames(l, r.regions, rg);
    AddedIsListed(r.regions, rg, r.scope);
    hide IsTree, UniqueBareNames, Lists, ScopeFormOk, ScopeServed, NamesOk, RegionNameOk;
  }

  lemma AddedNames(l: Limits, regions: seq<Region>, rg: Region)
    requires NamesOk(l, regions) && UniqueBareNames(regions)
    ensures NamesOk(l, regions + [rg]) <==> RegionNameOk(l, rg.name)
    ensures UniqueBareNames(regions + [rg]) <==>
      forall i | 0 <= i < |regions| :: Bare(regions[i].name) != Bare(rg.name)
  {
    hide RegionNameOk, Bare;
    var after := regions + [rg];
    assert after[|regions|] == rg && forall k | 0 <= k < |regions| :: after[k] == regions[k];
  }

  lemma AddedIsListed(regions: seq<Region>, rg: Region, s: Scope)
    ensures forall x :: Lists(regions + [rg], x) <==> Lists(regions, x) || x == rg.name
    ensures ScopeServed(regions, s) ==> ScopeServed(regions + [rg], s)
  {
    hide NamesRegion;
    var after := regions + [rg];
    assert after[|regions|] == rg && forall k | 0 <= k < |regions| :: after[k] == regions[k];
    forall x | Lists(regions, x) ensures Lists(after, x) {
      var k :| 0 <= k < |regions| && regions[k].name == x;
      assert after[k].name == x;
    }
    if k :| s.OfRegion? && 0 <= k < |regions| && NamesRegion(s, regions[k].name) {
      assert NamesRegion(s, after[k].name);
    }
  }

  /** The names taken: no region has this one with any "#" ignored, nor "*" when this is "#*". */
  predicate IsFree(regions: seq<Region>, name: string)
  {
    forall i | 0 <= i < |regions| :: Bare(regions[i].name) != Bare(name)
  }

  /** An addition is accepted exactly when the name is well formed and free, the place known and there is room. */
  lemma AddAcceptedExactly(l: Limits, r: Repeater, name: string, parent: string, deny: bool)
    requires ValidRepeater(l, r)
    ensures Accepted(l, r, Add(name, Some(parent), deny)) <==>
      && name != WILDCARD && RegionNameOk(l, name) && IsFree(r.regions, name)
      && IsPlace(r.regions, parent)
      && |r.regions| - CountWildcard(r.regions) < l.maxRegions
  {
    ValidParts(l, r);
    if name != WILDCARD && !Knows(r.regions, name) && name != "" {
      StoredOrUnknown(r.regions, name);
      var t, up := StoredName(r.regions, parent), Parents(r.regions);
      AddedIsTree(r.regions, Region(name, t, deny));
      AddedIsOtherwiseValid(l, r, Region(name, t, deny));
      ListedIsUnderTop(r.regions, name);
      PlaceIsUnderTop(r.regions, parent);
      if IsPlace(r.regions, parent) {
        var m: nat :| Climb(up, t, m) == Some(WILDCARD);
        if IsUnder(up, t, name) {
          var k: nat :| Climb(up, t, k) == Some(name);
          NothingUnderUnlisted(up, t, name, k, m);
        }
      } else {
        forall m: nat ensures Climb(up, t, m) != Some(WILDCARD) {
          UnlistedHasNothingAbove(up, t, m);
        }
      }
      ReparentedReachesTop(up, name, t);
    } else if Knows(r.regions, name) && name != WILDCARD {
      var i := FirstNamed(r.regions, name);
      assert Bare(r.regions[i].name) == Bare(name);
    } else if name == "" && Edited(l, r, Add(name, Some(parent), deny)).Some? {
      var after := Edited(l, r, Add(name, Some(parent), deny)).value.regions;
      assert after[|r.regions|].name == "";
    }
  }

  /** A chain that reaches the top never meets an unlisted name. */
  lemma NothingUnderUnlisted(up: map<string, string>, x: string, name: string, k: nat, m: nat)
    requires Climb(up, x, m) == Some(WILDCARD) && Climb(up, x, k) == Some(name)
    ensures name in up || name == WILDCARD
  {
    if k <= m {
      ClimbOn(up, x, k, m - k);
      if name !in up {
        UnlistedHasNothingAbove(up, name, m - k);
      }
    } else {
      ClimbOn(up, x, m + 1, k - m - 1);
    }
  }

  /** A home is all that can be wrong with a repeater whose home alone was changed; and so for its scope. */
  lemma HomeIsOtherwiseValid(l: Limits, r: Repeater, home: string)
    requires ValidRepeater(l, r)
    ensures ValidRepeater(l, r.(home := home)) <==> (home != "" ==> Lists(r.regions, home))
  {
    hide IsTree, UniqueBareNames, Lists, ScopeFormOk, RegionNameOk, NamesRegion;
  }

  lemma ScopeIsOtherwiseValid(l: Limits, r: Repeater, s: Scope)
    requires ValidRepeater(l, r)
    ensures ValidRepeater(l, r.(scope := s)) <==>
      ScopeFormOk(l, s) && (s.OfRegion? ==> exists i :: 0 <= i < |r.regions| && NamesRegion(s, r.regions[i].name))
  {
    hide IsTree, UniqueBareNames, Lists, ScopeFormOk, RegionNameOk, NamesRegion;
  }

  lemma HomeAcceptedExactly(l: Limits, r: Repeater, region: string)
    requires ValidRepeater(l, r)
    ensures Accepted(l, r, SetHome(region)) <==> region != "" && IsPlace(r.regions, region)
  {
    StoredOrUnknown(r.regions, region);
    ValidParts(l, r);
    HomeIsOtherwiseValid(l, r, if region == WILDCARD then "" else StoredName(r.regions, region));
    HomeEdited(l, r, region);
    hide ValidRepeater, StoredName, Knows, Lists, Edited;
  }

  lemma HomeEdited(l: Limits, r: Repeater, region: string)
    ensures Edited(l, r, SetHome(region)) ==
            if region == "" then None
            else Some(r.(home := if region == WILDCARD then "" else StoredName(r.regions, region)))
  {
  }

  lemma {:induction false} ScopeAcceptedExactly(l: Limits, r: Repeater, s: Scope)
    requires ValidRepeater(l, r)
    ensures Accepted(l, r, SetScope(s)) <==>
      !s.Unset? && ScopeFormOk(l, s) &&
        (s.OfRegion? ==> exists i :: 0 <= i < |r.regions| && NamesRegion(s, r.regions[i].name))
  {
    var regions := Allowed(r.regions, s);
    assert SameShape(r.regions, regions);
    SameShapeStaysValid(l, r, regions);
    ScopeEdited(l, r, s);
    hide ValidRepeater, ScopeFormOk, NamesRegion, Edited;
    ScopeIsOtherwiseValid(l, r.(regions := regions), s);
    assert forall i | 0 <= i < |regions| :: regions[i].name == r.regions[i].name;
  }

  lemma ScopeEdited(l: Limits, r: Repeater, s: Scope)
    ensures Edited(l, r, SetScope(s)) ==
            if s.Unset? || !ScopeFormOk(l, s) then None else Some(r.(regions := Allowed(r.regions, s)).(scope := s))
  {
  }

  /** Flood can be set on any known region, and on "*" though it has no entry, unless a stored "#*" has its place. */
  lemma FloodAcceptedExactly(l: Limits, r: Repeater, name: string, deny: bool)
    requires ValidRepeater(l, r)
    ensures Accepted(l, r, SetFlood(name, deny)) <==>
      Knows(r.regions, name) || (name == WILDCARD && IsFree(r.regions, name))
  {
    var i := FirstNamed(r.regions, name);
    if i < |r.regions| {
      SameShapeStaysValid(l, r, r.regions[i := r.regions[i].(denyFlood := deny)]);
    } else if name == WILDCARD {
      ValidParts(l, r);
      StoredOrUnknown(r.regions, name);
      AddedIsOtherwiseValid(l, r, Region(name, "", deny));
      TopEntryKeepsTree(r.regions, deny);
      hide ValidRepeater, IsTree, Knows, Lists, FirstNamed;
    }
  }

  lemma TopEntryKeepsTree(regions: seq<Region>, deny: bool)
    requires IsTree(regions) && UniqueNames(regions) && !Lists(regions, WILDCARD)
    ensures IsTree(regions + [Region(WILDCARD, "", deny)])
  {
    var top := Region(WILDCARD, "", deny);
    AppendedParents(regions, top);
    var after, up := regions + [top], Parents(regions);
    forall j | 0 <= j < |after| && after[j].name != WILDCARD
      ensures IsUnder(up[WILDCARD := ""], after[j].name, WILDCARD) && after[j].parent != ""
    {
      assert after[j] == regions[j];
      var m: nat :| Climb(up, regions[j].name, m) == Some(WILDCARD);
      assert Climb(up[WILDCARD := ""], WILDCARD, 0) == Some(WILDCARD);
      OthersStillReachTop(up, WILDCARD, "", regions[j].name, m);
    }
  }

  // ---------------------------------------------------------------------------------------------
  // The guarded write
  // ---------------------------------------------------------------------------------------------

  /** The stored repeater; every edit works on a copy, validated before it is stored. */
  class Backend {
    const limits: Limits
    var repeater: Repeater

    constructor (limits: Limits, repeater: Repeater)
      ensures this.limits == limits && this.repeater == repeater
    {
      this.limits := limits;
      this.repeater := repeater;
    }

    method Commit(row: Repeater) returns (ok: bool)
      modifies this
      ensures ok <==> ValidRepeater(limits, row)
      ensures repeater == if ok then row else old(repeater)
    {
      ok := Validate(limits, row);
      if ok {
        repeater := row;
      }
    }

    /** Adds a region unless one has its name, "#" ignored. */
    method AddRegion(name: string, parent: Option<string>, denyFlood: bool) returns (ok: bool)
      modifies this
      ensures ok == Accepted(limits, old(repeater), Add(name, parent, denyFlood))
      ensures repeater == Step(limits, old(repeater), Add(name, parent, denyFlood))
    {
      hide ValidRepeater;
      if parent.None? || name == WILDCARD {
        return false;
      }
      var rows := repeater.regions;
      for i := 0 to |rows|
        invariant forall k | 0 <= k < i :: !SameRegionName(rows[k].name, name)
      {
        if SameRegionName(rows[i].name, name) {
          return false;
        }
      }
      var under := FindStored(rows, parent.value);
      rows := rows + [Region(name, under, denyFlood)];
      ok := Commit(repeater.(regions := rows));
    }

    method FindStored(rows: seq<Region>, name: string) returns (stored: string)
      ensures stored == StoredName(rows, name)
    {
      for i := 0 to |rows|
        invariant forall k | 0 <= k < i :: !SameRegionName(rows[k].name, name)
      {
        if SameRegionName(rows[i].name, name) {
          return rows[i].name;
        }
      }
      stored := name;
    }

    method MoveRegion(name: string, under: string) returns (ok: bool)
      modifies this
      ensures ok == Accepted(limits, old(repeater), Move(name, under))
      ensures repeater == Step(limits, old(repeater), Move(name, under))
    {
      hide ValidRepeater;
      if name == WILDCARD {
        return false;
      }
      var rows := repeater.regions;
      for i := 0 to |rows|
        invariant forall k | 0 <= k < i :: !SameRegionName(rows[k].name, name)
      {
        if SameRegionName(rows[i].name, name) {
          var parent := FindStored(rows, under);
          assert i == FirstNamed(rows, name);
          ok := Commit(repeater.(regions := rows[i := rows[i].(parent := parent)]));
          return;
        }
      }
      ok := false;
    }

    /** Sets a region's deny flag; the top, which needs no entry of its own, gets one for it. */
    method SetRegionFlood(name: string, denyFlood: bool) returns (ok: bool)
      modifies this
      ensures ok == Accepted(limits, old(repeater), SetFlood(name, denyFlood))
      ensures repeater == Step(limits, old(repeater), SetFlood(name, denyFlood))
    {
      hide ValidRepeater;
      var rows := repeater.regions;
      for i := 0 to |rows|
        invariant forall k | 0 <= k < i :: !SameRegionName(rows[k].name, name)
      {
        if SameRegionName(rows[i].name, name) {
          assert i == FirstNamed(rows, name);
          ok := Commit(repeater.(regions := rows[i := rows[i].(denyFlood := denyFlood)]));
          return;
        }
      }
      if name == WILDCARD {
        ok := Commit(repeater.(regions := rows + [Region(name, "", denyFlood)]));
        return;
      }
      ok := false;
    }

    method RemoveRegion(name: string) returns (ok: bool)
      modifies this
      ensures ok == Accepted(limits, old(repeater), Remove(name))
      ensures repeater == Step(limits, old(repeater), Remove(name))
    {
      hide ValidRepeater;
      var rows := repeater.regions;
      if name == WILDCARD || !Knows(rows, name) || HasSubRegion(rows, name) {
        return false;
      }
      var stored := FindStored(rows, name);
      var kept: seq<Region> := [];
      for i := 0 to |rows|
        invariant kept == Without(rows[..i], stored)
      {
        assert rows[..i + 1][..i] == rows[..i];
        if rows[i].name != stored {
          kept := kept + [rows[i]];
        }
      }
      assert rows[..|rows|] == rows;
      var row := repeater.(regions := kept);
      if row.home == stored {
        row := row.(home := "");
      }
      if NamesRegion(row.scope, stored) {
        row := row.(scope := Everywhere);
      }
      ok := Commit(row);
    }

    method SetHomeRegion(region: string) returns (ok: bool)
      modifies this
      ensures ok == Accepted(limits, old(repeater), SetHome(region))
      ensures repeater == Step(limits, old(repeater), SetHome(region))
    {
      hide ValidRepeater;
      if region == "" {
        return false;
      }
      var home := "";
      if region != WILDCARD {
        home := FindStored(repeater.regions, region);
      }
      ok := Commit(repeater.(home := home));
    }

    method SetFloodScope(scope: Scope) returns (ok: bool)
      modifies this
      ensures ok == Accepted(limits, old(repeater), SetScope(scope))
      ensures repeater == Step(limits, old(repeater), SetScope(scope))
    {
      hide ValidRepeater;
      if scope.Unset? || !ScopeFormOk(limits, scope) {
        return false;
      }
      var rows := repeater.regions;
      for i := 0 to |rows|
        invariant |rows| == |repeater.regions| && repeater == old(repeater)
        invariant forall k | 0 <= k < i :: rows[k] == Allowed(repeater.regions, scope)[k]
        invariant forall k | i <= k < |rows| :: rows[k] == repeater.regions[k]
      {
        if NamesRegion(scope, rows[i].name) {
          rows := rows[i := rows[i].(denyFlood := false)];
        }
      }
      assert rows == Allowed(repeater.regions, scope);
      ok := Commit(repeater.(scope := scope, regions := rows));
    }
  }
}
