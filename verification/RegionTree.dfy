/** The parents of a repeater's regions (internal/config/repeater.go): the bounded walk that decides
    whether they form a tree. */
module RegionTree {
  import opened Common

  datatype Region = Region(name: string, parent: string, denyFlood: bool)

  const WILDCARD := "*"

  /** The name without one leading "#". */
  function Bare(name: string): string
  {
    if name != [] && name[0] == '#' then name[1..] else name
  }

  /** A leading "#" is ignored; "*" is only ever itself. */
  predicate SameRegionName(a: string, b: string)
  {
    if a == WILDCARD || b == WILDCARD then a == b else Bare(a) == Bare(b)
  }

  /** Each name's parent; of two entries with one name, the later counts. */
  function Parents(regions: seq<Region>): map<string, string>
  {
    if regions == [] then map[] else
    var n := |regions| - 1;
    Parents(regions[..n])[regions[n].name := regions[n].parent]
  }

  ghost predicate UniqueNames(regions: seq<Region>)
  {
    forall i, j | 0 <= i < j < |regions| :: regions[i].name != regions[j].name
  }

  lemma {:induction false} ParentAt(regions: seq<Region>, i: nat)
    requires i < |regions|
    ensures regions[i].name in Parents(regions)
    ensures UniqueNames(regions) ==> Parents(regions)[regions[i].name] == regions[i].parent
    decreases |regions|
  {
    var n := |regions| - 1;
    if i < n {
      ParentAt(regions[..n], i);
      assert regions[..n][i] == regions[i];
    }
  }

  /** The entry a name's parent comes from. */
  lemma {:induction false} Holder(regions: seq<Region>, x: string) returns (i: nat)
    requires x in Parents(regions)
    ensures i < |regions| && regions[i].name == x && regions[i].parent == Parents(regions)[x]
    decreases |regions|
  {
    var n := |regions| - 1;
    i := n;
    if x != regions[n].name {
      i := Holder(regions[..n], x);
    }
  }

  lemma {:induction false} NoMoreNamesThanRegions(regions: seq<Region>)
    ensures |Parents(regions)| <= |regions|
  {
    if regions != [] {
      var n := |regions| - 1;
      NoMoreNamesThanRegions(regions[..n]);
      assert Parents(regions).Keys == Parents(regions[..n]).Keys + {regions[n].name};
    }
  }

  // ---------------------------------------------------------------------------------------------
  // What a tree is
  // ---------------------------------------------------------------------------------------------

  /** k parents up from x; nothing is above "*" or an unlisted name. */
  ghost function Climb(up: map<string, string>, x: string, k: nat): Option<string>
  {
    if k == 0 then Some(x) else
    match Climb(up, x, k - 1)
    case None => None
    case Some(p) => if p != WILDCARD && p in up then Some(up[p]) else None
  }

  /** y is x or one of the regions above it. */
  ghost predicate IsUnder(up: map<string, string>, x: string, y: string)
  {
    exists k: nat :: Climb(up, x, k) == Some(y)
  }

  /** "*" has no parent, and every other region has one and its chain of parents reaches "*". */
  ghost predicate IsTree(regions: seq<Region>)
  {
    forall i | 0 <= i < |regions| ::
      if regions[i].name == WILDCARD then regions[i].parent == ""
      else regions[i].parent != "" && IsUnder(Parents(regions), regions[i].name, WILDCARD)
  }

  lemma {:induction false} ClimbOn(up: map<string, string>, x: string, a: nat, b: nat)
    ensures Climb(up, x, a + b) == if Climb(up, x, a).Some? then Climb(up, Climb(up, x, a).value, b) else None
    decreases b
  {
    if b > 0 {
      ClimbOn(up, x, a, b - 1);
    }
  }

  /** A region that comes back to itself never reaches the top. */
  lemma {:induction false} CycleNeverReachesTop(up: map<string, string>, x: string, k: nat, m: nat)
    requires k > 0 && Climb(up, x, k) == Some(x)
    ensures Climb(up, x, m) != Some(WILDCARD)
    decreases m
  {
    if m > k {
      ClimbOn(up, x, k, m - k);
      CycleNeverReachesTop(up, x, k, m - k);
    } else if Climb(up, x, m) == Some(WILDCARD) {
      if m < k {
        ClimbOn(up, x, m + 1, k - m - 1);
      } else {
        ClimbOn(up, x, 1, k - 1);
      }
    }
  }

  lemma CycleIsNotUnderTop(up: map<string, string>, x: string, k: nat)
    requires k > 0 && Climb(up, x, k) == Some(x)
    ensures !IsUnder(up, x, WILDCARD)
  {
    forall m: nat ensures Climb(up, x, m) != Some(WILDCARD) {
      CycleNeverReachesTop(up, x, k, m);
    }
  }

  // ---------------------------------------------------------------------------------------------
  // The check
  // ---------------------------------------------------------------------------------------------

  datatype TreeError =
    | WildcardHasParent
    | ParentRequired(name: string)
    | ParentUnknown(name: string, parent: string)
    | InsideItself(name: string)

  /** A Go map read: the empty string for a missing key. */
  function Lookup(up: map<string, string>, x: string): string
  {
    if x in up then up[x] else ""
  }

  ghost function Walk(up: map<string, string>, p: string, k: nat): string
  {
    if k == 0 then p else Lookup(up, Walk(up, p, k - 1))
  }

  /** The walk from p meets name within n steps, with "*" not met by then. */
  ghost predicate ComesBack(up: map<string, string>, name: string, p: string, n: nat)
  {
    exists k: nat :: k < n && Walk(up, p, k) == name && forall j: nat | j <= k :: Walk(up, p, j) != WILDCARD
  }

  method WalkUp(up: map<string, string>, name: string, parent: string, n: nat) returns (inside: bool)
    ensures inside <==> ComesBack(up, name, parent, n)
  {
    var p := parent;
    for s := 0 to n
      invariant p == Walk(up, parent, s)
      invariant forall j: nat | j < s :: Walk(up, parent, j) != WILDCARD && Walk(up, parent, j) != name
    {
      if p == WILDCARD {
        return false;
      }
      if p == name {
        return true;
      }
      p := Lookup(up, p);
    }
    inside := false;
  }

  /** The parts of the check that look at one region and its parent only. */
  ghost predicate ParentStands(up: map<string, string>, rg: Region)
  {
    if rg.name == WILDCARD then rg.parent == ""
    else rg.parent != "" && (rg.parent == WILDCARD || rg.parent in up)
  }

  ghost predicate Passes(up: map<string, string>, rg: Region, n: nat)
  {
    ParentStands(up, rg) && (rg.name != WILDCARD ==> !ComesBack(up, rg.name, rg.parent, n))
  }

  ghost predicate AllStand(regions: seq<Region>)
  {
    forall j | 0 <= j < |regions| :: ParentStands(Parents(regions), regions[j])
  }

  /** Where every parent is listed, the walk follows the chain until the top. */
  lemma {:induction false} WalkIsClimb(regions: seq<Region>, i: nat, k: nat)
    requires UniqueNames(regions) && AllStand(regions) && i < |regions| && regions[i].name != WILDCARD
    requires forall j: nat | j < k :: Walk(Parents(regions), regions[i].parent, j) != WILDCARD
    ensures Climb(Parents(regions), regions[i].name, k + 1) == Some(Walk(Parents(regions), regions[i].parent, k))
    ensures Walk(Parents(regions), regions[i].parent, k) == WILDCARD ||
      Walk(Parents(regions), regions[i].parent, k) in Parents(regions)
    decreases k
  {
    var up := Parents(regions);
    if k == 0 {
      ParentAt(regions, i);
      assert ParentStands(up, regions[i]);
      assert Climb(up, regions[i].name, 0) == Some(regions[i].name);
    } else {
      WalkIsClimb(regions, i, k - 1);
      var p := Walk(up, regions[i].parent, k - 1);
      var j := Holder(regions, p);
      assert ParentStands(up, regions[j]);
    }
  }

  lemma {:induction false} WalkShifts(up: map<string, string>, p: string, a: nat, m: nat)
    ensures Walk(up, Lookup(up, Walk(up, p, a)), m) == Walk(up, p, a + 1 + m)
    decreases m
  {
    if m > 0 {
      WalkShifts(up, p, a, m - 1);
    }
  }

  /** A walk that stays below the top for n steps has met some region twice, and that region's own walk comes back. */
  lemma {:induction false} NStepsFindACycle(regions: seq<Region>, i: nat) returns (j: nat)
    requires UniqueNames(regions) && AllStand(regions) && i < |regions| && regions[i].name != WILDCARD
    requires forall k: nat | k <= |regions| :: Walk(Parents(regions), regions[i].parent, k) != WILDCARD
    ensures j < |regions| && !Passes(Parents(regions), regions[j], |regions|)
  {
    var up, n, p0 := Parents(regions), |regions|, regions[i].parent;
    NoMoreNamesThanRegions(regions);
    var steps := seq(n + 1, k requires 0 <= k <= n => Walk(up, p0, k));
    forall k | 0 <= k < |steps| ensures steps[k] in up.Keys {
      WalkIsClimb(regions, i, k);
    }
    Pigeonhole(steps, up.Keys);
    var a, b :| 0 <= a < b < |steps| && steps[a] == steps[b];
    j := Holder(regions, steps[a]);
    forall m: nat | m <= b - a - 1 ensures Walk(up, regions[j].parent, m) == Walk(up, p0, a + 1 + m) {
      WalkShifts(up, p0, a, m);
    }
    assert Walk(up, regions[j].parent, b - a - 1) == regions[j].name;
    assert ComesBack(up, regions[j].name, regions[j].parent, n);
  }

  lemma {:induction false} PassingReachesTop(regions: seq<Region>, i: nat)
    requires UniqueNames(regions) && i < |regions| && regions[i].name != WILDCARD
    requires AllStand(regions) && forall j | 0 <= j < |regions| :: Passes(Parents(regions), regions[j], |regions|)
    ensures IsUnder(Parents(regions), regions[i].name, WILDCARD)
  {
    var up, n := Parents(regions), |regions|;
    if forall k: nat | k <= n :: Walk(up, regions[i].parent, k) != WILDCARD {
      var j := NStepsFindACycle(regions, i);
    } else {
      var k: nat :| k <= n && Walk(up, regions[i].parent, k) == WILDCARD;
      var first := FirstTop(up, regions[i].parent, k);
      WalkIsClimb(regions, i, first);
    }
  }

  lemma {:induction false} PassingIsATree(regions: seq<Region>)
    requires UniqueNames(regions)
    requires forall i | 0 <= i < |regions| :: Passes(Parents(regions), regions[i], |regions|)
    ensures IsTree(regions)
  {
    forall i | 0 <= i < |regions| ensures ParentStands(Parents(regions), regions[i]) {
      assert Passes(Parents(regions), regions[i], |regions|);
    }
    forall i | 0 <= i < |regions| && regions[i].name != WILDCARD
      ensures IsUnder(Parents(regions), regions[i].name, WILDCARD)
    {
      PassingReachesTop(regions, i);
    }
  }

  lemma {:induction false} FirstTop(up: map<string, string>, p: string, k: nat) returns (first: nat)
    requires Walk(up, p, k) == WILDCARD
    ensures Walk(up, p, first) == WILDCARD && forall j: nat | j < first :: Walk(up, p, j) != WILDCARD
    decreases k
  {
    if j: nat :| j < k && Walk(up, p, j) == WILDCARD {
      first := FirstTop(up, p, j);
    } else {
      first := k;
    }
  }

  lemma StepTowardTopIsListed(up: map<string, string>, x: string)
    requires x in up && x != WILDCARD && IsUnder(up, x, WILDCARD)
    ensures up[x] == WILDCARD || up[x] in up
  {
    var m: nat :| Climb(up, x, m) == Some(WILDCARD);
    assert Climb(up, x, 0) == Some(x);
    assert Climb(up, x, 1) == Some(up[x]);
    if m > 1 {
      ClimbOn(up, x, 2, m - 2);
      assert Climb(up, x, 2).Some?;
    }
  }

  lemma TreeStands(regions: seq<Region>)
    requires UniqueNames(regions) && IsTree(regions)
    ensures AllStand(regions)
  {
    forall j | 0 <= j < |regions| ensures ParentStands(Parents(regions), regions[j]) {
      if regions[j].name != WILDCARD {
        ParentAt(regions, j);
        StepTowardTopIsListed(Parents(regions), regions[j].name);
      }
    }
  }

  lemma ComingBackIsACycle(regions: seq<Region>, i: nat) returns (k: nat)
    requires UniqueNames(regions) && AllStand(regions) && i < |regions| && regions[i].name != WILDCARD
    requires ComesBack(Parents(regions), regions[i].name, regions[i].parent, |regions|)
    ensures k > 0 && Climb(Parents(regions), regions[i].name, k) == Some(regions[i].name)
  {
    var up, rg := Parents(regions), regions[i];
    var s: nat :| s < |regions| && Walk(up, rg.parent, s) == rg.name && forall j: nat | j <= s ::
      Walk(up, rg.parent, j) != WILDCARD;
    WalkIsClimb(regions, i, s);
    k := s + 1;
  }

  lemma {:induction false} TreePasses(regions: seq<Region>, i: nat)
    requires UniqueNames(regions) && IsTree(regions) && i < |regions|
    ensures Passes(Parents(regions), regions[i], |regions|)
  {
    TreeStands(regions);
    assert ParentStands(Parents(regions), regions[i]);
    if regions[i].name != WILDCARD && ComesBack(Parents(regions), regions[i].name, regions[i].parent, |regions|) {
      var k := ComingBackIsACycle(regions, i);
      CycleIsNotUnderTop(Parents(regions), regions[i].name, k);
    }
  }

  method ValidateRegionParents(regions: seq<Region>) returns (err: Option<TreeError>)
    ensures err.None? <==> forall i | 0 <= i < |regions| :: Passes(Parents(regions), regions[i], |regions|)
    ensures UniqueNames(regions) ==> (err.None? <==> IsTree(regions))
  {
    var parent: map<string, string> := map[];
    for i := 0 to |regions|
      invariant parent == Parents(regions[..i])
    {
      assert regions[..i + 1][..i] == regions[..i];
      parent := parent[regions[i].name := regions[i].parent];
    }
    assert regions[..|regions|] == regions;
    for i := 0 to |regions|
      invariant forall j | 0 <= j < i :: Passes(parent, regions[j], |regions|)
    {
      var rg := regions[i];
      err := None;
      if rg.name == WILDCARD {
        if rg.parent != "" {
          err := Some(WildcardHasParent);
        }
      } else if rg.parent == "" {
        err := Some(ParentRequired(rg.name));
      } else if rg.parent !in parent && rg.parent != WILDCARD {
        err := Some(ParentUnknown(rg.name, rg.parent));
      } else {
        var inside := WalkUp(parent, rg.name, rg.parent, |regions|);
        if inside {
          err := Some(InsideItself(rg.name));
        }
      }
      assert err.None? <==> Passes(parent, rg, |regions|);
      if err.Some? {
        if UniqueNames(regions) && IsTree(regions) {
          TreePasses(regions, i);
        }
        return;
      }
    }
    if UniqueNames(regions) {
      PassingIsATree(regions);
    }
    err := None;
  }
}
