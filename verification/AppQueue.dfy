/** The frames kept for a companion's app until it collects them (internal/store/app_queue.go,
    internal/store/migrations/029_app_access.sql 7-19). */
module AppQueue {
  import opened Common

  datatype Row = Row(id: int, companion: int, channel: bool, frame: seq<int>)

  /** A companion's rows, of one kind or of both. */
  predicate Matches(r: Row, companion: int, channel: Option<bool>)
  {
    r.companion == companion && (channel.None? || r.channel == channel.value)
  }

  function Pick(rows: seq<Row>, companion: int, channel: Option<bool>): (q: seq<Row>)
    ensures |q| <= |rows|
  {
    if rows == [] then [] else
    var n := |rows| - 1;
    Pick(rows[..n], companion, channel) + if Matches(rows[n], companion, channel) then [rows[n]] else []
  }

  /** What waits for a companion's app, oldest first; its direct messages; its channel messages. */
  function Waiting(rows: seq<Row>, companion: int): seq<Row> { Pick(rows, companion, None) }

  function Directs(rows: seq<Row>, companion: int): seq<Row> { Pick(rows, companion, Some(false)) }

  function Channels(rows: seq<Row>, companion: int): seq<Row> { Pick(rows, companion, Some(true)) }

  /** The rows without the first k that match. */
  function Shed(rows: seq<Row>, companion: int, channel: Option<bool>, k: int): (kept: seq<Row>)
    ensures |kept| <= |rows|
  {
    if rows == [] then [] else
    var n := |rows| - 1;
    Shed(rows[..n], companion, channel, k)
    + if Matches(rows[n], companion, channel) && |Pick(rows[..n], companion, channel)| < k then [] else [rows[n]]
  }

  lemma PickOneMore(rows: seq<Row>, r: Row, companion: int, channel: Option<bool>)
    ensures Pick(rows + [r], companion, channel) ==
      Pick(rows, companion, channel) + if Matches(r, companion, channel) then [r] else []
  {
    assert (rows + [r])[..|rows|] == rows;
  }

  /** The queue is its direct and its channel messages. */
  lemma {:induction false} TwoKinds(rows: seq<Row>, companion: int)
    ensures |Waiting(rows, companion)| == |Directs(rows, companion)| + |Channels(rows, companion)|
    decreases |rows|
  {
    if rows != [] {
      TwoKinds(rows[..|rows| - 1], companion);
    }
  }

  /** Shedding takes the oldest of what matches, and touches nothing that does not. */
  lemma {:induction false} ShedTakesTheOldest(rows: seq<Row>, companion: int, channel: Option<bool>, k: nat)
    ensures var q := Pick(rows, companion, channel);
      Pick(Shed(rows, companion, channel, k), companion, channel) == q[Min(k, |q|)..]
    decreases |rows|
  {
    if rows != [] {
      var n := |rows| - 1;
      var before := Shed(rows[..n], companion, channel, k);
      PickOneMore(before, rows[n], companion, channel);
      PickOneMore(rows[..n], rows[n], companion, channel);
      FirstDropped(Pick(rows[..n], companion, channel), rows[n], k);
      assert rows == rows[..n] + [rows[n]] && before + [] == before;
      hide Matches, Pick;
      ShedTakesTheOldest(rows[..n], companion, channel, k);
    }
  }

  lemma FirstDropped(q: seq<Row>, r: Row, k: nat)
    ensures (q + [])[Min(k, |q + []|)..] == q[Min(k, |q|)..]
    ensures (q + [r])[Min(k, |q + [r]|)..] == if |q| < k then q[Min(k, |q|)..] else q[Min(k, |q|)..] + [r]
  {
    assert q + [] == q;
  }

  lemma {:induction false} ShedLeavesTheRest(rows: seq<Row>, companion: int, channel: Option<bool>, k: int, other: int,
                                             kind: Option<bool>)
    requires other != companion || (channel.Some? && kind.Some? && channel != kind)
    ensures Pick(Shed(rows, companion, channel, k), other, kind) == Pick(rows, other, kind)
    decreases |rows|
  {
    if rows != [] {
      var n := |rows| - 1;
      ShedLeavesTheRest(rows[..n], companion, channel, k, other, kind);
      var before := Shed(rows[..n], companion, channel, k);
      PickOneMore(before, rows[n], other, kind);
      assert before + [] == before;
    }
  }

  // ---------------------------------------------------------------------------------------------
  // The steps
  // ---------------------------------------------------------------------------------------------

  /** The table in id order, the next row's id, and the companions whose app access is on. */
  datatype State = State(rows: seq<Row>, nextId: int, on: set<int>)

  /** Rows are kept in the order they came. */
  ghost predicate InOrder(rows: seq<Row>)
  {
    forall i, j | 0 <= i < j < |rows| :: rows[i].id < rows[j].id
  }

  ghost predicate Valid(s: State)
  {
    && InOrder(s.rows)
    && (forall r | r in s.rows :: r.id < s.nextId && r.companion in s.on)
  }

  function Insert(s: State, companion: int, channel: bool, frame: seq<int>): State
  {
    State(s.rows + [Row(s.nextId, companion, channel, frame)], s.nextId + 1, s.on)
  }

  /** How many rows must go for one more to fit; with access off nothing counts as waiting. */
  function Over(s: State, companion: int, size: int): int
  {
    (if companion in s.on then |Waiting(s.rows, companion)| else 0) - size + 1
  }

  function AfterPush(s: State, companion: int, channel: bool, frame: seq<int>, size: int): State
  {
    var over := Over(s, companion, size);
    var s1 := if over > 0 then s.(rows := Shed(s.rows, companion, Some(true), over)) else s;
    if over > 0 && |Channels(s.rows, companion)| < over then s1
    else if companion in s.on then Insert(s1, companion, channel, frame)
    else s1
  }

  function AfterPop(s: State, companion: int): State
  {
    s.(rows := Shed(s.rows, companion, None, 1))
  }

  /** With its access off a companion has an empty queue. */
  function AfterAccess(s: State, companion: int, enabled: bool): State
  {
    if enabled then s.(on := s.on + {companion})
    else s.(on := s.on - {companion}, rows := Shed(s.rows, companion, None, |s.rows|))
  }

  /** The push takes the frame in exactly when access is on and the direct messages leave room for it. */
  ghost predicate Takes(s: State, companion: int, size: int)
  {
    companion in s.on && |Directs(s.rows, companion)| < size
  }

  function One(taken: bool, r: Row): seq<Row> { if taken then [r] else [] }

  lemma {:induction false} NothingWaitsWhileOff(rows: seq<Row>, companion: int, kind: Option<bool>)
    requires forall r | r in rows :: r.companion != companion
    ensures Pick(rows, companion, kind) == []
    decreases |rows|
  {
    if rows != [] {
      NothingWaitsWhileOff(rows[..|rows| - 1], companion, kind);
    }
  }

  /** The oldest channel messages go to make room, and no more of them than the frame needs; direct messages stay. A
      frame that still finds no room is dropped, after every channel message has gone. */
  lemma PushMeans(s: State, companion: int, channel: bool, frame: seq<int>, size: int)
    requires Valid(s)
    ensures var after, r, taken := AfterPush(s, companion, channel, frame, size),
      Row(s.nextId, companion, channel, frame), Takes(s, companion, size);
      var gone := Min(|Channels(s.rows, companion)|, Max(0, Over(s, companion, size)));
      && after.on == s.on && after.nextId == s.nextId + (if taken then 1 else 0)
      && Directs(after.rows, companion) == Directs(s.rows, companion) + One(taken && !channel, r)
      && Channels(after.rows, companion) == Channels(s.rows, companion)[gone..] + One(taken && channel, r)
      && (!taken ==> gone == |Channels(s.rows, companion)|)
  {
    var over := Over(s, companion, size);
    if companion !in s.on {
      NothingWaitsWhileOff(s.rows, companion, Some(true));
      NothingWaitsWhileOff(s.rows, companion, Some(false));
    }
    TwoKinds(s.rows, companion);
    var s1 := if over > 0 then s.(rows := Shed(s.rows, companion, Some(true), over)) else s;
    if over > 0 {
      ShedTakesTheOldest(s.rows, companion, Some(true), over);
      ShedLeavesTheRest(s.rows, companion, Some(true), over, companion, Some(false));
    }
    var r := Row(s.nextId, companion, channel, frame);
    PickOneMore(s1.rows, r, companion, Some(true));
    PickOneMore(s1.rows, r, companion, Some(false));
  }

  /** After a push the queue is within the size or holds only direct messages, whatever the size was before. */
  lemma PushBounds(s: State, companion: int, channel: bool, frame: seq<int>, size: int)
    requires Valid(s) && companion in s.on
    ensures var after := AfterPush(s, companion, channel, frame, size);
      |Waiting(after.rows, companion)| <= size || Channels(after.rows, companion) == []
  {
    PushMeans(s, companion, channel, frame, size);
    TwoKinds(s.rows, companion);
    TwoKinds(AfterPush(s, companion, channel, frame, size).rows, companion);
  }

  /** What evicting costs is never wasted on a frame that fits: a push that evicts and takes its frame ends full. */
  lemma EvictingPushEndsFull(s: State, companion: int, channel: bool, frame: seq<int>, size: int)
    requires Valid(s) && Takes(s, companion, size) && Over(s, companion, size) > 0
    ensures |Waiting(AfterPush(s, companion, channel, frame, size).rows, companion)| == size
  {
    PushMeans(s, companion, channel, frame, size);
    TwoKinds(s.rows, companion);
    TwoKinds(AfterPush(s, companion, channel, frame, size).rows, companion);
  }

  /** Of what waits the oldest is gone, and so from its own kind; the rest is left. */
  predicate IsPop(waiting: seq<Row>, of: seq<Row>, left: seq<Row>, kind: bool)
    requires waiting != []
  {
    if waiting[0].channel == kind then of != [] && of[0] == waiting[0] && left == of[1..] else left == of
  }

  /** A pop takes the oldest row of the companion, whatever its kind. */
  lemma {:induction false} HeadIsTheKindsHead(rows: seq<Row>, companion: int, kind: bool)
    requires Waiting(rows, companion) != []
    ensures IsPop(Waiting(rows, companion), Pick(rows, companion, Some(kind)),
                  Pick(Shed(rows, companion, None, 1), companion, Some(kind)), kind)
    decreases |rows|
  {
    var n := |rows| - 1;
    var older, r, before := rows[..n], rows[n], Shed(rows[..n], companion, None, 1);
    ShedOneMore(rows, companion);
    assert rows == older + [r];
    PickOneMore(before, r, companion, Some(kind));
    PickOneMore(older, r, companion, Some(kind));
    PickOneMore(older, r, companion, None);
    hide Pick, Shed, IsPop;
    if Waiting(older, companion) == [] {
      NothingOfAKind(older, companion, kind);
      TheOnlyOnePops(r, kind);
    } else {
      HeadIsTheKindsHead(older, companion, kind);
      var w, of, left := Waiting(older, companion), Pick(older, companion, Some(kind)),
        Pick(before, companion, Some(kind));
      PopIsOfTheOldest(w, of, left, kind, if Matches(r, companion, None) then [r] else [],
                       if Matches(r, companion, Some(kind)) then [r] else []);
    }
  }

  lemma TheOnlyOnePops(r: Row, kind: bool)
    ensures IsPop([r], [] + if r.channel == kind then [r] else [], [], kind)
  {
  }

  /** What comes after the oldest stays. */
  lemma PopIsOfTheOldest(waiting: seq<Row>, of: seq<Row>, left: seq<Row>, kind: bool, more: seq<Row>, moreOf: seq<Row>)
    requires waiting != [] && IsPop(waiting, of, left, kind)
    ensures IsPop(waiting + more, of + moreOf, left + moreOf, kind)
  {
    assert of != [] ==> (of + moreOf)[1..] == of[1..] + moreOf;
  }

  /** The last row is shed only when nothing waits before it. */
  lemma ShedOneMore(rows: seq<Row>, companion: int)
    requires rows != []
    ensures var n := |rows| - 1; var before := Shed(rows[..n], companion, None, 1);
      if Waiting(rows[..n], companion) == [] then
        before == rows[..n] &&
        Shed(rows, companion, None, 1) == if Matches(rows[n], companion, None) then before else before + [rows[n]]
      else Shed(rows, companion, None, 1) == before + [rows[n]]
  {
    if Waiting(rows[..|rows| - 1], companion) == [] {
      NothingShedFromNothing(rows[..|rows| - 1], companion);
      assert rows[..|rows| - 1] + [] == rows[..|rows| - 1];
    }
  }

  lemma {:induction false} NothingOfAKind(rows: seq<Row>, companion: int, kind: bool)
    requires Waiting(rows, companion) == []
    ensures Pick(rows, companion, Some(kind)) == []
    decreases |rows|
  {
    if rows != [] {
      NothingOfAKind(rows[..|rows| - 1], companion, kind);
    }
  }

  lemma {:induction false} NothingShedFromNothing(rows: seq<Row>, companion: int)
    requires Waiting(rows, companion) == []
    ensures Shed(rows, companion, None, 1) == rows
    decreases |rows|
  {
    if rows != [] {
      NothingShedFromNothing(rows[..|rows| - 1], companion);
    }
  }

  // ---------------------------------------------------------------------------------------------
  // Runs
  // ---------------------------------------------------------------------------------------------

  datatype Event =
    | Pushed(companion: int, channel: bool, frame: seq<int>, size: int)
    | Popped(companion: int)
    | Access(companion: int, enabled: bool)

  function Step(s: State, e: Event): State
  {
    match e
    case Pushed(c, channel, frame, size) => AfterPush(s, c, channel, frame, size)
    case Popped(c) => AfterPop(s, c)
    case Access(c, enabled) => AfterAccess(s, c, enabled)
  }

  function Run(s: State, events: seq<Event>): State
    decreases |events|
  {
    if events == [] then s else Run(Step(s, events[0]), events[1..])
  }

  lemma {:induction false} ShedKeepsOrder(rows: seq<Row>, companion: int, channel: Option<bool>, k: int)
    requires InOrder(rows)
    ensures InOrder(Shed(rows, companion, channel, k))
    ensures forall r | r in Shed(rows, companion, channel, k) :: r in rows
    decreases |rows|
  {
    if rows != [] {
      var n := |rows| - 1;
      ShedKeepsOrder(rows[..n], companion, channel, k);
      var before, kept := Shed(rows[..n], companion, channel, k), Shed(rows, companion, channel, k);
      forall r | r in before ensures r in rows && r.id < rows[n].id {
        assert r in rows[..n];
      }
      assert kept == before || kept == before + [rows[n]];
      NewestLast(before, rows[n]);
      forall r | r in kept ensures r in rows {
        assert r in before || r == rows[n];
      }
    }
  }

  lemma NewestLast(rows: seq<Row>, r: Row)
    requires InOrder(rows) && forall old_ | old_ in rows :: old_.id < r.id
    ensures InOrder(rows + [r])
  {
    forall i, j | 0 <= i < j < |rows + [r]| ensures (rows + [r])[i].id < (rows + [r])[j].id {
      assert i < |rows| && rows[i] in rows;
    }
  }

  /** The survivors of a step are rows of before in the order they came, a new one last; with access off there are
      none. */
  lemma StepKeepsOrder(s: State, e: Event)
    requires Valid(s)
    ensures Valid(Step(s, e)) && s.nextId <= Step(s, e).nextId
    ensures forall r | r in Step(s, e).rows ::
      r in s.rows || (r.id == s.nextId && e.Pushed? && r == Row(s.nextId, e.companion, e.channel, e.frame))
  {
    match e {
      case Pushed(c, channel, frame, size) =>
        var over := Over(s, c, size);
        ShedKeepsOrder(s.rows, c, Some(true), over);
        var kept := if over > 0 then Shed(s.rows, c, Some(true), over) else s.rows;
        NewestLast(kept, Row(s.nextId, c, channel, frame));
      case Popped(c) =>
        ShedKeepsOrder(s.rows, c, None, 1);
      case Access(c, enabled) =>
        ShedKeepsOrder(s.rows, c, None, |s.rows|);
        ShedAll(s.rows, c);
    }
  }

  lemma ShedAll(rows: seq<Row>, companion: int)
    ensures forall r | r in Shed(rows, companion, None, |rows|) :: r.companion != companion
  {
    var kept := Shed(rows, companion, None, |rows|);
    ShedTakesTheOldest(rows, companion, None, |rows|);
    NoneWaiting(kept, companion);
  }

  lemma {:induction false} NoneWaiting(rows: seq<Row>, companion: int)
    requires Waiting(rows, companion) == []
    ensures forall r | r in rows :: r.companion != companion
    decreases |rows|
  {
    if rows != [] {
      NoneWaiting(rows[..|rows| - 1], companion);
    }
  }

  /** No step of one companion's touches what waits for another. */
  lemma OthersAreUntouched(s: State, e: Event, other: int)
    requires Valid(s) && other != e.companion
    ensures Waiting(Step(s, e).rows, other) == Waiting(s.rows, other)
  {
    var s2 := Step(s, e);
    match e {
      case Pushed(c, channel, frame, size) =>
        var over := Over(s, c, size);
        var kept := if over > 0 then Shed(s.rows, c, Some(true), over) else s.rows;
        if over > 0 { ShedLeavesTheRest(s.rows, c, Some(true), over, other, None); }
        PickOneMore(kept, Row(s.nextId, c, channel, frame), other, None);
      case Popped(c) => ShedLeavesTheRest(s.rows, c, None, 1, other, None);
      case Access(c, enabled) => ShedLeavesTheRest(s.rows, c, None, |s.rows|, other, None);
    }
  }

  /** The row of a kind a step takes into a companion's queue. */
  function Taken(s: State, e: Event, companion: int, kind: bool): seq<Row>
  {
    if e.Pushed? && e.companion == companion && e.channel == kind && companion in s.on &&
      |Directs(s.rows, companion)| < e.size
    then [Row(s.nextId, companion, kind, e.frame)] else []
  }

  /** The rows of a kind a step takes out of it: a pop the oldest of all, access off every one, a push only channel
      messages. */
  function Left(s: State, e: Event, companion: int, kind: bool): seq<Row>
  {
    var q, of := Waiting(s.rows, companion), Pick(s.rows, companion, Some(kind));
    if e.companion != companion then []
    else match e
      case Pushed(_, _, _, size) => if kind then of[..Min(|of|, Max(0, Over(s, companion, size)))] else []
      case Popped(_) => if q != [] && q[0].channel == kind then [q[0]] else []
      case Access(_, enabled) => if enabled then [] else of
  }

  function AllTaken(s: State, events: seq<Event>, companion: int, kind: bool): seq<Row>
    decreases |events|
  {
    if events == [] then []
    else Taken(s, events[0], companion, kind) + AllTaken(Step(s, events[0]), events[1..], companion, kind)
  }

  function AllLeft(s: State, events: seq<Event>, companion: int, kind: bool): seq<Row>
    decreases |events|
  {
    if events == [] then []
    else Left(s, events[0], companion, kind) + AllLeft(Step(s, events[0]), events[1..], companion, kind)
  }

  lemma {:induction false} PickOthers(s: State, e: Event, companion: int, kind: bool)
    requires Valid(s) && e.companion != companion
    ensures Pick(Step(s, e).rows, companion, Some(kind)) == Pick(s.rows, companion, Some(kind))
  {
    match e {
      case Pushed(c, channel, frame, size) =>
        var over := Over(s, c, size);
        var kept := if over > 0 then Shed(s.rows, c, Some(true), over) else s.rows;
        if over > 0 { ShedLeavesTheRest(s.rows, c, Some(true), over, companion, Some(kind)); }
        PickOneMore(kept, Row(s.nextId, c, channel, frame), companion, Some(kind));
      case Popped(c) => ShedLeavesTheRest(s.rows, c, None, 1, companion, Some(kind));
      case Access(c, enabled) => ShedLeavesTheRest(s.rows, c, None, |s.rows|, companion, Some(kind));
    }
  }

  /** One step: what waited and what came in is what left and what waits, in that order. */
  lemma StepConserves(s: State, e: Event, companion: int, kind: bool)
    requires Valid(s)
    ensures Pick(s.rows, companion, Some(kind)) + Taken(s, e, companion, kind) ==
            Left(s, e, companion, kind) + Pick(Step(s, e).rows, companion, Some(kind))
  {
    if e.companion != companion {
      PickOthers(s, e, companion, kind);
    } else if e.Pushed? {
      PushConserves(s, companion, e.channel, e.frame, e.size, kind);
    } else if e.Popped? {
      PopConserves(s, companion, kind);
    } else {
      ShedAll(s.rows, companion);
      NothingWaitsWhileOff(Shed(s.rows, companion, None, |s.rows|), companion, Some(kind));
    }
  }

  lemma PushConserves(s: State, companion: int, channel: bool, frame: seq<int>, size: int, kind: bool)
    requires Valid(s)
    ensures var e := Pushed(companion, channel, frame, size);
      Pick(s.rows, companion, Some(kind)) + Taken(s, e, companion, kind) ==
      Left(s, e, companion, kind) + Pick(AfterPush(s, companion, channel, frame, size).rows, companion, Some(kind))
  {
    hide AfterPush, Pick, Valid, Over, Shed;
    PushMeans(s, companion, channel, frame, size);
    var new_ := One(Takes(s, companion, size) && channel == kind, Row(s.nextId, companion, channel, frame));
    assert Taken(s, Pushed(companion, channel, frame, size), companion, kind) == new_;
    if kind {
      var q := Channels(s.rows, companion);
      var gone := Min(|q|, Max(0, Over(s, companion, size)));
      assert q + new_ == q[..gone] + (q[gone..] + new_);
    }
  }

  lemma PopConserves(s: State, companion: int, kind: bool)
    ensures Pick(s.rows, companion, Some(kind)) ==
      Left(s, Popped(companion), companion, kind) + Pick(AfterPop(s, companion).rows, companion, Some(kind))
  {
    hide Shed;
    var q, of := Waiting(s.rows, companion), Pick(s.rows, companion, Some(kind));
    if q == [] {
      NothingShedFromNothing(s.rows, companion);
    } else {
      HeadIsTheKindsHead(s.rows, companion, kind);
      assert of != [] ==> of == [of[0]] + of[1..];
    }
  }

  /** Over a run nothing is lost or reordered within a kind, the size changing as it may: everything that waited or was
      taken in has left, oldest first, or still waits. */
  lemma {:induction false} RunConserves(s: State, events: seq<Event>, companion: int, kind: bool)
    requires Valid(s)
    ensures Valid(Run(s, events))
    ensures Pick(s.rows, companion, Some(kind)) + AllTaken(s, events, companion, kind) ==
            AllLeft(s, events, companion, kind) + Pick(Run(s, events).rows, companion, Some(kind))
    decreases |events|
  {
    hide Valid, Step, Taken, Left, Pick;
    if events == [] {
    } else {
      var s1, rest := Step(s, events[0]), events[1..];
      StepKeepsOrder(s, events[0]);
      StepConserves(s, events[0], companion, kind);
      RunConserves(s1, rest, companion, kind);
      var was, t0, t1, l0, l1, mid, end := Pick(s.rows, companion, Some(kind)), Taken(s, events[0], companion, kind),
        AllTaken(s1, rest, companion, kind), Left(s, events[0], companion, kind), AllLeft(s1, rest, companion, kind),
        Pick(s1.rows, companion, Some(kind)), Pick(Run(s1, rest).rows, companion, Some(kind));
      assert was + (t0 + t1) == (was + t0) + t1 == l0 + (mid + t1) == (l0 + l1) + end;
    }
  }

  // ---------------------------------------------------------------------------------------------
  // Delivery order
  // ---------------------------------------------------------------------------------------------

  /** What a run hands the companion's app. */
  function Delivered(s: State, events: seq<Event>, companion: int): seq<Row>
    decreases |events|
  {
    if events == [] then [] else
    var q := Waiting(s.rows, companion);
    (if events[0] == Popped(companion) && q != [] then [q[0]] else []) +
      Delivered(Step(s, events[0]), events[1..], companion)
  }

  /** Every row that waits, or is still to come, is newer than id. */
  ghost predicate NewerThan(s: State, companion: int, id: int)
  {
    id < s.nextId && forall r | r in s.rows && r.companion == companion :: id < r.id
  }

  lemma {:induction false} WaitingIsInOrder(rows: seq<Row>, companion: int)
    requires InOrder(rows)
    ensures var q := Waiting(rows, companion);
      && (q == [] ==> forall r | r in rows :: r.companion != companion)
      && (q != [] ==> q[0] in rows && q[0].companion == companion)
      && (q != [] ==> forall r | r in Shed(rows, companion, None, 1) && r.companion == companion :: q[0].id < r.id)
    decreases |rows|
  {
    if rows != [] {
      var n := |rows| - 1;
      WaitingIsInOrder(rows[..n], companion);
      ShedKeepsOrder(rows[..n], companion, None, 1);
      if Waiting(rows[..n], companion) == [] {
        NothingShedFromNothing(rows[..n], companion);
      }
    }
  }

  /** The app gets its frames in the order they arrived, over the whole run. */
  lemma {:induction false} DeliveredInOrder(s: State, events: seq<Event>, companion: int, id: int)
    requires Valid(s) && NewerThan(s, companion, id)
    ensures InOrder(Delivered(s, events, companion))
    ensures forall r | r in Delivered(s, events, companion) :: id < r.id
    decreases |events|
  {
    hide Waiting, AfterPop, Step;
    if events != [] {
      var s1, rest, q := Step(s, events[0]), events[1..], Waiting(s.rows, companion);
      StepKeepsOrder(s, events[0]);
      if events[0] == Popped(companion) && q != [] {
        PopLeavesNewer(s, companion);
        DeliveredInOrder(s1, rest, companion, q[0].id);
        OldestFirst(q[0], Delivered(s1, rest, companion));
        assert NewerThan(s, companion, id);
      } else {
        StillNewer(s, events[0], companion, id);
        DeliveredInOrder(s1, rest, companion, id);
      }
    }
  }

  lemma OldestFirst(r: Row, rows: seq<Row>)
    requires InOrder(rows) && forall later | later in rows :: r.id < later.id
    ensures InOrder([r] + rows)
  {
    forall i, j | 0 <= i < j < |[r] + rows| ensures ([r] + rows)[i].id < ([r] + rows)[j].id {
      assert ([r] + rows)[j] == rows[j - 1] && rows[j - 1] in rows;
    }
  }

  lemma PopLeavesNewer(s: State, companion: int)
    requires Valid(s) && Waiting(s.rows, companion) != []
    ensures var r := Waiting(s.rows, companion)[0];
      r in s.rows && r.companion == companion && NewerThan(Step(s, Popped(companion)), companion, r.id)
  {
    WaitingIsInOrder(s.rows, companion);
  }

  lemma StillNewer(s: State, e: Event, companion: int, id: int)
    requires Valid(s) && NewerThan(s, companion, id)
    ensures NewerThan(Step(s, e), companion, id)
  {
    StepKeepsOrder(s, e);
  }

  // ---------------------------------------------------------------------------------------------
  // The queue itself
  // ---------------------------------------------------------------------------------------------

  class AppQueueRepo {
    var rows: seq<Row>
    var nextId: int
    var on: set<int>

    ghost function Now(): State
      reads this
    {
      State(rows, nextId, on)
    }

    method Count(companion: int) returns (n: nat)
      ensures n == |Pick(rows, companion, None)|
    {
      n := 0;
      for i := 0 to |rows|
        invariant n == |Pick(rows[..i], companion, None)|
      {
        assert rows[..i + 1][..i] == rows[..i];
        if rows[i].companion == companion {
          n := n + 1;
        }
      }
      assert rows[..|rows|] == rows;
    }

    /** Deletes the companion's first over rows of the kind and says how many there were. */
    method DeleteOldest(companion: int, channel: Option<bool>, over: int) returns (gone: nat)
      requires over >= 0
      modifies `rows
      ensures rows == Shed(old(rows), companion, channel, over)
      ensures gone == Min(over, |Pick(old(rows), companion, channel)|)
    {
      gone := 0;
      var kept: seq<Row> := [];
      for i := 0 to |rows|
        invariant kept == Shed(rows[..i], companion, channel, over)
        invariant gone == Min(over, |Pick(rows[..i], companion, channel)|)
      {
        assert rows[..i + 1][..i] == rows[..i];
        if Matches(rows[i], companion, channel) && gone < over {
          gone := gone + 1;
          assert kept + [] == kept;
        } else {
          kept := kept + [rows[i]];
        }
      }
      assert rows[..|rows|] == rows;
      rows := kept;
    }

    method Push(companion: int, channel: bool, frame: seq<int>, size: int)
      requires Valid(Now())
      modifies this
      ensures Now() == AfterPush(old(Now()), companion, channel, frame, size) && Valid(Now())
    {
      hide Valid, Shed, Pick;
      StepKeepsOrder(Now(), Pushed(companion, channel, frame, size));
      var n := 0;
      if companion in on {
        n := Count(companion);
      }
      var over := n - size + 1;
      if over > 0 {
        var gone := DeleteOldest(companion, Some(true), over);
        if gone < over {
          return;
        }
      }
      if companion in on {
        rows, nextId := rows + [Row(nextId, companion, channel, frame)], nextId + 1;
      }
    }

    /** Hands over the oldest frame waiting, if any. */
    method Pop(companion: int) returns (frame: Option<seq<int>>)
      requires Valid(Now())
      modifies this
      ensures Now() == AfterPop(old(Now()), companion) && Valid(Now())
      ensures var q := Waiting(old(rows), companion); frame == if q == [] then None else Some(q[0].frame)
    {
      StepKeepsOrder(Now(), Popped(companion));
      frame := None;
      for i := 0 to |rows|
        invariant Waiting(rows[..i], companion) == []
      {
        assert rows[..i + 1][..i] == rows[..i];
        if rows[i].companion == companion {
          frame := Some(rows[i].frame);
          HeadStays(rows, companion, i);
          break;
        }
      }
      assert rows[..|rows|] == rows;
      var gone := DeleteOldest(companion, None, 1);
    }

    method AnyWaiting(companion: int) returns (any: bool)
      ensures any <==> Waiting(rows, companion) != []
    {
      var n := Count(companion);
      any := n > 0;
    }

    method SetAccess(companion: int, enabled: bool)
      requires Valid(Now())
      modifies this
      ensures Now() == AfterAccess(old(Now()), companion, enabled) && Valid(Now())
    {
      StepKeepsOrder(Now(), Access(companion, enabled));
      if enabled {
        on := on + {companion};
      } else {
        on := on - {companion};
        var gone := DeleteOldest(companion, None, |rows|);
      }
    }
  }

  /** The first row found in a prefix is the first of all. */
  lemma {:induction false} HeadStays(rows: seq<Row>, companion: int, i: nat)
    requires i < |rows| && Waiting(rows[..i], companion) == [] && rows[i].companion == companion
    ensures Waiting(rows, companion) != [] && Waiting(rows, companion)[0] == rows[i]
    decreases |rows|
  {
    var n := |rows| - 1;
    if i < n {
      assert rows[..n][..i] == rows[..i];
      HeadStays(rows[..n], companion, i);
    }
  }
}
