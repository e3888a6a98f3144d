/** When each monitored node is polled next, and what a request for an early poll is worth while polls are in flight
    (internal/monitor/monitor.go 22-33, 98-173, 212-244, 287-305, 372-398). Times are whole seconds. */
module PollScheduler {
  import opened Common

  const DEFAULT_INTERVAL := 21600
  const RETRY_INTERVAL := 300
  const DEFAULT_MAX_RETRIES := 3
  const STAGGER := 30

  /** A node to poll; 0 takes the default, and a negative maxRetries means none. */
  datatype Target = Target(key: int, intervalSecs: int, retrySecs: int, maxRetries: int)
  {
    function Interval(): int { if intervalSecs > 0 then intervalSecs else DEFAULT_INTERVAL }

    function Retry(): int { if retrySecs > 0 then retrySecs else RETRY_INTERVAL }

    function Retries(): nat
    {
      if maxRetries < 0 then 0 else if maxRetries > 0 then maxRetries else DEFAULT_MAX_RETRIES
    }
  }

  /** When each node is due (absent for now), its consecutive failures (absent for none), the nodes asked for again in
      mid-poll, and the node in flight. */
  datatype Schedule = Schedule(nextDue: map<int, int>, failures: map<int, nat>, soon: set<int>, inFlight: Option<int>)

  function Failures(s: Schedule, key: int): nat { if key in s.failures then s.failures[key] else 0 }

  /** A failed poll is retried soon so many times, then the normal interval resumes; a poll asked for meanwhile
      overrides both. */
  function Rescheduled(s: Schedule, t: Target, ok: bool, at: int): Schedule
  {
    var s := s.(inFlight := None);
    if t.key in s.soon then s.(soon := s.soon - {t.key}, nextDue := s.nextDue - {t.key})
    else if ok then s.(failures := s.failures - {t.key}, nextDue := s.nextDue[t.key := at + t.Interval()])
    else
      var n := Failures(s, t.key) + 1;
      if n <= t.Retries() then s.(failures := s.failures[t.key := n], nextDue := s.nextDue[t.key := at + t.Retry()])
      else s.(failures := s.failures - {t.key}, nextDue := s.nextDue[t.key := at + t.Interval()])
  }

  /** A node asked for is due now; in mid-poll the request is also held past that poll. */
  function Asked(s: Schedule, key: int): Schedule
  {
    s.(soon := if s.inFlight == Some(key) then s.soon + {key} else s.soon, nextDue := s.nextDue - {key})
  }

  // ---------------------------------------------------------------------------------------------
  // The retry counter
  // ---------------------------------------------------------------------------------------------

  /** How a poll ended, and when: it succeeded, it failed, or another was asked for meanwhile. */
  datatype Outcome = Good(at: int) | Bad(at: int) | Overtaken(ok: bool, at: int)

  function After(s: Schedule, t: Target, outcomes: seq<Outcome>): Schedule
  {
    if outcomes == [] then s else
    var before := After(s, t, outcomes[..|outcomes| - 1]);
    match outcomes[|outcomes| - 1]
    case Good(at) => Rescheduled(before, t, true, at)
    case Bad(at) => Rescheduled(before, t, false, at)
    case Overtaken(ok, at) => Rescheduled(Asked(before.(inFlight := Some(t.key)), t.key), t, ok, at)
  }

  /** The failures since the last success, an overtaken poll counting for nothing. */
  function Trailing(outcomes: seq<Outcome>): nat
  {
    if outcomes == [] then 0 else
    var before := Trailing(outcomes[..|outcomes| - 1]);
    match outcomes[|outcomes| - 1]
    case Good(_) => 0
    case Bad(_) => before + 1
    case Overtaken(_, _) => before
  }

  function Modulo(n: nat, m: int): nat
    requires m > 0
  {
    n % m
  }

  /** The counter goes round with one more turn than there are retries, and a failure that closes a round waits the
      normal interval. */
  lemma {:induction false} CounterGoesRound(s: Schedule, t: Target, outcomes: seq<Outcome>)
    requires t.key !in s.failures && t.key !in s.soon
    ensures var n, s2 := Trailing(outcomes), After(s, t, outcomes);
      && Failures(s2, t.key) == Modulo(n, t.Retries() + 1) && t.key !in s2.soon
      && (t.key in s2.failures ==> s2.failures[t.key] > 0)
      && (outcomes != [] ==> match outcomes[|outcomes| - 1]
          case Good(at) => t.key in s2.nextDue && s2.nextDue[t.key] == at + t.Interval()
          case Bad(at) =>
            t.key in s2.nextDue && s2.nextDue[t.key] == at + if Modulo(n, t.Retries() + 1) == 0 then t.Interval()
              else t.Retry()
          case Overtaken(_, _) => t.key !in s2.nextDue)
    decreases |outcomes|
  {
    assert Modulo(0, t.Retries() + 1) == 0;
    if outcomes != [] {
      var before := outcomes[..|outcomes| - 1];
      hide After, Rescheduled, Asked, Failures, Modulo, Target.Retries, Target.Interval, Target.Retry;
      CounterGoesRound(s, t, before);
      OutcomeCounts(After(s, t, before), t, outcomes[|outcomes| - 1]);
      AfterOneMore(s, t, outcomes);
      OneMoreTurn(Trailing(before), t.Retries() + 1);
    }
  }

  /** One outcome: what it does to the counter, and to when the node is next due. */
  lemma OutcomeCounts(s: Schedule, t: Target, o: Outcome)
    requires t.key !in s.soon && (t.key in s.failures ==> s.failures[t.key] > 0)
    ensures var s2, n := After(s, t, [o]), Failures(s, t.key);
      && t.key !in s2.soon && (t.key in s2.failures ==> s2.failures[t.key] > 0)
      && (match o
          case Good(at) => Failures(s2, t.key) == 0 && t.key in s2.nextDue && s2.nextDue[t.key] == at + t.Interval()
          case Bad(at) =>
            && Failures(s2, t.key) == (if n + 1 <= t.Retries() then n + 1 else 0)
            && t.key in s2.nextDue && s2.nextDue[t.key] == at + if n + 1 <= t.Retries() then t.Retry() else t.Interval()
          case Overtaken(_, _) => Failures(s2, t.key) == n && t.key !in s2.nextDue)
  {
    assert [o][..0] == [];
  }

  lemma AfterOneMore(s: Schedule, t: Target, outcomes: seq<Outcome>)
    requires outcomes != []
    ensures After(s, t, outcomes) == After(After(s, t, outcomes[..|outcomes| - 1]), t, [outcomes[|outcomes| - 1]])
  {
    assert [outcomes[|outcomes| - 1]][..0] == [];
  }

  lemma {:induction false} OneMoreTurn(n: nat, m: int)
    requires m > 0
    ensures Modulo(n, m) < m && Modulo(n + 1, m) == if Modulo(n, m) + 1 == m then 0 else Modulo(n, m) + 1
  {
    var q := n / m;
    assert n == q * m + n % m;
    if n % m + 1 == m {
      assert n + 1 == (q + 1) * m;
      RemainderIs(q + 1, m, 0);
    } else {
      RemainderIs(q, m, n % m + 1);
    }
  }

  lemma {:induction false} RemainderIs(q: int, m: int, r: int)
    requires 0 <= r < m
    ensures (q * m + r) % m == r
  {
    var x := q * m + r;
    var d := x / m - q;
    assert x == x / m * m + x % m;
    assert d * m == r - x % m;
    assert d >= 1 ==> d * m >= m;
    assert d <= -1 ==> d * m <= -m;
  }

  // ---------------------------------------------------------------------------------------------
  // Cycle, out-of-band poll and request, interleaved
  // ---------------------------------------------------------------------------------------------

  datatype Holder = Nobody | TheCycle | TheCaller | Another

  /** Where the scheduler's cycle is: between nodes, waiting for the radio, holding it, polling, with an outcome, or
      with the radio given up and the node yet to be rescheduled. */
  datatype Cycle =
    | BetweenNodes | Waits(t: Target) | Holds(t: Target) | Polls(t: Target)
    | Polled(t: Target, ok: bool) | Gap(t: Target, ok: bool)

  /** Where an out-of-band poll is: none, holding the radio, polling, with an outcome, or rescheduled. */
  datatype Caller =
    | NoCaller | CallerHolds(t: Target) | CallerPolls(t: Target) | CallerPolled(t: Target, ok: bool) | CallerDone

  /** Owed is history: the nodes asked for that no poll has started on since. */
  datatype State = State(schedule: Schedule, clock: int, radio: Holder, cycle: Cycle, caller: Caller, owed: set<int>)

  const START := State(Schedule(map[], map[], {}, None), 0, Nobody, BetweenNodes, NoCaller, {})

  datatype Event =
    | Finds(t: Target, now: int) | GivesUp | Locks | Sets | Ends(ok: bool) | Unlocks | Reschedules
    | CallerStarts(t: Target) | CallerSets | CallerEnds(ok: bool) | CallerReschedules | CallerUnlocks
    | AnotherLocks | AnotherUnlocks
    | Ask(key: int)
    | Passes(seconds: nat)

  predicate Due(s: Schedule, key: int, now: int) { key !in s.nextDue || s.nextDue[key] <= now }

  predicate Enabled(s: State, e: Event)
  {
    match e
    case Finds(t, now) => s.cycle.BetweenNodes? && now <= s.clock && Due(s.schedule, t.key, now)
    case GivesUp => s.cycle.Waits?
    case Locks => s.cycle.Waits? && s.radio == Nobody
    case Sets => s.cycle.Holds?
    case Ends(_) => s.cycle.Polls?
    case Unlocks => s.cycle.Polled?
    case Reschedules => s.cycle.Gap?
    case CallerStarts(_) => s.caller.NoCaller? && s.radio == Nobody
    case CallerSets => s.caller.CallerHolds?
    case CallerEnds(_) => s.caller.CallerPolls?
    case CallerReschedules => s.caller.CallerPolled?
    case CallerUnlocks => s.caller.CallerDone?
    case AnotherLocks => s.radio == Nobody
    case AnotherUnlocks => s.radio == Another
    case Ask(_) => true
    case Passes(_) => true
  }

  /** A poll of a node starts: what was asked for before is answered by it. */
  function Starts(s: State, key: int): State
  {
    s.(schedule := s.schedule.(inFlight := Some(key)), owed := s.owed - {key})
  }

  function Step(s: State, e: Event): State
    requires Enabled(s, e)
  {
    match e
    case Finds(t, _) => s.(cycle := Waits(t))
    case GivesUp => s.(cycle := BetweenNodes)
    case Locks => s.(cycle := Holds(s.cycle.t), radio := TheCycle)
    case Sets => Starts(s, s.cycle.t.key).(cycle := Polls(s.cycle.t))
    case Ends(ok) => s.(cycle := Polled(s.cycle.t, ok))
    case Unlocks => s.(cycle := Gap(s.cycle.t, s.cycle.ok), radio := Nobody)
    case Reschedules => s.(schedule := Rescheduled(s.schedule, s.cycle.t, s.cycle.ok, s.clock), cycle := BetweenNodes)
    case CallerStarts(t) => s.(caller := CallerHolds(t), radio := TheCaller)
    case CallerSets => Starts(s, s.caller.t.key).(caller := CallerPolls(s.caller.t))
    case CallerEnds(ok) => s.(caller := CallerPolled(s.caller.t, ok))
    case CallerReschedules => s.(schedule := Rescheduled(s.schedule, s.caller.t, s.caller.ok, s.clock),
      caller := CallerDone)
    case CallerUnlocks => s.(caller := NoCaller, radio := Nobody)
    case AnotherLocks => s.(radio := Another)
    case AnotherUnlocks => s.(radio := Nobody)
    case Ask(key) => s.(schedule := Asked(s.schedule, key), owed := s.owed + {key})
    case Passes(seconds) => s.(clock := s.clock + seconds)
  }

  ghost predicate Possible(s: State, events: seq<Event>)
    decreases |events|
  {
    events == [] || (Enabled(s, events[0]) && Possible(Step(s, events[0]), events[1..]))
  }

  ghost function Run(s: State, events: seq<Event>): State
    requires Possible(s, events)
    decreases |events|
  {
    if events == [] then s else Run(Step(s, events[0]), events[1..])
  }

  /** The node each side has started on and not yet rescheduled. */
  function CycleFlies(s: State): Option<int>
  {
    match s.cycle
    case Polls(t) => Some(t.key)
    case Polled(t, _) => Some(t.key)
    case Gap(t, _) => Some(t.key)
    case _ => None
  }

  function CallerFlies(s: State): Option<int>
  {
    match s.caller
    case CallerPolls(t) => Some(t.key)
    case CallerPolled(t, _) => Some(t.key)
    case _ => None
  }

  /** The radio is held by whoever says so, and so by one at a time. */
  ghost predicate OneOnTheAir(s: State)
  {
    && (s.radio == TheCycle <==> s.cycle.Holds? || s.cycle.Polls? || s.cycle.Polled?)
    && (s.radio == TheCaller <==> !s.caller.NoCaller?)
  }

  /** An out-of-band poll starts while the cycle has given up the radio but not yet rescheduled. */
  predicate StartsInGap(s: State, e: Event) { e.CallerSets? && s.cycle.Gap? }

  /** With no such start, the node in flight is the one being polled, and only it can be marked for another poll. */
  ghost predicate InStep(s: State)
  {
    && OneOnTheAir(s)
    && (CycleFlies(s).Some? ==> CallerFlies(s).None?)
    && s.schedule.inFlight == (if CycleFlies(s).Some? then CycleFlies(s) else CallerFlies(s))
    && (forall k | k in s.schedule.soon :: s.schedule.inFlight == Some(k))
  }

  /** A request still stands: the node is due, or marked to be when its poll is rescheduled. */
  predicate Stands(s: State, key: int) { key in s.schedule.soon || key !in s.schedule.nextDue }

  ghost predicate EveryRequestStands(s: State)
  {
    forall k | k in s.owed :: Stands(s, k) && (k in s.schedule.soon ||
      (s.schedule.inFlight != Some(k) && CycleFlies(s) != Some(k) && CallerFlies(s) != Some(k)))
  }

  lemma StepStaysInStep(s: State, e: Event)
    requires InStep(s) && Enabled(s, e) && !StartsInGap(s, e)
    ensures InStep(Step(s, e))
  {
  }

  lemma StepKeepsRequests(s: State, e: Event)
    requires InStep(s) && EveryRequestStands(s) && Enabled(s, e) && !StartsInGap(s, e)
    ensures EveryRequestStands(Step(s, e))
  {
  }

  ghost predicate NeverStartsInGap(s: State, events: seq<Event>)
    requires Possible(s, events)
    decreases |events|
  {
    events == [] || (!StartsInGap(s, events[0]) && NeverStartsInGap(Step(s, events[0]), events[1..]))
  }

  lemma {:induction false} RunKeepsRequests(s: State, events: seq<Event>)
    requires InStep(s) && EveryRequestStands(s) && Possible(s, events) && NeverStartsInGap(s, events)
    ensures InStep(Run(s, events)) && EveryRequestStands(Run(s, events))
    decreases |events|
  {
    hide InStep, EveryRequestStands, Enabled, Step, StartsInGap;
    if events == [] {
    } else {
      StepStaysInStep(s, events[0]);
      StepKeepsRequests(s, events[0]);
      RunKeepsRequests(Step(s, events[0]), events[1..]);
    }
  }

  /** A request for an early poll, mid-poll or not, is never lost while no out-of-band poll starts in the gap: until a
      poll of the node starts after it, the node is due, or becomes due when the poll in flight is rescheduled. */
  lemma NoRequestIsLost(events: seq<Event>, key: int)
    requires Possible(START, events) && NeverStartsInGap(START, events) && key in Run(START, events).owed
    ensures var s := Run(START, events);
      if key in s.schedule.soon then CycleFlies(s) == Some(key) || CallerFlies(s) == Some(key)
      else key !in s.schedule.nextDue
    ensures var s := Run(START, events);
      s.cycle.BetweenNodes? && key !in s.schedule.soon ==>
      forall t: Target, now | t.key == key && now <= s.clock :: Enabled(s, Finds(t, now))
  {
    RunKeepsRequests(START, events);
    hide Run, Possible, NeverStartsInGap;
  }

  /** How many polls of the node have started and are not yet rescheduled. */
  function Aloft(s: State, key: int): nat
  {
    (if CycleFlies(s) == Some(key) then 1 else 0) + (if CallerFlies(s) == Some(key) then 1 else 0)
  }

  /** Neither asks for the node nor starts a poll of it. */
  predicate LeavesAlone(s: State, e: Event, key: int)
  {
    && e != Ask(key)
    && !(e.Sets? && s.cycle.Holds? && s.cycle.t.key == key)
    && !(e.CallerSets? && s.caller.CallerHolds? && s.caller.t.key == key)
  }

  ghost predicate AllLeaveAlone(s: State, events: seq<Event>, key: int)
    requires Possible(s, events)
    decreases |events|
  {
    events == [] || (LeavesAlone(s, events[0], key) && AllLeaveAlone(Step(s, events[0]), events[1..], key))
  }

  /** With no poll of the node aloft its schedule stays as it is; the one that lands last decides, and by the mark
      alone; and of two, the first to land uses the mark up. */
  ghost predicate WillStand(s: State, key: int)
  {
    if Aloft(s, key) == 0 then Stands(s, key) else Aloft(s, key) == 1 && key in s.schedule.soon
  }

  lemma WillStandIsKept(s: State, e: Event, key: int)
    requires Enabled(s, e) && LeavesAlone(s, e, key)
    ensures WillStand(Step(s, e), key) <==> WillStand(s, key)
  {
  }

  lemma {:induction false} RunKeepsWillStand(s: State, events: seq<Event>, key: int)
    requires Possible(s, events) && AllLeaveAlone(s, events, key)
    ensures WillStand(Run(s, events), key) <==> WillStand(s, key)
    decreases |events|
  {
    hide WillStand, Enabled, Step, LeavesAlone;
    if events != [] {
      WillStandIsKept(s, events[0], key);
      RunKeepsWillStand(Step(s, events[0]), events[1..], key);
    }
  }

  /** In any run at all, a gap start in it or not: once every poll of the node that was aloft when it was asked for has
      been rescheduled, and before another starts, the request still stands exactly when none was aloft, or just one
      and the note named the node or it was marked already. */
  lemma AskedStandsExactly(s: State, key: int, events: seq<Event>)
    requires Possible(Step(s, Ask(key)), events) && AllLeaveAlone(Step(s, Ask(key)), events, key)
    requires Aloft(Run(Step(s, Ask(key)), events), key) == 0
    ensures Stands(Run(Step(s, Ask(key)), events), key) <==>
      Aloft(s, key) == 0 ||
      (Aloft(s, key) == 1 && (s.schedule.inFlight == Some(key) || key in s.schedule.soon))
  {
    RunKeepsWillStand(Step(s, Ask(key)), events, key);
    hide Run, Possible, AllLeaveAlone;
  }

  /** Whoever starts where, the radio has one holder. */
  lemma {:induction false} OneHolder(s: State, events: seq<Event>)
    requires OneOnTheAir(s) && Possible(s, events)
    ensures OneOnTheAir(Run(s, events))
    decreases |events|
  {
    if events != [] {
      OneHolder(Step(s, events[0]), events[1..]);
    }
  }

  lemma RunFrom(s: State, e: Event, s2: State, rest: seq<Event>)
    requires Enabled(s, e) && Step(s, e) == s2 && Possible(s2, rest)
    ensures Possible(s, [e] + rest) && Run(s, [e] + rest) == Run(s2, rest)
  {
    assert ([e] + rest)[1..] == rest;
  }

  /** With such a start one is: the cycle, rescheduling its own node, wipes the note that the caller's is in flight,
      so a request made while the caller polls is not marked and its poll's rescheduling buries it. */
  lemma AGapStartLosesARequest(a: Target, b: Target) returns (events: seq<Event>)
    requires a.key != b.key
    ensures Possible(START, events) && b.key in Run(START, events).owed && !Stands(Run(START, events), b.key)
  {
    hide Run, Possible;
    var due := map[a.key := a.Interval()];
    var s6, first := InTheGap(a, b);
    var s7 := s6.(schedule := START.schedule.(inFlight := Some(b.key)), caller := CallerPolls(b));
    var s8 := s7.(schedule := Schedule(due, map[], {}, None), cycle := BetweenNodes);
    var s9 := s8.(owed := {b.key});
    var s10 := s9.(caller := CallerPolled(b, true));
    var s11 := s9.(schedule := Schedule(due[b.key := b.Interval()], map[], {}, None), caller := CallerDone);
    NothingYet(s11);
    RunFrom(s10, CallerReschedules, s11, []);
    RunFrom(s9, CallerEnds(true), s10, [CallerReschedules] + []);
    assert due - {b.key} == due && s8.owed + {b.key} == {b.key};
    var end := [CallerEnds(true)] + ([CallerReschedules] + []);
    RunFrom(s8, Ask(b.key), s9, end);
    assert (map[])[a.key := a.Interval()] == due;
    RunFrom(s7, Reschedules, s8, [Ask(b.key)] + end);
    var more := [Reschedules] + ([Ask(b.key)] + end);
    RunFrom(s6, CallerSets, s7, more);
    RunOn(START, first, [CallerSets] + more);
    events := first + ([CallerSets] + more);
  }

  /** Nor does the note help when both polls are of the node asked for: the first to be rescheduled, the cycle's, uses
      the mark up, and the caller's buries the request. */
  lemma TwoPollsLoseARequest(a: Target) returns (events: seq<Event>, rest: seq<Event>)
    ensures Possible(START, events)
    ensures var s := Run(START, events);
      && s.schedule.inFlight == Some(a.key) && Aloft(s, a.key) == 2
      && Possible(s, [Ask(a.key)] + rest)
      && var s2 := Run(s, [Ask(a.key)] + rest); a.key in s2.owed && !Stands(s2, a.key)
  {
    hide Run, Possible;
    var s6, first := InTheGap(a, a);
    var s7 := s6.(schedule := START.schedule.(inFlight := Some(a.key)), caller := CallerPolls(a));
    assert s6.owed - {a.key} == s6.owed;
    NothingYet(s7);
    RunFrom(s6, CallerSets, s7, []);
    RunOn(START, first, [CallerSets] + []);
    events := first + ([CallerSets] + []);
    var marked := s7.(schedule := START.schedule.(inFlight := Some(a.key), soon := {a.key}), owed := {a.key});
    assert START.schedule.soon + {a.key} == {a.key} && s7.owed + {a.key} == {a.key};
    assert START.schedule.nextDue - {a.key} == START.schedule.nextDue;
    var used := marked.(schedule := START.schedule, cycle := BetweenNodes);
    assert {a.key} - {a.key} == {};
    var polled := used.(caller := CallerPolled(a, true));
    var end := used.(schedule := Schedule(map[a.key := a.Interval()], map[], {}, None), caller := CallerDone);
    NothingYet(end);
    RunFrom(polled, CallerReschedules, end, []);
    RunFrom(used, CallerEnds(true), polled, [CallerReschedules] + []);
    rest := [CallerEnds(true)] + ([CallerReschedules] + []);
    RunFrom(marked, Reschedules, used, rest);
    rest := [Reschedules] + rest;
    RunFrom(s7, Ask(a.key), marked, rest);
  }

  lemma {:induction false} RunOn(s: State, first: seq<Event>, rest: seq<Event>)
    requires Possible(s, first) && Possible(Run(s, first), rest)
    ensures Possible(s, first + rest) && Run(s, first + rest) == Run(Run(s, first), rest)
    decreases |first|
  {
    if first == [] {
      assert first + rest == rest;
    } else {
      RunOn(Step(s, first[0]), first[1..], rest);
      assert (first + rest)[1..] == first[1..] + rest;
    }
  }

  /** The cycle polls a, gives the radio up, and before it reschedules a caller takes the radio for b. */
  lemma InTheGap(a: Target, b: Target) returns (s: State, events: seq<Event>)
    ensures Possible(START, events) && Run(START, events) == s
    ensures s == START.(schedule := START.schedule.(inFlight := Some(a.key)), radio := TheCaller,
                        cycle := Gap(a, true), caller := CallerHolds(b))
  {
    hide Run, Possible;
    var s1 := START.(cycle := Waits(a));
    var s2 := START.(cycle := Holds(a), radio := TheCycle);
    var s3 := s2.(schedule := START.schedule.(inFlight := Some(a.key)), cycle := Polls(a));
    var s4 := s3.(cycle := Polled(a, true));
    var s5 := s3.(cycle := Gap(a, true), radio := Nobody);
    s := s5.(caller := CallerHolds(b), radio := TheCaller);
    NothingYet(s);
    RunFrom(s5, CallerStarts(b), s, []);
    RunFrom(s4, Unlocks, s5, [CallerStarts(b)] + []);
    var more := [Unlocks] + ([CallerStarts(b)] + []);
    RunFrom(s3, Ends(true), s4, more);
    RunFrom(s2, Sets, s3, [Ends(true)] + more);
    more := [Sets] + ([Ends(true)] + more);
    RunFrom(s1, Locks, s2, more);
    RunFrom(START, Finds(a, 0), s1, [Locks] + more);
    events := [Finds(a, 0)] + ([Locks] + more);
  }

  lemma NothingYet(s: State)
    ensures Possible(s, []) && Run(s, []) == s
  {
  }

  // ---------------------------------------------------------------------------------------------
  // The code, uninterrupted
  // ---------------------------------------------------------------------------------------------

  /** How a poll of a cycle ended and when it was rescheduled. */
  datatype Poll = Poll(ok: bool, at: int)

  /** A cycle polls the targets it finds due, in order. */
  function Cycled(s: Schedule, targets: seq<Target>, polls: seq<Poll>, now: int): Schedule
    requires |polls| == |targets|
  {
    if targets == [] then s else
    var n := |targets| - 1;
    var before := Cycled(s, targets[..n], polls[..n], now);
    if Due(before, targets[n].key, now)
    then Rescheduled(before.(inFlight := Some(targets[n].key)), targets[n], polls[n].ok, polls[n].at)
    else before
  }

  /** The cycle comes to this target and finds it due. */
  predicate PolledAt(s: Schedule, targets: seq<Target>, polls: seq<Poll>, now: int, i: int)
    requires |polls| == |targets| && 0 <= i < |targets|
  {
    Due(Cycled(s, targets[..i], polls[..i], now), targets[i].key, now)
  }

  /** It is not the first found due, and the wait before it was cancelled. */
  predicate CutsShort(s: Schedule, targets: seq<Target>, polls: seq<Poll>, waited: seq<bool>, now: int, i: int)
    requires |polls| == |waited| == |targets| && 0 <= i < |targets|
  {
    PolledAt(s, targets, polls, now, i) && !waited[i] && exists j :: 0 <= j < i && PolledAt(s, targets, polls, now, j)
  }

  /** A node no target of a cycle names keeps its schedule through it. */
  lemma {:induction false} CycleLeavesOthers(s: Schedule, targets: seq<Target>, polls: seq<Poll>, now: int, key: int)
    requires |polls| == |targets| && forall i | 0 <= i < |targets| :: targets[i].key != key
    ensures var s2 := Cycled(s, targets, polls, now);
      && (key in s2.nextDue <==> key in s.nextDue) && (key in s.nextDue ==> s2.nextDue[key] == s.nextDue[key])
      && Failures(s2, key) == Failures(s, key) && (key in s2.soon <==> key in s.soon)
    decreases |targets|
  {
    if targets != [] {
      var n := |targets| - 1;
      CycleLeavesOthers(s, targets[..n], polls[..n], now, key);
    }
  }

  /** A cycle reschedules each listed node once, from its schedule before, when that had it due, and else leaves it. */
  lemma {:induction false} CyclePollsTheDue(s: Schedule, targets: seq<Target>, polls: seq<Poll>, now: int, i: nat)
    requires |polls| == |targets| && i < |targets|
    requires forall j, k | 0 <= j < k < |targets| :: targets[j].key != targets[k].key
    ensures var s2, key := Cycled(s, targets, polls, now), targets[i].key;
      var one := if Due(s, key, now) then Rescheduled(s, targets[i], polls[i].ok, polls[i].at) else s;
      && (key in s2.nextDue <==> key in one.nextDue) && (key in one.nextDue ==> s2.nextDue[key] == one.nextDue[key])
      && Failures(s2, key) == Failures(one, key) && (key in s2.soon <==> key in one.soon)
    decreases |targets|
  {
    var n := |targets| - 1;
    if i < n {
      CyclePollsTheDue(s, targets[..n], polls[..n], now, i);
    } else {
      CycleLeavesOthers(s, targets[..n], polls[..n], now, targets[n].key);
    }
  }

  predicate FirstNamed(targets: seq<Target>, key: int, i: int)
  {
    0 <= i < |targets| && targets[i].key == key && forall j | 0 <= j < i :: targets[j].key != key
  }

  class Service {
    var nextDue: map<int, int>
    var failures: map<int, nat>
    var soon: set<int>
    var inFlight: Option<int>

    ghost function Now(): Schedule
      reads this
    {
      Schedule(nextDue, failures, soon, inFlight)
    }

    method RescheduleAfter(t: Target, ok: bool, at: int)
      modifies this
      ensures Now() == Rescheduled(old(Now()), t, ok, at)
    {
      inFlight := None;
      if t.key in soon {
        soon, nextDue := soon - {t.key}, nextDue - {t.key};
        return;
      }
      var interval := DEFAULT_INTERVAL;
      if t.intervalSecs > 0 {
        interval := t.intervalSecs;
      }
      if ok {
        failures := failures - {t.key};
      } else {
        failures := failures[t.key := if t.key in failures then failures[t.key] + 1 else 1];
        var maxRetries := DEFAULT_MAX_RETRIES;
        if t.maxRetries < 0 {
          maxRetries := 0;
        } else if t.maxRetries > 0 {
          maxRetries := t.maxRetries;
        }
        if failures[t.key] <= maxRetries {
          interval := RETRY_INTERVAL;
          if t.retrySecs > 0 {
            interval := t.retrySecs;
          }
        } else {
          failures := failures - {t.key};
        }
      }
      nextDue := nextDue[t.key := at + interval];
    }

    method PollSoon(key: int)
      modifies this
      ensures Now() == Asked(old(Now()), key)
    {
      if inFlight == Some(key) {
        soon := soon + {key};
      }
      nextDue := nextDue - {key};
    }

    method SetInFlight(key: int)
      modifies `inFlight
      ensures inFlight == Some(key)
    {
      inFlight := Some(key);
    }

    /** Polls the targets due in turn, a wait before each but the first; a cancelled wait ends the cycle there, and a
        listing that fails before it begins. Done says how many targets were gone through. */
    method RunCycle(listed: Option<seq<Target>>, polls: seq<Poll>, waited: seq<bool>, now: int) returns (done: nat)
      requires listed.Some? ==> |polls| == |waited| == |listed.value|
      modifies this
      ensures listed.None? ==> done == 0 && Now() == old(Now())
      ensures listed.Some? ==> done <= |polls| && Now() == Cycled(old(Now()), listed.value[..done], polls[..done], now)
      ensures listed.Some? ==> forall i | 0 <= i < |polls| &&
        CutsShort(old(Now()), listed.value, polls, waited, now, i) :: done <= i
      ensures listed.Some? && done < |polls| ==> CutsShort(old(Now()), listed.value, polls, waited, now, done)
    {
      done := 0;
      if listed.None? {
        return;
      }
      var targets, first := listed.value, true;
      while done < |targets|
        invariant done <= |targets| && Now() == Cycled(old(Now()), targets[..done], polls[..done], now)
        invariant first <==> forall j | 0 <= j < done :: !PolledAt(old(Now()), targets, polls, now, j)
        invariant forall i | 0 <= i < done :: !CutsShort(old(Now()), targets, polls, waited, now, i)
      {
        assert targets[..done + 1][..done] == targets[..done] && polls[..done + 1][..done] == polls[..done];
        var key := targets[done].key;
        ghost var due := PolledAt(old(Now()), targets, polls, now, done);
        assert due <==> !(key in nextDue && now < nextDue[key]);
        if !(key in nextDue && now < nextDue[key]) {
          if !first && STAGGER > 0 && !waited[done] {
            return;
          }
          first := false;
          SetInFlight(key);
          RescheduleAfter(targets[done], polls[done].ok, polls[done].at);
        }
        done := done + 1;
      }
    }

    /** Refused while the radio is taken, when the targets cannot be listed, and for a node not monitored; in each case
        nothing changes. */
    method PollNow(listed: Option<seq<Target>>, key: int, radioFree: bool, poll: Poll) returns (refused: bool)
      modifies this
      ensures refused <==>
        !radioFree || listed.None? || forall i | 0 <= i < |listed.value| :: listed.value[i].key != key
      ensures refused ==> Now() == old(Now())
      ensures !refused ==> exists i ::
        FirstNamed(listed.value, key, i) && Now() == Rescheduled(old(Now()), listed.value[i], poll.ok, poll.at)
    {
      refused := true;
      if !radioFree || listed.None? {
        return;
      }
      var targets := listed.value;
      for i := 0 to |targets|
        invariant refused && Now() == old(Now()) && forall j | 0 <= j < i :: targets[j].key != key
      {
        if targets[i].key == key {
          SetInFlight(key);
          RescheduleAfter(targets[i], poll.ok, poll.at);
          return false;
        }
      }
    }
  }
}
