/** One broker's publish queue: the senders, the worker that drains it, and the token refresh and Stop that come between
    (internal/mqtt/observer.go 54-78, 382-453, 662-668). Each step is one action another goroutine can come before or
    after; what a client does on the wire is a choice of the step. */
module PublishQueue {
  import opened Common

  datatype Job = Job(topic: string, payload: string, qos: int, retain: bool)

  const PUBLISH_QUEUE_DEPTH := 256

  /** What the client said of a frame given to it, in time or not. */
  datatype Token = Sent | TimedOut | Failed

  /** How the worker was done with a frame: its client was not open, or it was given to the client. */
  datatype Outcome = NotOpen | Given(token: Token)

  datatype Done = Done(job: Job, outcome: Outcome)

  /** Where the worker is: waiting, with a frame, with the client it read for it, past its look at that client, or
      returned. */
  datatype Worker =
    | Ready | Took(job: Job) | Read(job: Job, c: Option<int>) | Publishing(job: Job, c: Option<int>) | Gone

  /** Where the token refresh is: between ticks, with an open client, with the refresh lock too, or dialling under
      it. */
  datatype Refresh = Idle | Chose(c: int) | HasLock(c: int) | Dialling

  /** What happened so far: frames taken in and done with, frames turned away counted (full) or not (quiet), and how
      many had been taken in when the stop channel closed. */
  datatype Log = Log(accepted: seq<Job>, handled: seq<Done>, full: nat, quiet: nat, byStop: nat)

  datatype State = State(queue: seq<Job>, dropped: nat, published: nat, stopped: bool, client: Option<int>,
                         open: set<int>, closed: set<int>, next: int, worker: Worker, draining: bool,
                         refresh: Refresh, log: Log)
  {
    /** Held from closing the old client to putting the new one in place. */
    predicate Locked() { refresh.HasLock? || refresh.Dialling? }

    predicate IsOpen(c: Option<int>) { c.Some? && c.value in open }
  }

  const NOTHING_YET := Log([], [], 0, 0, 0)
  const START := State([], 0, 0, false, None, {}, {}, 0, Ready, false, Idle, NOTHING_YET)

  datatype Event =
    | Offer(job: Job) | OfferFull | OfferQuiet
    | WorkerTakes | WorkerSeesStop | WorkerLeaves | WorkerReads | WorkerLooks | WorkerPublishes(token: Token)
    | RefreshChooses | RefreshLocks | RefreshCloses | RefreshOpens | RefreshDialFails
    | ConnectAdopts | Lose(id: int) | Reopen(id: int) | CloseStop | StopDisconnects

  /** A select takes any of its ready cases, and its default only when none is. */
  predicate Enabled(s: State, e: Event)
  {
    match e
    case Offer(_) => |s.queue| < PUBLISH_QUEUE_DEPTH
    case OfferFull => |s.queue| >= PUBLISH_QUEUE_DEPTH && !s.stopped
    case OfferQuiet => s.stopped
    case WorkerTakes => s.worker.Ready? && s.queue != []
    case WorkerSeesStop => s.worker.Ready? && s.stopped
    case WorkerLeaves => s.worker.Ready? && s.draining && s.queue == []
    case WorkerReads => s.worker.Took? && !s.Locked()
    case WorkerLooks => s.worker.Read?
    case WorkerPublishes(_) => s.worker.Publishing?
    case RefreshChooses => s.refresh.Idle? && s.IsOpen(s.client)
    case RefreshLocks => s.refresh.Chose?
    case RefreshCloses => s.refresh.HasLock?
    case RefreshOpens => s.refresh.Dialling?
    case RefreshDialFails => s.refresh.Dialling?
    case ConnectAdopts => !s.stopped && !s.IsOpen(s.client)
    case Lose(id) => id in s.open
    case Reopen(id) => 0 <= id < s.next && id !in s.open && id !in s.closed
    case CloseStop => !s.stopped
    case StopDisconnects => s.stopped
  }

  function Close(s: State, c: Option<int>): State
  {
    if c.Some? then s.(open := s.open - {c.value}, closed := s.closed + {c.value}) else s
  }

  /** A new open client becomes the current one, or is closed when the stop channel is. */
  function Adopt(s: State): State
  {
    if s.stopped then s.(closed := s.closed + {s.next}, next := s.next + 1)
    else s.(client := Some(s.next), open := s.open + {s.next}, next := s.next + 1)
  }

  function Finish(s: State, job: Job, outcome: Outcome): State
  {
    s.(worker := Ready, log := s.log.(handled := s.log.handled + [Done(job, outcome)]))
  }

  function Step(s: State, e: Event): State
    requires Enabled(s, e)
  {
    match e
    case Offer(job) => s.(queue := s.queue + [job], log := s.log.(accepted := s.log.accepted + [job]))
    case OfferFull => s.(dropped := s.dropped + 1, log := s.log.(full := s.log.full + 1))
    case OfferQuiet => s.(log := s.log.(quiet := s.log.quiet + 1))
    case WorkerTakes => s.(worker := Took(s.queue[0]), queue := s.queue[1..])
    case WorkerSeesStop => s.(draining := true)
    case WorkerLeaves => s.(worker := Gone)
    case WorkerReads => s.(worker := Read(s.worker.job, s.client))
    case WorkerLooks =>
      if s.IsOpen(s.worker.c) then s.(worker := Publishing(s.worker.job, s.worker.c))
      else Finish(s, s.worker.job, NotOpen).(dropped := s.dropped + 1)
    case WorkerPublishes(token) =>
      Finish(s, s.worker.job, Given(token)).(published := if token.Sent? then s.published + 1 else s.published)
    case RefreshChooses => s.(refresh := Chose(s.client.value))
    case RefreshLocks => s.(refresh := HasLock(s.refresh.c))
    case RefreshCloses => Close(s, Some(s.refresh.c)).(refresh := Dialling)
    case RefreshOpens => Adopt(s).(refresh := Idle)
    case RefreshDialFails => s.(closed := s.closed + {s.next}, next := s.next + 1, refresh := Idle)
    case ConnectAdopts => Adopt(Close(s, s.client))
    case Lose(id) => s.(open := s.open - {id})
    case Reopen(id) => s.(open := s.open + {id})
    case CloseStop => s.(stopped := true, log := s.log.(byStop := |s.log.accepted|))
    case StopDisconnects => Close(s, s.client)
  }

  ghost predicate Possible(s: State, events: seq<Event>)
    decreases |events|
  {
    events == [] || (Enabled(s, events[0]) && Possible(Step(s, events[0]), events[1..]))
  }

  ghost function Run(s: State, events: seq<Event>): State
    requires Possible(s, events)
    decreases |events|
  {
    if events == [] then s else Run(Step(s, events[0]), events[1..])
  }

  // ---------------------------------------------------------------------------------------------
  // Every frame has one fate
  // ---------------------------------------------------------------------------------------------

  function Jobs(handled: seq<Done>): (jobs: seq<Job>)
    ensures |jobs| == |handled|
    ensures forall i | 0 <= i < |jobs| :: jobs[i] == handled[i].job
  {
    seq(|handled|, i requires 0 <= i < |handled| => handled[i].job)
  }

  function InHand(w: Worker): seq<Job>
  {
    if w.Took? || w.Read? || w.Publishing? then [w.job] else []
  }

  /** How many frames ended so. */
  function Ended(handled: seq<Done>, outcome: Outcome): nat
  {
    if handled == [] then 0
    else Ended(handled[..|handled| - 1], outcome) + if handled[|handled| - 1].outcome == outcome then 1 else 0
  }

  lemma EndedOneMore(handled: seq<Done>, d: Done, outcome: Outcome)
    ensures Ended(handled + [d], outcome) == Ended(handled, outcome) + if d.outcome == outcome then 1 else 0
  {
    assert (handled + [d])[..|handled|] == handled;
  }

  /** What was taken in is what was done with, then what is in hand, then what waits, in order. */
  ghost predicate InOrder(s: State)
  {
    s.log.accepted == Jobs(s.log.handled) + InHand(s.worker) + s.queue && |s.queue| <= PUBLISH_QUEUE_DEPTH
  }

  ghost predicate Counted(s: State)
  {
    && s.published == Ended(s.log.handled, Given(Sent))
    && s.dropped == s.log.full + Ended(s.log.handled, NotOpen)
  }

  /** The worker leaves only once all that was there when the stop channel closed is done with. */
  ghost predicate StopWaits(s: State)
  {
    && (s.draining || s.worker.Gone? ==> s.stopped)
    && (if s.stopped then s.log.byStop <= |s.log.accepted| else s.log.byStop == 0)
    && (s.worker.Gone? ==> s.log.byStop <= |s.log.handled|)
  }

  ghost predicate Accounted(s: State) { InOrder(s) && Counted(s) && StopWaits(s) }

  lemma StartIsAccounted()
    ensures Accounted(START)
  {
  }

  lemma JobsOneMore(handled: seq<Done>, d: Done)
    ensures Jobs(handled + [d]) == Jobs(handled) + [d.job]
  {
  }

  lemma StepKeepsOrder(s: State, e: Event)
    requires Enabled(s, e) && InOrder(s)
    ensures InOrder(Step(s, e))
  {
    hide Jobs;
    if e.WorkerLooks? && !s.IsOpen(s.worker.c) {
      JobsOneMore(s.log.handled, Done(s.worker.job, NotOpen));
    } else if e.WorkerPublishes? {
      JobsOneMore(s.log.handled, Done(s.worker.job, Given(e.token)));
    }
  }

  lemma OneMoreCounted(s: State, t: State, d: Done)
    requires Counted(s) && t.log == s.log.(handled := s.log.handled + [d])
    requires t.published == s.published + if d.outcome == Given(Sent) then 1 else 0
    requires t.dropped == s.dropped + if d.outcome == NotOpen then 1 else 0
    ensures Counted(t)
  {
    EndedOneMore(s.log.handled, d, NotOpen);
    EndedOneMore(s.log.handled, d, Given(Sent));
  }

  lemma StepKeepsCount(s: State, e: Event)
    requires Enabled(s, e) && Counted(s)
    ensures Counted(Step(s, e))
  {
    hide Ended;
    if e.WorkerLooks? && !s.IsOpen(s.worker.c) {
      OneMoreCounted(s, Step(s, e), Done(s.worker.job, NotOpen));
    } else if e.WorkerPublishes? {
      OneMoreCounted(s, Step(s, e), Done(s.worker.job, Given(e.token)));
    }
  }

  lemma StepKeepsAccounts(s: State, e: Event)
    requires Enabled(s, e) && Accounted(s)
    ensures Accounted(Step(s, e))
  {
    StepKeepsOrder(s, e);
    StepKeepsCount(s, e);
  }

  lemma {:induction false} RunKeepsAccounts(s: State, events: seq<Event>)
    requires Possible(s, events) && Accounted(s)
    ensures Accounted(Run(s, events))
    decreases |events|
  {
    if events != [] {
      StepKeepsAccounts(s, events[0]);
      RunKeepsAccounts(Step(s, events[0]), events[1..]);
    }
  }

  function Offered(e: Event): nat { if e.Offer? || e.OfferFull? || e.OfferQuiet? then 1 else 0 }

  function Offers(events: seq<Event>): nat
  {
    if events == [] then 0 else Offered(events[0]) + Offers(events[1..])
  }

  lemma {:induction false} RunCountsOffers(s: State, events: seq<Event>)
    requires Possible(s, events)
    ensures var l, m := s.log, Run(s, events).log;
      |m.accepted| + m.full + m.quiet == |l.accepted| + l.full + l.quiet + Offers(events)
    decreases |events|
  {
    if events != [] {
      RunCountsOffers(Step(s, events[0]), events[1..]);
    }
  }

  lemma {:induction false} OutcomesAddUp(handled: seq<Done>)
    ensures |handled| == Ended(handled, NotOpen) + Ended(handled, Given(Sent)) + Ended(handled, Given(TimedOut)) +
      Ended(handled, Given(Failed))
    decreases |handled|
  {
    if handled != [] {
      OutcomesAddUp(handled[..|handled| - 1]);
      var o := handled[|handled| - 1].outcome;
      if o.Given? { assert o.token.Sent? || o.token.TimedOut? || o.token.Failed?; }
    }
  }

  /** Over any run each frame offered was published, counted as dropped, turned away by the client, turned away by
      Stop, or is still in hand or waiting; and frames are done with in the order they were taken in. */
  lemma EveryFrameHasOneFate(events: seq<Event>)
    requires Possible(START, events)
    ensures var s := Run(START, events);
      && Offers(events) == s.published + s.dropped + Ended(s.log.handled, Given(TimedOut)) +
        Ended(s.log.handled, Given(Failed))
                           + s.log.quiet + |InHand(s.worker)| + |s.queue|
      && |s.queue| <= PUBLISH_QUEUE_DEPTH
      && Jobs(s.log.handled) + InHand(s.worker) + s.queue == s.log.accepted
  {
    hide Run, Possible, Step, Enabled, Offers, Ended, InHand, Jobs;
    var s := Run(START, events);
    RunFromStart(events);
    RunCountsOffers(START, events);
    OutcomesAddUp(s.log.handled);
  }

  lemma RunFromStart(events: seq<Event>)
    requires Possible(START, events)
    ensures Accounted(Run(START, events))
  {
    hide Run, Possible;
    StartIsAccounted();
    RunKeepsAccounts(START, events);
  }

  /** The frames taken in once the worker had returned. */
  ghost function Late(s: State, events: seq<Event>): seq<Job>
    requires Possible(s, events)
    decreases |events|
  {
    if events == [] then []
    else (if events[0].Offer? && s.worker.Gone? then [events[0].job] else []) + Late(Step(s, events[0]), events[1..])
  }

  /** A frame is stranded exactly when it is taken in after the worker has returned. */
  lemma {:induction false} StrandedExactly(s: State, events: seq<Event>)
    requires Possible(s, events) && Run(s, events).worker.Gone?
    ensures Run(s, events).queue == (if s.worker.Gone? then s.queue else []) + Late(s, events)
    decreases |events|
  {
    if events != [] {
      StrandedExactly(Step(s, events[0]), events[1..]);
    }
  }

  /** Once the worker has returned, all taken in before the stop channel closed is done with, the offline status among
      it; what waits for ever, in no count, is what was taken in after the worker returned, and no more. */
  lemma StopLosesNothingEarlier(events: seq<Event>)
    requires Possible(START, events) && Run(START, events).worker.Gone?
    ensures var s := Run(START, events); var n := |s.log.handled|;
      && s.log.byStop <= n <= |s.log.accepted|
      && Jobs(s.log.handled) == s.log.accepted[..n]
      && s.queue == s.log.accepted[n..] == Late(START, events)
  {
    hide Run, Possible, Late;
    RunFromStart(events);
    StrandedExactly(START, events);
  }

  /** And the worker, gone, does nothing more. */
  lemma {:induction false} NothingAfterTheWorker(s: State, events: seq<Event>)
    requires Possible(s, events) && s.worker.Gone?
    ensures var t := Run(s, events);
      t.worker.Gone? && t.log.handled == s.log.handled && s.queue <= t.queue && t.published == s.published
    decreases |events|
  {
    if events != [] {
      NothingAfterTheWorker(Step(s, events[0]), events[1..]);
    }
  }

  /** It happens that a frame is taken in after the worker has gone: a sender's select may choose the queue, which has
      room, over the closed stop channel. */
  lemma {:induction false} AFrameIsStranded(job: Job) returns (events: seq<Event>)
    ensures Possible(START, events)
    ensures var s := Run(START, events);
      s.worker.Gone? && s.queue == [job] && s.dropped == s.published == s.log.quiet == 0
  {
    var s1 := START.(stopped := true);
    var s2 := s1.(draining := true);
    var s3 := s2.(worker := Gone);
    Single(s3, Offer(job));
    RunFrom(s2, WorkerLeaves, [Offer(job)]);
    RunFrom(s1, WorkerSeesStop, [WorkerLeaves] + [Offer(job)]);
    events := [CloseStop] + ([WorkerSeesStop] + ([WorkerLeaves] + [Offer(job)]));
    RunFrom(START, CloseStop, [WorkerSeesStop] + ([WorkerLeaves] + [Offer(job)]));
  }

  lemma RunFrom(s: State, e: Event, rest: seq<Event>)
    requires Enabled(s, e) && Possible(Step(s, e), rest)
    ensures Possible(s, [e] + rest) && Run(s, [e] + rest) == Run(Step(s, e), rest)
  {
    assert ([e] + rest)[1..] == rest;
  }

  lemma Single(s: State, e: Event)
    requires Enabled(s, e)
    ensures Possible(s, [e]) && Run(s, [e]) == Step(s, e)
  {
    assert [e][1..] == [];
  }

  lemma {:induction false} RunOn(s: State, first: seq<Event>, rest: seq<Event>)
    requires Possible(s, first) && Possible(Run(s, first), rest)
    ensures Possible(s, first + rest) && Run(s, first + rest) == Run(Run(s, first), rest)
    decreases |first|
  {
    if first == [] {
      assert first + rest == rest;
    } else {
      RunOn(Step(s, first[0]), first[1..], rest);
      assert (first + rest)[1..] == first[1..] + rest;
    }
  }

  // ---------------------------------------------------------------------------------------------
  // What a refresh drops
  // ---------------------------------------------------------------------------------------------

  /** A network that holds: no connection is lost and every dial opens; nor has anyone called Stop. */
  predicate Steady(e: Event)
  {
    !e.Lose? && !e.Reopen? && !e.RefreshDialFails? && !e.ConnectAdopts? && !e.CloseStop? && !e.StopDisconnects?
  }

  /** A client is in place and open but while the refresh, with the lock, replaces it. */
  ghost predicate Connected(s: State)
  {
    && !s.stopped && s.client.Some? && s.client.value < s.next && s.open <= {s.client.value}
    && (if s.refresh.Dialling? then s.open == {} else s.IsOpen(s.client))
    && (s.refresh.Chose? || s.refresh.HasLock? ==> s.refresh.c == s.client.value)
    && (s.worker.Read? || s.worker.Publishing? ==> s.worker.c.Some? && s.worker.c.value < s.next)
  }

  /** The refresh closes the client the worker has read and not yet looked at. */
  predicate Overtakes(s: State, e: Event)
  {
    e.RefreshCloses? && s.refresh.HasLock? && s.worker.Read? && s.worker.c == Some(s.refresh.c)
  }

  /** How many of a run's steps are of the kind. */
  ghost function Times(s: State, events: seq<Event>, kind: (State, Event) -> bool): nat
    requires Possible(s, events)
    decreases |events|
  {
    if events == [] then 0 else (if kind(s, events[0]) then 1 else 0) + Times(Step(s, events[0]), events[1..], kind)
  }

  /** The frame in hand has a client that is not open any more. */
  function Doomed(s: State): nat { if s.worker.Read? && !s.IsOpen(s.worker.c) then 1 else 0 }

  lemma SteadyStep(s: State, e: Event)
    requires Connected(s) && Enabled(s, e) && Steady(e)
    ensures Connected(Step(s, e))
    ensures var t := Step(s, e);
      Ended(t.log.handled, NotOpen) + Doomed(t) ==
        Ended(s.log.handled, NotOpen) + Doomed(s) + if Overtakes(s, e) then 1 else 0
  {
    hide Ended;
    if e.WorkerLooks? && !s.IsOpen(s.worker.c) {
      EndedOneMore(s.log.handled, Done(s.worker.job, NotOpen), NotOpen);
    } else if e.WorkerPublishes? {
      EndedOneMore(s.log.handled, Done(s.worker.job, Given(e.token)), NotOpen);
    }
  }

  /** While the network holds, frames find their client not open exactly as often as a refresh closes it between the
      worker's read and its look: the lock keeps the worker from reading during a refresh, not a refresh from
      beginning. */
  lemma {:induction false} DropsAreOvertakings(s: State, events: seq<Event>)
    requires Connected(s) && Possible(s, events) && forall i | 0 <= i < |events| :: Steady(events[i])
    ensures Connected(Run(s, events))
    ensures var t := Run(s, events);
      Ended(t.log.handled, NotOpen) + Doomed(t) ==
      Ended(s.log.handled, NotOpen) + Doomed(s) + Times(s, events, Overtakes)
    decreases |events|
  {
    if events != [] {
      SteadyStep(s, events[0]);
      DropsAreOvertakings(Step(s, events[0]), events[1..]);
    }
  }

  /** Which happens: a frame dropped by a refresh on a network that holds. */
  lemma {:induction false} ARefreshDropsAFrame(s: State) returns (events: seq<Event>)
    requires Connected(s) && s.worker.Took? && s.refresh.Idle?
    ensures Possible(s, events) && forall i | 0 <= i < |events| :: Steady(events[i])
    ensures var t := Run(s, events);
      t.log.handled == s.log.handled + [Done(s.worker.job, NotOpen)] &&
      t.dropped == s.dropped + 1 && t.IsOpen(t.client)
  {
    hide Run, Possible;
    var c := s.client.value;
    var chosen := s.(worker := Read(s.worker.job, s.client), refresh := Chose(c));
    var done := s.log.(handled := s.log.handled + [Done(s.worker.job, NotOpen)]);
    var end := chosen.(worker := Ready, log := done, dropped := s.dropped + 1, open := s.open - {c},
      closed := s.closed + {c}, refresh := Dialling);
    ReadThenChosen(s);
    ClosedThenLooked(chosen);
    RunOn(s, [WorkerReads] + [RefreshChooses], [RefreshLocks] + ([RefreshCloses] + [WorkerLooks]));
    Single(end, RefreshOpens);
    var first := [WorkerReads] + [RefreshChooses] + ([RefreshLocks] + ([RefreshCloses] + [WorkerLooks]));
    RunOn(s, first, [RefreshOpens]);
    events := first + [RefreshOpens];
  }

  lemma ReadThenChosen(s: State)
    requires s.worker.Took? && s.refresh.Idle? && s.IsOpen(s.client)
    ensures var t := [WorkerReads] + [RefreshChooses];
      Possible(s, t) && Run(s, t) == s.(worker := Read(s.worker.job, s.client), refresh := Chose(s.client.value))
  {
    hide Run, Possible;
    var s1 := s.(worker := Read(s.worker.job, s.client));
    Single(s1, RefreshChooses);
    RunFrom(s, WorkerReads, [RefreshChooses]);
  }

  lemma ClosedThenLooked(s: State)
    requires s.worker.Read? && s.refresh.Chose? && s.worker.c == Some(s.refresh.c)
    ensures var t := [RefreshLocks] + ([RefreshCloses] + [WorkerLooks]); var c := s.refresh.c;
      Possible(s, t) && Run(s, t) == s.(worker := Ready,
        log := s.log.(handled := s.log.handled + [Done(s.worker.job, NotOpen)]), dropped := s.dropped + 1,
                                       open := s.open - {c}, closed := s.closed + {c}, refresh := Dialling)
  {
    hide Run, Possible;
    var s1 := s.(refresh := HasLock(s.refresh.c));
    var s2 := Close(s, Some(s.refresh.c)).(refresh := Dialling);
    Single(s2, WorkerLooks);
    RunFrom(s1, RefreshCloses, [WorkerLooks]);
    RunFrom(s, RefreshLocks, [RefreshCloses] + [WorkerLooks]);
  }

  // The other window: past the look, before the frame is handed over --------------------------------

  /** Besides, a client sends what it is given while open and refuses it once closed. */
  predicate Honest(s: State, e: Event)
  {
    Steady(e) && (e.WorkerPublishes? && s.worker.Publishing? ==> (e.token.Sent? <==> s.IsOpen(s.worker.c)))
  }

  ghost predicate AllHonest(s: State, events: seq<Event>)
    requires Possible(s, events)
    decreases |events|
  {
    events == [] || (Honest(s, events[0]) && AllHonest(Step(s, events[0]), events[1..]))
  }

  /** The refresh closes the client the worker has found open and not yet given its frame. */
  predicate Undercuts(s: State, e: Event)
  {
    e.RefreshCloses? && s.refresh.HasLock? && s.worker.Publishing? && s.worker.c == Some(s.refresh.c)
  }

  /** Frames given to a client and not sent: in no counter. */
  function Unsent(handled: seq<Done>): nat { Ended(handled, Given(TimedOut)) + Ended(handled, Given(Failed)) }

  /** The frame in hand is about to be refused. */
  function Refused(s: State): nat { if s.worker.Publishing? && !s.IsOpen(s.worker.c) then 1 else 0 }

  lemma UnsentOneMore(handled: seq<Done>, d: Done)
    ensures Unsent(handled + [d]) ==
      Unsent(handled) + if d.outcome == Given(TimedOut) || d.outcome == Given(Failed) then 1 else 0
  {
    EndedOneMore(handled, d, Given(TimedOut));
    EndedOneMore(handled, d, Given(Failed));
  }

  lemma HonestStep(s: State, e: Event)
    requires Connected(s) && Enabled(s, e) && Honest(s, e)
    ensures var t := Step(s, e);
      Unsent(t.log.handled) + Refused(t) == Unsent(s.log.handled) + Refused(s) + if Undercuts(s, e) then 1 else 0
  {
    hide Unsent;
    if e.WorkerLooks? && !s.IsOpen(s.worker.c) {
      UnsentOneMore(s.log.handled, Done(s.worker.job, NotOpen));
    } else if e.WorkerPublishes? {
      UnsentOneMore(s.log.handled, Done(s.worker.job, Given(e.token)));
      assert e.token.Sent? || e.token.TimedOut? || e.token.Failed?;
    }
  }

  /** While the network holds, the frames lost to a refresh are told apart by where it came: as many are counted as
      dropped as it closed clients read and not looked at, as many fail, uncounted, as it closed clients looked at and
      not given their frame, and no others are lost. */
  lemma {:induction false} LossesAreCloses(s: State, events: seq<Event>)
    requires Connected(s) && Possible(s, events) && AllHonest(s, events)
    ensures Connected(Run(s, events))
    ensures var t := Run(s, events);
      && Ended(t.log.handled, NotOpen) + Doomed(t) ==
         Ended(s.log.handled, NotOpen) + Doomed(s) + Times(s, events, Overtakes)
      && Unsent(t.log.handled) + Refused(t) == Unsent(s.log.handled) + Refused(s) + Times(s, events, Undercuts)
    decreases |events|
  {
    if events != [] {
      SteadyStep(s, events[0]);
      HonestStep(s, events[0]);
      hide Connected, Step, Enabled, Honest, Ended, Unsent, Doomed, Refused, Overtakes, Undercuts;
      LossesAreCloses(Step(s, events[0]), events[1..]);
    }
  }

  /** Which happens too: a frame that fails for a refresh on a network that holds, and is in no count. */
  lemma {:induction false} ARefreshFailsAFrame(s: State) returns (events: seq<Event>)
    requires Connected(s) && s.worker.Took? && s.refresh.Idle?
    ensures Possible(s, events) && AllHonest(s, events)
    ensures var t := Run(s, events);
      t.log.handled == s.log.handled + [Done(s.worker.job, Given(Failed))] &&
      t.dropped == s.dropped && t.published == s.published && t.IsOpen(t.client)
  {
    hide Run, Possible, AllHonest;
    var c := s.client.value;
    var s1 := s.(worker := Read(s.worker.job, s.client));
    var s2 := s.(worker := Publishing(s.worker.job, s.client));
    var s3 := s2.(refresh := Chose(c));
    var s4 := s2.(refresh := HasLock(c));
    var s5 := s2.(open := s.open - {c}, closed := s.closed + {c}, refresh := Dialling);
    var s6 := Finish(s5, s.worker.job, Given(Failed));
    LookedAt(s);
    Undercut(s2);
    TurnedDown(s5);
    hide Step, Enabled, Honest, Connected;
    HonestEnd(s6, RefreshOpens);
    HonestFrom(s5, WorkerPublishes(Failed), s6, [RefreshOpens]);
    events := [WorkerPublishes(Failed)] + [RefreshOpens];
    HonestFrom(s4, RefreshCloses, s5, events);
    HonestFrom(s3, RefreshLocks, s4, [RefreshCloses] + events);
    events := [RefreshLocks] + ([RefreshCloses] + events);
    HonestFrom(s2, RefreshChooses, s3, events);
    HonestFrom(s1, WorkerLooks, s2, [RefreshChooses] + events);
    HonestFrom(s, WorkerReads, s1, [WorkerLooks] + ([RefreshChooses] + events));
    events := [WorkerReads] + ([WorkerLooks] + ([RefreshChooses] + events));
  }

  ghost predicate HonestLead(s: State, e: Event, s2: State) { Enabled(s, e) && Step(s, e) == s2 && Honest(s, e) }

  lemma LookedAt(s: State)
    requires s.worker.Took? && s.refresh.Idle? && s.IsOpen(s.client)
    ensures var s1 := s.(worker := Read(s.worker.job, s.client));
      HonestLead(s, WorkerReads, s1) &&
      HonestLead(s1, WorkerLooks, s.(worker := Publishing(s.worker.job, s.client)))
  {
  }

  lemma Undercut(s: State)
    requires s.worker.Publishing? && s.refresh.Idle? && s.IsOpen(s.client) && s.worker.c == s.client
    ensures var c := s.client.value;
      var s4, s5 := s.(refresh := HasLock(c)),
        s.(open := s.open - {c}, closed := s.closed + {c}, refresh := Dialling);
      && HonestLead(s, RefreshChooses, s.(refresh := Chose(c))) && HonestLead(s.(refresh := Chose(c)), RefreshLocks, s4)
      && HonestLead(s4, RefreshCloses, s5)
  {
  }

  lemma TurnedDown(s: State)
    requires s.worker.Publishing? && s.refresh.Dialling? && !s.IsOpen(s.worker.c)
    ensures var s2 := Finish(s, s.worker.job, Given(Failed));
      HonestLead(s, WorkerPublishes(Failed), s2) && HonestLead(s2, RefreshOpens, Adopt(s2).(refresh := Idle))
  {
  }

  lemma HonestFrom(s: State, e: Event, s2: State, rest: seq<Event>)
    requires HonestLead(s, e, s2) && Possible(s2, rest) && AllHonest(s2, rest)
    ensures Possible(s, [e] + rest) && AllHonest(s, [e] + rest) && Run(s, [e] + rest) == Run(s2, rest)
  {
    assert ([e] + rest)[1..] == rest;
  }

  lemma HonestEnd(s: State, e: Event)
    requires Enabled(s, e) && Honest(s, e)
    ensures Possible(s, [e]) && AllHonest(s, [e]) && Run(s, [e]) == Step(s, e)
  {
    assert [e][1..] == [];
  }

  // On any network ---------------------------------------------------------------------------------

  /** The clients at hand have been made. */
  ghost predicate Made(s: State)
  {
    && (s.client.Some? ==> s.client.value < s.next)
    && ((s.worker.Read? || s.worker.Publishing?) && s.worker.c.Some? ==> s.worker.c.value < s.next)
  }

  /** The network, the refresh or Stop shuts this client. */
  predicate Shuts(s: State, e: Event, c: Option<int>)
  {
    s.IsOpen(c) &&
    (e == Lose(c.value) || (e.RefreshCloses? && s.refresh.HasLock? && Some(s.refresh.c) == c) ||
     (e.StopDisconnects? && s.client == c))
  }

  /** The network brings it back. */
  predicate Reopens(s: State, e: Event, c: Option<int>) { c.Some? && !s.IsOpen(c) && e == Reopen(c.value) }

  /** The worker reads a client that is not open, or none. */
  predicate ReadsShut(s: State, e: Event) { e.WorkerReads? && !s.IsOpen(s.client) }

  /** The client it has read and not looked at is shut, or brought back. */
  predicate ShutsRead(s: State, e: Event) { s.worker.Read? && Shuts(s, e, s.worker.c) }

  predicate ReopensRead(s: State, e: Event) { s.worker.Read? && Reopens(s, e, s.worker.c) }

  /** The client it has found open and not given its frame is shut, or brought back. */
  predicate ShutsFound(s: State, e: Event) { s.worker.Publishing? && Shuts(s, e, s.worker.c) }

  predicate ReopensFound(s: State, e: Event) { s.worker.Publishing? && Reopens(s, e, s.worker.c) }

  /** An open client does not send its frame, or one not open does. */
  predicate FailsOpen(s: State, e: Event)
  {
    e.WorkerPublishes? && s.worker.Publishing? && !e.token.Sent? && s.IsOpen(s.worker.c)
  }

  predicate SendsShut(s: State, e: Event)
  {
    e.WorkerPublishes? && s.worker.Publishing? && e.token.Sent? && !s.IsOpen(s.worker.c)
  }

  function Once(kind: bool): nat { if kind then 1 else 0 }

  lemma StepDrops(s: State, e: Event)
    requires Made(s) && Enabled(s, e)
    ensures var t := Step(s, e);
      Made(t) && Ended(t.log.handled, NotOpen) + Doomed(t) + Once(ReopensRead(s, e)) ==
      Ended(s.log.handled, NotOpen) + Doomed(s) + Once(ReadsShut(s, e)) + Once(ShutsRead(s, e))
  {
    hide Ended;
    if e.WorkerLooks? && !s.IsOpen(s.worker.c) {
      EndedOneMore(s.log.handled, Done(s.worker.job, NotOpen), NotOpen);
    } else if e.WorkerPublishes? {
      EndedOneMore(s.log.handled, Done(s.worker.job, Given(e.token)), NotOpen);
    }
  }

  lemma StepFails(s: State, e: Event)
    requires Made(s) && Enabled(s, e)
    ensures var t := Step(s, e);
      Unsent(t.log.handled) + Refused(t) + Once(ReopensFound(s, e)) + Once(SendsShut(s, e)) ==
      Unsent(s.log.handled) + Refused(s) + Once(ShutsFound(s, e)) + Once(FailsOpen(s, e))
  {
    hide Unsent;
    if e.WorkerLooks? && !s.IsOpen(s.worker.c) {
      UnsentOneMore(s.log.handled, Done(s.worker.job, NotOpen));
    } else if e.WorkerPublishes? {
      UnsentOneMore(s.log.handled, Done(s.worker.job, Given(e.token)));
      assert e.token.Sent? || e.token.TimedOut? || e.token.Failed?;
    }
  }

  /** Over any run, whatever network, refresh, Stop and clients do: as many frames are dropped for a client not open as
      the worker reads such a client, and as one is shut between read and look, less those brought back there; and as
      many fail uncounted as a client is shut after the look, less those brought back, and as an open one fails, less
      those sent all the same. */
  lemma {:induction false} LossesExactly(s: State, events: seq<Event>)
    requires Made(s) && Possible(s, events)
    ensures var t := Run(s, events);
      Ended(t.log.handled, NotOpen) + Doomed(t) + Times(s, events, ReopensRead) ==
      Ended(s.log.handled, NotOpen) + Doomed(s) + Times(s, events, ReadsShut) + Times(s, events, ShutsRead)
    ensures var t := Run(s, events);
      Unsent(t.log.handled) + Refused(t) + Times(s, events, ReopensFound) + Times(s, events, SendsShut) ==
      Unsent(s.log.handled) + Refused(s) + Times(s, events, ShutsFound) + Times(s, events, FailsOpen)
    decreases |events|
  {
    if events != [] {
      StepDrops(s, events[0]);
      StepFails(s, events[0]);
      hide Made, Step, Enabled, Ended, Unsent, Doomed, Refused, ReopensRead, ReadsShut, ShutsRead, ReopensFound,
        SendsShut, ShutsFound, FailsOpen;
      LossesExactly(Step(s, events[0]), events[1..]);
    }
  }

  /** From the start on, by what the counters say: frames counted as dropped are those that found the queue full and
      those that found their client not open. */
  lemma DroppedExactly(events: seq<Event>)
    requires Possible(START, events)
    ensures var s := Run(START, events);
      s.dropped + Doomed(s) + Times(START, events, ReopensRead) ==
      s.log.full + Times(START, events, ReadsShut) + Times(START, events, ShutsRead)
  {
    hide Run, Possible, Times, Ended, InOrder, StopWaits, ReopensRead, ReadsShut, ShutsRead;
    RunFromStart(events);
    LossesExactly(START, events);
    assert Ended([], NotOpen) == 0 by { EndedOfNone(); }
  }

  lemma EndedOfNone()
    ensures Ended([], NotOpen) == 0
  {
  }

  // ---------------------------------------------------------------------------------------------
  // The code, uninterrupted
  // ---------------------------------------------------------------------------------------------

  lemma OfferSteps(s: State, job: Job)
    ensures |s.queue| < PUBLISH_QUEUE_DEPTH ==>
      Enabled(s, Offer(job)) &&
      Step(s, Offer(job)) == s.(queue := s.queue + [job], log := s.log.(accepted := s.log.accepted + [job]))
    ensures s.stopped ==> Enabled(s, OfferQuiet) && Step(s, OfferQuiet) == s.(log := s.log.(quiet := s.log.quiet + 1))
    ensures |s.queue| >= PUBLISH_QUEUE_DEPTH && !s.stopped ==>
      Enabled(s, OfferFull) && Step(s, OfferFull) == s.(dropped := s.dropped + 1, log := s.log.(full := s.log.full + 1))
  {
  }

  /** The worker with a frame, alone: its client is not open, or takes the frame. */
  lemma DropsOrGives(s: State, token: Token)
    requires s.worker.Took? && !s.Locked()
    ensures var t := [WorkerReads] + [WorkerLooks];
      !s.IsOpen(s.client) ==> Possible(s, t) && Run(s, t) == Finish(s, s.worker.job, NotOpen).(dropped := s.dropped + 1)
    ensures var t, n := [WorkerReads] + ([WorkerLooks] + [WorkerPublishes(token)]),
      if token.Sent? then s.published + 1 else s.published;
      s.IsOpen(s.client) ==> Possible(s, t) && Run(s, t) == Finish(s, s.worker.job, Given(token)).(published := n)
  {
    hide Run, Possible;
    var s1 := s.(worker := Read(s.worker.job, s.client));
    if s.IsOpen(s.client) {
      var s2 := s.(worker := Publishing(s.worker.job, s.client));
      Single(s2, WorkerPublishes(token));
      RunFrom(s1, WorkerLooks, [WorkerPublishes(token)]);
      RunFrom(s, WorkerReads, [WorkerLooks] + [WorkerPublishes(token)]);
    } else {
      Single(s1, WorkerLooks);
      RunFrom(s, WorkerReads, [WorkerLooks]);
    }
  }

  /** From where a trace has led, the worker takes the next frame and is done with it. */
  lemma OneMoreDone(s: State, trace: seq<Event>, rest: seq<Event>)
    requires Possible(s, trace) && Run(s, trace).worker.Ready? && Run(s, trace).queue != []
    requires var t := Run(s, trace); Possible(t.(worker := Took(t.queue[0]), queue := t.queue[1..]), rest)
    ensures Possible(s, trace + ([WorkerTakes] + rest))
    ensures var t := Run(s, trace);
      Run(s, trace + ([WorkerTakes] + rest)) == Run(t.(worker := Took(t.queue[0]), queue := t.queue[1..]), rest)
  {
    hide Run, Possible;
    RunFrom(Run(s, trace), WorkerTakes, rest);
    RunOn(s, trace, [WorkerTakes] + rest);
  }

  lemma Leaves(s: State)
    requires s.worker.Ready? && s.draining && s.queue == []
    ensures Possible(s, [WorkerLeaves]) && Run(s, [WorkerLeaves]) == s.(worker := Gone)
  {
    Single(s, WorkerLeaves);
  }

  /** A broker's queue and counters; its client is another's to change. */
  class Publisher {
    var queue: seq<Job>
    var dropped: nat
    var published: nat
    var stopped: bool
    var client: Option<int>
    var open: set<int>
    ghost var closed: set<int>
    ghost var next: int
    ghost var log: Log

    ghost function At(worker: Worker, draining: bool, refresh: Refresh): State
      reads this
    {
      State(queue, dropped, published, stopped, client, open, closed, next, worker, draining, refresh, log)
    }

    /** Never blocks: takes the frame in, or drops it, counted when the queue is full and silently once stopped. Both
        cases being ready, stopFirst is the one chosen. */
    method EnqueuePublish(job: Job, stopFirst: bool, ghost worker: Worker, ghost draining: bool, ghost refresh: Refresh)
      returns (ghost e: Event)
      requires |queue| <= PUBLISH_QUEUE_DEPTH
      modifies `queue, `dropped, `log
      ensures Offered(e) == 1 && Enabled(old(At(worker, draining, refresh)), e)
      ensures At(worker, draining, refresh) == Step(old(At(worker, draining, refresh)), e)
      ensures e == if |old(queue)| < PUBLISH_QUEUE_DEPTH && !(stopped && stopFirst) then Offer(job)
        else if stopped then OfferQuiet else OfferFull
    {
      OfferSteps(At(worker, draining, refresh), job);
      hide Step, Enabled;
      if |queue| < PUBLISH_QUEUE_DEPTH && !(stopped && stopFirst) {
        queue := queue + [job];
        e, log := Offer(job), log.(accepted := log.accepted + [job]);
      } else if stopped {
        e, log := OfferQuiet, log.(quiet := log.quiet + 1);
      } else {
        dropped := dropped + 1;
        e, log := OfferFull, log.(full := log.full + 1);
      }
    }

    /** Gives the frame to the client if that is open, else counts it as dropped. */
    method DoPublish(job: Job, token: Token, ghost draining: bool, ghost refresh: Refresh)
      returns (ghost trace: seq<Event>)
      requires !refresh.HasLock? && !refresh.Dialling?
      modifies `dropped, `published, `log
      ensures Possible(old(At(Took(job), draining, refresh)), trace)
      ensures At(Ready, draining, refresh) == Run(old(At(Took(job), draining, refresh)), trace)
      ensures log == old(log).(handled := old(log).handled +
        [Done(job, if client.Some? && client.value in open then Given(token) else NotOpen)])
    {
      ghost var s := At(Took(job), draining, refresh);
      DropsOrGives(s, token);
      hide Run, Possible, Step, Enabled;
      if client.None? || client.value !in open {
        dropped := dropped + 1;
        log := log.(handled := log.handled + [Done(job, NotOpen)]);
        return [WorkerReads] + [WorkerLooks];
      }
      if token.Sent? {
        published := published + 1;
      }
      log := log.(handled := log.handled + [Done(job, Given(token))]);
      trace := [WorkerReads] + ([WorkerLooks] + [WorkerPublishes(token)]);
    }

    /** The worker once the stop channel is closed: it drains what is buffered, in order, and returns. */
    method DrainAndLeave(tokens: nat -> Token, ghost refresh: Refresh) returns (ghost trace: seq<Event>)
      requires stopped && !refresh.HasLock? && !refresh.Dialling?
      modifies `queue, `dropped, `published, `log
      ensures Possible(old(At(Ready, false, refresh)), trace) &&
        At(Gone, true, refresh) == Run(old(At(Ready, false, refresh)), trace)
      ensures queue == [] && Jobs(log.handled) == Jobs(old(log).handled) + old(queue)
    {
      ghost var s := At(Ready, false, refresh);
      ghost var was := log.handled;
      Single(s, WorkerSeesStop);
      hide Run, Possible, Step, Enabled;
      trace := [WorkerSeesStop];
      var n := 0;
      while queue != []
        invariant stopped && n <= |old(queue)| && queue == old(queue)[n..]
        invariant Jobs(log.handled) == Jobs(was) + old(queue)[..n]
        invariant Possible(s, trace) && Run(s, trace) == At(Ready, true, refresh)
        decreases |queue|
      {
        var job := queue[0];
        queue := queue[1..];
        ghost var handled := log.handled;
        ghost var rest := DoPublish(job, tokens(n), true, refresh);
        JobsOneMore(handled, log.handled[|handled|]);
        assert old(queue)[..n + 1] == old(queue)[..n] + [job];
        OneMoreDone(s, trace, rest);
        trace := trace + ([WorkerTakes] + rest);
        n := n + 1;
      }
      Leaves(At(Ready, true, refresh));
      RunOn(s, trace, [WorkerLeaves]);
      trace := trace + [WorkerLeaves];
    }
  }
}
