/** One broker's clients as the connect loop, the token refresh, Stop and the client library take turns
    (internal/mqtt/observer.go 79-105, 363-394, 578-683, 834-878). Each step is one action another goroutine can come
    before or after. */
module BrokerLifecycle {
  import opened Common

  /** A client is dialling for the first time, open, lost and waiting to reconnect, reconnecting, or closed for good. */
  datatype Link = Dialling | Open | Lost | Redialling | Closed

  /** Where the connect loop that holds the retrying flag is: at the top of its loop, with the client it read there,
      with a dial in flight, with a client it opened, about to close the one that replaces, about to adopt, inside
      adopt's lock, or on its way out. */
  datatype Retry =
    | NoLoop | AtTop | Saw(seen: Option<int>) | LoopDials(id: int) | LoopGot(id: int)
    | LoopCloses(id: int, prior: Option<int>) | LoopAdopts(id: int) | LoopSets(id: int) | Leaving

  /** Where the token refresh is: between ticks, past the flag, with the client it read, with one it found open, about
      to dial, dialling, with a client it opened, inside adopt's lock, or with a dial that failed. */
  datatype Refresh =
    | Idle | FlagClear | Holding(c: int) | Chose(c: int) | ToDial | RefreshDials(id: int) | RefreshGot(id: int)
    | RefreshSets(id: int) | RefreshFailed

  /** How far Stop is: not called, the context cancelled, the stop channel closed, with the client it read, done. */
  datatype Halt = Running | Cancelled | Shut | StopSaw(c: Option<int>) | Halted

  /** Pending counts the connect loops started that have not yet tried the flag. */
  datatype State = State(links: map<int, Link>, next: int, current: Option<int>, retrying: bool, pending: nat,
                         retry: Retry, refresh: Refresh, halt: Halt)
  {
    predicate Stopped() { halt != Running && halt != Cancelled }

    /** Adopt holds the client's lock from its look at the stop channel to its write. */
    predicate Locked() { retry.LoopSets? || refresh.RefreshSets? }

    predicate LinkIs(id: int, link: Link) { id in links && links[id] == link }
  }

  const START := State(map[], 0, None, false, 1, NoLoop, Idle, Running)

  datatype Event =
    | TryFlag | LoopQuits | LoopLooks | LoopJudges | LoopOpens | LoopDialFails | LoopReadsOld | LoopClosesOld | LoopAsks
    | LoopWrites | LoopLeaves
    | Tick | RefreshReads | RefreshChecks | RefreshCloses | RefreshStarts | RefreshOpens | RefreshDialFails
    | RefreshAsks | RefreshWrites | RefreshSpawns
    | Cancel | CloseStop | StopReads | StopCloses
    | Lose(id: int) | Redial(id: int) | Reopen(id: int) | RedialFails(id: int)

  predicate Enabled(s: State, e: Event)
  {
    match e
    case TryFlag => s.pending > 0
    case LoopQuits => s.retry.AtTop? && s.halt != Running
    case LoopLooks => s.retry.AtTop? && !s.Locked()
    case LoopJudges => s.retry.Saw?
    case LoopOpens => s.retry.LoopDials?
    case LoopDialFails => s.retry.LoopDials?
    case LoopReadsOld => s.retry.LoopGot? && !s.Locked()
    case LoopClosesOld => s.retry.LoopCloses?
    case LoopAsks => s.retry.LoopAdopts? && !s.Locked()
    case LoopWrites => s.retry.LoopSets?
    case LoopLeaves => s.retry.Leaving?
    case Tick => s.refresh.Idle?
    case RefreshReads => s.refresh.FlagClear? && !s.Locked()
    case RefreshChecks => s.refresh.Holding?
    case RefreshCloses => s.refresh.Chose?
    case RefreshStarts => s.refresh.ToDial?
    case RefreshOpens => s.refresh.RefreshDials?
    case RefreshDialFails => s.refresh.RefreshDials?
    case RefreshAsks => s.refresh.RefreshGot? && !s.Locked()
    case RefreshWrites => s.refresh.RefreshSets?
    case RefreshSpawns => s.refresh.RefreshFailed?
    case Cancel => s.halt == Running
    case CloseStop => s.halt == Cancelled
    case StopReads => s.halt == Shut && !s.Locked()
    case StopCloses => s.halt.StopSaw?
    case Lose(id) => s.LinkIs(id, Open)
    case Redial(id) => s.LinkIs(id, Lost) && !s.Stopped()
    case Reopen(id) => s.LinkIs(id, Redialling)
    case RedialFails(id) => s.LinkIs(id, Redialling)
  }

  /** Disconnect ends a client for good, whatever it was doing. */
  function Close(s: State, c: Option<int>): State
  {
    if c.Some? then s.(links := s.links[c.value := Closed]) else s
  }

  /** A dial begins with a new client; past the closed stop channel it is refused. */
  function Begin(s: State): State
  {
    s.(links := s.links[s.next := Dialling], next := s.next + 1)
  }

  function Step(s: State, e: Event): State
    requires Enabled(s, e)
  {
    match e
    case TryFlag =>
      if s.retrying then s.(pending := s.pending - 1)
      else s.(pending := s.pending - 1, retrying := true, retry := AtTop)
    case LoopQuits => s.(retry := Leaving)
    case LoopLooks => s.(retry := Saw(s.current))
    case LoopJudges =>
      if s.retry.seen.Some? && !s.LinkIs(s.retry.seen.value, Closed) then s.(retry := Leaving)
      else if s.Stopped() then s.(retry := AtTop)
      else Begin(s).(retry := LoopDials(s.next))
    case LoopOpens => s.(links := s.links[s.retry.id := Open], retry := LoopGot(s.retry.id))
    case LoopDialFails => Close(s, Some(s.retry.id)).(retry := AtTop)
    case LoopReadsOld => s.(retry := LoopCloses(s.retry.id, s.current))
    case LoopClosesOld => Close(s, s.retry.prior).(retry := LoopAdopts(s.retry.id))
    case LoopAsks =>
      if s.Stopped() then Close(s, Some(s.retry.id)).(retry := Leaving)
      else s.(retry := LoopSets(s.retry.id))
    case LoopWrites => s.(current := Some(s.retry.id), retry := Leaving)
    case LoopLeaves => s.(retry := NoLoop, retrying := false)
    case Tick => if s.retrying then s else s.(refresh := FlagClear)
    case RefreshReads => if s.current.None? then s.(refresh := Idle) else s.(refresh := Holding(s.current.value))
    case RefreshChecks => if s.LinkIs(s.refresh.c, Open) then s.(refresh := Chose(s.refresh.c)) else s.(refresh := Idle)
    case RefreshCloses => Close(s, Some(s.refresh.c)).(refresh := ToDial)
    case RefreshStarts => if s.Stopped() then s.(refresh := RefreshFailed)
      else Begin(s).(refresh := RefreshDials(s.next))
    case RefreshOpens => s.(links := s.links[s.refresh.id := Open], refresh := RefreshGot(s.refresh.id))
    case RefreshDialFails => Close(s, Some(s.refresh.id)).(refresh := RefreshFailed)
    case RefreshAsks =>
      if s.Stopped() then Close(s, Some(s.refresh.id)).(refresh := Idle)
      else s.(refresh := RefreshSets(s.refresh.id))
    case RefreshWrites => s.(current := Some(s.refresh.id), refresh := Idle)
    case RefreshSpawns => s.(pending := s.pending + 1, refresh := Idle)
    case Cancel => s.(halt := Cancelled)
    case CloseStop => s.(halt := Shut)
    case StopReads => s.(halt := StopSaw(s.current))
    case StopCloses => Close(s, s.halt.c).(halt := Halted)
    case Lose(id) => s.(links := s.links[id := Lost])
    case Redial(id) => s.(links := s.links[id := Redialling])
    case Reopen(id) => s.(links := s.links[id := Open])
    case RedialFails(id) => s.(links := s.links[id := Lost])
  }

  ghost predicate Possible(s: State, events: seq<Event>)
    decreases |events|
  {
    events == [] || (Enabled(s, events[0]) && Possible(Step(s, events[0]), events[1..]))
  }

  ghost function Run(s: State, events: seq<Event>): State
    requires Possible(s, events)
    decreases |events|
  {
    if events == [] then s else Run(Step(s, events[0]), events[1..])
  }

  // ---------------------------------------------------------------------------------------------
  // What every step keeps
  // ---------------------------------------------------------------------------------------------

  /** The connect loop has the flag and has not put its client in place. */
  predicate Seeking(s: State) { s.retry != NoLoop && s.retry != Leaving }

  /** The refresh has found an open client and is replacing it. */
  predicate Refreshing(s: State)
  {
    s.refresh.Chose? || s.refresh.ToDial? || s.refresh.RefreshDials? || s.refresh.RefreshGot? ||
      s.refresh.RefreshSets? || s.refresh.RefreshFailed?
  }

  /** The client the loop, or the refresh, opened or is dialling. */
  function LoopHolds(s: State): Option<int>
  {
    match s.retry
    case LoopDials(id) => Some(id)
    case LoopGot(id) => Some(id)
    case LoopCloses(id, _) => Some(id)
    case LoopAdopts(id) => Some(id)
    case LoopSets(id) => Some(id)
    case _ => None
  }

  function RefreshHolds(s: State): Option<int>
  {
    match s.refresh
    case RefreshDials(id) => Some(id)
    case RefreshGot(id) => Some(id)
    case RefreshSets(id) => Some(id)
    case _ => None
  }

  predicate Live(s: State, c: Option<int>) { c.Some? && !s.LinkIs(c.value, Closed) }

  /** One owner at a time: while a client is in place and not closed, or being refreshed, no loop is looking for one or
      about to; and never more than one is. */
  ghost predicate OneOwner(s: State)
  {
    && (s.retrying <==> s.retry != NoLoop)
    && s.pending + (if Seeking(s) then 1 else 0) <= 1
    && (Live(s, s.current) || Refreshing(s) ==> s.pending == 0 && !Seeking(s))
    && (s.retry.Saw? ==> s.retry.seen == s.current)
    && (s.retry.LoopCloses? ==> s.retry.prior == s.current)
    && (s.refresh.Holding? && Live(s, Some(s.refresh.c)) ==> s.current == Some(s.refresh.c))
    && (s.refresh.Chose? ==> s.current == Some(s.refresh.c))
    && (s.refresh.ToDial? || s.refresh.RefreshFailed? || RefreshHolds(s).Some? ==> !Live(s, s.current))
  }

  /** Every client not closed is the current one or held by a dial, and only a dial leaves one dialling. */
  ghost predicate Watched(s: State)
  {
    && (forall id | id in s.links && s.links[id] != Closed ::
      s.current == Some(id) || LoopHolds(s) == Some(id) || RefreshHolds(s) == Some(id))
    && (forall id | id in s.links && s.links[id] == Dialling ::
      s.retry == LoopDials(id) || s.refresh == RefreshDials(id))
    && (LoopHolds(s).Some? ==> Live(s, LoopHolds(s)))
    && (RefreshHolds(s).Some? ==> Live(s, RefreshHolds(s)))
  }

  /** The clients named are known, and no two hold one. */
  ghost predicate Known(s: State)
  {
    && (forall id | id in s.links :: id < s.next)
    && (s.current.Some? ==> s.current.value in s.links && LoopHolds(s) != s.current && RefreshHolds(s) != s.current)
    && (LoopHolds(s).Some? ==> LoopHolds(s).value in s.links && LoopHolds(s) != RefreshHolds(s))
    && (RefreshHolds(s).Some? ==> RefreshHolds(s).value in s.links)
    && (s.refresh.Holding? ==> s.refresh.c in s.links && LoopHolds(s) != Some(s.refresh.c))
    && (s.refresh.Chose? ==> s.refresh.c in s.links && LoopHolds(s) != Some(s.refresh.c))
  }

  ghost predicate NoStray(s: State) { Watched(s) && Known(s) }

  /** Once Stop has read the client none takes its place, and once Stop is done it is closed. */
  ghost predicate StopSticks(s: State)
  {
    && (s.halt.StopSaw? ==> s.halt.c == s.current && !s.Locked())
    && (s.halt.Halted? ==> !Live(s, s.current) && !s.Locked())
  }

  ghost predicate Inv(s: State)
  {
    OneOwner(s) && NoStray(s) && StopSticks(s)
  }

  lemma StartHolds()
    ensures Inv(START)
  {
  }

  /** The steps of the connect loop up to a dial, and from a client it opened. */
  predicate OfLoop(e: Event)
  {
    e.TryFlag? || e.LoopQuits? || e.LoopLooks? || e.LoopJudges? || e.LoopOpens? || e.LoopDialFails?
  }

  predicate OfAdopting(e: Event)
  {
    e.LoopReadsOld? || e.LoopClosesOld? || e.LoopAsks? || e.LoopWrites? || e.LoopLeaves?
  }

  /** The steps of the refresh up to closing the old client, and from there. */
  predicate OfRefresh(e: Event)
  {
    e.Tick? || e.RefreshReads? || e.RefreshChecks? || e.RefreshCloses? || e.RefreshSpawns?
  }

  predicate OfReplacing(e: Event)
  {
    e.RefreshStarts? || e.RefreshOpens? || e.RefreshDialFails? || e.RefreshAsks? || e.RefreshWrites?
  }

  predicate OfStop(e: Event) { e.Cancel? || e.CloseStop? || e.StopReads? || e.StopCloses? }

  predicate OfNetwork(e: Event) { e.Lose? || e.Redial? || e.Reopen? || e.RedialFails? }

  lemma LoopKeeps(s: State, e: Event)
    requires Inv(s) && Enabled(s, e) && OfLoop(e)
    ensures OneOwner(Step(s, e)) && StopSticks(Step(s, e))
  {
  }

  lemma LoopKeepsWatch(s: State, e: Event)
    requires Inv(s) && Enabled(s, e) && OfLoop(e)
    ensures Watched(Step(s, e))
  {
  }

  lemma LoopKeepsKnown(s: State, e: Event)
    requires Inv(s) && Enabled(s, e) && OfLoop(e)
    ensures Known(Step(s, e))
  {
  }

  lemma AdoptingKeeps(s: State, e: Event)
    requires Inv(s) && Enabled(s, e) && OfAdopting(e)
    ensures OneOwner(Step(s, e)) && StopSticks(Step(s, e))
  {
  }

  lemma AdoptingKeepsWatch(s: State, e: Event)
    requires Inv(s) && Enabled(s, e) && OfAdopting(e)
    ensures Watched(Step(s, e))
  {
  }

  lemma AdoptingKeepsKnown(s: State, e: Event)
    requires Inv(s) && Enabled(s, e) && OfAdopting(e)
    ensures Known(Step(s, e))
  {
  }

  lemma RefreshKeeps(s: State, e: Event)
    requires Inv(s) && Enabled(s, e) && OfRefresh(e)
    ensures OneOwner(Step(s, e)) && StopSticks(Step(s, e))
  {
  }

  lemma RefreshKeepsWatch(s: State, e: Event)
    requires Inv(s) && Enabled(s, e) && OfRefresh(e)
    ensures Watched(Step(s, e))
  {
  }

  lemma RefreshKeepsKnown(s: State, e: Event)
    requires Inv(s) && Enabled(s, e) && OfRefresh(e)
    ensures Known(Step(s, e))
  {
  }

  lemma ReplacingKeeps(s: State, e: Event)
    requires Inv(s) && Enabled(s, e) && OfReplacing(e)
    ensures OneOwner(Step(s, e)) && StopSticks(Step(s, e))
  {
  }

  lemma ReplacingKeepsWatch(s: State, e: Event)
    requires Inv(s) && Enabled(s, e) && OfReplacing(e)
    ensures Watched(Step(s, e))
  {
  }

  lemma ReplacingKeepsKnown(s: State, e: Event)
    requires Inv(s) && Enabled(s, e) && OfReplacing(e)
    ensures Known(Step(s, e))
  {
  }

  lemma StopKeeps(s: State, e: Event)
    requires Inv(s) && Enabled(s, e) && OfStop(e)
    ensures OneOwner(Step(s, e)) && StopSticks(Step(s, e))
  {
  }

  lemma StopKeepsWatch(s: State, e: Event)
    requires Inv(s) && Enabled(s, e) && OfStop(e)
    ensures Watched(Step(s, e))
  {
  }

  lemma StopKeepsKnown(s: State, e: Event)
    requires Inv(s) && Enabled(s, e) && OfStop(e)
    ensures Known(Step(s, e))
  {
  }

  lemma NetworkKeeps(s: State, e: Event)
    requires Inv(s) && Enabled(s, e) && OfNetwork(e)
    ensures OneOwner(Step(s, e)) && StopSticks(Step(s, e))
  {
  }

  lemma NetworkKeepsWatch(s: State, e: Event)
    requires Inv(s) && Enabled(s, e) && OfNetwork(e)
    ensures Watched(Step(s, e))
  {
    NetworkMovesOneLink(s, e);
    hide Step, Enabled, OneOwner, StopSticks, Known;
  }

  /** The network changes one link, of a client that is neither closed nor dialling, and closes none. */
  lemma NetworkMovesOneLink(s: State, e: Event)
    requires Enabled(s, e) && OfNetwork(e)
    ensures var t := Step(s, e);
      && t == s.(links := t.links) && t.links.Keys == s.links.Keys
      && (forall id | id in s.links :: s.links[id] == Closed <==> t.links[id] == Closed)
      && (forall id | id in s.links :: s.links[id] == Dialling <==> t.links[id] == Dialling)
  {
  }

  lemma NetworkKeepsKnown(s: State, e: Event)
    requires Inv(s) && Enabled(s, e) && OfNetwork(e)
    ensures Known(Step(s, e))
  {
  }

  lemma {:induction false} StepKeeps(s: State, e: Event)
    requires Inv(s) && Enabled(s, e)
    ensures Inv(Step(s, e))
  {
    hide OneOwner, Watched, Known, StopSticks, Enabled, Step;
    if OfLoop(e) {
      LoopKeeps(s, e);
      LoopKeepsWatch(s, e);
      LoopKeepsKnown(s, e);
    } else if OfAdopting(e) {
      AdoptingKeeps(s, e);
      AdoptingKeepsWatch(s, e);
      AdoptingKeepsKnown(s, e);
    } else if OfRefresh(e) {
      RefreshKeeps(s, e);
      RefreshKeepsWatch(s, e);
      RefreshKeepsKnown(s, e);
    } else if OfReplacing(e) {
      ReplacingKeeps(s, e);
      ReplacingKeepsWatch(s, e);
      ReplacingKeepsKnown(s, e);
    } else if OfStop(e) {
      StopKeeps(s, e);
      StopKeepsWatch(s, e);
      StopKeepsKnown(s, e);
    } else {
      NetworkKeeps(s, e);
      NetworkKeepsWatch(s, e);
      NetworkKeepsKnown(s, e);
    }
  }

  lemma {:induction false} RunKeeps(s: State, events: seq<Event>)
    requires Inv(s) && Possible(s, events)
    ensures Inv(Run(s, events))
    decreases |events|
  {
    hide Inv, Enabled, Step;
    if events == [] {
    } else {
      StepKeeps(s, events[0]);
      RunKeeps(Step(s, events[0]), events[1..]);
    }
  }

  // ---------------------------------------------------------------------------------------------
  // What a run promises
  // ---------------------------------------------------------------------------------------------

  /** However the goroutines interleave, one client at most is not closed: no dial begins beside another or beside a
      session still up, so no session takes over another. */
  lemma NeverTwoSessions(events: seq<Event>, a: int, b: int)
    requires Possible(START, events)
    requires var links := Run(START, events).links; a in links && b in links && links[a] != Closed && links[b] != Closed
    ensures a == b
  {
    StartHolds();
    RunKeeps(START, events);
    hide Run, Possible;
  }

  /** A client not closed is the broker's own or the one a dial holds. */
  lemma EveryOtherClientIsClosed(events: seq<Event>, id: int)
    requires Possible(START, events) && id in Run(START, events).links
    ensures var s := Run(START, events);
      s.links[id] == Closed || s.current == Some(id) || LoopHolds(s) == Some(id) || RefreshHolds(s) == Some(id)
  {
    StartHolds();
    RunKeeps(START, events);
    hide Run, Possible;
  }

  /** Once Stop has returned and no dial holds a client, every client is closed. */
  lemma StopLeavesNothingOpen(events: seq<Event>, id: int)
    requires Possible(START, events)
    requires var s := Run(START, events); s.halt.Halted? && LoopHolds(s).None? && RefreshHolds(s).None? && id in s.links
    ensures Run(START, events).links[id] == Closed
  {
    StartHolds();
    RunKeeps(START, events);
    hide Run, Possible;
  }

  /** And once the stop channel is closed no client is made, and one that a dial still opens is never taken up. */
  lemma NothingBeginsOnceShut(s: State, e: Event)
    requires Inv(s) && Enabled(s, e) && s.Stopped()
    ensures Step(s, e).next == s.next && Step(s, e).Stopped()
    ensures !s.Locked() ==> Step(s, e).current == s.current && !Step(s, e).Locked()
  {
  }

  /** The loop never finds the client it looks for already there, and the client it replaces is closed already. */
  lemma TheLoopIsAlwaysNeeded(events: seq<Event>)
    requires Possible(START, events)
    ensures var s := Run(START, events);
      (s.retry.Saw? ==> !Live(s, s.retry.seen)) && (s.retry.LoopCloses? ==> !Live(s, s.retry.prior))
  {
    StartHolds();
    RunKeeps(START, events);
    hide Run, Possible;
  }

  // ---------------------------------------------------------------------------------------------
  // Whether a broker is ever given up
  // ---------------------------------------------------------------------------------------------

  /** The broker has a client that is up or coming back, or somebody who will get it one. */
  ghost predicate CaredFor(s: State)
  {
    Live(s, s.current) || s.pending > 0 || Seeking(s) || Refreshing(s)
  }

  /** A connect loop that finds the flag held goes away. */
  ghost predicate TurnedAway(s: State, e: Event) { e.TryFlag? && s.retrying }

  ghost predicate EverTurnedAway(s: State, events: seq<Event>)
    requires Possible(s, events)
    decreases |events|
  {
    events != [] && (TurnedAway(s, events[0]) || EverTurnedAway(Step(s, events[0]), events[1..]))
  }

  lemma LoopKeepsCare(s: State, e: Event)
    requires Inv(s) && Enabled(s, e) && (OfLoop(e) || OfAdopting(e)) && s.halt == Running
    ensures CaredFor(Step(s, e)) <==> CaredFor(s) && !TurnedAway(s, e)
  {
    hide StopSticks;
  }

  lemma OthersKeepCare(s: State, e: Event)
    requires Inv(s) && Enabled(s, e) && !OfLoop(e) && !OfAdopting(e) && s.halt == Running
    ensures CaredFor(Step(s, e)) <==> CaredFor(s)
  {
    hide StopSticks;
  }

  /** While the observer runs, only a loop turned away can leave the broker to nobody, and then always does. */
  lemma {:induction false} StepKeepsCare(s: State, e: Event)
    requires Inv(s) && Enabled(s, e) && s.halt == Running
    ensures CaredFor(Step(s, e)) <==> CaredFor(s) && !TurnedAway(s, e)
  {
    hide Inv, Enabled, Step, CaredFor;
    if OfLoop(e) || OfAdopting(e) {
      LoopKeepsCare(s, e);
    } else {
      OthersKeepCare(s, e);
    }
  }

  /** So the observer keeps every broker connected or in hand exactly as long as no connect loop is turned away: the
      loop turned away is one a failed refresh started while the last loop had yet to put its flag down. */
  lemma {:induction false} RunKeepsCare(s: State, events: seq<Event>)
    requires Inv(s) && Possible(s, events) && s.halt == Running && Cancel !in events
    ensures CaredFor(Run(s, events)) <==> CaredFor(s) && !EverTurnedAway(s, events)
    decreases |events|
  {
    if events == [] {
    } else {
      StepKeeps(s, events[0]);
      StepKeepsCare(s, events[0]);
      StillRunning(s, events[0]);
      hide Inv, Enabled, Step, CaredFor, TurnedAway;
      RunKeepsCare(Step(s, events[0]), events[1..]);
    }
  }

  lemma StillRunning(s: State, e: Event)
    requires Enabled(s, e) && s.halt == Running && e != Cancel
    ensures Step(s, e).halt == Running
  {
  }

  lemma {:induction false} RunOn(s: State, a: seq<Event>, b: seq<Event>)
    requires Possible(s, a) && Possible(Run(s, a), b)
    ensures Possible(s, a + b) && Run(s, a + b) == Run(Run(s, a), b)
    decreases |a|
  {
    hide Enabled, Step;
    if a == [] {
      assert a + b == b;
    } else {
      RunOn(Step(s, a[0]), a[1..], b);
      assert (a + b)[1..] == a[1..] + b;
    }
  }

  lemma RunFrom(s: State, e: Event, rest: seq<Event>)
    requires Enabled(s, e) && Possible(Step(s, e), rest)
    ensures Possible(s, [e] + rest) && Run(s, [e] + rest) == Run(Step(s, e), rest)
  {
    assert ([e] + rest)[1..] == rest;
  }

  ghost predicate Leads(s: State, e: Event, s2: State) { Enabled(s, e) && Step(s, e) == s2 }

  lemma FourSteps(s: State, a: Event, s1: State, b: Event, s2: State, c: Event, s3: State, d: Event, s4: State)
    requires Leads(s, a, s1) && Leads(s1, b, s2) && Leads(s2, c, s3) && Leads(s3, d, s4)
    ensures Possible(s, [a, b, c, d]) && Run(s, [a, b, c, d]) == s4
  {
    hide Enabled, Step;
    RunFrom(s3, d, []);
    RunFrom(s2, c, [d] + []);
    RunFrom(s1, b, [c] + ([d] + []));
    RunFrom(s, a, [b] + ([c] + ([d] + [])));
    assert [a, b, c, d] == [a] + ([b] + ([c] + ([d] + [])));
  }

  lemma ThreeSteps(s: State, a: Event, s1: State, b: Event, s2: State, c: Event, s3: State)
    requires Leads(s, a, s1) && Leads(s1, b, s2) && Leads(s2, c, s3)
    ensures Possible(s, [a, b, c]) && Run(s, [a, b, c]) == s3
  {
    hide Enabled, Step;
    RunFrom(s2, c, []);
    RunFrom(s1, b, [c] + []);
    RunFrom(s, a, [b] + ([c] + []));
    assert [a, b, c] == [a] + ([b] + ([c] + []));
  }

  lemma TwoSteps(s: State, a: Event, s1: State, b: Event, s2: State)
    requires Leads(s, a, s1) && Leads(s1, b, s2)
    ensures Possible(s, [a, b]) && Run(s, [a, b]) == s2
  {
    hide Enabled, Step;
    RunFrom(s1, b, []);
    RunFrom(s, a, [b] + []);
    assert [a, b] == [a] + ([b] + []);
  }

  /** The tick looks at the flag before the first loop takes it, and at the client once that loop has put it in
      place. */
  const LOOP_CONNECTS := [Tick, TryFlag, LoopLooks, LoopJudges]
  const LOOP_ADOPTS := [LoopOpens, LoopReadsOld, LoopClosesOld, LoopAsks]
  const REFRESH_CLOSES := [LoopWrites, RefreshReads, RefreshChecks, RefreshCloses]

  /** Its dial fails, and the loop it starts finds the flag still up. */
  const REFRESH_FAILS := [RefreshStarts, RefreshDialFails, RefreshSpawns, TryFlag]

  /** It happens: the broker is left with a closed client and nobody to dial it; and no tick will, as that takes an
      open client. */
  lemma ABrokerIsAbandoned() returns (events: seq<Event>)
    ensures Possible(START, events) && Cancel !in events && !CaredFor(Run(START, events))
  {
    Connects();
    Adopts();
    Closes();
    Fails();
    hide Enabled, Step, CONNECTED, ADOPTING, CLOSED;
    RunOn(START, LOOP_CONNECTS, LOOP_ADOPTS);
    RunOn(START, LOOP_CONNECTS + LOOP_ADOPTS, REFRESH_CLOSES);
    RunOn(START, LOOP_CONNECTS + LOOP_ADOPTS + REFRESH_CLOSES, REFRESH_FAILS);
    events := LOOP_CONNECTS + LOOP_ADOPTS + REFRESH_CLOSES + REFRESH_FAILS;
  }

  const CONNECTED := State(map[0 := Dialling], 1, None, true, 0, LoopDials(0), FlagClear, Running)
  const ADOPTING := State(map[0 := Open], 1, None, true, 0, LoopSets(0), FlagClear, Running)
  const CLOSED := State(map[0 := Closed], 1, Some(0), true, 0, Leaving, ToDial, Running)
  const ABANDONED := State(map[0 := Closed, 1 := Closed], 2, Some(0), true, 0, Leaving, Idle, Running)

  const SOUGHT := State(map[], 0, None, true, 0, AtTop, FlagClear, Running)

  lemma Seeks()
    ensures Possible(START, [Tick, TryFlag]) && Run(START, [Tick, TryFlag]) == SOUGHT
  {
    hide Run, Possible;
    TwoSteps(START, Tick, START.(refresh := FlagClear), TryFlag, SOUGHT);
  }

  lemma Dials()
    ensures Possible(SOUGHT, [LoopLooks, LoopJudges]) && Run(SOUGHT, [LoopLooks, LoopJudges]) == CONNECTED
  {
    hide Run, Possible;
    assert (map[])[0 := Dialling] == map[0 := Dialling];
    TwoSteps(SOUGHT, LoopLooks, SOUGHT.(retry := Saw(None)), LoopJudges, CONNECTED);
  }

  lemma Connects()
    ensures Possible(START, LOOP_CONNECTS) && Run(START, LOOP_CONNECTS) == CONNECTED
  {
    hide Run, Possible, Step, Enabled, CONNECTED, SOUGHT;
    Seeks();
    Dials();
    RunOn(START, [Tick, TryFlag], [LoopLooks, LoopJudges]);
    assert [Tick, TryFlag] + [LoopLooks, LoopJudges] == LOOP_CONNECTS;
  }

  lemma Adopts()
    ensures Possible(CONNECTED, LOOP_ADOPTS) && Run(CONNECTED, LOOP_ADOPTS) == ADOPTING
  {
    hide Run, Possible;
    var s1 := CONNECTED.(links := map[0 := Open], retry := LoopGot(0));
    var s2 := s1.(retry := LoopCloses(0, None));
    var s3 := s1.(retry := LoopAdopts(0));
    assert CONNECTED.links[0 := Open] == map[0 := Open];
    FourSteps(CONNECTED, LoopOpens, s1, LoopReadsOld, s2, LoopClosesOld, s3, LoopAsks, ADOPTING);
  }

  lemma Closes()
    ensures Possible(ADOPTING, REFRESH_CLOSES) && Run(ADOPTING, REFRESH_CLOSES) == CLOSED
  {
    hide Run, Possible;
    var s1 := ADOPTING.(current := Some(0), retry := Leaving);
    var s2 := s1.(refresh := Holding(0));
    var s3 := s1.(refresh := Chose(0));
    assert ADOPTING.links[0 := Closed] == map[0 := Closed];
    FourSteps(ADOPTING, LoopWrites, s1, RefreshReads, s2, RefreshChecks, s3, RefreshCloses, CLOSED);
  }

  lemma Fails()
    ensures Possible(CLOSED, REFRESH_FAILS) && Run(CLOSED, REFRESH_FAILS) == ABANDONED
  {
    hide Run, Possible;
    var s1 := CLOSED.(links := map[0 := Closed, 1 := Dialling], next := 2, refresh := RefreshDials(1));
    var s2 := CLOSED.(links := map[0 := Closed, 1 := Closed], next := 2, refresh := RefreshFailed);
    var s3 := s2.(pending := 1, refresh := Idle);
    assert CLOSED.links[1 := Dialling] == s1.links && s1.links[1 := Closed] == s2.links;
    FourSteps(CLOSED, RefreshStarts, s1, RefreshDialFails, s2, RefreshSpawns, s3, TryFlag, ABANDONED);
  }

  // ---------------------------------------------------------------------------------------------
  // The code, uninterrupted
  // ---------------------------------------------------------------------------------------------

  lemma Nothing(s: State)
    ensures Possible(s, []) && Run(s, []) == s
  {
  }

  /** A refresh that finds a loop at work, no client, or one not open, changes nothing. */
  lemma RefreshDeclines(s: State)
    requires Inv(s) && s.refresh.Idle? && !s.Locked()
    ensures s.retrying ==> Possible(s, [Tick]) && Run(s, [Tick]) == s
    ensures !s.retrying && s.current.None? ==> Possible(s, [Tick, RefreshReads]) && Run(s, [Tick, RefreshReads]) == s
    ensures !s.retrying && s.current.Some? && !s.LinkIs(s.current.value, Open) ==>
      Possible(s, [Tick, RefreshReads, RefreshChecks]) && Run(s, [Tick, RefreshReads, RefreshChecks]) == s
  {
    if s.retrying {
      RunFrom(s, Tick, []);
    } else if s.current.None? {
      RunFrom(s.(refresh := FlagClear), RefreshReads, []);
      RunFrom(s, Tick, [RefreshReads]);
      assert [Tick] + [RefreshReads] == [Tick, RefreshReads];
    } else if !s.LinkIs(s.current.value, Open) {
      ThreeSteps(s, Tick, s.(refresh := FlagClear),
        RefreshReads, s.(refresh := Holding(s.current.value)), RefreshChecks, s);
    }
  }

  const CHOOSES := [Tick, RefreshReads, RefreshChecks, RefreshCloses]
  const REDIALS := [RefreshStarts, RefreshOpens, RefreshAsks, RefreshWrites]
  const REDIAL_FAILS := [RefreshStarts, RefreshDialFails, RefreshSpawns]
  const REDIAL_REFUSED := [RefreshStarts, RefreshSpawns]

  /** What a refresh that closed the old client does next, alone: past the closed stop channel no dial is made. */
  function RedialTrace(s: State, opens: bool): seq<Event>
  {
    if s.Stopped() then REDIAL_REFUSED else if opens then REDIALS else REDIAL_FAILS
  }

  /** The new client takes the old one's place, or a connect loop is started to find one. */
  function Redialled(s: State, opens: bool): State
  {
    if s.Stopped() then s.(pending := s.pending + 1, refresh := Idle)
    else if opens then s.(links := s.links[s.next := Open], next := s.next + 1, current := Some(s.next),
      refresh := Idle)
    else s.(links := s.links[s.next := Closed], next := s.next + 1, pending := s.pending + 1, refresh := Idle)
  }

  /** The old client is closed first. */
  lemma RefreshReplaces(s: State, opens: bool)
    requires Inv(s) && s.refresh.Idle? && !s.Locked()
    requires !s.retrying && s.current.Some? && s.LinkIs(s.current.value, Open)
    ensures var t, s1 := CHOOSES + RedialTrace(s, opens),
      s.(links := s.links[s.current.value := Closed], refresh := ToDial);
      Possible(s, t) && Run(s, t) == Redialled(s1, opens)
  {
    hide Run, Possible, Inv;
    var c := s.current.value;
    var s1 := s.(links := s.links[c := Closed], refresh := ToDial);
    FourSteps(s, Tick, s.(refresh := FlagClear), RefreshReads, s.(refresh := Holding(c)),
              RefreshChecks, s.(refresh := Chose(c)), RefreshCloses, s1);
    hide Step, Enabled;
    if s.Stopped() {
      RedialIsRefused(s1);
    } else if opens {
      RedialOpens(s1);
    } else {
      RefreshSpawnsALoop(s1);
    }
    RunOn(s, CHOOSES, RedialTrace(s, opens));
  }

  lemma RedialOpens(s: State)
    requires s.refresh.ToDial? && !s.Stopped() && !s.Locked()
    ensures Possible(s, REDIALS) && Run(s, REDIALS) == Redialled(s, true)
  {
    hide Run, Possible;
    var id := s.next;
    var s1 := s.(links := s.links[id := Dialling], next := id + 1, refresh := RefreshDials(id));
    var s2 := s.(links := s.links[id := Open], next := id + 1, refresh := RefreshGot(id));
    assert s1.links[id := Open] == s2.links;
    FourSteps(s, RefreshStarts, s1, RefreshOpens, s2, RefreshAsks, s2.(refresh := RefreshSets(id)),
              RefreshWrites, s2.(current := Some(id), refresh := Idle));
  }

  lemma RefreshSpawnsALoop(s: State)
    requires s.refresh.ToDial? && !s.Stopped()
    ensures Possible(s, REDIAL_FAILS) && Run(s, REDIAL_FAILS) == Redialled(s, false)
  {
    hide Run, Possible;
    var id := s.next;
    var s1 := s.(links := s.links[id := Dialling], next := id + 1, refresh := RefreshDials(id));
    var s2 := s.(links := s.links[id := Closed], next := id + 1, refresh := RefreshFailed);
    assert s1.links[id := Closed] == s2.links;
    ThreeSteps(s, RefreshStarts, s1, RefreshDialFails, s2,
      RefreshSpawns, s2.(pending := s.pending + 1, refresh := Idle));
  }

  lemma RedialIsRefused(s: State)
    requires s.refresh.ToDial? && s.Stopped()
    ensures Possible(s, REDIAL_REFUSED) && Run(s, REDIAL_REFUSED) == s.(pending := s.pending + 1, refresh := Idle)
  {
    hide Run, Possible;
    TwoSteps(s, RefreshStarts, s.(refresh := RefreshFailed),
      RefreshSpawns, s.(pending := s.pending + 1, refresh := Idle));
  }

  /** An attempt that opens no client: past the closed stop channel it makes none. */
  function Attempt(s: State): seq<Event>
  {
    if s.Stopped() then [LoopLooks, LoopJudges] else [LoopLooks, LoopJudges, LoopDialFails]
  }

  function Attempted(s: State): State
  {
    if s.Stopped() then s else s.(links := s.links[s.next := Closed], next := s.next + 1)
  }

  lemma AttemptRuns(s: State)
    requires s.retry.AtTop? && !s.Locked() && !Live(s, s.current)
    ensures Possible(s, Attempt(s)) && Run(s, Attempt(s)) == Attempted(s)
  {
    if s.Stopped() {
      AttemptIsRefused(s);
    } else {
      AttemptFails(s);
    }
  }

  lemma AttemptIsRefused(s: State)
    requires s.retry.AtTop? && s.Stopped() && !s.Locked() && !Live(s, s.current)
    ensures Possible(s, [LoopLooks, LoopJudges]) && Run(s, [LoopLooks, LoopJudges]) == s
  {
    hide Run, Possible;
    TwoSteps(s, LoopLooks, s.(retry := Saw(s.current)), LoopJudges, s);
  }

  /** The loop looks, finds nothing and dials. */
  lemma LoopDialsOne(s: State)
    requires s.retry.AtTop? && !s.Stopped() && !s.Locked() && !Live(s, s.current)
    ensures Leads(s, LoopLooks, s.(retry := Saw(s.current)))
    ensures Leads(s.(retry := Saw(s.current)), LoopJudges, Begin(s).(retry := LoopDials(s.next)))
  {
  }

  lemma DialEnds(s: State, id: int)
    requires s.retry == LoopDials(id)
    ensures Leads(s, LoopDialFails, s.(links := s.links[id := Closed], retry := AtTop))
    ensures Leads(s, LoopOpens, s.(links := s.links[id := Open], retry := LoopGot(id)))
  {
  }

  lemma AttemptFails(s: State)
    requires s.retry.AtTop? && !s.Stopped() && !s.Locked() && !Live(s, s.current)
    ensures var t := [LoopLooks, LoopJudges, LoopDialFails];
      Possible(s, t) && Run(s, t) == s.(links := s.links[s.next := Closed], next := s.next + 1)
  {
    hide Run, Possible, Step, Enabled, Leads;
    LoopDialsOne(s);
    var s1 := Begin(s).(retry := LoopDials(s.next));
    var s2 := s.(links := s.links[s.next := Closed], next := s.next + 1);
    DialEnds(s1, s.next);
    assert s1.links[s.next := Closed] == s2.links;
    assert s1.(links := s1.links[s.next := Closed], retry := AtTop) == s2;
    ThreeSteps(s, LoopLooks, s.(retry := Saw(s.current)), LoopJudges, s1, LoopDialFails, s2);
  }

  const OPENS := [LoopLooks, LoopJudges, LoopOpens]
  const IS_TAKEN_UP := [LoopReadsOld, LoopClosesOld, LoopAsks, LoopWrites] + [LoopLeaves]

  lemma LoopConnects(s: State)
    requires s.retry.AtTop? && !s.Stopped() && !s.Locked() && !Live(s, s.current)
    requires s.current.Some? ==> s.current.value in s.links && s.current.value < s.next
    ensures Possible(s, OPENS + IS_TAKEN_UP)
    ensures Run(s, OPENS + IS_TAKEN_UP) ==
            s.(links := s.links[s.next := Open], next := s.next + 1, current := Some(s.next), retry := NoLoop,
              retrying := false)
  {
    hide Run, Possible, Step, Enabled, Leads;
    LoopDialsOne(s);
    var s1 := Begin(s).(retry := LoopDials(s.next));
    var s2 := s.(links := s.links[s.next := Open], next := s.next + 1, retry := LoopGot(s.next));
    DialEnds(s1, s.next);
    assert s1.links[s.next := Open] == s2.links;
    ThreeSteps(s, LoopLooks, s.(retry := Saw(s.current)), LoopJudges, s1, LoopOpens, s2);
    TakenUp(s2, s.next);
    RunOn(s, OPENS, IS_TAKEN_UP);
  }

  lemma TakenUp(s: State, id: int)
    requires s.retry == LoopGot(id) && !s.Stopped() && !s.Locked() && !Live(s, s.current)
    requires s.current.Some? ==> s.current.value in s.links
    ensures Possible(s, IS_TAKEN_UP) &&
      Run(s, IS_TAKEN_UP) == s.(current := Some(id), retry := NoLoop, retrying := false)
  {
    assert s.current.Some? ==> s.links[s.current.value := Closed] == s.links;
    var s1 := s.(current := Some(id), retry := Leaving);
    FourSteps(s, LoopReadsOld, s.(retry := LoopCloses(id, s.current)), LoopClosesOld, s.(retry := LoopAdopts(id)),
              LoopAsks, s.(retry := LoopSets(id)), LoopWrites, s1);
    RunFrom(s1, LoopLeaves, []);
    RunOn(s, [LoopReadsOld, LoopClosesOld, LoopAsks, LoopWrites], [LoopLeaves]);
  }

  /** Stop as far as the closed stop channel. */
  function StopComes(s: State): seq<Event> { if s.halt == Running then [Cancel, CloseStop] else [CloseStop] }

  const IS_TURNED_AWAY := [LoopOpens, LoopReadsOld, LoopClosesOld, LoopAsks] + [LoopLeaves]

  /** Stop comes while the dial is in flight: the client it opens is not taken up but closed. */
  lemma LoopIsStopped(s: State)
    requires s.retry.AtTop? && !s.Stopped() && !s.Locked() && NoneUp(s)
    ensures var t := [LoopLooks, LoopJudges] + (StopComes(s) + IS_TURNED_AWAY);
      Possible(s, t) && Run(s, t) ==
      s.(links := s.links[s.next := Closed], next := s.next + 1, retry := NoLoop, retrying := false, halt := Shut)
  {
    hide Run, Possible, Step, Enabled, Leads, NoneUp;
    NoneUpMeans(s);
    LoopDialsOne(s);
    var s1 := Begin(s).(retry := LoopDials(s.next));
    TwoSteps(s, LoopLooks, s.(retry := Saw(s.current)), LoopJudges, s1);
    DialIsStopped(s1);
    IsTurnedAway(s1.(halt := Shut), s.next);
    RunOn(s1, StopComes(s), IS_TURNED_AWAY);
    RunOn(s, [LoopLooks, LoopJudges], StopComes(s) + IS_TURNED_AWAY);
    assert s1.links[s.next := Closed] == s.links[s.next := Closed];
  }

  lemma DialIsStopped(s: State)
    requires !s.Stopped()
    ensures Possible(s, StopComes(s)) && Run(s, StopComes(s)) == s.(halt := Shut)
  {
    if s.halt == Running {
      TwoSteps(s, Cancel, s.(halt := Cancelled), CloseStop, s.(halt := Shut));
    } else {
      RunFrom(s, CloseStop, []);
      assert [CloseStop] + [] == [CloseStop];
    }
  }

  lemma IsTurnedAway(s: State, id: int)
    requires s.retry == LoopDials(id) && s.Stopped() && !s.Locked()
    requires s.current.Some? ==> s.current.value != id && s.LinkIs(s.current.value, Closed)
    ensures Possible(s, IS_TURNED_AWAY)
    ensures Run(s, IS_TURNED_AWAY) == s.(links := s.links[id := Closed], retry := NoLoop, retrying := false)
  {
    var s1 := s.(links := s.links[id := Open], retry := LoopGot(id));
    assert s.current.Some? ==> s1.links[s.current.value := Closed] == s1.links;
    assert s1.links[id := Closed] == s.links[id := Closed];
    var s4 := s.(links := s.links[id := Closed], retry := Leaving);
    FourSteps(s, LoopOpens, s1, LoopReadsOld, s1.(retry := LoopCloses(id, s.current)),
              LoopClosesOld, s1.(retry := LoopAdopts(id)), LoopAsks, s4);
    RunFrom(s4, LoopLeaves, []);
    RunOn(s, [LoopOpens, LoopReadsOld, LoopClosesOld, LoopAsks], [LoopLeaves]);
  }

  lemma LoopGivesUp(s: State)
    requires s.retry.AtTop? && s.halt != Running
    ensures Possible(s, [LoopQuits, LoopLeaves]) &&
      Run(s, [LoopQuits, LoopLeaves]) == s.(retry := NoLoop, retrying := false)
  {
    hide Run, Possible;
    TwoSteps(s, LoopQuits, s.(retry := Leaving), LoopLeaves, s.(retry := NoLoop, retrying := false));
  }

  /** No client is up: the last one, if any, is closed for good. */
  ghost predicate NoneUp(s: State)
  {
    s.current.Some? ==> s.LinkIs(s.current.value, Closed) && s.current.value < s.next
  }

  lemma NoneUpMeans(s: State)
    requires NoneUp(s)
    ensures s.current.Some? ==>
      s.current.value in s.links && s.links[s.current.value] == Closed && s.current.value < s.next
  {
  }

  /** The loop that runs alone from where a trace has led: it starts, tries again, and ends. */
  lemma LoopStarts(s: State)
    requires s.pending > 0
    ensures Possible(s, [TryFlag])
    ensures Run(s, [TryFlag]) ==
            if s.retrying then s.(pending := s.pending - 1)
            else s.(pending := s.pending - 1, retrying := true, retry := AtTop)
  {
    RunFrom(s, TryFlag, []);
    assert [TryFlag] + [] == [TryFlag];
  }

  lemma LoopTriesAgain(s0: State, trace: seq<Event>, s: State)
    requires Possible(s0, trace) && Run(s0, trace) == s
    requires s.retry.AtTop? && !s.Locked() && NoneUp(s)
    ensures Possible(s0, trace + Attempt(s)) && Run(s0, trace + Attempt(s)) == Attempted(s) && NoneUp(Attempted(s))
  {
    hide Run, Possible;
    AttemptRuns(s);
    RunOn(s0, trace, Attempt(s));
  }

  /** It quits past a cancelled context if it looks for that first, and past the closed stop channel in any case. */
  predicate Quits(s: State, quits: bool) { s.Stopped() || (quits && s.halt != Running) }

  function Ending(s: State, quits: bool, stops: bool): seq<Event>
  {
    if Quits(s, quits) then [LoopQuits, LoopLeaves]
    else if stops then [LoopLooks, LoopJudges] + (StopComes(s) + IS_TURNED_AWAY)
    else OPENS + IS_TAKEN_UP
  }

  function Ended(s: State, quits: bool, stops: bool): State
  {
    var s1 := s.(retry := NoLoop, retrying := false);
    if Quits(s, quits) then s1
    else if stops then s1.(links := s.links[s.next := Closed], next := s.next + 1, halt := Shut)
    else s1.(links := s.links[s.next := Open], next := s.next + 1, current := Some(s.next))
  }

  lemma LoopEnds(s0: State, trace: seq<Event>, s: State, quits: bool, stops: bool)
    requires Possible(s0, trace) && Run(s0, trace) == s
    requires s.retry.AtTop? && !s.Locked() && NoneUp(s)
    ensures Possible(s0, trace + Ending(s, quits, stops))
    ensures Run(s0, trace + Ending(s, quits, stops)) == Ended(s, quits, stops)
  {
    hide Run, Possible;
    if Quits(s, quits) {
      LoopGivesUp(s);
    } else if stops {
      LoopIsStopped(s);
    } else {
      LoopConnects(s);
    }
    RunOn(s0, trace, Ending(s, quits, stops));
  }

  lemma StopRuns(s: State)
    requires s.halt == Running && !s.Locked()
    ensures Possible(s, [Cancel, CloseStop, StopReads, StopCloses])
    ensures Run(s, [Cancel, CloseStop, StopReads, StopCloses]) ==
            s.(links := if s.current.Some? then s.links[s.current.value := Closed] else s.links, halt := Halted)
  {
    FourSteps(s, Cancel, s.(halt := Cancelled), CloseStop, s.(halt := Shut),
      StopReads, s.(halt := StopSaw(s.current)), StopCloses,
      s.(links := if s.current.Some? then s.links[s.current.value := Closed] else s.links, halt := Halted));
  }

  /** With a loop to come no client is up. */
  lemma RestMeans(s: State)
    requires Inv(s) && s.pending > 0
    ensures (s.retrying <==> s.retry != NoLoop) && NoneUp(s)
  {
  }

  /** A broker's client and flags. What each operation does in one go is one of the runs above: its trace says which. */
  class BrokerClient {
    var links: map<int, Link>
    var next: int
    var current: Option<int>
    var retrying: bool
    var pending: nat
    var halt: Halt

    ghost function At(retry: Retry, refresh: Refresh): State
      reads this
    {
      State(links, next, current, retrying, pending, retry, refresh, halt)
    }

    predicate Stopped()
      reads this
    {
      halt != Running && halt != Cancelled
    }

    /** A new client, open or failed; None when the dial was refused or failed. */
    method Connect(opens: bool) returns (c: Option<int>)
      modifies `links, `next
      ensures Stopped() ==> c == None && links == old(links) && next == old(next)
      ensures !Stopped() ==> next == old(next) + 1 && links == old(links)[old(next) := if opens then Open else Closed]
      ensures !Stopped() ==> c == if opens then Some(old(next)) else None
    {
      if Stopped() {
        return None;
      }
      var id := next;
      next := next + 1;
      links := links[id := if opens then Open else Closed];
      c := if opens then Some(id) else None;
    }

    method Disconnect(c: int)
      modifies `links
      ensures links == old(links)[c := Closed]
    {
      links := links[c := Closed];
    }

    /** The client in place is c from here on, unless the stop channel is closed: then c is too. */
    method Adopt(c: int) returns (adopted: bool)
      modifies `links, `current
      ensures adopted <==> !Stopped()
      ensures adopted ==> current == Some(c) && links == old(links)
      ensures !adopted ==> current == old(current) && links == old(links)[c := Closed]
    {
      if Stopped() {
        links := links[c := Closed];
        return false;
      }
      current := Some(c);
      adopted := true;
    }

    /** Replaces an open client by one with a fresh token; one that is not open is left to its own reconnect. The tick
        may find a connect loop anywhere, and Stop at any point of its way. */
    method RefreshToken(token: bool, opens: bool, ghost retry: Retry) returns (refreshed: bool, ghost trace: seq<Event>)
      requires Inv(At(retry, Idle)) && !retry.LoopSets?
      modifies this
      ensures Possible(old(At(retry, Idle)), trace) && At(retry, Idle) == Run(old(At(retry, Idle)), trace)
      ensures refreshed <==>
        token && opens && !Stopped() && !old(retrying) && old(current).Some? &&
          old(At(retry, Idle).LinkIs(current.value, Open))
      ensures refreshed ==> current == Some(old(next)) && At(retry, Idle).LinkIs(old(next), Open)
      ensures halt == old(halt)
    {
      ghost var s := At(retry, Idle);
      trace, refreshed := [], false;
      Nothing(s);
      if !token {
        return;
      }
      RefreshDeclines(s);
      hide Inv, Run, Possible, Step, Enabled;
      if retrying {
        trace := [Tick];
        return;
      }
      if current.None? {
        trace := [Tick, RefreshReads];
        return;
      }
      var c := current.value;
      if !(c in links && links[c] == Open) {
        trace := [Tick, RefreshReads, RefreshChecks];
        return;
      }
      Disconnect(c);
      RefreshReplaces(s, opens);
      trace := CHOOSES + RedialTrace(s, opens);
      var newClient := Connect(opens);
      if newClient.Some? {
        refreshed := Adopt(newClient.value);
      } else {
        pending := pending + 1;
      }
    }

    /** A dial that opens: the old client, closed already or not there, is closed and the new one taken up, unless Stop
        comes during the dial: then it is closed in turn. */
    method Replace(stops: bool) returns (adopted: bool)
      requires !Stopped() && (current.Some? ==>
        current.value in links && links[current.value] == Closed && current.value < next)
      modifies `links, `next, `current, `halt
      ensures adopted == !stops && current == (if stops then old(current) else Some(old(next)))
      ensures next == old(next) + 1 && links == old(links)[old(next) := if stops then Closed else Open]
      ensures halt == if stops then Shut else old(halt)
    {
      var client := Connect(true);
      if stops {
        halt := Shut;
      }
      if current.Some? {
        Disconnect(current.value);
      }
      adopted := Adopt(client.value);
    }

    /** Dials until a client opens, so many dials failing first, or until it finds the context cancelled or the stop
        channel closed; when both a quit and a dial are ready, quits says which is taken. Goes away at once if another
        loop has the flag. Stops says that Stop comes while the dial that opens is in flight. */
    method RetryConnect(failures: nat, quits: bool, stops: bool, ghost retry: Retry, ghost refresh: Refresh)
      returns (connected: bool, ghost trace: seq<Event>)
      requires Inv(At(retry, refresh)) && !At(retry, refresh).Locked() && pending > 0
      modifies this
      ensures Possible(old(At(retry, refresh)), trace) && At(retry, refresh) == Run(old(At(retry, refresh)), trace)
      ensures var dials := !old(retrying) && !old(Stopped()) && (quits ==> old(halt) == Running);
        && (connected <==> dials && !stops)
        && (dials ==> At(retry, refresh).LinkIs(old(next) + failures, if stops then Closed else Open))
        && halt == if dials && stops then Shut else old(halt)
      ensures current == if connected then Some(old(next) + failures) else old(current)
      ensures pending == old(pending) - 1 && retrying == old(retrying)
    {
      ghost var s0 := At(retry, refresh);
      RestMeans(s0);
      LoopStarts(s0);
      trace, connected := [TryFlag], false;
      assert NoneUp(State(links, next, current, true, pending - 1, AtTop, refresh, halt));
      hide Inv, Run, Possible, Step, Enabled, NoneUp, State.Locked, Live, Ending, Attempt;
      pending := pending - 1;
      if retrying {
        return;
      }
      retrying := true;
      var tries := 0;
      while tries < failures
        invariant tries <= failures && pending == s0.pending - 1 && retrying && halt == s0.halt && current == s0.current
        invariant next == (if Stopped() then s0.next else s0.next + tries) && NoneUp(At(AtTop, refresh))
        invariant Possible(s0, trace) && Run(s0, trace) == At(AtTop, refresh)
      {
        ghost var s := At(AtTop, refresh);
        LoopTriesAgain(s0, trace, s);
        trace := trace + Attempt(s);
        var failed := Connect(false);
        tries := tries + 1;
      }
      ghost var s := At(AtTop, refresh);
      LoopEnds(s0, trace, s, quits, stops);
      trace := trace + Ending(s, quits, stops);
      NoneUpMeans(s);
      hide Attempted;
      connected := FinishLoop(quits, stops, refresh);
    }

    /** Quits, or dials once more, and puts the flag down. */
    method FinishLoop(quits: bool, stops: bool, ghost refresh: Refresh) returns (connected: bool)
      requires current.Some? ==> current.value in links && links[current.value] == Closed && current.value < next
      modifies this
      ensures At(NoLoop, refresh) == Ended(old(At(AtTop, refresh)), quits, stops)
      ensures connected <==> !Quits(old(At(AtTop, refresh)), quits) && !stops
    {
      connected := false;
      if !Stopped() && (halt == Running || !quits) {
        connected := Replace(stops);
      }
      retrying := false;
    }

    /** Closes the client for good. */
    method Stop(ghost retry: Retry, ghost refresh: Refresh) returns (ghost trace: seq<Event>)
      requires Inv(At(retry, refresh)) && halt == Running && !At(retry, refresh).Locked()
      modifies this
      ensures Possible(old(At(retry, refresh)), trace) && At(retry, refresh) == Run(old(At(retry, refresh)), trace)
      ensures halt == Halted && !Live(At(retry, refresh), current)
    {
      ghost var s := At(retry, refresh);
      StopRuns(s);
      hide Inv, Run, Possible, Step, Enabled;
      trace := [Cancel, CloseStop, StopReads, StopCloses];
      halt := Shut;
      if current.Some? {
        Disconnect(current.value);
      }
      halt := Halted;
    }
  }
}
