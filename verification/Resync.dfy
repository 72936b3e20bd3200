// The single-flight resync: concurrent calls coalesce onto one pass.
module Resync {
  import opened Prelude

  datatype Outcome = Outcome(online: bool, flushed: nat, coalesced: bool)

  // A completed pass and the instants it started and completed at.
  datatype Pass = Pass(startedAt: nat, completedAt: nat, outcome: Outcome)

  // What a call read before waiting for the lock. `busy` records, for the
  // proofs only, whether a pass was under way at that instant.
  datatype Ticket = Ticket(seen: nat, readAt: nat, busy: bool)

  datatype Call =
    | Waiting(ticket: Ticket)
    | Locked(ticket: Ticket, lockedAt: nat)
    | Running(ticket: Ticket, lockedAt: nat, startedAt: nat)
    | Stored(ticket: Ticket, lockedAt: nat, startedAt: nat, outcome: Outcome)
    | Answered(ticket: Ticket, lockedAt: nat, own: bool, answer: Outcome, pass: nat)

  // `generation`, `last` and `holder` are the program's state; the clock and the
  // passes record history. Calls are numbered; any number of them may exist.
  datatype State = State(
    clock: nat,
    generation: nat,
    last: Option<Outcome>,
    holder: Option<nat>,
    calls: map<nat, Call>,
    passes: seq<Pass>)

  const INIT := State(0, 0, None, None, map[], [])

  datatype Step =
    | Begin(call: nat)
    | Acquire(call: nat)
    | Coalesce(call: nat)
    | Start(call: nat)
    | Store(call: nat, result: Outcome)
    | Publish(call: nat)

  predicate UnderWay(c: Call) {
    c.Running? || c.Stored?
  }

  predicate InCritical(c: Call) {
    c.Locked? || UnderWay(c)
  }

  predicate Busy(s: State) {
    s.holder.Some? && s.holder.value in s.calls && UnderWay(s.calls[s.holder.value])
  }

  predicate Enabled(s: State, step: Step) {
    match step
    case Begin(t) => t !in s.calls
    case Acquire(t) => t in s.calls && s.calls[t].Waiting? && s.holder == None
    case Coalesce(t) => t in s.calls && s.calls[t].Locked? && s.generation != s.calls[t].ticket.seen && s.last.Some?
    case Start(t) => t in s.calls && s.calls[t].Locked? && (s.generation == s.calls[t].ticket.seen || s.last.None?)
    case Store(t, _) => t in s.calls && s.calls[t].Running?
    case Publish(t) => t in s.calls && s.calls[t].Stored?
  }

  function Move(s: State, step: Step): State
    requires Enabled(s, step)
  {
    var now := s.clock;
    match step
    case Begin(t) =>
      s.(calls := s.calls[t := Waiting(Ticket(s.generation, now, Busy(s)))])
    case Acquire(t) =>
      s.(holder := Some(t), calls := s.calls[t := Locked(s.calls[t].ticket, now)])
    case Coalesce(t) =>
      var c := s.calls[t];
      var latest := if |s.passes| > 0 then |s.passes| - 1 else 0;
      s.(holder := None,
         calls := s.calls[t := Answered(c.ticket, c.lockedAt, false, s.last.value.(coalesced := true), latest)])
    case Start(t) =>
      var c := s.calls[t];
      s.(calls := s.calls[t := Running(c.ticket, c.lockedAt, now)])
    case Store(t, result) =>
      var c := s.calls[t];
      s.(last := Some(result), calls := s.calls[t := Stored(c.ticket, c.lockedAt, c.startedAt, result)])
    case Publish(t) =>
      var c := s.calls[t];
      s.(generation := s.generation + 1,
         holder := None,
         calls := s.calls[t := Answered(c.ticket, c.lockedAt, true, c.outcome, |s.passes|)],
         passes := s.passes + [Pass(c.startedAt, now, c.outcome)])
  }

  // A step that is not enabled happens nowhere: it only lets time pass.
  function Next(s: State, step: Step): State {
    (if Enabled(s, step) then Move(s, step) else s).(clock := s.clock + 1)
  }

  function After(run: seq<Step>): State {
    if run == [] then INIT else Next(After(run[..|run| - 1]), run[|run| - 1])
  }

  // ---- The invariant -----------------------------------------------------------

  // What the promises about calls depend on: the completed passes, the start of
  // the one under way, and the time.
  datatype Timeline = Timeline(passes: seq<Pass>, current: Option<nat>, clock: nat)

  function TimelineOf(s: State): Timeline {
    Timeline(s.passes, if Busy(s) then Some(s.calls[s.holder.value].startedAt) else None, s.clock)
  }

  ghost predicate PassesOk(l: Timeline) {
    && (forall j :: 0 <= j < |l.passes| ==> l.passes[j].startedAt < l.passes[j].completedAt < l.clock)
    && (forall i, j :: 0 <= i < j < |l.passes| ==> l.passes[i].completedAt < l.passes[j].startedAt)
    && (l.current.Some? ==> l.current.value < l.clock)
    && (l.current.Some? && |l.passes| > 0 ==> l.passes[|l.passes| - 1].completedAt < l.current.value)
  }

  // Pass `k.seen` is the first that can complete after the call was made; it
  // had started before the call exactly when one was under way.
  ghost predicate TicketOk(l: Timeline, k: Ticket) {
    && k.readAt < l.clock
    && k.seen <= |l.passes|
    && (k.seen > 0 ==> l.passes[k.seen - 1].completedAt < k.readAt)
    && (k.seen < |l.passes| ==> k.readAt < l.passes[k.seen].completedAt)
    && (k.seen < |l.passes| ==> if k.busy then l.passes[k.seen].startedAt < k.readAt
        else k.readAt < l.passes[k.seen].startedAt)
    && (k.seen == |l.passes| && k.busy ==> l.current.Some?)
    && (k.seen == |l.passes| && l.current.Some? ==>
          if k.busy then l.current.value < k.readAt else k.readAt < l.current.value)
  }

  // A coalesced call returns the latest pass completed when it got the lock,
  // and that pass completed after the call was made; a call that ran its own
  // pass saw none complete in between.
  ghost predicate AnswerOk(l: Timeline, c: Call)
    requires c.Answered?
  {
    && c.pass < |l.passes|
    && (c.pass + 1 < |l.passes| ==> c.lockedAt < l.passes[c.pass + 1].completedAt)
    && (if c.own then
          && c.answer == l.passes[c.pass].outcome
          && c.lockedAt < l.passes[c.pass].startedAt
          && (c.pass > 0 ==> l.passes[c.pass - 1].completedAt < c.ticket.readAt)
        else
          && c.answer == l.passes[c.pass].outcome.(coalesced := true)
          && c.ticket.seen <= c.pass
          && c.ticket.readAt < l.passes[c.pass].completedAt < c.lockedAt)
  }

  ghost predicate CallOk(l: Timeline, c: Call) {
    && TicketOk(l, c.ticket)
    && (!c.Waiting? ==> c.ticket.readAt < c.lockedAt < l.clock)
    && (c.Answered? ==> AnswerOk(l, c))
  }

  // What holds of the one call inside the critical section.
  ghost predicate HolderOk(passes: seq<Pass>, last: Option<Outcome>, c: Call) {
    && InCritical(c)
    && (|passes| > 0 ==> passes[|passes| - 1].completedAt < c.lockedAt)
    && (UnderWay(c) ==> c.lockedAt < c.startedAt && c.ticket.seen == |passes|)
    && (if c.Stored? then last == Some(c.outcome) else LastIs(passes, last))
  }

  ghost predicate LastIs(passes: seq<Pass>, last: Option<Outcome>) {
    last == if passes == [] then None else Some(passes[|passes| - 1].outcome)
  }

  ghost predicate LockOk(passes: seq<Pass>, last: Option<Outcome>, holder: Option<nat>, calls: map<nat, Call>) {
    && (forall t :: t in calls && holder != Some(t) ==> !InCritical(calls[t]))
    && (if holder.Some? then holder.value in calls && HolderOk(passes, last, calls[holder.value])
        else LastIs(passes, last))
  }

  ghost predicate CallsOk(l: Timeline, calls: map<nat, Call>) {
    forall t :: t in calls ==> CallOk(l, calls[t])
  }

  ghost predicate Inv(s: State) {
    && s.generation == |s.passes|
    && LockOk(s.passes, s.last, s.holder, s.calls)
    && PassesOk(TimelineOf(s))
    && CallsOk(TimelineOf(s), s.calls)
  }

  // How one step moves the timeline: time passes, and a pass may start or end.
  ghost predicate Advances(l: Timeline, l': Timeline) {
    && l'.clock == l.clock + 1
    && (|| (l'.passes == l.passes && l'.current == l.current)
        || (l'.passes == l.passes && l.current.None? && l'.current == Some(l.clock))
        || (l.current.Some? && l'.current.None? && |l'.passes| == |l.passes| + 1 && l'.passes[..|l.passes|] == l.passes
            && l'.passes[|l.passes|].startedAt == l.current.value && l'.passes[|l.passes|].completedAt == l.clock))
  }

  lemma TicketKept(l: Timeline, l': Timeline, k: Ticket)
    requires TicketOk(l, k) && Advances(l, l')
    ensures TicketOk(l', k)
  {
    assert forall j :: 0 <= j < |l.passes| ==> l'.passes[j] == l.passes[j] by {
      if |l'.passes| == |l.passes| + 1 {
        assert forall j :: 0 <= j < |l.passes| ==> l'.passes[j] == l'.passes[..|l.passes|][j];
      }
    }
  }

  lemma CallKept(l: Timeline, l': Timeline, c: Call)
    requires CallOk(l, c) && Advances(l, l')
    ensures CallOk(l', c)
  {
    TicketKept(l, l', c.ticket);
    if c.Answered? && |l'.passes| == |l.passes| + 1 {
      assert forall j :: 0 <= j < |l.passes| ==> l'.passes[j] == l'.passes[..|l.passes|][j] == l.passes[j];
    }
  }

  lemma CallsKept(l: Timeline, l': Timeline, calls: map<nat, Call>)
    requires CallsOk(l, calls) && Advances(l, l')
    ensures CallsOk(l', calls)
  {
    forall t | t in calls ensures CallOk(l', calls[t]) {
      CallKept(l, l', calls[t]);
    }
  }

  lemma OneCallMoves(l: Timeline, l': Timeline, calls: map<nat, Call>, t: nat, c: Call)
    requires CallsOk(l, calls) && Advances(l, l') && CallOk(l', c)
    ensures CallsOk(l', calls[t := c])
  {
    CallsKept(l, l', calls);
  }

  // The timeline of the state a step leads to.
  lemma TimelineStep(s: State, step: Step)
    requires LockOk(s.passes, s.last, s.holder, s.calls) && PassesOk(TimelineOf(s))
    ensures Advances(TimelineOf(s), TimelineOf(Next(s, step))) && PassesOk(TimelineOf(Next(s, step)))
    ensures TimelineOf(Next(s, step)) == NextTimeline(s, step)
  {
    StepTimeline(s, step);
    var l, l' := TimelineOf(s), NextTimeline(s, step);
    if Enabled(s, step) && step.Publish? {
      assert l'.passes[..|l.passes|] == l.passes;
    }
    assert Advances(l, l');
    PassesAdvance(l, l');
  }

  lemma PassesAdvance(l: Timeline, l': Timeline)
    requires PassesOk(l) && Advances(l, l')
    ensures PassesOk(l')
  {
    assert forall j :: 0 <= j < |l.passes| ==> l'.passes[j] == l'.passes[..|l.passes|][j];
  }

  function NextTimeline(s: State, step: Step): Timeline
    requires LockOk(s.passes, s.last, s.holder, s.calls)
  {
    if !Enabled(s, step) then TimelineOf(s).(clock := s.clock + 1)
      else if step.Start? then Timeline(s.passes, Some(s.clock), s.clock + 1)
      else if step.Publish? then
        var c := s.calls[step.call];
        Timeline(s.passes + [Pass(c.startedAt, s.clock, c.outcome)], None, s.clock + 1)
      else TimelineOf(s).(clock := s.clock + 1)
  }

  lemma StepTimeline(s: State, step: Step)
    requires LockOk(s.passes, s.last, s.holder, s.calls)
    ensures TimelineOf(Next(s, step)) == NextTimeline(s, step)
    ensures Enabled(s, step) && step.Start? ==> TimelineOf(s).current == None
    ensures Enabled(s, step) && step.Publish? ==> TimelineOf(s).current == Some(s.calls[step.call].startedAt)
  {
    if Enabled(s, step) && !step.Begin? && !step.Acquire? {
      assert s.holder == Some(step.call);
    }
  }

  lemma LockStep(s: State, step: Step)
    requires s.generation == |s.passes| && LockOk(s.passes, s.last, s.holder, s.calls)
    requires forall j :: 0 <= j < |s.passes| ==> s.passes[j].completedAt < s.clock
    requires step.call in s.calls ==> CallOk(TimelineOf(s), s.calls[step.call])
    ensures var s' := Next(s, step);
      s'.generation == |s'.passes| && LockOk(s'.passes, s'.last, s'.holder, s'.calls)
  {
  }

  // The call that moves keeps its promises: one lemma for each kind of move.
  lemma NewCallOk(l: Timeline, c: Call)
    requires PassesOk(l) && c == Waiting(Ticket(|l.passes|, l.clock, l.current.Some?))
    ensures CallOk(l.(clock := l.clock + 1), c)
  {
  }

  lemma CallMovesOn(l: Timeline, l': Timeline, c: Call, c': Call)
    requires CallOk(l, c) && Advances(l, l') && InCritical(c') && c'.ticket == c.ticket
    requires if c.Waiting? then c'.lockedAt == l.clock else c'.lockedAt == c.lockedAt
    ensures CallOk(l', c')
  {
    TicketKept(l, l', c.ticket);
  }

  lemma CoalescedCallOk(l: Timeline, last: Option<Outcome>, c: Call)
    requires PassesOk(l) && CallOk(l, c) && c.Locked? && HolderOk(l.passes, last, c)
    requires last.Some? && |l.passes| != c.ticket.seen
    ensures |l.passes| > 0
    ensures CallOk(l.(clock := l.clock + 1),
      Answered(c.ticket, c.lockedAt, false, last.value.(coalesced := true), |l.passes| - 1))
  {
  }

  lemma PublishedCallOk(l: Timeline, l': Timeline, last: Option<Outcome>, c: Call)
    requires PassesOk(l) && CallOk(l, c) && c.Stored? && HolderOk(l.passes, last, c)
    requires l.current == Some(c.startedAt)
    requires l' == Timeline(l.passes + [Pass(c.startedAt, l.clock, c.outcome)], None, l.clock + 1)
    ensures CallOk(l', Answered(c.ticket, c.lockedAt, true, c.outcome, |l.passes|))
  {
    assert l'.passes[..|l.passes|] == l.passes;
    TicketKept(l, l', c.ticket);
  }

  lemma MoverOk(s: State, step: Step)
    requires s.generation == |s.passes| && LockOk(s.passes, s.last, s.holder, s.calls) && PassesOk(TimelineOf(s))
    requires Enabled(s, step) && (step.call in s.calls ==> CallOk(TimelineOf(s), s.calls[step.call]))
    ensures CallOk(TimelineOf(Next(s, step)), Next(s, step).calls[step.call])
  {
    TimelineStep(s, step);
    var l, l', c' := TimelineOf(s), TimelineOf(Next(s, step)), Next(s, step).calls[step.call];
    if step.Begin? {
      NewCallOk(l, c');
    } else if step.Coalesce? {
      CoalescedMoverOk(s, step.call);
    } else if step.Publish? {
      PublishedMoverOk(s, step.call);
    } else {
      CallMovesOn(l, l', s.calls[step.call], c');
    }
  }

  lemma PublishedMoverOk(s: State, t: nat)
    requires s.generation == |s.passes| && LockOk(s.passes, s.last, s.holder, s.calls) && PassesOk(TimelineOf(s))
    requires Enabled(s, Publish(t)) && CallOk(TimelineOf(s), s.calls[t])
    ensures CallOk(NextTimeline(s, Publish(t)), Next(s, Publish(t)).calls[t])
  {
    StepTimeline(s, Publish(t));
    assert s.holder == Some(t);
    PublishedCallOk(TimelineOf(s), NextTimeline(s, Publish(t)), s.last, s.calls[t]);
  }

  lemma CoalescedMoverOk(s: State, t: nat)
    requires s.generation == |s.passes| && LockOk(s.passes, s.last, s.holder, s.calls) && PassesOk(TimelineOf(s))
    requires Enabled(s, Coalesce(t)) && CallOk(TimelineOf(s), s.calls[t])
    ensures CallOk(TimelineOf(s).(clock := s.clock + 1), Next(s, Coalesce(t)).calls[t])
  {
    assert s.holder == Some(t);
    CoalescedCallOk(TimelineOf(s), s.last, s.calls[t]);
  }

  lemma StepKeepsInv(s: State, step: Step)
    requires Inv(s)
    ensures Inv(Next(s, step))
  {
    var s' := Next(s, step);
    assert step.call in s.calls ==> CallOk(TimelineOf(s), s.calls[step.call]);
    TimelineStep(s, step);
    LockStep(s, step);
    if Enabled(s, step) {
      MoverOk(s, step);
      assert s'.calls == s.calls[step.call := s'.calls[step.call]];
      OneCallMoves(TimelineOf(s), TimelineOf(s'), s.calls, step.call, s'.calls[step.call]);
    } else {
      CallsKept(TimelineOf(s), TimelineOf(s'), s.calls);
    }
  }

  lemma {:induction false} RunKeepsInv(run: seq<Step>)
    ensures Inv(After(run))
  {
    if run != [] {
      RunKeepsInv(run[..|run| - 1]);
      StepKeepsInv(After(run[..|run| - 1]), run[|run| - 1]);
    }
  }

  ghost predicate Reachable(s: State) {
    exists run :: s == After(run)
  }

  lemma ReachableInv(s: State)
    requires Reachable(s)
    ensures Inv(s)
  {
    var run :| s == After(run);
    RunKeepsInv(run);
  }

  // ---- What callers get, in every interleaving -----------------------------------

  lemma AtMostOnePassRuns(s: State, t: nat, u: nat)
    requires Reachable(s) && t in s.calls && u in s.calls
    requires UnderWay(s.calls[t]) && UnderWay(s.calls[u])
    ensures t == u
  {
    ReachableInv(s);
  }

  // A coalesced call returns the outcome of the latest pass completed when it
  // got the lock, and that pass completed after the call was made.
  lemma CoalescedAnswerIsRecent(s: State, t: nat)
    requires Reachable(s) && t in s.calls && s.calls[t].Answered? && !s.calls[t].own
    ensures var c := s.calls[t];
      && c.pass < |s.passes|
      && c.answer == s.passes[c.pass].outcome.(coalesced := true)
      && c.ticket.readAt < s.passes[c.pass].completedAt < c.lockedAt
      && (forall j :: c.pass < j < |s.passes| ==> c.lockedAt < s.passes[j].completedAt)
  {
    ReachableInv(s);
    assert CallOk(TimelineOf(s), s.calls[t]);
    NothingNewer(TimelineOf(s), s.calls[t]);
  }

  lemma NothingNewer(l: Timeline, c: Call)
    requires PassesOk(l) && c.Answered? && AnswerOk(l, c)
    ensures forall j :: c.pass < j < |l.passes| ==> c.lockedAt < l.passes[j].completedAt
  {
  }

  lemma NoPassBetween(l: Timeline, c: Call)
    requires PassesOk(l) && c.Answered? && c.own && AnswerOk(l, c)
    ensures forall j :: 0 <= j < |l.passes| ==> !(c.ticket.readAt <= l.passes[j].completedAt <= c.lockedAt)
  {
  }

  // A call that ran its own pass saw none complete between reading the
  // generation and getting the lock.
  lemma OwnPassFollowsNoOther(s: State, t: nat)
    requires Reachable(s) && t in s.calls && s.calls[t].Answered? && s.calls[t].own
    ensures var c := s.calls[t];
      && c.pass < |s.passes|
      && c.answer == s.passes[c.pass].outcome
      && c.ticket.readAt < c.lockedAt < s.passes[c.pass].startedAt
      && (forall j :: 0 <= j < |s.passes| ==> !(c.ticket.readAt <= s.passes[j].completedAt <= c.lockedAt))
  {
    ReachableInv(s);
    assert CallOk(TimelineOf(s), s.calls[t]);
    NoPassBetween(TimelineOf(s), s.calls[t]);
  }

  // The pass a coalesced call reports had started after the call was made
  // exactly when no pass was under way then or a second one completed while
  // the call waited.
  lemma CoalescedPassStartedLater(s: State, t: nat)
    requires Reachable(s) && t in s.calls && s.calls[t].Answered? && !s.calls[t].own
    ensures var c := s.calls[t];
      && c.ticket.seen <= c.pass < |s.passes|
      && (c.ticket.readAt < s.passes[c.pass].startedAt <==> !c.ticket.busy || c.ticket.seen < c.pass)
  {
    ReachableInv(s);
    var c := s.calls[t];
    assert CallOk(TimelineOf(s), c);
    assert c.ticket.readAt < s.passes[c.ticket.seen].completedAt;
  }

  lemma AfterAppend(run: seq<Step>, step: Step)
    ensures After(run + [step]) == Next(After(run), step)
  {
    assert (run + [step])[..|run|] == run;
  }

  // A call made during a pass coalesces onto that very pass, which had started
  // before it.
  lemma CoalescingOntoAnEarlierStart(result: Outcome) returns (run: seq<Step>)
    ensures var s := After(run);
      && 1 in s.calls && s.calls[1].Answered? && !s.calls[1].own
      && s.calls[1].pass < |s.passes|
      && s.passes[s.calls[1].pass].startedAt < s.calls[1].ticket.readAt
  {
    var first, second := Ticket(0, 0, false), Ticket(0, 3, true);
    run := CallDuringPass(first, second);
    FirstCompletes(After(run), first, second, result);
    run := ExtendRun(run, Store(0, result));
    run := ExtendRun(run, Publish(0));
    SecondCoalesces(After(run), first, second, result);
    run := ExtendRun(run, Acquire(1));
    run := ExtendRun(run, Coalesce(1));
  }

  lemma CallDuringPass(first: Ticket, second: Ticket) returns (run: seq<Step>)
    requires first == Ticket(0, 0, false) && second == Ticket(0, 3, true)
    ensures After(run) == State(4, 0, None, Some(0), map[0 := Running(first, 1, 2), 1 := Waiting(second)], [])
  {
    run := [];
    run := ExtendRun(run, Begin(0));
    run := ExtendRun(run, Acquire(0));
    assert After(run) == State(2, 0, None, Some(0), map[0 := Locked(first, 1)], []);
    run := ExtendRun(run, Start(0));
    run := ExtendRun(run, Begin(1));
  }

  lemma FirstCompletes(s: State, first: Ticket, second: Ticket, result: Outcome)
    requires s == State(4, 0, None, Some(0), map[0 := Running(first, 1, 2), 1 := Waiting(second)], [])
    ensures Next(Next(s, Store(0, result)), Publish(0))
      == State(6, 1, Some(result), None, map[0 := Answered(first, 1, true, result, 0), 1 := Waiting(second)],
        [Pass(2, 5, result)])
  {
    assert Next(s, Store(0, result))
      == State(5, 0, Some(result), Some(0), map[0 := Stored(first, 1, 2, result), 1 := Waiting(second)], []);
  }

  lemma SecondCoalesces(s: State, first: Ticket, second: Ticket, result: Outcome)
    requires second == Ticket(0, 3, true)
    requires s == State(6, 1, Some(result), None,
      map[0 := Answered(first, 1, true, result, 0), 1 := Waiting(second)], [Pass(2, 5, result)])
    ensures var s' := Next(Next(s, Acquire(1)), Coalesce(1));
      && s'.passes == s.passes && 1 in s'.calls
      && s'.calls[1] == Answered(second, 6, false, result.(coalesced := true), 0)
  {
  }

  lemma ExtendRun(run: seq<Step>, step: Step) returns (longer: seq<Step>)
    ensures longer == run + [step] && After(longer) == Next(After(run), step)
  {
    AfterAppend(run, step);
    longer := run + [step];
  }
}
