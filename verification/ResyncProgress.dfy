// A call to the resync is not only safe: it gets its answer.
module ResyncProgress {
  import opened Prelude
  import opened Resync

  // How many steps a call is at most away from its answer.
  function Distance(c: Call): nat {
    match c
    case Waiting(_) => 4
    case Locked(_, _) => 3
    case Running(_, _, _) => 2
    case Stored(_, _, _, _) => 1
    case Answered(_, _, _, _, _) => 0
  }

  // These steps can be taken from `s` one after the other, and make no new call.
  ghost predicate CanTake(s: State, steps: seq<Step>)
    decreases |steps|
  {
    steps != [] ==> Enabled(s, steps[0]) && !steps[0].Begin? && CanTake(Next(s, steps[0]), steps[1..])
  }

  function Taken(s: State, steps: seq<Step>): State
    decreases |steps|
  {
    if steps == [] then s else Taken(Next(s, steps[0]), steps[1..])
  }

  // The steps of the calls there are bring each the next step nearer its answer,
  // and touch no other call.
  lemma StepsMoveForward(s: State, step: Step)
    requires Enabled(s, step) && !step.Begin?
    ensures var s' := Next(s, step);
      && step.call in s.calls && s'.calls == s.calls[step.call := s'.calls[step.call]]
      && Distance(s'.calls[step.call]) < Distance(s.calls[step.call])
  {
  }

  // A new call, at any time, only waits.
  lemma AnyoneMayCall(s: State, t: nat)
    requires t !in s.calls
    ensures Enabled(s, Begin(t))
    ensures var s' := Next(s, Begin(t)); t in s'.calls && s'.calls[t].Waiting? && s'.holder == s.holder
  {
  }

  // What the call and the holder it waits for have left to do.
  function Left(s: State, t: nat): nat {
    (if t in s.calls then Distance(s.calls[t]) else 0)
      + (if s.holder.Some? && s.holder != Some(t) && s.holder.value in s.calls then Distance(s.calls[s.holder.value])
         else 0)
  }

  // The step that brings a call in the critical section on, whatever the pass reports.
  function StepOf(s: State, h: nat, result: Outcome): Step
    requires h in s.calls
  {
    match s.calls[h]
    case Locked(ticket, _) => if s.generation != ticket.seen && s.last.Some? then Coalesce(h) else Start(h)
    case Running(_, _, _) => Store(h, result)
    case _ => Publish(h)
  }

  // Where the lock is held, only the holder is in the critical section.
  lemma HolderIsCritical(s: State, t: nat)
    requires Inv(s) && t in s.calls
    ensures s.holder.Some? ==> s.holder.value in s.calls && InCritical(s.calls[s.holder.value])
    ensures s.holder == None && !s.calls[t].Answered? ==> s.calls[t].Waiting?
  {
  }

  // Whether the lock is free or held, some step can be taken.
  lemma NextStep(s: State, t: nat, result: Outcome) returns (step: Step)
    requires Inv(s) && t in s.calls && !s.calls[t].Answered?
    ensures Enabled(s, step) && !step.Begin?
    ensures if s.holder.Some? then step.call == s.holder.value else step == Acquire(t)
  {
    HolderIsCritical(s, t);
    if s.holder.Some? {
      step := StepOf(s, s.holder.value, result);
    } else {
      step := Acquire(t);
    }
  }

  lemma HolderAfter(s: State, step: Step)
    requires Enabled(s, step) && !step.Begin?
    ensures Next(s, step).holder == (if step.Acquire? then Some(step.call)
                                     else if step.Coalesce? || step.Publish? then None
                                     else s.holder)
  {
  }

  lemma LeavesLess(s: State, t: nat, step: Step)
    requires Enabled(s, step) && !step.Begin? && t in s.calls
    requires if s.holder.Some? then step.call == s.holder.value else step == Acquire(t)
    ensures t in Next(s, step).calls && Left(Next(s, step), t) < Left(s, t)
  {
    StepsMoveForward(s, step);
    HolderAfter(s, step);
  }

  // Every call can be answered by the calls there are, in at most seven steps,
  // whatever the passes report.
  lemma {:induction false} CallCanBeAnswered(s: State, t: nat, result: Outcome) returns (steps: seq<Step>)
    requires Reachable(s) && t in s.calls
    ensures CanTake(s, steps) && |steps| <= 7
    ensures t in Taken(s, steps).calls && Taken(s, steps).calls[t].Answered?
  {
    ReachableInv(s);
    HolderIsCritical(s, t);
    steps := Answering(s, t, result);
  }

  lemma {:induction false} Answering(s: State, t: nat, result: Outcome) returns (steps: seq<Step>)
    requires Inv(s) && t in s.calls
    ensures CanTake(s, steps) && |steps| <= Left(s, t)
    ensures t in Taken(s, steps).calls && Taken(s, steps).calls[t].Answered?
    decreases Left(s, t)
  {
    if s.calls[t].Answered? {
      steps := [];
    } else {
      var step := NextStep(s, t, result);
      StepKeepsInv(s, step);
      LeavesLess(s, t, step);
      var rest := Answering(Next(s, step), t, result);
      steps := [step] + rest;
      assert steps[1..] == rest;
    }
  }
}
