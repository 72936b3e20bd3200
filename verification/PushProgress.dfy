// Requests for a push reconcile are not only remembered: they are served.
module PushProgress {
  import opened Prelude
  import opened PushReconcile

  // How many steps of its own a task is at most away from starting a pass or from
  // being out of the way.
  function Weight(p: Task): nat {
    match p
    case Requesting => 5
    case Spawning => 4
    case Sleeping => 3
    case Waiting => 2
    case Clearing => 1
    case Passing => 3
    case Checking => 2
    case Leaving => 1
    case OtherWaiting => 2
    case OtherHolding => 1
    case Done => 0
  }

  ghost function Work(tasks: map<nat, Task>): nat
    decreases |tasks|
  {
    if tasks == map[] then 0
    else
      var t :| t in tasks;
      assert |(tasks - {t}).Keys| == |tasks.Keys| - 1;
      Weight(tasks[t]) + Work(tasks - {t})
  }

  lemma {:induction false} WorkWithout(tasks: map<nat, Task>, t: nat)
    requires t in tasks
    ensures Work(tasks) == Weight(tasks[t]) + Work(tasks - {t})
    decreases |tasks|
  {
    var u :| u in tasks && Work(tasks) == Weight(tasks[u]) + Work(tasks - {u});
    if u != t {
      assert |(tasks - {u}).Keys| == |tasks.Keys| - 1;
      assert |(tasks - {t}).Keys| == |tasks.Keys| - 1;
      WorkWithout(tasks - {u}, t);
      WorkWithout(tasks - {t}, u);
      assert tasks - {u} - {t} == tasks - {t} - {u};
    }
  }

  lemma WorkMoves(tasks: map<nat, Task>, t: nat, p: Task)
    ensures Work(tasks[t := p]) == Work(tasks) + Weight(p) - if t in tasks then Weight(tasks[t]) else 0
  {
    WorkWithout(tasks[t := p], t);
    assert tasks[t := p] - {t} == tasks - {t};
    if t in tasks {
      WorkWithout(tasks, t);
    } else {
      assert tasks - {t} == tasks;
    }
  }

  // Steps of tasks that exist already; requests and calls come from outside.
  predicate FromWithin(step: Step) {
    !step.Request? && !step.Call? && !step.OtherCall? && (step.Spawn? ==> step.runtime)
  }

  // Until a pass starts, every step leaves less work.
  lemma StepsWorkOff(s: State, step: Step)
    requires Enabled(s, step) && FromWithin(step) && s.dirty && Next(s, step).dirty
    ensures Work(Next(s, step).tasks) < Work(s.tasks)
  {
    TaskMoves(s, step);
    var s' := Next(s, step);
    WorkMoves(s.tasks, step.task, s'.tasks[step.task]);
    if step.Spawn? {
      WorkMoves(s.tasks, step.task, Done);
      WorkMoves(s.tasks[step.task := Done], step.child, Sleeping);
    }
  }

  // From `run` on, `more` are steps from within, each enabled when it is taken.
  ghost predicate Proceeds(run: seq<Step>, more: seq<Step>) {
    forall i :: 0 <= i < |more| ==> FromWithin(more[i]) && Enabled(After(run + more[..i]), more[i])
  }

  lemma OneMore(run: seq<Step>, more: seq<Step>)
    requires more != []
    ensures After(run + more) == Next(After(run + more[..|more| - 1]), more[|more| - 1])
  {
    assert (run + more)[..|run| + |more| - 1] == run + more[..|more| - 1];
  }

  lemma {:induction false} WorkFalls(run: seq<Step>, more: seq<Step>)
    requires Proceeds(run, more) && forall i :: 0 <= i <= |more| ==> After(run + more[..i]).dirty
    ensures Work(After(run + more).tasks) + |more| <= Work(After(run).tasks)
  {
    if more == [] {
      assert run + more == run;
    } else {
      var before := more[..|more| - 1];
      assert forall i :: 0 <= i <= |before| ==> before[..i] == more[..i];
      WorkFalls(run, before);
      OneMore(run, more);
      assert more[..|more|] == more;
      StepsWorkOff(After(run + before), more[|more| - 1]);
    }
  }

  // Whichever steps are taken, a pass has started after the latest request once
  // there were more of them than work was left.
  lemma ServedInTime(run: seq<Step>, more: seq<Step>) returns (i: nat)
    requires HasRuntime(run) && Proceeds(run, more) && |more| > Work(After(run).tasks)
    ensures i <= |more| && After(run + more[..i]).lastRequest <= After(run + more[..i]).lastPass
  {
    if forall k :: 0 <= k <= |more| ==> After(run + more[..k]).dirty {
      WorkFalls(run, more);
      assert false;
    }
    i :| 0 <= i <= |more| && !After(run + more[..i]).dirty;
    assert forall k :: 0 <= k < i ==> more[k] == more[..i][k];
    RunKeepsInv(run + more[..i]);
  }

  ghost predicate Serves(run: seq<Step>, more: seq<Step>) {
    Proceeds(run, more) && After(run + more).lastRequest <= After(run + more).lastPass
  }

  // And such steps can always be taken: every request can be served by the tasks
  // there are.
  lemma {:induction false} CanBeServed(run: seq<Step>) returns (more: seq<Step>)
    requires HasRuntime(run)
    ensures Serves(run, more)
    decreases After(run).dirty, Work(After(run).tasks)
  {
    if !After(run).dirty {
      more := [];
      NothingToServe(run);
    } else {
      var step := SomeTaskCanStep(run);
      assert (run + [step])[|run|] == step;
      AfterOne(run, step);
      if After(run + [step]).dirty {
        StepsWorkOff(After(run), step);
      }
      var rest := CanBeServed(run + [step]);
      more := [step] + rest;
      ServesOn(run, step, rest);
    }
  }

  lemma NothingToServe(run: seq<Step>)
    requires HasRuntime(run) && !After(run).dirty
    ensures Serves(run, [])
  {
    RunKeepsInv(run);
    assert run + [] == run;
  }

  lemma AfterOne(run: seq<Step>, step: Step)
    ensures After(run + [step]) == Next(After(run), step)
  {
    assert (run + [step])[..|run|] == run;
  }

  lemma ServesOn(run: seq<Step>, step: Step, rest: seq<Step>)
    requires FromWithin(step) && Enabled(After(run), step) && Serves(run + [step], rest)
    ensures Serves(run, [step] + rest)
  {
    ProceedsOn(run, step, rest);
    assert run + ([step] + rest) == run + [step] + rest;
  }

  lemma Shifted(run: seq<Step>, step: Step, rest: seq<Step>, i: nat)
    requires i < |rest|
    ensures ([step] + rest)[i + 1] == rest[i]
    ensures run + ([step] + rest)[..i + 1] == run + [step] + rest[..i]
  {
    assert ([step] + rest)[..i + 1] == [step] + rest[..i];
  }

  lemma ProceedsOn(run: seq<Step>, step: Step, rest: seq<Step>)
    requires FromWithin(step) && Enabled(After(run), step) && Proceeds(run + [step], rest)
    ensures Proceeds(run, [step] + rest)
  {
    var more := [step] + rest;
    forall i | 0 <= i < |more| ensures FromWithin(more[i]) && Enabled(After(run + more[..i]), more[i]) {
      if i == 0 {
        assert run + more[..0] == run;
      } else {
        Shifted(run, step, rest, i - 1);
      }
    }
  }

  // Requests, calls and other writers may come at any time.
  lemma AnyoneMayCome(s: State, t: nat)
    requires t !in s.tasks
    ensures Enabled(s, Request(t)) && Enabled(s, Call(t)) && Enabled(s, OtherCall(t))
    ensures Next(s, Request(t)).dirty && Next(s, Request(t)).lastRequest == s.clock
    ensures At(Next(s, Call(t)), t, Waiting) && At(Next(s, OtherCall(t)), t, OtherWaiting)
  {
  }

  // No task is ever stuck, reconciling or not: it can step itself, or the holder of
  // the lock it waits for can.
  lemma NoTaskIsStuck(run: seq<Step>, t: nat) returns (step: Step)
    requires HasRuntime(run) && t in After(run).tasks && !After(run).tasks[t].Done?
    ensures Enabled(After(run), step) && FromWithin(step)
    ensures step.task == t || (After(run).holder == Some(step.task) && !HoldsLock(After(run).tasks[t]))
  {
    RunKeepsInv(run);
    var s := After(run);
    var mover := if s.tasks[t].Waiting? || s.tasks[t].OtherWaiting? then
      if s.holder.Some? then s.holder.value else t
      else t;
    assert s.holder.Some? ==> HoldsLock(s.tasks[s.holder.value]);
    var child := NewTask(s.tasks.Keys);
    step := match s.tasks[mover]
      case Requesting => Swap(mover)
      case Spawning => Spawn(mover, child, true)
      case Sleeping => Wake(mover)
      case Waiting => Acquire(mover)
      case Clearing => Clear(mover)
      case Passing => Finish(mover)
      case Checking => Check(mover)
      case Leaving => Leave(mover)
      case OtherHolding => OtherLeave(mover)
      case OtherWaiting => OtherAcquire(mover);
  }
}
