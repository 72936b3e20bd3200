// The coalesced push reconcile: two flags, a lock and a loop that looks again.
module PushReconcile {
  import opened Prelude

  // Where a task stands. A request is two atomic operations and a spawn; a
  // reconcile waits for the lock, clears the flag, runs a pass and looks again.
  datatype Task =
    | Requesting    // DIRTY is set, SCHEDULED not yet swapped
    | Spawning      // swapped SCHEDULED from false, task not spawned yet
    | Sleeping      // the spawned task, before it clears SCHEDULED
    | Waiting       // in reconcile_push, before the lock
    | Clearing      // holds the lock, about to clear DIRTY
    | Passing       // holds the lock, pass under way
    | Checking      // holds the lock, about to look at DIRTY again
    | Leaving       // saw DIRTY clear, about to release the lock
    | OtherWaiting  // a writer that takes the lock without a pass
    | OtherHolding
    | Done

  // The flags and the lock are the program's state. `timer` records which task
  // set SCHEDULED or was spawned to clear it; `lastRequest` and `lastPass` record
  // when DIRTY was last set and when a pass last started.
  datatype State = State(
    dirty: bool,
    scheduled: bool,
    holder: Option<nat>,
    tasks: map<nat, Task>,
    timer: Option<nat>,
    clock: nat,
    lastRequest: nat,
    lastPass: nat)

  const INIT := State(false, false, None, map[], None, 1, 0, 0)

  datatype Step =
    | Request(task: nat)
    | Swap(task: nat)
    | Spawn(task: nat, child: nat, runtime: bool)
    | Wake(task: nat)
    | Call(task: nat)
    | Acquire(task: nat)
    | Clear(task: nat)
    | Finish(task: nat)
    | Check(task: nat)
    | Leave(task: nat)
    | OtherCall(task: nat)
    | OtherAcquire(task: nat)
    | OtherLeave(task: nat)

  predicate At(s: State, t: nat, place: Task) {
    t in s.tasks && s.tasks[t] == place
  }

  predicate Enabled(s: State, step: Step) {
    match step
    case Request(t) => t !in s.tasks
    case Swap(t) => At(s, t, Requesting)
    case Spawn(t, child, _) => At(s, t, Spawning) && child !in s.tasks
    case Wake(t) => At(s, t, Sleeping)
    case Call(t) => t !in s.tasks
    case Acquire(t) => At(s, t, Waiting) && s.holder == None
    case Clear(t) => At(s, t, Clearing)
    case Finish(t) => At(s, t, Passing)
    case Check(t) => At(s, t, Checking)
    case Leave(t) => At(s, t, Leaving)
    case OtherCall(t) => t !in s.tasks
    case OtherAcquire(t) => At(s, t, OtherWaiting) && s.holder == None
    case OtherLeave(t) => At(s, t, OtherHolding)
  }

  function Put(s: State, t: nat, place: Task): State {
    s.(tasks := s.tasks[t := place])
  }

  function Move(s: State, step: Step): State
    requires Enabled(s, step)
  {
    match step
    case Request(t) => Put(s, t, Requesting).(dirty := true, lastRequest := s.clock)
    case Swap(t) => if s.scheduled then Put(s, t, Done) else Put(s, t, Spawning).(scheduled := true, timer := Some(t))
    case Spawn(t, child, runtime) =>
      if runtime then Put(Put(s, t, Done), child, Sleeping).(timer := Some(child))
      else Put(s, t, Done).(scheduled := false, timer := None)
    case Wake(t) => Put(s, t, Waiting).(scheduled := false, timer := None)
    case Call(t) => Put(s, t, Waiting)
    case Acquire(t) => Put(s, t, Clearing).(holder := Some(t))
    case Clear(t) => Put(s, t, Passing).(dirty := false, lastPass := s.clock)
    case Finish(t) => Put(s, t, Checking)
    case Check(t) => Put(s, t, if s.dirty then Clearing else Leaving)
    case Leave(t) => Put(s, t, Done).(holder := None)
    case OtherCall(t) => Put(s, t, OtherWaiting)
    case OtherAcquire(t) => Put(s, t, OtherHolding).(holder := Some(t))
    case OtherLeave(t) => Put(s, t, Done).(holder := None)
  }

  function Next(s: State, step: Step): State {
    (if Enabled(s, step) then Move(s, step) else s).(clock := s.clock + 1)
  }

  function After(run: seq<Step>): State {
    if run == [] then INIT else Next(After(run[..|run| - 1]), run[|run| - 1])
  }

  // ---- The invariant -------------------------------------------------------------

  predicate HoldsLock(p: Task) {
    p == Clearing || p == Passing || p == Checking || p == Leaving || p == OtherHolding
  }

  // Tasks that will still start a pass, or hand over to one that will.
  predicate WillPass(p: Task) {
    p == Requesting || p == Spawning || p == Sleeping || p == Waiting || p == Clearing || p == Passing || p == Checking
  }

  predicate OwnsSchedule(p: Task) {
    p == Spawning || p == Sleeping
  }

  ghost predicate LockOk(holder: Option<nat>, tasks: map<nat, Task>) {
    && (holder.Some? ==> holder.value in tasks)
    && forall t :: t in tasks ==> (HoldsLock(tasks[t]) <==> holder == Some(t))
  }

  // SCHEDULED is set exactly while one task is on its way to clear it.
  ghost predicate ScheduleOk(timer: Option<nat>, tasks: map<nat, Task>) {
    && (timer.Some? ==> timer.value in tasks)
    && forall t :: t in tasks ==> (OwnsSchedule(tasks[t]) <==> timer == Some(t))
  }

  ghost predicate RequestOk(s: State) {
    && s.lastRequest < s.clock && s.lastPass < s.clock
    && (s.dirty <==> s.lastPass < s.lastRequest)
    && (s.dirty ==> exists t :: t in s.tasks && WillPass(s.tasks[t]))
  }

  ghost predicate Inv(s: State) {
    && LockOk(s.holder, s.tasks)
    && (s.scheduled <==> s.timer.Some?) && ScheduleOk(s.timer, s.tasks)
    && RequestOk(s)
  }

  // One task takes the lock, gives it up, or keeps its hands off it.
  lemma OneTaskMoves(holder: Option<nat>, holder': Option<nat>, tasks: map<nat, Task>, t: nat, place: Task)
    requires LockOk(holder, tasks) && (HoldsLock(place) <==> holder' == Some(t))
    requires holder' == holder || (holder == None && holder' == Some(t)) || (holder == Some(t) && holder' == None)
    ensures LockOk(holder', tasks[t := place])
  {
  }

  lemma StepKeepsLock(s: State, step: Step)
    requires LockOk(s.holder, s.tasks)
    ensures LockOk(Next(s, step).holder, Next(s, step).tasks)
  {
    if Enabled(s, step) {
      TaskMoves(s, step);
      if step.Spawn? && step.runtime {
        OneTaskMoves(s.holder, s.holder, s.tasks, step.task, Done);
        OneTaskMoves(s.holder, s.holder, s.tasks[step.task := Done], step.child, Sleeping);
      } else {
        OneTaskMoves(s.holder, Next(s, step).holder, s.tasks, step.task, Next(s, step).tasks[step.task]);
      }
    }
  }

  lemma StepKeepsSchedule(s: State, step: Step)
    requires (s.scheduled <==> s.timer.Some?) && ScheduleOk(s.timer, s.tasks)
    ensures var s' := Next(s, step); (s'.scheduled <==> s'.timer.Some?) && ScheduleOk(s'.timer, s'.tasks)
  {
    if Enabled(s, step) {
      TaskMoves(s, step);
    }
  }

  // A step moves its task, and a spawn makes a new sleeper.
  lemma TaskMoves(s: State, step: Step)
    requires Enabled(s, step)
    ensures var s' := Next(s, step);
      && step.task in s'.tasks
      && s'.tasks == (if step.Spawn? && step.runtime then s.tasks[step.task := Done][step.child := Sleeping]
                      else s.tasks[step.task := s'.tasks[step.task]])
  {
  }

  lemma StepKeepsRequests(s: State, step: Step)
    requires Inv(s) && (step.Spawn? ==> step.runtime)
    ensures RequestOk(Next(s, step))
  {
    var s' := Next(s, step);
    if Enabled(s, step) && s'.dirty {
      if step.Request? {
        assert WillPass(s'.tasks[step.task]);
      } else {
        var t :| t in s.tasks && WillPass(s.tasks[t]);
        if t == step.task {
          if step.Swap? && s.scheduled {
            assert OwnsSchedule(s.tasks[s.timer.value]);
            assert WillPass(s'.tasks[s.timer.value]);
          } else if step.Spawn? {
            assert WillPass(s'.tasks[step.child]);
          } else {
            assert WillPass(s'.tasks[t]);
          }
        } else {
          assert WillPass(s'.tasks[t]);
        }
      }
    } else if s'.dirty {
      var t :| t in s.tasks && WillPass(s.tasks[t]);
      assert WillPass(s'.tasks[t]);
    }
  }

  // Every spawn of the run found an async runtime.
  ghost predicate HasRuntime(run: seq<Step>) {
    forall i :: 0 <= i < |run| ==> run[i].Spawn? ==> run[i].runtime
  }

  lemma {:induction false} RunKeepsInv(run: seq<Step>)
    requires HasRuntime(run)
    ensures Inv(After(run))
  {
    if run != [] {
      var before, step := run[..|run| - 1], run[|run| - 1];
      RunKeepsInv(before);
      StepKeepsLock(After(before), step);
      StepKeepsSchedule(After(before), step);
      StepKeepsRequests(After(before), step);
    }
  }

  // ---- What requesters get, in every interleaving --------------------------------

  lemma PassesNeverOverlap(run: seq<Step>, t: nat, u: nat)
    requires HasRuntime(run)
    requires At(After(run), t, Passing) && At(After(run), u, Passing)
    ensures t == u
  {
    RunKeepsInv(run);
  }

  // While the latest request is newer than the latest pass start, a requester, a
  // scheduled task, a waiter for the lock, or a holder that has yet to look at
  // DIRTY exists.
  lemma NoRequestIsLost(run: seq<Step>)
    requires HasRuntime(run) && After(run).lastPass < After(run).lastRequest
    ensures exists t :: t in After(run).tasks && WillPass(After(run).tasks[t])
  {
    RunKeepsInv(run);
  }

  // So once every task is done, a pass has started after every request.
  lemma QuietMeansServed(run: seq<Step>)
    requires HasRuntime(run) && forall t :: t in After(run).tasks ==> After(run).tasks[t].Done?
    ensures After(run).lastRequest <= After(run).lastPass
    ensures !After(run).dirty && !After(run).scheduled && After(run).holder == None
  {
    RunKeepsInv(run);
  }

  // An unserved request never leaves the system stuck: some task can step.
  lemma SomeTaskCanStep(run: seq<Step>) returns (step: Step)
    requires HasRuntime(run) && After(run).dirty
    ensures Enabled(After(run), step) && !step.Request? && !step.Call? && !step.OtherCall?
    ensures HasRuntime(run + [step])
  {
    RunKeepsInv(run);
    var s := After(run);
    if s.holder.Some? {
      var t := s.holder.value;
      assert HoldsLock(s.tasks[t]);
      step := match s.tasks[t]
        case Clearing => Clear(t)
        case Passing => Finish(t)
        case Checking => Check(t)
        case Leaving => Leave(t)
        case _ => OtherLeave(t);
    } else {
      var t :| t in s.tasks && WillPass(s.tasks[t]);
      assert !HoldsLock(s.tasks[t]);
      var child := NewTask(s.tasks.Keys);
      step := match s.tasks[t]
        case Requesting => Swap(t)
        case Spawning => Spawn(t, child, true)
        case Sleeping => Wake(t)
        case _ => Acquire(t);
    }
  }

  // A number no task uses yet.
  lemma {:induction false} NewTask(used: set<nat>) returns (n: nat)
    ensures forall t :: t in used ==> t < n
    decreases used
  {
    if used == {} {
      n := 0;
    } else {
      var u :| u in used;
      var m := NewTask(used - {u});
      n := if m < u + 1 then u + 1 else m;
      assert forall t :: t in used ==> t == u || t in used - {u};
    }
  }

  // Without a runtime the spawn fails and the request stays unserved.
  lemma WithoutRuntimeARequestIsLost()
    ensures var s := After([Request(0), Swap(0), Spawn(0, 1, false)]);
      && s.lastPass < s.lastRequest
      && forall t :: t in s.tasks ==> s.tasks[t].Done?
  {
    var a, b, c := [Request(0)], [Request(0), Swap(0)], [Request(0), Swap(0), Spawn(0, 1, false)];
    assert a[..0] == [] && b[..1] == a && c[..2] == b;
    assert After(a) == State(true, false, None, map[0 := Requesting], None, 2, 1, 0);
    assert After(b) == State(true, true, None, map[0 := Spawning], Some(0), 3, 1, 0);
  }
}
