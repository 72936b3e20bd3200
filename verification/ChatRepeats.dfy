// When the receive path adds one inner id more than once.
module ChatRepeats {
  import opened Prelude
  import opened Messages
  import opened ChatReceive
  import opened ChatRuns

  // Step `at` of the run looked `id` up for task `g` and did not find it, neither in
  // the list of the trade nor in the table.
  ghost predicate WasUnknown(hasDb: bool, run: seq<Step>, g: nat, order: string, id: string, at: nat) {
    && at < |run|
    && run[at].Lookup? && run[at].task == g && run[at].inner.id == id
    && !OnRecord(After(hasDb, run[..at]).store, order, id)
  }

  ghost predicate TraceOk(hasDb: bool, run: seq<Step>, g: nat, t: Task) {
    (t.phase.Unknown? || t.phase.Admitted?) ==>
      WasUnknown(hasDb, run, g, t.chat.order, t.phase.inner.id, t.phase.lookedUpAt)
  }

  // Every message in hand and every receipt goes back to such a lookup.
  ghost predicate Traced(hasDb: bool, run: seq<Step>, sys: System) {
    && (forall g :: g in sys.tasks ==> TraceOk(hasDb, run, g, sys.tasks[g]))
    && (forall r :: r in sys.received ==> WasUnknown(hasDb, run, r.task, r.chat.order, r.id, r.lookedUpAt))
  }

  lemma WasUnknownStays(hasDb: bool, run: seq<Step>, step: Step, g: nat, order: string, id: string, at: nat)
    requires WasUnknown(hasDb, run, g, order, id, at)
    ensures WasUnknown(hasDb, run + [step], g, order, id, at)
  {
    assert (run + [step])[..at] == run[..at];
  }

  lemma TracedStays(hasDb: bool, run: seq<Step>, step: Step, sys: System)
    requires Traced(hasDb, run, sys)
    ensures Traced(hasDb, run + [step], sys)
  {
    forall g | g in sys.tasks ensures TraceOk(hasDb, run + [step], g, sys.tasks[g]) {
      var t := sys.tasks[g];
      if t.phase.Unknown? || t.phase.Admitted? {
        WasUnknownStays(hasDb, run, step, g, t.chat.order, t.phase.inner.id, t.phase.lookedUpAt);
      }
    }
    forall r | r in sys.received ensures WasUnknown(hasDb, run + [step], r.task, r.chat.order, r.id, r.lookedUpAt) {
      WasUnknownStays(hasDb, run, step, r.task, r.chat.order, r.id, r.lookedUpAt);
    }
  }

  // Where task `g` may stand after a step with a message in hand.
  ghost predicate HandsOn(sys: System, step: Step, g: nat, t: Task) {
    t.phase.Unknown? || t.phase.Admitted? ==>
      && g in sys.tasks && t.chat == sys.tasks[g].chat
      && (|| t.phase == sys.tasks[g].phase
          || (t.phase.Admitted? && sys.tasks[g].phase.Unknown?
              && t.phase.inner == sys.tasks[g].phase.inner && t.phase.lookedUpAt == sys.tasks[g].phase.lookedUpAt)
          || (step.Lookup? && step.task == g && t.phase == Unknown(step.inner, step.eventTs, sys.time)
              && !OnRecord(sys.store, t.chat.order, step.inner.id)))
  }

  lemma LookupTraces(sys: System, step: Step, g: nat)
    requires (step.Lookup? || step.CheckQuota?) && g in Next(sys, step).tasks
    ensures HandsOn(sys, step, g, Next(sys, step).tasks[g])
  {
  }

  lemma CommitTraces(sys: System, step: Step, g: nat)
    requires step.Commit? && g in Next(sys, step).tasks
    ensures HandsOn(sys, step, g, Next(sys, step).tasks[g])
  {
  }

  lemma CursorTraces(sys: System, step: Step, g: nat)
    requires (step.Retry? || step.SaveCursor?) && g in Next(sys, step).tasks
    ensures HandsOn(sys, step, g, Next(sys, step).tasks[g])
  {
  }

  lemma StepTraces(sys: System, step: Step, g: nat)
    requires g in Next(sys, step).tasks
    ensures HandsOn(sys, step, g, Next(sys, step).tasks[g])
  {
    if step.Lookup? || step.CheckQuota? {
      LookupTraces(sys, step, g);
    } else if step.Commit? {
      CommitTraces(sys, step, g);
    } else if step.Retry? || step.SaveCursor? {
      CursorTraces(sys, step, g);
    }
  }

  lemma StepReceives(sys: System, step: Step, r: Receipt)
    requires r in Next(sys, step).received && r !in sys.received
    ensures r.task in sys.tasks && sys.tasks[r.task].phase.Admitted? && r.chat == sys.tasks[r.task].chat
    ensures var p := sys.tasks[r.task].phase; r.id == p.inner.id && r.lookedUpAt == p.lookedUpAt
  {
    if !step.Commit? && !step.Restart? {
      ReceivedStays(sys, step);
    }
  }

  lemma ReceivedStays(sys: System, step: Step)
    requires !step.Commit? && !step.Restart?
    ensures Next(sys, step).received == sys.received
  {
  }

  lemma {:induction false} TimeIsLength(hasDb: bool, run: seq<Step>)
    ensures After(hasDb, run).time == |run|
  {
    if run != [] {
      TimeIsLength(hasDb, run[..|run| - 1]);
    }
  }

  lemma StepKeepsTraced(hasDb: bool, run: seq<Step>, step: Step)
    requires Traced(hasDb, run, After(hasDb, run))
    ensures Traced(hasDb, run + [step], Next(After(hasDb, run), step))
  {
    var sys := After(hasDb, run);
    var longer, sys' := run + [step], Next(sys, step);
    TimeIsLength(hasDb, run);
    TracedStays(hasDb, run, step, sys);
    assert longer[..|run|] == run && longer[|run|] == step;
    forall g | g in sys'.tasks ensures TraceOk(hasDb, longer, g, sys'.tasks[g]) {
      StepTraces(sys, step, g);
      assert g in sys.tasks ==> TraceOk(hasDb, longer, g, sys.tasks[g]);
    }
    forall r | r in sys'.received ensures WasUnknown(hasDb, longer, r.task, r.chat.order, r.id, r.lookedUpAt) {
      if r !in sys.received {
        StepReceives(sys, step, r);
        assert TraceOk(hasDb, longer, r.task, sys.tasks[r.task]);
      }
    }
  }

  ghost predicate TracedRun(hasDb: bool, run: seq<Step>) {
    Traced(hasDb, run, After(hasDb, run))
  }

  lemma TracedOn(hasDb: bool, before: seq<Step>, step: Step)
    requires TracedRun(hasDb, before)
    ensures TracedRun(hasDb, before + [step])
  {
    StepKeepsTraced(hasDb, before, step);
    AfterAppend(hasDb, before, step);
  }

  lemma NothingTraced(hasDb: bool)
    ensures TracedRun(hasDb, [])
  {
  }

  lemma {:induction false} RunIsTraced(hasDb: bool, run: seq<Step>)
    ensures TracedRun(hasDb, run)
  {
    if run == [] {
      NothingTraced(hasDb);
    } else {
      var before, step := run[..|run| - 1], run[|run| - 1];
      RunIsTraced(hasDb, before);
      TracedOn(hasDb, before, step);
      assert run == before + [step];
    }
  }

  // ---- Repeated ids -------------------------------------------------------------------

  // What two receipts of one inner id have in common: the later was looked up when
  // the id was on record neither in its trade's list nor on disk, and by another
  // task. Without overlap the trades differ. Two tasks of one chat overlap only
  // where one of them had lost the chat when it committed.
  ghost predicate Repeats(hasDb: bool, run: seq<Step>, r: Receipt, r': Receipt) {
    && r'.lookedUpAt < |run|
    && !OnRecord(After(hasDb, run[..r'.lookedUpAt]).store, r'.chat.order, r'.id)
    && r.task != r'.task
    && (r.committedAt <= r'.lookedUpAt ==> r.chat.order != r'.chat.order)
    && (r.chat == r'.chat ==> r'.lookedUpAt < r.committedAt && !(r.current && r'.current))
  }

  lemma RepeatsComeFromDifferentTasks(hasDb: bool, run: seq<Step>, i: nat, j: nat)
    requires PlausibleRun(hasDb, run) && i < j < |After(hasDb, run).received|
    requires After(hasDb, run).received[i].id == After(hasDb, run).received[j].id
    ensures Repeats(hasDb, run, After(hasDb, run).received[i], After(hasDb, run).received[j])
  {
    RunIsReliable(hasDb, run);
    RunIsTraced(hasDb, run);
    SplitPair(hasDb, run, After(hasDb, run), i, j);
  }

  lemma SplitPair(hasDb: bool, run: seq<Step>, sys: System, i: nat, j: nat)
    requires Reliable(sys) && sys.store.hasDb == hasDb && Traced(hasDb, run, sys)
    requires i < j < |sys.received| && sys.received[i].id == sys.received[j].id
    ensures Repeats(hasDb, run, sys.received[i], sys.received[j])
  {
    var r, r' := sys.received[i], sys.received[j];
    assert WasUnknown(hasDb, run, r'.task, r'.chat.order, r'.id, r'.lookedUpAt);
    assert OverlapOnly(hasDb, r, r');
  }
}
