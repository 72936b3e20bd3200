// A task that lost its chat notices at its next look: it finishes the event in
// hand and adds nothing after it.
module ChatStops {
  import opened Prelude
  import opened Messages
  import opened ChatReceive
  import opened ChatRuns
  import ChatOwnership

  // The task was granted its chat once and does not own it any more.
  ghost predicate LostIt(sys: System, g: nat, chat: Chat) {
    && g <= sys.owners.generation && !OwnedBy(sys.owners, chat, g)
    && (g in sys.tasks ==> sys.tasks[g].chat == chat)
  }

  // How many messages a task has added.
  ghost function Added(received: seq<Receipt>, g: nat): nat {
    if received == [] then 0
    else Added(received[..|received| - 1], g) + if received[|received| - 1].task == g then 1 else 0
  }

  // Whether the task has an event in hand that may still add its message.
  function InFlight(sys: System, g: nat): nat {
    if g in sys.tasks && var p := sys.tasks[g].phase; p.Waiting? || p.Unknown? || p.Admitted? then 1 else 0
  }

  lemma AddedAppend(received: seq<Receipt>, r: Receipt, g: nat)
    ensures Added(received + [r], g) == Added(received, g) + if r.task == g then 1 else 0
  {
    assert (received + [r])[..|received|] == received;
  }

  // What a step leaves of a task that lost its chat: it gets no new event, and adds
  // no message but the one in hand.
  ghost predicate Finishes(sys: System, sys': System, g: nat, chat: Chat) {
    && LostIt(sys', g, chat)
    && Added(sys'.received, g) + InFlight(sys', g) <= Added(sys.received, g) + InFlight(sys, g)
  }

  // One task adds its message and is done with it.
  lemma AdditionFinishes(sys: System, sys': System, h: nat, r: Receipt, g: nat, chat: Chat)
    requires LostIt(sys, g, chat) && h in sys.tasks && sys.tasks[h].phase.Admitted? && r.task == h
    requires sys'.received == sys.received + [r] && sys'.owners == sys.owners && sys'.tasks.Keys == sys.tasks.Keys
    requires sys'.tasks[h].chat == sys.tasks[h].chat && (sys'.tasks[h].phase.AtTop? || sys'.tasks[h].phase.Saving?)
    requires g in sys.tasks && g != h ==> sys'.tasks[g] == sys.tasks[g]
    ensures Finishes(sys, sys', g, chat)
  {
    AddedAppend(sys.received, r, g);
  }

  lemma CommitFinishes(sys: System, step: Step, g: nat, chat: Chat)
    requires LostIt(sys, g, chat) && step.Commit?
    ensures Finishes(sys, Next(sys, step), g, chat)
  {
    var h, sys' := step.task, Next(sys, step);
    CommitIs(sys, h, step.listing, step.saveOk, step.now);
    if h in sys.tasks && sys.tasks[h].phase.Admitted? {
      var (s', stored) := Addition(sys, h, step.listing, step.saveOk);
      FinishedTasks(sys, h, s', stored, step.now, g);
      AdditionFinishes(sys, sys', h, ReceiptOf(sys, h, s', stored), g, chat);
    }
  }

  lemma FinishedTasks(sys: System, h: nat, s': Store, stored: bool, now: int, g: nat)
    requires h in sys.tasks && sys.tasks[h].phase.Admitted?
    ensures var sys' := Finished(sys, h, s', stored, now);
      && sys'.received == sys.received + [ReceiptOf(sys, h, s', stored)]
      && sys'.tasks.Keys == sys.tasks.Keys
      && sys'.tasks[h].chat == sys.tasks[h].chat && (sys'.tasks[h].phase.AtTop? || sys'.tasks[h].phase.Saving?)
      && (g in sys.tasks && g != h ==> sys'.tasks[g] == sys.tasks[g])
  {
  }

  lemma OwnersFinish(sys: System, step: Step, g: nat, chat: Chat)
    requires LostIt(sys, g, chat) && (step.Claim? || step.Stop? || step.End?)
    ensures Finishes(sys, Next(sys, step), g, chat)
  {
  }

  lemma LookupFinishes(sys: System, step: Step, g: nat, chat: Chat)
    requires LostIt(sys, g, chat) && step.Lookup?
    ensures Finishes(sys, Next(sys, step), g, chat)
  {
  }

  lemma RetryFinishes(sys: System, step: Step, g: nat, chat: Chat)
    requires LostIt(sys, g, chat) && step.Retry?
    ensures Finishes(sys, Next(sys, step), g, chat)
  {
  }

  lemma CheckFinishes(sys: System, step: Step, g: nat, chat: Chat)
    requires LostIt(sys, g, chat) && step.CheckQuota?
    ensures Finishes(sys, Next(sys, step), g, chat)
  {
  }

  lemma SaveFinishes(sys: System, step: Step, g: nat, chat: Chat)
    requires LostIt(sys, g, chat) && step.SaveCursor?
    ensures Finishes(sys, Next(sys, step), g, chat)
  {
  }

  lemma OtherFinishes(sys: System, step: Step, g: nat, chat: Chat)
    requires LostIt(sys, g, chat)
    requires step.Load? || step.Look? || step.Skip? || step.Send? || step.ReadTrade? || step.OpenTrade?
    ensures Finishes(sys, Next(sys, step), g, chat)
  {
  }

  lemma StepFinishes(sys: System, step: Step, g: nat, chat: Chat)
    requires LostIt(sys, g, chat) && !step.Restart?
    ensures Finishes(sys, Next(sys, step), g, chat)
  {
    match step
    case Commit(_, _, _, _) => CommitFinishes(sys, step, g, chat);
    case Claim(_) => OwnersFinish(sys, step, g, chat);
    case Stop(_) => OwnersFinish(sys, step, g, chat);
    case End(_) => OwnersFinish(sys, step, g, chat);
    case Lookup(_, _, _, _) => LookupFinishes(sys, step, g, chat);
    case Retry(_, _, _) => RetryFinishes(sys, step, g, chat);
    case CheckQuota(_, _) => CheckFinishes(sys, step, g, chat);
    case SaveCursor(_, _) => SaveFinishes(sys, step, g, chat);
    case _ => OtherFinishes(sys, step, g, chat);
  }

  ghost predicate NoRestart(more: seq<Step>) {
    forall i :: 0 <= i < |more| ==> !more[i].Restart?
  }

  lemma OneMoreStep(hasDb: bool, run: seq<Step>, more: seq<Step>)
    requires more != []
    ensures After(hasDb, run + more) == Next(After(hasDb, run + more[..|more| - 1]), more[|more| - 1])
  {
    assert run + more == run + more[..|more| - 1] + [more[|more| - 1]];
    AfterAppend(hasDb, run + more[..|more| - 1], more[|more| - 1]);
  }

  lemma {:induction false} LostAddsTheEventInHand(hasDb: bool, run: seq<Step>, more: seq<Step>, g: nat, chat: Chat)
    requires LostIt(After(hasDb, run), g, chat) && NoRestart(more)
    ensures Finishes(After(hasDb, run), After(hasDb, run + more), g, chat)
  {
    if more == [] {
      assert run + more == run;
    } else {
      var earlier, step := more[..|more| - 1], more[|more| - 1];
      assert NoRestart(earlier);
      LostAddsTheEventInHand(hasDb, run, earlier, g, chat);
      OneMoreStep(hasDb, run, more);
      StepFinishes(After(hasDb, run + earlier), step, g, chat);
    }
  }

  // Once a stop or a release has taken its chat, a task adds at most the message of
  // the event it has in hand, and none when it has none, however the process goes on.
  lemma StoppedTaskAddsAtMostOne(hasDb: bool, run: seq<Step>, more: seq<Step>, g: nat)
    requires PlausibleRun(hasDb, run) && NoRestart(more)
    requires var now := After(hasDb, run); g in now.tasks && !OwnedBy(now.owners, now.tasks[g].chat, g)
    ensures var now, later := After(hasDb, run), After(hasDb, run + more);
      && Added(later.received, g) <= Added(now.received, g) + 1
      && (!(now.tasks[g].phase.Waiting? || now.tasks[g].phase.Unknown? || now.tasks[g].phase.Admitted?) ==>
            Added(later.received, g) <= Added(now.received, g))
  {
    RunIsReliable(hasDb, run);
    var now := After(hasDb, run);
    assert TaskOk(now, g);
    LostAddsTheEventInHand(hasDb, run, more, g, now.tasks[g].chat);
  }

  // An event that the checks before the lookup refuse takes the task back to its
  // next look, and nothing else changes.
  lemma RefusedEventChangesNothing(sys: System, g: nat)
    requires At(sys, g, AtTop) && OwnedBy(sys.owners, sys.tasks[g].chat, g)
    ensures At(Next(sys, Look(g)), g, Waiting)
    ensures Next(Next(sys, Look(g)), Skip(g)) == sys.(time := sys.time + 2)
  {
    assert Next(Next(sys, Look(g)), Skip(g)).tasks == sys.tasks;
  }
}
