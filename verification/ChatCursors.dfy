// The persisted cursor of a chat, from which its next subscription starts.
module ChatCursors {
  import opened Prelude
  import opened Messages
  import opened ChatReceive
  import opened ChatRuns
  import ChatOwnership

  ghost predicate MovedTo(moves: seq<Move>, chat: Chat, to: int) {
    exists mv :: mv in moves && mv.chat == chat && mv.to == to
  }

  ghost predicate TaskCursorOk(moves: seq<Move>, saved: map<Chat, int>, t: Task) {
    && (t.phase.Saving? ==> t.phase.to == t.cursor && MovedTo(moves, t.chat, t.cursor))
    && (t.loaded && !t.overtaken && t.chat in saved ==> saved[t.chat] <= t.cursor)
    && (t.phase.Starting? ==> !t.loaded)
  }

  // A saved cursor is the target of a move of its chat. It is not ahead of a task
  // of the chat that could read it and was not overtaken since.
  ghost predicate CursorsOk(sys: System) {
    && (forall chat :: chat in sys.saved ==> MovedTo(sys.moves, chat, sys.saved[chat]))
    && (forall g :: g in sys.tasks ==> TaskCursorOk(sys.moves, sys.saved, sys.tasks[g]))
  }

  // What a step makes of one task, the save of a cursor aside.
  ghost predicate TaskFollows(sys: System, step: Step, sys': System, g: nat)
    requires g in sys'.tasks
  {
    var t := sys'.tasks[g];
    || (g in sys.tasks && t.chat == sys.tasks[g].chat && t.cursor == sys.tasks[g].cursor
        && t.loaded == sys.tasks[g].loaded
        && t.overtaken == sys.tasks[g].overtaken
        && (t.phase == sys.tasks[g].phase
            || (!t.phase.Saving? && !t.phase.Starting? && !sys.tasks[g].phase.Starting?)))
    || (step.Claim? && t == Task(step.chat, 0, Starting, false, false))
    || (step.Load? && step.task == g && g in sys.tasks && t.chat == sys.tasks[g].chat && t.phase.AtTop?
        && t.loaded == step.readOk && !t.overtaken
        && t.cursor == if step.readOk && t.chat in sys.saved then sys.saved[t.chat] else 0)
    || (g in sys.tasks && t.chat == sys.tasks[g].chat && !sys.tasks[g].phase.Starting?
        && t.cursor > sys.tasks[g].cursor && t.phase == Saving(t.cursor)
        && t.loaded == sys.tasks[g].loaded && t.overtaken == sys.tasks[g].overtaken
        && MovedTo(sys'.moves, t.chat, t.cursor))
  }

  ghost predicate CursorFacts(sys: System, step: Step, sys': System)
    requires !step.SaveCursor?
  {
    && sys.moves <= sys'.moves && sys'.saved == sys.saved
    && forall g :: g in sys'.tasks ==> TaskFollows(sys, step, sys', g)
  }

  lemma MoveFacts(sys: System, sys': System, g: nat, id: string, eventTs: int, now: int)
    requires g in sys.tasks && sys' == MoveCursor(sys, g, id, eventTs, now)
    ensures sys.moves <= sys'.moves && sys'.saved == sys.saved && sys'.tasks.Keys == sys.tasks.Keys
    ensures forall h :: h in sys.tasks && h != g ==> sys'.tasks[h] == sys.tasks[h]
    ensures var t, t' := sys.tasks[g], sys'.tasks[g];
      t' == t || (t' == t.(cursor := t'.cursor, phase := Saving(t'.cursor)) && t'.cursor > t.cursor
                  && MovedTo(sys'.moves, t.chat, t'.cursor))
  {
    var t' := sys'.tasks[g];
    if t' != sys.tasks[g] {
      var mv := sys'.moves[|sys.moves|];
      assert mv in sys'.moves && mv.chat == t'.chat && mv.to == t'.cursor;
    }
  }

  lemma CommitFacts(sys: System, g: nat, listing: Option<seq<ChatMessage>>, saveOk: bool, now: int)
    ensures var step := Commit(g, listing, saveOk, now); CursorFacts(sys, step, Next(sys, step))
  {
    CommitIs(sys, g, listing, saveOk, now);
    if g in sys.tasks && sys.tasks[g].phase.Admitted? {
      var (s', stored) := Addition(sys, g, listing, saveOk);
      FinishFacts(sys, g, s', stored, listing, saveOk, now);
    } else {
      TimeFacts(sys, Commit(g, listing, saveOk, now));
    }
  }

  lemma TimeFacts(sys: System, step: Step)
    requires !step.SaveCursor?
    ensures CursorFacts(sys, step, sys.(time := sys.time + 1))
  {
  }

  lemma FinishFacts(sys: System, g: nat, s': Store, stored: bool, listing: Option<seq<ChatMessage>>, saveOk: bool,
      now: int)
    requires g in sys.tasks && sys.tasks[g].phase.Admitted?
    ensures CursorFacts(sys, Commit(g, listing, saveOk, now), Finished(sys, g, s', stored, now).(time := sys.time + 1))
  {
    if stored {
      var kept, p := Received(sys, g, s', stored), sys.tasks[g].phase;
      MoveFacts(kept, MoveCursor(kept, g, p.inner.id, p.eventTs, now), g, p.inner.id, p.eventTs, now);
    }
  }

  lemma RetryFacts(sys: System, g: nat, saveOk: bool, now: int)
    ensures var step := Retry(g, saveOk, now); CursorFacts(sys, step, Next(sys, step))
  {
    if g in sys.tasks && sys.tasks[g].phase.KnownId? {
      var p := sys.tasks[g].phase;
      var (s', durable) := EnsureDurable(sys.store, sys.tasks[g].chat.order, p.id, saveOk);
      var kept := SetPhase(sys.(store := s'), g, AtTop);
      MoveFacts(kept, MoveCursor(kept, g, p.id, p.eventTs, now), g, p.id, p.eventTs, now);
    }
  }

  lemma TaskFacts(sys: System, step: Step)
    requires step.Load? || step.Look? || step.Skip? || step.Lookup? || step.CheckQuota?
    ensures CursorFacts(sys, step, Next(sys, step))
  {
  }

  lemma OtherFacts(sys: System, step: Step)
    requires step.Claim? || step.Stop? || step.End? || step.Send? || step.ReadTrade? || step.OpenTrade? || step.Restart?
    ensures CursorFacts(sys, step, Next(sys, step))
  {
  }

  lemma StepHasCursorFacts(sys: System, step: Step)
    requires !step.SaveCursor?
    ensures CursorFacts(sys, step, Next(sys, step))
  {
    if step.Commit? {
      CommitFacts(sys, step.task, step.listing, step.saveOk, step.now);
    } else if step.Retry? {
      RetryFacts(sys, step.task, step.saveOk, step.now);
    } else if step.Load? || step.Look? || step.Skip? || step.Lookup? || step.CheckQuota? {
      TaskFacts(sys, step);
    } else {
      OtherFacts(sys, step);
    }
  }

  // ---- The invariant -----------------------------------------------------------------

  lemma FactsKeepCursors(sys: System, step: Step, sys': System)
    requires CursorsOk(sys) && !step.SaveCursor? && CursorFacts(sys, step, sys')
    ensures CursorsOk(sys')
  {
    forall chat, to | MovedTo(sys.moves, chat, to) ensures MovedTo(sys'.moves, chat, to) {
      var mv :| mv in sys.moves && mv.chat == chat && mv.to == to;
      assert mv in sys'.moves;
    }
    forall g | g in sys'.tasks ensures TaskCursorOk(sys'.moves, sys'.saved, sys'.tasks[g]) {
      assert TaskFollows(sys, step, sys', g);
      assert g in sys.tasks ==> TaskCursorOk(sys.moves, sys.saved, sys.tasks[g]);
    }
  }

  lemma SaveKeepsCursors(sys: System, g: nat, cursorOk: bool)
    requires CursorsOk(sys)
    ensures CursorsOk(Next(sys, SaveCursor(g, cursorOk)))
  {
    if g in sys.tasks && sys.tasks[g].phase.Saving? {
      assert TaskCursorOk(sys.moves, sys.saved, sys.tasks[g]);
      var sys' := Next(sys, SaveCursor(g, cursorOk));
      forall h | h in sys'.tasks ensures TaskCursorOk(sys'.moves, sys'.saved, sys'.tasks[h]) {
        assert TaskCursorOk(sys.moves, sys.saved, sys.tasks[h]);
      }
    }
  }

  lemma {:induction false} RunKeepsCursors(hasDb: bool, run: seq<Step>)
    ensures CursorsOk(After(hasDb, run))
  {
    if run != [] {
      var sys, step := After(hasDb, run[..|run| - 1]), run[|run| - 1];
      RunKeepsCursors(hasDb, run[..|run| - 1]);
      if step.SaveCursor? {
        SaveKeepsCursors(sys, step.task, step.cursorOk);
      } else {
        StepHasCursorFacts(sys, step);
        FactsKeepCursors(sys, step, Next(sys, step));
      }
    }
  }

  // ---- Where the persisted cursor comes from -----------------------------------------

  // With a database, a subscription starts from the time, cut at the clock, of an
  // event of its chat whose message is on disk.
  lemma SavedCursorIsDurable(sys: System, chat: Chat) returns (mv: Move)
    requires Reachable(true, sys) && chat in sys.saved
    ensures mv.chat == chat && sys.saved[chat] == mv.to == Min(mv.eventTs, mv.clock)
    ensures mv.id in sys.store.disk
  {
    ReachableIsReliable(true, sys);
    var run :| PlausibleRun(true, run) && sys == After(true, run);
    RunKeepsCursors(true, run);
    assert MovedTo(sys.moves, chat, sys.saved[chat]);
    mv :| mv in sys.moves && mv.chat == chat && mv.to == sys.saved[chat];
  }

  // ---- When it falls -------------------------------------------------------------------

  // In every interleaving, a persisted cursor falls only where a task saves its own
  // that could not read the persisted one, or that another task of the chat
  // overtook.
  lemma SavedCursorFallsOnlyBy(hasDb: bool, sys: System, step: Step, chat: Chat)
    requires Reachable(hasDb, sys) && chat in sys.saved
    ensures chat in Next(sys, step).saved
    ensures Next(sys, step).saved[chat] < sys.saved[chat] ==>
      && step.SaveCursor? && step.task in sys.tasks && sys.tasks[step.task].chat == chat
      && (!sys.tasks[step.task].loaded || sys.tasks[step.task].overtaken)
  {
    var run :| PlausibleRun(hasDb, run) && sys == After(hasDb, run);
    RunKeepsCursors(hasDb, run);
    SavedFalls(sys, step, chat);
  }

  lemma SavedFalls(sys: System, step: Step, chat: Chat)
    requires CursorsOk(sys) && chat in sys.saved
    ensures chat in Next(sys, step).saved
    ensures Next(sys, step).saved[chat] < sys.saved[chat] ==>
      && step.SaveCursor? && step.task in sys.tasks && sys.tasks[step.task].chat == chat
      && (!sys.tasks[step.task].loaded || sys.tasks[step.task].overtaken)
  {
    if !step.SaveCursor? {
      StepHasCursorFacts(sys, step);
    } else if step.task in sys.tasks {
      assert TaskCursorOk(sys.moves, sys.saved, sys.tasks[step.task]);
    }
  }

  // Every subscription so far could read its cursor.
  ghost predicate CursorsWereRead(run: seq<Step>) {
    forall i :: 0 <= i < |run| ==> run[i].Load? ==> run[i].readOk
  }

  // No chat has two tasks: none was replaced while it was still on its way out.
  ghost predicate Alone(sys: System) {
    forall g, h :: g in sys.tasks && h in sys.tasks && sys.tasks[g].chat == sys.tasks[h].chat ==> g == h
  }

  ghost predicate AloneThroughout(hasDb: bool, run: seq<Step>) {
    forall n {:trigger After(hasDb, run[..n])} :: 0 <= n <= |run| ==> Alone(After(hasDb, run[..n]))
  }

  ghost predicate Untroubled(sys: System) {
    forall g :: g in sys.tasks ==> !sys.tasks[g].overtaken && (sys.tasks[g].loaded || sys.tasks[g].phase.Starting?)
  }

  lemma StepStaysUntroubled(sys: System, step: Step)
    requires Untroubled(sys) && Alone(sys) && (step.Load? ==> step.readOk)
    ensures Untroubled(Next(sys, step))
  {
    if !step.SaveCursor? {
      StepHasCursorFacts(sys, step);
      forall g | g in Next(sys, step).tasks
        ensures var t := Next(sys, step).tasks[g]; !t.overtaken && (t.loaded || t.phase.Starting?)
      {
        assert TaskFollows(sys, step, Next(sys, step), g);
      }
    } else {
      SavingAlone(sys, step.task, step.cursorOk);
    }
  }

  lemma SavingAlone(sys: System, g: nat, cursorOk: bool)
    requires Untroubled(sys) && Alone(sys)
    ensures Untroubled(Next(sys, SaveCursor(g, cursorOk)))
  {
  }

  lemma {:induction false} RunStaysUntroubled(hasDb: bool, run: seq<Step>)
    requires CursorsWereRead(run) && AloneThroughout(hasDb, run)
    ensures Untroubled(After(hasDb, run))
  {
    if run != [] {
      var before := run[..|run| - 1];
      assert forall n :: 0 <= n <= |before| ==> before[..n] == run[..n];
      RunStaysUntroubled(hasDb, before);
      StepStaysUntroubled(After(hasDb, before), run[|run| - 1]);
    }
  }

  // As long as every subscription can read its cursor and no task is replaced
  // before it ended, no persisted cursor falls.
  lemma SavedCursorNeverFalls(hasDb: bool, run: seq<Step>, step: Step, chat: Chat)
    requires CursorsWereRead(run) && AloneThroughout(hasDb, run) && chat in After(hasDb, run).saved
    ensures var saved := Next(After(hasDb, run), step).saved;
      chat in saved && After(hasDb, run).saved[chat] <= saved[chat]
  {
    RunStaysUntroubled(hasDb, run);
    RunKeepsCursors(hasDb, run);
    SavedFallsOnlyInTrouble(After(hasDb, run), step, chat);
  }

  lemma SavedFallsOnlyInTrouble(sys: System, step: Step, chat: Chat)
    requires CursorsOk(sys) && Untroubled(sys) && chat in sys.saved
    ensures chat in Next(sys, step).saved && sys.saved[chat] <= Next(sys, step).saved[chat]
  {
    SavedFalls(sys, step, chat);
    if step.SaveCursor? && step.task in sys.tasks && sys.tasks[step.task].phase.Saving? {
      assert sys.tasks[step.task].loaded && !sys.tasks[step.task].overtaken;
    }
  }

  // ---- Tasks are alone unless stopped ---------------------------------------------------

  ghost predicate AllOwn(sys: System) {
    forall g :: g in sys.tasks ==> OwnedBy(sys.owners, sys.tasks[g].chat, g)
  }

  lemma OwnersAreAlone(sys: System)
    requires AllOwn(sys)
    ensures Alone(sys)
  {
  }

  lemma StepKeepsOwners(sys: System, step: Step)
    requires AllOwn(sys) && !step.Stop?
    ensures AllOwn(Next(sys, step))
  {
    var sys' := Next(sys, step);
    ChatsStay(sys, step);
    if step.Claim? || step.End? || step.Restart? {
      OwnersStay(sys, step);
    } else {
      SameOwners(sys, step);
    }
  }

  lemma SameOwners(sys: System, step: Step)
    requires !step.Claim? && !step.Stop? && !step.End? && !step.Restart?
    ensures Next(sys, step).owners == sys.owners && Next(sys, step).tasks.Keys == sys.tasks.Keys
  {
    if step.Commit? {
      CommitIs(sys, step.task, step.listing, step.saveOk, step.now);
    } else if step.Retry? {
      RetryOwners(sys, step);
    } else {
      OtherOwners(sys, step);
    }
  }

  lemma RetryOwners(sys: System, step: Step)
    requires step.Retry?
    ensures Next(sys, step).owners == sys.owners && Next(sys, step).tasks.Keys == sys.tasks.Keys
  {
  }

  lemma OtherOwners(sys: System, step: Step)
    requires !step.Claim? && !step.Stop? && !step.End? && !step.Restart? && !step.Commit? && !step.Retry?
    ensures Next(sys, step).owners == sys.owners && Next(sys, step).tasks.Keys == sys.tasks.Keys
  {
  }

  lemma OwnersStay(sys: System, step: Step)
    requires AllOwn(sys) && (step.Claim? || step.End? || step.Restart?)
    ensures AllOwn(Next(sys, step))
  {
  }

  lemma ChatsStay(sys: System, step: Step)
    ensures forall g :: g in sys.tasks && g in Next(sys, step).tasks && !step.Claim? ==>
      Next(sys, step).tasks[g].chat == sys.tasks[g].chat
  {
    if !step.SaveCursor? {
      StepHasCursorFacts(sys, step);
      forall g | g in sys.tasks && g in Next(sys, step).tasks && !step.Claim?
        ensures Next(sys, step).tasks[g].chat == sys.tasks[g].chat
      {
        assert TaskFollows(sys, step, Next(sys, step), g);
      }
    }
  }

  ghost predicate NothingStopped(run: seq<Step>) {
    forall i :: 0 <= i < |run| ==> !run[i].Stop?
  }

  // Where nothing was stopped, no chat ever has two tasks.
  lemma {:induction false} WithoutStopsTasksAreAlone(hasDb: bool, run: seq<Step>)
    requires NothingStopped(run)
    ensures AllOwn(After(hasDb, run)) && Alone(After(hasDb, run))
  {
    if run != [] {
      WithoutStopsTasksAreAlone(hasDb, run[..|run| - 1]);
      StepKeepsOwners(After(hasDb, run[..|run| - 1]), run[|run| - 1]);
    }
    OwnersAreAlone(After(hasDb, run));
  }
}
