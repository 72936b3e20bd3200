// Pieces of runs of the chats: a new task up to its first lookup, a handler from
// there to its end.
module ChatScripts {
  import opened Prelude
  import opened Messages
  import opened ChatReceive
  import opened ChatRuns
  import ChatOwnership

  lemma ExtendRun(hasDb: bool, run: seq<Step>, step: Step) returns (longer: seq<Step>)
    requires PlausibleRun(hasDb, run) && Plausible(After(hasDb, run), step)
    ensures longer == run + [step] && PlausibleRun(hasDb, longer)
    ensures After(hasDb, longer) == Next(After(hasDb, run), step)
  {
    longer := run + [step];
    assert longer[..|run|] == run;
    assert forall i :: 0 <= i < |run| ==> longer[..i] == run[..i];
  }

  // ---- A new task, up to its first lookup ----------------------------------------------

  function Key(chat: Chat): string {
    ChatOwnership.GuardKey(chat.channel, chat.order)
  }

  ghost predicate Fresh(sys: System, chat: Chat, inner: Inner) {
    Key(chat) !in sys.owners.active && !OnRecord(sys.store, chat.order, inner.id) && DecodesNoLonger(inner.payload)
  }

  function Opened(sys: System, chat: Chat, readOk: bool, inner: Inner, eventTs: int): System {
    var g := sys.owners.generation + 1;
    var cursor := if readOk && chat in sys.saved then sys.saved[chat] else 0;
    sys.(owners := ChatOwnership.State(sys.owners.active[Key(chat) := g], g),
         tasks := sys.tasks[g := Task(chat, cursor, Unknown(inner, eventTs, sys.time + 3), readOk, false)],
         time := sys.time + 4)
  }

  // The task has claimed its chat and loaded its cursor.
  function Begun(sys: System, chat: Chat, readOk: bool): System {
    var g := sys.owners.generation + 1;
    var cursor := if readOk && chat in sys.saved then sys.saved[chat] else 0;
    sys.(owners := ChatOwnership.State(sys.owners.active[Key(chat) := g], g),
         tasks := sys.tasks[g := Task(chat, cursor, AtTop, readOk, false)],
         time := sys.time + 2)
  }

  lemma BeginEffect(sys: System, chat: Chat, readOk: bool)
    requires Key(chat) !in sys.owners.active
    ensures Next(Next(sys, Claim(chat)), Load(sys.owners.generation + 1, readOk)) == Begun(sys, chat, readOk)
  {
    var claimed := Next(sys, Claim(chat));
    assert claimed.tasks == sys.tasks[sys.owners.generation + 1 := Task(chat, 0, Starting, false, false)];
    assert Next(claimed, Load(sys.owners.generation + 1, readOk)).tasks == Begun(sys, chat, readOk).tasks;
  }

  lemma LookupEffect(sys: System, g: nat, inner: Inner, eventTs: int)
    requires At(sys, g, AtTop) && OwnedBy(sys.owners, sys.tasks[g].chat, g)
    requires !OnRecord(sys.store, sys.tasks[g].chat.order, inner.id)
    ensures Next(Next(sys, Look(g)), Lookup(g, inner, eventTs, true))
      == sys.(tasks := sys.tasks[g := sys.tasks[g].(phase := Unknown(inner, eventTs, sys.time + 1))],
        time := sys.time + 2)
  {
    var waiting := Next(sys, Look(g));
    assert waiting.tasks == sys.tasks[g := sys.tasks[g].(phase := Waiting)];
    assert Next(waiting, Lookup(g, inner, eventTs, true)).tasks
      == sys.tasks[g := sys.tasks[g].(phase := Unknown(inner, eventTs, sys.time + 1))];
  }

  lemma IsPlausible(sys: System, step: Step)
    requires ListingOf(step).None? && (step.Lookup? ==> DecodesNoLonger(step.inner.payload))
    ensures Plausible(sys, step)
  {
  }

  lemma BeginTask(hasDb: bool, start: seq<Step>, chat: Chat, readOk: bool) returns (run: seq<Step>)
    requires PlausibleRun(hasDb, start) && Key(chat) !in After(hasDb, start).owners.active
    ensures PlausibleRun(hasDb, run) && start <= run
    ensures After(hasDb, run) == Begun(After(hasDb, start), chat, readOk)
  {
    ghost var sys := After(hasDb, start);
    BeginEffect(sys, chat, readOk);
    IsPlausible(sys, Claim(chat));
    run := ExtendRun(hasDb, start, Claim(chat));
    IsPlausible(After(hasDb, run), Load(sys.owners.generation + 1, readOk));
    run := ExtendRun(hasDb, run, Load(sys.owners.generation + 1, readOk));
  }

  lemma LookUp(hasDb: bool, start: seq<Step>, g: nat, inner: Inner, eventTs: int) returns (run: seq<Step>)
    requires PlausibleRun(hasDb, start) && DecodesNoLonger(inner.payload)
    requires var sys := After(hasDb, start);
      At(sys, g, AtTop) && OwnedBy(sys.owners, sys.tasks[g].chat, g)
          && !OnRecord(sys.store, sys.tasks[g].chat.order, inner.id)
    ensures PlausibleRun(hasDb, run) && start <= run
    ensures After(hasDb, run) == Next(Next(After(hasDb, start), Look(g)), Lookup(g, inner, eventTs, true))
  {
    IsPlausible(After(hasDb, start), Look(g));
    run := ExtendRun(hasDb, start, Look(g));
    IsPlausible(After(hasDb, run), Lookup(g, inner, eventTs, true));
    run := ExtendRun(hasDb, run, Lookup(g, inner, eventTs, true));
  }

  lemma BegunLooksUp(sys: System, chat: Chat, readOk: bool, inner: Inner, eventTs: int)
    requires Fresh(sys, chat, inner)
    ensures var g := sys.owners.generation + 1; var begun := Begun(sys, chat, readOk);
      && At(begun, g, AtTop) && begun.tasks[g].chat == chat && OwnedBy(begun.owners, chat, g)
      && !OnRecord(begun.store, chat.order, inner.id)
      && Next(Next(begun, Look(g)), Lookup(g, inner, eventTs, true)) == Opened(sys, chat, readOk, inner, eventTs)
  {
    var g, begun := sys.owners.generation + 1, Begun(sys, chat, readOk);
    LookupEffect(begun, g, inner, eventTs);
    assert begun.tasks[g := begun.tasks[g].(phase := Unknown(inner, eventTs, sys.time + 3))]
      == Opened(sys, chat, readOk, inner, eventTs).tasks;
  }

  lemma OpenTask(hasDb: bool, start: seq<Step>, chat: Chat, readOk: bool, inner: Inner, eventTs: int)
    returns (run: seq<Step>)
    requires PlausibleRun(hasDb, start) && Fresh(After(hasDb, start), chat, inner)
    ensures PlausibleRun(hasDb, run) && start <= run
    ensures After(hasDb, run) == Opened(After(hasDb, start), chat, readOk, inner, eventTs)
  {
    BegunLooksUp(After(hasDb, start), chat, readOk, inner, eventTs);
    run := BeginTask(hasDb, start, chat, readOk);
    run := LookUp(hasDb, run, After(hasDb, start).owners.generation + 1, inner, eventTs);
  }

  // ---- A task with a message in hand, to the end of its handler ---------------------------

  ghost predicate IsReceipt(r: Receipt, sys: System, g: nat)
    requires g in sys.tasks && sys.tasks[g].phase.Unknown?
  {
    var t := sys.tasks[g];
    && r.task == g && r.chat == t.chat && r.id == t.phase.inner.id && r.current == OwnedBy(sys.owners, t.chat, g)
    && r.lookedUpAt == t.phase.lookedUpAt && r.committedAt == sys.time + 1
    && r.alone && r.before == |Cached(sys.store, t.chat.order)| && r.count == r.before + 1
  }

  function SavedBy(sys: System, t: Task, eventTs: int): map<Chat, int> {
    if sys.store.hasDb && Min(eventTs, 9) > t.cursor then sys.saved[t.chat := Min(eventTs, 9)] else sys.saved
  }

  ghost predicate Handles(sys: System, sys': System, g: nat)
    requires g in sys.tasks && sys.tasks[g].phase.Unknown?
  {
    var t := sys.tasks[g];
    var m := MessageOf(t.chat.channel, t.chat.order, t.phase.inner);
    && |sys'.received| == |sys.received| + 1 && sys'.received[..|sys.received|] == sys.received
    && IsReceipt(sys'.received[|sys.received|], sys, g)
    && sys'.store.hasDb == sys.store.hasDb
    && sys'.store.disk == (if sys.store.hasDb then sys.store.disk[m.id := m] else sys.store.disk)
    && (forall o :: Cached(sys'.store, o) == Cached(sys.store, o) + if o == t.chat.order then [m] else [])
    && sys'.saved == SavedBy(sys, t, t.phase.eventTs)
    && sys'.owners == sys.owners && sys'.tasks.Keys == sys.tasks.Keys && sys'.time == sys.time + 3
    && sys'.tasks[g].phase.AtTop? && sys'.tasks[g].chat == t.chat
    && (forall h :: h in sys.tasks && h != g ==>
          sys'.tasks[h] == sys.tasks[h] || sys'.tasks[h] == sys.tasks[h].(overtaken := true))
  }

  lemma AdmitEffect(sys: System, g: nat)
    requires g in sys.tasks && sys.tasks[g].phase.Unknown?
    requires !OverQuota(Cached(sys.store, sys.tasks[g].chat.order), RawLength(sys.tasks[g].phase.inner.payload))
    ensures var sys' := Next(sys, CheckQuota(g, None)); var t := sys.tasks[g]; var p := t.phase;
      var list := Cached(sys.store, t.chat.order);
      && sys' == sys.(store := sys'.store, time := sys.time + 1, tasks :=
           sys.tasks[g := t.(phase := Admitted(p.inner, p.eventTs, p.lookedUpAt, |list|, Bytes(list)))])
      && (forall o :: Cached(sys'.store, o) == Cached(sys.store, o))
      && t.chat.order in sys'.store.hydrated
      && sys'.store.hasDb == sys.store.hasDb && sys'.store.disk == sys.store.disk
  {
  }

  lemma CommitEffect(sys: System, g: nat)
    requires g in sys.tasks && sys.tasks[g].phase.Admitted? && sys.tasks[g].chat.order in sys.store.hydrated
    ensures var sys' := Next(sys, Commit(g, None, true, 9)); var t := sys.tasks[g];
      var m := MessageOf(t.chat.channel, t.chat.order, t.phase.inner);
      && sys'.store == Push(sys.store, m, true).0
      && sys' == Finished(sys, g, sys'.store, true, 9).(time := sys.time + 1)
      && Cached(sys'.store, t.chat.order) == Cached(sys.store, t.chat.order) + [m]
      && (forall o :: o != t.chat.order ==> Cached(sys'.store, o) == Cached(sys.store, o))
  {
    CommitIs(sys, g, None, true, 9);
    var t := sys.tasks[g];
    var m := MessageOf(t.chat.channel, t.chat.order, t.phase.inner);
    assert Hydrate(sys.store, t.chat.order, None) == sys.store;
    assert Addition(sys, g, None, true) == (Push(sys.store, m, true).0, true);
  }

  lemma FinishedShape(sys: System, g: nat, s': Store)
    requires g in sys.tasks && sys.tasks[g].phase.Admitted?
    ensures var done := Finished(sys, g, s', true, 9); var t := sys.tasks[g];
      var to := Advance(t.cursor, t.phase.eventTs, 9);
      && done == sys.(store := s', received := sys.received + [ReceiptOf(sys, g, s', true)],
                      tasks := done.tasks, moves := done.moves)
      && done.tasks
           == sys.tasks[g := if to == t.cursor then t.(phase := AtTop) else t.(cursor := to, phase := Saving(to))]
  {
  }

  lemma SaveEffect(sys: System, g: nat)
    requires g in sys.tasks && (sys.tasks[g].phase.AtTop? || sys.tasks[g].phase.Saving?)
    ensures var sys' := Next(sys, SaveCursor(g, true)); var t := sys.tasks[g];
      && sys'.store == sys.store && sys'.owners == sys.owners && sys'.received == sys.received
      && sys'.tasks.Keys == sys.tasks.Keys && sys'.tasks[g].phase.AtTop? && sys'.tasks[g].chat == t.chat
      && sys'.saved == (if t.phase.Saving? && sys.store.hasDb then sys.saved[t.chat := t.phase.to] else sys.saved)
      && (forall h :: h in sys.tasks && h != g ==>
            sys'.tasks[h] == sys.tasks[h] || sys'.tasks[h] == sys.tasks[h].(overtaken := true))
  {
  }

  lemma FinishEffect(sys: System, g: nat, s': Store)
    requires g in sys.tasks && sys.tasks[g].phase.Admitted? && s'.hasDb == sys.store.hasDb
    ensures var done := Finished(sys, g, s', true, 9).(time := sys.time + 1);
      var sys' := Next(done, SaveCursor(g, true)); var t := sys.tasks[g];
      && sys'.store == s' && sys'.owners == sys.owners && sys'.tasks.Keys == sys.tasks.Keys
      && sys'.received == sys.received + [ReceiptOf(sys, g, s', true)]
      && sys'.saved == SavedBy(sys, t, t.phase.eventTs)
      && sys'.tasks[g].phase.AtTop? && sys'.tasks[g].chat == t.chat
      && (forall h :: h in sys.tasks && h != g ==>
            sys'.tasks[h] == sys.tasks[h] || sys'.tasks[h] == sys.tasks[h].(overtaken := true))
  {
    FinishedShape(sys, g, s');
    SaveEffect(Finished(sys, g, s', true, 9).(time := sys.time + 1), g);
  }

  lemma HandleEffect(sys: System, g: nat)
    requires g in sys.tasks && sys.tasks[g].phase.Unknown?
    requires !OverQuota(Cached(sys.store, sys.tasks[g].chat.order), RawLength(sys.tasks[g].phase.inner.payload))
    ensures
      Handles(sys, Next(Next(Next(sys, CheckQuota(g, None)), Commit(g, None, true, 9)), SaveCursor(g, true)), g)
  {
    AdmitEffect(sys, g);
    var admitted := Next(sys, CheckQuota(g, None));
    CommitEffect(admitted, g);
    FinishEffect(admitted, g, Next(admitted, Commit(g, None, true, 9)).store);
  }

  lemma HandleOn(hasDb: bool, start: seq<Step>, g: nat) returns (run: seq<Step>)
    requires PlausibleRun(hasDb, start)
    requires var sys := After(hasDb, start);
      && g in sys.tasks && sys.tasks[g].phase.Unknown?
      && !OverQuota(Cached(sys.store, sys.tasks[g].chat.order), RawLength(sys.tasks[g].phase.inner.payload))
    ensures PlausibleRun(hasDb, run) && start <= run
    ensures Handles(After(hasDb, start), After(hasDb, run), g)
  {
    HandleEffect(After(hasDb, start), g);
    IsPlausible(After(hasDb, start), CheckQuota(g, None));
    run := ExtendRun(hasDb, start, CheckQuota(g, None));
    IsPlausible(After(hasDb, run), Commit(g, None, true, 9));
    run := ExtendRun(hasDb, run, Commit(g, None, true, 9));
    IsPlausible(After(hasDb, run), SaveCursor(g, true));
    run := ExtendRun(hasDb, run, SaveCursor(g, true));
  }
}
