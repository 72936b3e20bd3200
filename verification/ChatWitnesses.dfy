// Runs that show which conditions the promises about the chats need.
module ChatWitnesses {
  import opened Prelude
  import opened Messages
  import opened ChatReceive
  import opened ChatRuns
  import opened ChatCaps
  import opened ChatScripts
  import ChatOwnership

  function PeerChat(): Chat {
    Chat(ChatOwnership.Peer, "o")
  }

  function DisputeChat(order: string): Chat {
    Chat(ChatOwnership.Dispute, order)
  }

  function Hello(id: string): Inner {
    Inner(id, "peer", false, Text("hi"), 5)
  }

  // Any number of fresh events fit in a short list.
  ghost predicate Ready(sys: System, g: nat, chat: Chat, id: string) {
    && g in sys.tasks && sys.tasks[g].chat == chat && sys.tasks[g].phase.Unknown?
        && sys.tasks[g].phase.inner == Hello(id)
    && |Cached(sys.store, chat.order)| <= 1 && Bytes(Cached(sys.store, chat.order)) <= 2
  }

  lemma ReadyHasRoom(sys: System, g: nat, chat: Chat, id: string)
    requires Ready(sys, g, chat, id)
    ensures !OverQuota(Cached(sys.store, chat.order), RawLength(sys.tasks[g].phase.inner.payload))
  {
  }

  // Handling one of two messages in hand leaves the other in hand.
  lemma OtherStaysReady(sys: System, sys': System, g: nat, h: nat, chat: Chat, other: Chat, id: string, id': string)
    requires Ready(sys, g, chat, id) && Ready(sys, h, other, id') && g != h && Handles(sys, sys', g)
    requires Cached(sys.store, other.order) == []
    ensures Ready(sys', h, other, id') && sys'.tasks[h].phase == sys.tasks[h].phase
    ensures sys'.tasks[h].cursor == sys.tasks[h].cursor
  {
    var m := MessageOf(chat.channel, chat.order, Hello(id));
    assert [m][..0] == [];
    assert Bytes([m]) == 2;
  }

  // Two tasks with a message in hand, handled one after the other.
  lemma HandleBoth(hasDb: bool, start: seq<Step>, g: nat, h: nat, chat: Chat, other: Chat, id: string, id': string)
    returns (run: seq<Step>, mid: System)
    requires PlausibleRun(hasDb, start) && g != h
    requires Ready(After(hasDb, start), g, chat, id) && Ready(After(hasDb, start), h, other, id')
    requires Cached(After(hasDb, start).store, other.order) == []
    ensures PlausibleRun(hasDb, run) && start <= run
    ensures Handles(After(hasDb, start), mid, g)
    ensures Ready(mid, h, other, id') && mid.tasks[h].phase == After(hasDb, start).tasks[h].phase
    ensures mid.tasks[h].cursor == After(hasDb, start).tasks[h].cursor
    ensures Handles(mid, After(hasDb, run), h)
  {
    ReadyHasRoom(After(hasDb, start), g, chat, id);
    run := HandleOn(hasDb, start, g);
    mid := After(hasDb, run);
    OtherStaysReady(After(hasDb, start), mid, g, h, chat, other, id, id');
    ReadyHasRoom(mid, h, other, id');
    run := HandleOn(hasDb, run, h);
  }

  lemma TwoReceipts(sys: System, mid: System, last: System, g: nat, h: nat)
    requires g in sys.tasks && sys.tasks[g].phase.Unknown? && Handles(sys, mid, g) && sys.received == []
    requires h in mid.tasks && mid.tasks[h].phase.Unknown? && Handles(mid, last, h)
    ensures |last.received| == 2 && IsReceipt(last.received[0], sys, g) && IsReceipt(last.received[1], mid, h)
  {
    assert last.received[0] == last.received[..1][0] == mid.received[0];
  }

  // ---- Two tasks with a message in hand ---------------------------------------------------

  // Two chats open; the tasks are the first two of the process.
  lemma OpenBoth(hasDb: bool, chat: Chat, other: Chat, id: string, id': string) returns (run: seq<Step>)
    requires Key(chat) != Key(other)
    ensures PlausibleRun(hasDb, run)
    ensures After(hasDb, run)
      == Opened(Opened(Start(hasDb), chat, true, Hello(id), 5), other, true, Hello(id'), 5)
  {
    assert After(hasDb, []) == Start(hasDb);
    run := OpenTask(hasDb, [], chat, true, Hello(id), 5);
    OpenedThenFresh(Start(hasDb), chat, Hello(id), other, Hello(id'));
    run := OpenTask(hasDb, run, other, true, Hello(id'), 5);
  }

  lemma OpenedThenFresh(sys: System, chat: Chat, inner: Inner, other: Chat, next: Inner)
    requires Fresh(sys, other, next) && Key(chat) != Key(other)
    ensures Fresh(Opened(sys, chat, true, inner, 5), other, next)
  {
  }

  lemma BothAreReady()
    ensures var sys :=
      Opened(Opened(Start(false), PeerChat(), true, Hello("id"), 5), DisputeChat("o"), true, Hello("id"), 5);
      && Ready(sys, 1, PeerChat(), "id") && Ready(sys, 2, DisputeChat("o"), "id")
      && OwnedBy(sys.owners, PeerChat(), 1) && OwnedBy(sys.owners, DisputeChat("o"), 2)
      && sys.received == [] && sys.store == Start(false).store
  {
  }

  ghost predicate AddedTwice(received: seq<Receipt>) {
    && |received| == 2 && received[0].id == received[1].id
    && received[0].chat != received[1].chat && received[0].chat.order == received[1].chat.order
    && received[0].current && received[1].current
  }

  // The two chats of a trade can both add one inner id when their handlers
  // overlap, each task owning its chat.
  lemma OverlappingChatsAddTwice() returns (run: seq<Step>)
    ensures PlausibleRun(false, run)
    ensures AddedTwice(After(false, run).received)
  {
    run := OpenBoth(false, PeerChat(), DisputeChat("o"), "id", "id");
    ghost var sys := After(false, run);
    BothAreReady();
    ghost var mid: System;
    run, mid := HandleBoth(false, run, 1, 2, PeerChat(), DisputeChat("o"), "id", "id");
    BothAdd(sys, mid, After(false, run));
  }

  lemma BothAdd(sys: System, mid: System, last: System)
    requires Ready(sys, 1, PeerChat(), "id") && Ready(mid, 2, DisputeChat("o"), "id")
    requires OwnedBy(sys.owners, PeerChat(), 1) && OwnedBy(sys.owners, DisputeChat("o"), 2) && sys.received == []
    requires Handles(sys, mid, 1) && Handles(mid, last, 2)
    ensures AddedTwice(last.received)
  {
    TwoReceipts(sys, mid, last, 1, 2);
  }

  // A task looks a message up, its chat is stopped, and a replacement looks up one
  // of its own before the first goes on.
  lemma OpenReplaced(hasDb: bool, id: string, id': string) returns (run: seq<Step>)
    ensures PlausibleRun(hasDb, run)
    ensures After(hasDb, run) == Replaced(hasDb, id, id')
  {
    assert After(hasDb, []) == Start(hasDb);
    run := OpenTask(hasDb, [], PeerChat(), true, Hello(id), 5);
    IsPlausible(After(hasDb, run), Step.Stop("o"));
    StopEffect(hasDb, id);
    run := ExtendRun(hasDb, run, Step.Stop("o"));
    run := OpenTask(hasDb, run, PeerChat(), true, Hello(id'), 9);
  }

  function StoppedEarly(hasDb: bool, id: string): System {
    var sys := Opened(Start(hasDb), PeerChat(), true, Hello(id), 5);
    sys.(owners := ChatOwnership.State(map[], 1), time := sys.time + 1)
  }

  function Replaced(hasDb: bool, id: string, id': string): System {
    Opened(StoppedEarly(hasDb, id), PeerChat(), true, Hello(id'), 9)
  }

  lemma StopEffect(hasDb: bool, id: string)
    ensures Next(Opened(Start(hasDb), PeerChat(), true, Hello(id), 5), Step.Stop("o")) == StoppedEarly(hasDb, id)
  {
    var sys := Opened(Start(hasDb), PeerChat(), true, Hello(id), 5);
    assert sys.owners.active - {Key(PeerChat()), Key(DisputeChat("o"))} == map[];
  }

  lemma ReplacedIsReady(hasDb: bool, id: string, id': string)
    ensures var sys := Replaced(hasDb, id, id');
      && Ready(sys, 1, PeerChat(), id) && Ready(sys, 2, PeerChat(), id')
      && sys.tasks[1].phase.eventTs == 5 && sys.tasks[1].cursor == 0 && sys.tasks[1].loaded
      && sys.tasks[2].phase.eventTs == 9 && sys.tasks[2].cursor == 0 && sys.tasks[2].loaded
      && sys.tasks[1].phase.lookedUpAt < sys.tasks[2].phase.lookedUpAt < sys.time
      && !OwnedBy(sys.owners, PeerChat(), 1) && OwnedBy(sys.owners, PeerChat(), 2)
      && sys.received == [] && sys.saved == map[] && sys.store == Start(hasDb).store
  {
  }

  // A stopped task and its replacement can both add one inner id, through one chat.
  lemma ReplacedTaskAddsAgain() returns (run: seq<Step>)
    ensures PlausibleRun(false, run)
    ensures var received := After(false, run).received;
      && |received| == 2 && received[0].id == received[1].id && received[0].chat == received[1].chat
      && received[0].task != received[1].task && received[0].current && !received[1].current
  {
    run := OpenReplaced(false, "id", "id");
    ReplacedIsReady(false, "id", "id");
    ghost var sys := After(false, run);
    ghost var mid: System;
    run, mid := HandleBoth(false, run, 2, 1, PeerChat(), PeerChat(), "id", "id");
    TwoReceipts(sys, mid, After(false, run), 2, 1);
  }

  // And the stopped task can take the persisted cursor back, although every
  // subscription could read its own.
  lemma ReplacedTaskTakesCursorBack() returns (run: seq<Step>, mid: System)
    ensures PlausibleRun(true, run)
    ensures mid.saved == map[PeerChat() := 9] && After(true, run).saved == map[PeerChat() := 5]
  {
    run := OpenReplaced(true, "late", "early");
    ReplacedIsReady(true, "late", "early");
    ghost var sys := After(true, run);
    run, mid := HandleBoth(true, run, 2, 1, PeerChat(), PeerChat(), "early", "late");
    SavedBack(sys, mid, After(true, run));
  }

  lemma SavedBack(sys: System, mid: System, last: System)
    requires sys == Replaced(true, "late", "early") && 1 in mid.tasks && mid.tasks[1].phase.Unknown?
    requires Ready(sys, 2, PeerChat(), "early") && Handles(sys, mid, 2) && Handles(mid, last, 1)
    requires mid.tasks[1].chat == PeerChat() && mid.tasks[1].cursor == 0 && mid.tasks[1].phase.eventTs == 5
    requires sys.tasks[2].phase.eventTs == 9 && sys.tasks[2].cursor == 0 && sys.saved == map[]
    ensures mid.saved == map[PeerChat() := 9] && last.saved == map[PeerChat() := 5]
  {
  }

  // Without a database one inner id is added once for each trade it is sent to,
  // without any overlap: nothing but the trade's own list remembers it.
  lemma TwoTradesAddTwice() returns (run: seq<Step>)
    ensures PlausibleRun(false, run)
    ensures var received := After(false, run).received;
      && |received| == 2 && received[0].id == received[1].id && received[0].chat.order != received[1].chat.order
      && received[0].committedAt < received[1].lookedUpAt
  {
    ghost var before: System;
    run, before := OneHandled(false, DisputeChat("o"));
    ghost var one := After(false, run);
    FreshElsewhere(one);
    run := OpenTask(false, run, DisputeChat("p"), true, Hello("id"), 5);
    ghost var two := After(false, run);
    ReadyHasRoom(two, 2, DisputeChat("p"), "id");
    run := HandleOn(false, run, 2);
    assert After(false, run).received[0] == After(false, run).received[..1][0] == one.received[0];
  }

  // The first task of a process handled its first event.
  lemma OneHandled(hasDb: bool, chat: Chat) returns (run: seq<Step>, before: System)
    ensures PlausibleRun(hasDb, run)
    ensures before == Opened(Start(hasDb), chat, true, Hello("id"), 5) && Ready(before, 1, chat, "id")
    ensures Handles(before, After(hasDb, run), 1)
  {
    assert After(hasDb, []) == Start(hasDb);
    run := OpenTask(hasDb, [], chat, true, Hello("id"), 5);
    before := After(hasDb, run);
    ReadyHasRoom(before, 1, chat, "id");
    run := HandleOn(hasDb, run, 1);
  }

  lemma FreshElsewhere(sys: System)
    requires Handles(Opened(Start(false), DisputeChat("o"), true, Hello("id"), 5), sys, 1)
    ensures Fresh(sys, DisputeChat("p"), Hello("id"))
    ensures Cached(sys.store, "p") == [] && sys.owners.generation == 1
  {
    assert Cached(sys.store, "p") == Cached(Start(false).store, "p") + [];
    assert Key(DisputeChat("o"))[8] == 'o' && Key(DisputeChat("p"))[8] == 'p';
  }

  // ---- The persisted cursor ---------------------------------------------------------------

  // A subscription that cannot read its cursor starts over, and then takes the
  // persisted cursor back.
  lemma UnreadCursorFallsBack() returns (run: seq<Step>, mid: System)
    ensures PlausibleRun(true, run)
    ensures mid.saved == map[PeerChat() := 5] && After(true, run).saved == map[PeerChat() := 3]
  {
    run, mid := SavedThenEnded();
    ghost var ended := After(true, run);
    run := OpenTask(true, run, PeerChat(), false, Hello("two"), 3);
    EndedIsReady(ended);
    run := HandleOn(true, run, 2);
    SavedUnread(ended, After(true, run));
  }

  lemma SavedUnread(sys: System, last: System)
    requires sys.owners.generation == 1 && sys.saved == map[PeerChat() := 5] && sys.store.hasDb
    requires Handles(Opened(sys, PeerChat(), false, Hello("two"), 3), last, 2)
    ensures last.saved == map[PeerChat() := 3]
  {
  }

  lemma EndedIsReady(sys: System)
    requires sys.owners.generation == 1 && |Cached(sys.store, "o")| == 1 && Bytes(Cached(sys.store, "o")) == 2
    ensures var opening := Opened(sys, PeerChat(), false, Hello("two"), 3);
      && Ready(opening, 2, PeerChat(), "two") && opening.tasks[2].cursor == 0 && opening.tasks[2].phase.eventTs == 3
      && !OverQuota(Cached(opening.store, "o"), RawLength(opening.tasks[2].phase.inner.payload))
  {
    ReadyHasRoom(Opened(sys, PeerChat(), false, Hello("two"), 3), 2, PeerChat(), "two");
  }

  lemma SavedThenEnded() returns (run: seq<Step>, mid: System)
    ensures PlausibleRun(true, run) && mid.saved == map[PeerChat() := 5]
    ensures var ended := After(true, run);
      && Fresh(ended, PeerChat(), Hello("two")) && ended.saved == mid.saved
      && ended.owners.generation == 1 && ended.store.hasDb
      && |Cached(ended.store, "o")| == 1 && Bytes(Cached(ended.store, "o")) == 2
  {
    ghost var before: System;
    run, before := OneHandled(true, PeerChat());
    mid := After(true, run);
    HandledThenEnds(before, mid);
    IsPlausible(mid, End(1));
    run := ExtendRun(true, run, End(1));
  }

  lemma HandledThenEnds(before: System, sys: System)
    requires before == Opened(Start(true), PeerChat(), true, Hello("id"), 5) && Handles(before, sys, 1)
    ensures sys.saved == map[PeerChat() := 5]
    ensures var ended := Next(sys, End(1));
      && Fresh(ended, PeerChat(), Hello("two")) && ended.saved == sys.saved && ended.store == sys.store
      && ended.owners.generation == 1 && sys.store.hasDb
      && |Cached(ended.store, "o")| == 1 && Bytes(Cached(ended.store, "o")) == 2
  {
    var m := MessageOf(ChatOwnership.Peer, "o", Hello("id"));
    assert Cached(sys.store, "o") == [m] && [m][..0] == [];
    assert OwnedBy(sys.owners, PeerChat(), 1);
  }

  // ---- The caps ------------------------------------------------------------------------------

  lemma SendEffect(sys: System, m: ChatMessage)
    requires m.tradeId in sys.store.hydrated || Cached(sys.store, m.tradeId) == []
    ensures var sys' := Next(sys, Send(m, None, true));
      && sys' == sys.(store := sys'.store, time := sys.time + 1)
      && Cached(sys'.store, m.tradeId) == Cached(sys.store, m.tradeId) + [m]
      && m.tradeId in sys'.store.hydrated && sys'.store.hasDb == sys.store.hasDb
      && sys'.store.disk == if sys.store.hasDb then sys.store.disk[m.id := m] else sys.store.disk
  {
  }

  function Sent(id: string): ChatMessage {
    ChatMessage(id, "o", "me", "", PeerMessage, true, true, false, 0)
  }

  // No task has run in the process yet.
  ghost predicate NoTasks(sys: System) {
    sys.owners == ChatOwnership.State(map[], 0) && sys.tasks == map[] && sys.received == []
  }

  // Sending fills a trade up to the brim.
  lemma {:induction false} FullTrade(n: nat) returns (run: seq<Step>)
    ensures PlausibleRun(false, run)
    ensures var sys := After(false, run); var list := Cached(sys.store, "o");
      && |list| == n && Bytes(list) == 0 && "id" !in Ids(list)
      && (list == [] || "o" in sys.store.hydrated) && !sys.store.hasDb && NoTasks(sys)
  {
    if n == 0 {
      run := [];
    } else {
      run := FullTrade(n - 1);
      ghost var was := After(false, run);
      SendEffect(was, Sent("sent"));
      IsPlausible(was, Send(Sent("sent"), None, true));
      run := ExtendRun(false, run, Send(Sent("sent"), None, true));
      OneMoreSent(Cached(was.store, "o"));
    }
  }

  lemma OneMoreSent(list: seq<ChatMessage>)
    ensures |list + [Sent("sent")]| == |list| + 1 && Bytes(list + [Sent("sent")]) == Bytes(list)
    ensures Ids(list + [Sent("sent")]) == Ids(list) + {"sent"}
  {
    assert (list + [Sent("sent")])[..|list|] == list;
    IdsAppend(list, Sent("sent"));
  }

  // A send between a quota check and its commit takes the trade past the cap.
  lemma SendDuringReceiveOvershoots() returns (run: seq<Step>)
    ensures PlausibleRun(false, run)
    ensures var received := After(false, run).received;
      |received| == 1 && !received[0].alone && received[0].count == MAX_STORED_MESSAGES_PER_TRADE + 1
  {
    var limit: nat := MAX_STORED_MESSAGES_PER_TRADE - 1;
    run := FullTrade(limit);
    run := OpenTask(false, run, PeerChat(), true, Hello("id"), 5);
    ghost var looked := After(false, run);
    AdmitEffect(looked, 1);
    IsPlausible(looked, CheckQuota(1, None));
    run := ExtendRun(false, run, CheckQuota(1, None));
    OvershootEffect(After(false, run));
    IsPlausible(After(false, run), Send(Sent("sent"), None, true));
    run := ExtendRun(false, run, Send(Sent("sent"), None, true));
    IsPlausible(After(false, run), Commit(1, None, true, 9));
    run := ExtendRun(false, run, Commit(1, None, true, 9));
  }

  lemma OvershootEffect(sys: System)
    requires 1 in sys.tasks && sys.tasks[1].chat == PeerChat() && sys.tasks[1].phase.Admitted? && sys.received == []
    requires "o" in sys.store.hydrated && !sys.store.hasDb
    requires |Cached(sys.store, "o")| == sys.tasks[1].phase.count == MAX_STORED_MESSAGES_PER_TRADE - 1
    ensures var received := Next(Next(sys, Send(Sent("sent"), None, true)), Commit(1, None, true, 9)).received;
      |received| == 1 && !received[0].alone && received[0].count == MAX_STORED_MESSAGES_PER_TRADE + 1
  {
    SendEffect(sys, Sent("sent"));
    var sent := Next(sys, Send(Sent("sent"), None, true));
    CommitEffect(sent, 1);
    FinishedShape(sent, 1, Next(sent, Commit(1, None, true, 9)).store);
  }

  // ---- A history that could not be read ------------------------------------------------

  function Name(n: nat): string {
    if n == 0 then "" else Name(n - 1) + "m"
  }

  lemma {:induction false} NameIs(n: nat)
    requires n > 0
    ensures |Name(n)| == n && Name(n)[0] == 'm'
  {
    if n > 1 {
      NameIs(n - 1);
    }
  }

  ghost predicate Holds(s: Store, n: nat) {
    && s.hasDb && |RowsOf(s, "o")| == n && ("o" in s.hydrated || Cached(s, "o") == [])
    && forall id :: id in s.disk ==> 1 <= |id| <= n && id[0] == 'm'
  }

  // Sending fills the table.
  lemma {:induction false} FullTable(n: nat) returns (run: seq<Step>)
    ensures PlausibleRun(true, run) && Holds(After(true, run).store, n)
  {
    if n == 0 {
      run := [];
      assert RowsOf(After(true, run).store, "o") == {};
    } else {
      run := FullTable(n - 1);
      ghost var was := After(true, run);
      OneMoreRow(was, n);
      IsPlausible(was, Send(Sent(Name(n)), None, true));
      run := ExtendRun(true, run, Send(Sent(Name(n)), None, true));
    }
  }

  lemma OneMoreRow(sys: System, n: nat)
    requires n > 0 && Holds(sys.store, n - 1)
    ensures Holds(Next(sys, Send(Sent(Name(n)), None, true)).store, n)
  {
    NameIs(n);
    SendEffect(sys, Sent(Name(n)));
    var s := Next(sys, Send(Sent(Name(n)), None, true)).store;
    assert RowsOf(s, "o") == RowsOf(sys.store, "o") + {Name(n)};
    assert Name(n) !in RowsOf(sys.store, "o");
  }

  lemma RestartEffect(sys: System)
    ensures var sys' := Next(sys, Step.Restart);
      && NoTasks(sys') && sys'.store == Store(map[], {}, {}, sys.store.disk, sys.store.hasDb)
      && RowsOf(sys'.store, "o") == RowsOf(sys.store, "o")
  {
  }

  // A failed read of the history counts as hydration. After a restart over a full
  // table one undisturbed handler then takes the stored trade past the cap,
  // although the cached list it saw was empty.
  lemma FailedHistoryOvershoots() returns (run: seq<Step>)
    ensures PlausibleRun(true, run)
    ensures var sys := After(true, run);
      && |sys.received| == 1 && sys.received[0].alone && sys.received[0].count == 1
      && |RowsOf(sys.store, "o")| == MAX_STORED_MESSAGES_PER_TRADE + 1
  {
    run := FullTableAfterRestart();
    ghost var sys := After(true, run);
    run := OpenTask(true, run, PeerChat(), true, Hello("id"), 5);
    EmptyIsReady(sys);
    run := HandleOn(true, run, 1);
    OneMoreStored(sys, After(true, run));
  }

  lemma EmptyIsReady(sys: System)
    requires NoTasks(sys) && Cached(sys.store, "o") == []
    ensures var opening := Opened(sys, PeerChat(), true, Hello("id"), 5);
      && Ready(opening, 1, PeerChat(), "id")
      && !OverQuota(Cached(opening.store, "o"), RawLength(opening.tasks[1].phase.inner.payload))
  {
    ReadyHasRoom(Opened(sys, PeerChat(), true, Hello("id"), 5), 1, PeerChat(), "id");
  }

  lemma OneMoreStored(sys: System, last: System)
    requires NoTasks(sys) && Cached(sys.store, "o") == [] && sys.store.hasDb && "id" !in sys.store.disk
    requires Handles(Opened(sys, PeerChat(), true, Hello("id"), 5), last, 1)
    ensures |last.received| == 1 && last.received[0].alone && last.received[0].count == 1
    ensures |RowsOf(last.store, "o")| == |RowsOf(sys.store, "o")| + 1
  {
    assert RowsOf(last.store, "o") == RowsOf(sys.store, "o") + {"id"};
  }

  lemma FullTableAfterRestart() returns (run: seq<Step>)
    ensures PlausibleRun(true, run)
    ensures var sys := After(true, run);
      && NoTasks(sys) && Cached(sys.store, "o") == [] && sys.store.hasDb && "id" !in sys.store.disk
      && |RowsOf(sys.store, "o")| == MAX_STORED_MESSAGES_PER_TRADE
  {
    var full: nat := MAX_STORED_MESSAGES_PER_TRADE;
    run := FullTable(full);
    RestartEffect(After(true, run));
    IsPlausible(After(true, run), Step.Restart);
    run := ExtendRun(true, run, Step.Restart);
  }
}
