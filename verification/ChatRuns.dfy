// Every interleaving of the chat tasks with each other, with claims and stops,
// with sends, reads and restarts, one store operation at a time.
module ChatRuns {
  import opened Prelude
  import opened Messages
  import opened ChatReceive
  import ChatOwnership

  datatype Chat = Chat(channel: ChatOwnership.Channel, order: string)

  // Where a task stands. It loads its cursor, and then for each event looks at the
  // ownership, waits, and handles what arrives; a stop is not noticed before the
  // next look. `lookedUpAt` is when the deduplication answered; `count` and
  // `bytes` are what the quota check saw.
  datatype Phase =
    | Starting
    | AtTop
    | Waiting
    | KnownId(id: string, eventTs: int)
    | Unknown(inner: Inner, eventTs: int, lookedUpAt: nat)
    | Admitted(inner: Inner, eventTs: int, lookedUpAt: nat, count: nat, bytes: nat)
    | Saving(to: int)

  // For the proofs, `loaded` says whether the cursor could be read and `overtaken`
  // whether another task of the chat saved its own since.
  datatype Task = Task(chat: Chat, cursor: int, phase: Phase, loaded: bool, overtaken: bool)

  // One message added by the receive path since the process started. `current`
  // says whether the task still owned its chat. `before` and `beforeBytes` measure
  // the trade's list the message joined, `count` and `bytes` the list it left;
  // `alone` says that the list had not grown since the quota check.
  datatype Receipt = Receipt(
    task: nat,
    chat: Chat,
    id: string,
    size: nat,
    durable: bool,
    current: bool,
    lookedUpAt: nat,
    committedAt: nat,
    alone: bool,
    before: nat,
    beforeBytes: nat,
    count: nat,
    bytes: nat)

  // One move of a cursor, ever.
  datatype Move = Move(chat: Chat, from: int, to: int, eventTs: int, clock: int, id: string)

  // Tasks are known by the generation of their claim.
  datatype System = System(
    store: Store,
    owners: ChatOwnership.State,
    tasks: map<nat, Task>,
    saved: map<Chat, int>,
    time: nat,
    received: seq<Receipt>,
    moves: seq<Move>)

  datatype Step =
    | Claim(chat: Chat)
    | Stop(order: string)
    | Load(task: nat, readOk: bool)
    | Look(task: nat)
    | Skip(task: nat)
    | Lookup(task: nat, inner: Inner, eventTs: int, lookupOk: bool)
    | Retry(task: nat, saveOk: bool, now: int)
    | CheckQuota(task: nat, listing: Option<seq<ChatMessage>>)
    | Commit(task: nat, listing: Option<seq<ChatMessage>>, saveOk: bool, now: int)
    | SaveCursor(task: nat, cursorOk: bool)
    | End(task: nat)
    | Send(message: ChatMessage, listing: Option<seq<ChatMessage>>, saveOk: bool)
    | ReadTrade(trade: string, listing: Option<seq<ChatMessage>>, writeOk: bool)
    | OpenTrade(trade: string, listing: Option<seq<ChatMessage>>)
    | Restart

  predicate OwnedBy(owners: ChatOwnership.State, chat: Chat, g: nat) {
    var key := ChatOwnership.GuardKey(chat.channel, chat.order);
    key in owners.active && owners.active[key] == g
  }

  function SetPhase(sys: System, g: nat, phase: Phase): System
    requires g in sys.tasks
  {
    sys.(tasks := sys.tasks[g := sys.tasks[g].(phase := phase)])
  }

  // The cursor of a task moves past a durable event, never past the clock, and is
  // then saved.
  function MoveCursor(sys: System, g: nat, id: string, eventTs: int, now: int): System
    requires g in sys.tasks
  {
    var t := sys.tasks[g];
    var to := Advance(t.cursor, eventTs, now);
    if to == t.cursor then sys
    else
      sys.(tasks := sys.tasks[g := t.(cursor := to, phase := Saving(to))],
           moves := sys.moves + [Move(t.chat, t.cursor, to, eventTs, now, id)])
  }

  // The receipt a commit writes.
  function ReceiptOf(sys: System, g: nat, s': Store, stored: bool): Receipt
    requires g in sys.tasks && sys.tasks[g].phase.Admitted?
  {
    var chat, p := sys.tasks[g].chat, sys.tasks[g].phase;
    var was, now := Cached(sys.store, chat.order), Cached(s', chat.order);
    Receipt(g, chat, p.inner.id, |Content(p.inner.payload)|, stored, OwnedBy(sys.owners, chat, g),
            p.lookedUpAt, sys.time, |was| == p.count, |was|, Bytes(was), |now|, Bytes(now))
  }

  function Addition(sys: System, g: nat, listing: Option<seq<ChatMessage>>, saveOk: bool): (Store, bool)
    requires g in sys.tasks && sys.tasks[g].phase.Admitted?
  {
    var chat := sys.tasks[g].chat;
    Add(sys.store, MessageOf(chat.channel, chat.order, sys.tasks[g].phase.inner), listing, saveOk)
  }

  function Received(sys: System, g: nat, s': Store, stored: bool): System
    requires g in sys.tasks && sys.tasks[g].phase.Admitted?
  {
    SetPhase(sys.(store := s', received := sys.received + [ReceiptOf(sys, g, s', stored)]), g, AtTop)
  }

  // A commit adds the message, then moves the cursor if it is durable.
  function Finished(sys: System, g: nat, s': Store, stored: bool, now: int): System
    requires g in sys.tasks && sys.tasks[g].phase.Admitted?
  {
    var p := sys.tasks[g].phase;
    if stored then MoveCursor(Received(sys, g, s', stored), g, p.inner.id, p.eventTs, now)
    else Received(sys, g, s', stored)
  }

  function Committed(sys: System, g: nat, listing: Option<seq<ChatMessage>>, saveOk: bool, now: int): System
    requires g in sys.tasks && sys.tasks[g].phase.Admitted?
  {
    var (s', stored) := Addition(sys, g, listing, saveOk);
    Finished(sys, g, s', stored, now)
  }

  // A known id is made durable first; only then the cursor moves.
  function Retried(sys: System, g: nat, saveOk: bool, now: int): System
    requires g in sys.tasks && sys.tasks[g].phase.KnownId?
  {
    var p := sys.tasks[g].phase;
    var (s', durable) := EnsureDurable(sys.store, sys.tasks[g].chat.order, p.id, saveOk);
    var kept := SetPhase(sys.(store := s'), g, AtTop);
    if durable then MoveCursor(kept, g, p.id, p.eventTs, now) else kept
  }

  // Without a database there is nowhere to save a cursor.
  function CursorSaved(sys: System, g: nat, to: int, cursorOk: bool): System
    requires g in sys.tasks
  {
    var chat := sys.tasks[g].chat;
    var next := SetPhase(sys, g, AtTop);
    if !(cursorOk && sys.store.hasDb) then next
    else
      next.(saved := sys.saved[chat := to],
            tasks := map h | h in next.tasks ::
              if next.tasks[h].chat == chat && h != g then next.tasks[h].(overtaken := true) else next.tasks[h])
  }

  function Claimed(sys: System, chat: Chat): System {
    var owners := ChatOwnership.Apply(sys.owners, ChatOwnership.Claim(chat.channel, chat.order));
    if owners.generation == sys.owners.generation then sys
    else sys.(owners := owners, tasks := sys.tasks[owners.generation := Task(chat, 0, Starting, false, false)])
  }

  function Ended(sys: System, g: nat): System
    requires g in sys.tasks
  {
    var chat := sys.tasks[g].chat;
    sys.(owners := ChatOwnership.Apply(sys.owners, ChatOwnership.Release(chat.channel, chat.order, g)),
         tasks := sys.tasks - {g})
  }

  function LookedUp(sys: System, g: nat, inner: Inner, eventTs: int, lookupOk: bool): System
    requires g in sys.tasks
  {
    match IsKnown(sys.store, sys.tasks[g].chat.order, inner.id, lookupOk)
    case Err(_) => SetPhase(sys, g, AtTop)
    case Ok(true) => SetPhase(sys, g, KnownId(inner.id, eventTs))
    case Ok(false) => SetPhase(sys, g, Unknown(inner, eventTs, sys.time))
  }

  function Checked(sys: System, g: nat, listing: Option<seq<ChatMessage>>): System
    requires g in sys.tasks && sys.tasks[g].phase.Unknown?
  {
    var order, p := sys.tasks[g].chat.order, sys.tasks[g].phase;
    var (h, exceeded) := QuotaExceeded(sys.store, order, RawLength(p.inner.payload), listing);
    var list := Cached(h, order);
    SetPhase(sys.(store := h), g,
      if exceeded then AtTop else Admitted(p.inner, p.eventTs, p.lookedUpAt, |list|, Bytes(list)))
  }

  predicate At(sys: System, g: nat, place: Phase) {
    g in sys.tasks && sys.tasks[g].phase == place
  }

  // The receive path's steps follow `Deliver`, one store operation each.
  function Act(sys: System, step: Step): System {
    match step
    case Claim(chat) => Claimed(sys, chat)
    case Stop(order) => sys.(owners := ChatOwnership.Apply(sys.owners, ChatOwnership.Stop(order)))
    case Load(g, readOk) =>
      if !At(sys, g, Starting) then sys
      else
        var t := sys.tasks[g];
        var cursor := if readOk && t.chat in sys.saved then sys.saved[t.chat] else 0;
        sys.(tasks := sys.tasks[g := Task(t.chat, cursor, AtTop, readOk, false)])
    case Look(g) =>
      if At(sys, g, AtTop) && OwnedBy(sys.owners, sys.tasks[g].chat, g) then SetPhase(sys, g, Waiting) else sys
    case Skip(g) => if At(sys, g, Waiting) then SetPhase(sys, g, AtTop) else sys
    case Lookup(g, inner, eventTs, lookupOk) =>
      if At(sys, g, Waiting) then LookedUp(sys, g, inner, eventTs, lookupOk) else sys
    case Retry(g, saveOk, now) =>
      if g in sys.tasks && sys.tasks[g].phase.KnownId? then Retried(sys, g, saveOk, now) else sys
    case CheckQuota(g, listing) =>
      if g in sys.tasks && sys.tasks[g].phase.Unknown? then Checked(sys, g, listing) else sys
    case Commit(g, listing, saveOk, now) =>
      if g in sys.tasks && sys.tasks[g].phase.Admitted? then Committed(sys, g, listing, saveOk, now) else sys
    case SaveCursor(g, cursorOk) =>
      if g in sys.tasks && sys.tasks[g].phase.Saving? then CursorSaved(sys, g, sys.tasks[g].phase.to, cursorOk) else sys
    case End(g) => if At(sys, g, Starting) || At(sys, g, AtTop) || At(sys, g, Waiting) then Ended(sys, g) else sys
    case Send(m, listing, saveOk) => sys.(store := Add(sys.store, m, listing, saveOk).0)
    case ReadTrade(trade, listing, writeOk) => sys.(store := MarkAsRead(sys.store, trade, listing, writeOk))
    case OpenTrade(trade, listing) => sys.(store := Hydrate(sys.store, trade, listing))
    case Restart =>
      sys.(store := Store(map[], {}, {}, sys.store.disk, sys.store.hasDb),
           owners := ChatOwnership.State(map[], 0), tasks := map[], received := [])
  }

  function Next(sys: System, step: Step): System {
    Act(sys, step).(time := sys.time + 1)
  }

  function Start(hasDb: bool): System {
    System(Store(map[], {}, {}, map[], hasDb), ChatOwnership.State(map[], 0), map[], map[], 0, [], [])
  }

  function After(hasDb: bool, run: seq<Step>): System {
    if run == [] then Start(hasDb) else Next(After(hasDb, run[..|run| - 1]), run[|run| - 1])
  }

  // The trade a step may hydrate, and the listing it does it by.
  function TradeOf(sys: System, step: Step): string {
    match step
    case CheckQuota(g, _) => if g in sys.tasks then sys.tasks[g].chat.order else ""
    case Commit(g, _, _, _) => if g in sys.tasks then sys.tasks[g].chat.order else ""
    case Send(m, _, _) => m.tradeId
    case ReadTrade(trade, _, _) => trade
    case OpenTrade(trade, _) => trade
    case _ => ""
  }

  function ListingOf(step: Step): Option<seq<ChatMessage>> {
    match step
    case CheckQuota(_, listing) => listing
    case Commit(_, listing, _, _) => listing
    case Send(_, listing, _) => listing
    case ReadTrade(_, listing, _) => listing
    case OpenTrade(_, listing) => listing
    case _ => None
  }

  // The table lists what it holds, and a decoded payload is no longer than its
  // text.
  ghost predicate Plausible(sys: System, step: Step) {
    && (step.Lookup? ==> DecodesNoLonger(step.inner.payload))
    && IsListing(sys.store, TradeOf(sys, step), ListingOf(step))
  }

  ghost predicate PlausibleRun(hasDb: bool, run: seq<Step>) {
    forall i {:trigger Plausible(After(hasDb, run[..i]), run[i])} ::
      0 <= i < |run| ==> Plausible(After(hasDb, run[..i]), run[i])
  }

  // ---- The invariant ----------------------------------------------------------------

  ghost predicate OnRecord(s: Store, order: string, id: string) {
    id in Ids(Cached(s, order)) || (s.hasDb && id in s.disk)
  }

  // An earlier receipt that later deliveries of `id` to `order` run into.
  ghost predicate Blocks(hasDb: bool, r: Receipt, order: string, id: string) {
    r.id == id && (r.chat.order == order || (hasDb && r.durable))
  }

  predicate WithinCaps(count: nat, bytes: nat) {
    count <= MAX_STORED_MESSAGES_PER_TRADE && bytes <= MAX_STORED_BYTES_PER_TRADE
  }

  ghost predicate ReceiptOk(s: Store, time: nat, r: Receipt) {
    && r.id in Ids(Cached(s, r.chat.order))
    && (s.hasDb && r.durable ==> r.id in s.disk)
    && r.lookedUpAt < r.committedAt < time
    && r.count == r.before + 1 && r.bytes == r.beforeBytes + r.size
    && (r.alone ==> WithinCaps(r.count, r.bytes))
  }

  // The message in hand was looked up after this task's earlier receipts and
  // before any receipt that would have blocked it. Where another task of the chat
  // committed meanwhile as its owner, this one does not own the chat any more.
  ghost predicate InHand(hasDb: bool, owners: ChatOwnership.State, received: seq<Receipt>,
                         g: nat, chat: Chat, id: string, lookedUpAt: nat)
  {
    forall r :: r in received ==>
      && (r.task == g ==> r.committedAt < lookedUpAt)
      && (Blocks(hasDb, r, chat.order, id) ==> lookedUpAt < r.committedAt)
      && (r.current && r.chat == chat && r.task != g && lookedUpAt < r.committedAt ==> !OwnedBy(owners, chat, g))
  }

  ghost predicate QuotaSeen(s: Store, order: string, p: Phase)
    requires p.Admitted?
  {
    && order in s.hydrated
    && p.count < MAX_STORED_MESSAGES_PER_TRADE
    && p.bytes + RawLength(p.inner.payload) <= MAX_STORED_BYTES_PER_TRADE
    && p.count <= |Cached(s, order)|
    && (|Cached(s, order)| == p.count ==> Bytes(Cached(s, order)) == p.bytes)
  }

  ghost predicate PhaseOk(s: Store, owners: ChatOwnership.State, time: nat, received: seq<Receipt>, g: nat,
      chat: Chat, p: Phase) {
    match p
    case KnownId(id, _) => OnRecord(s, chat.order, id)
    case Unknown(inner, _, at) =>
      DecodesNoLonger(inner.payload) && at < time && InHand(s.hasDb, owners, received, g, chat, inner.id, at)
    case Admitted(inner, _, at, _, _) =>
      && DecodesNoLonger(inner.payload) && at < time && InHand(s.hasDb, owners, received, g, chat, inner.id, at)
      && QuotaSeen(s, chat.order, p)
    case _ => true
  }

  ghost predicate OfChat(received: seq<Receipt>, g: nat, chat: Chat) {
    forall r :: r in received && r.task == g ==> r.chat == chat
  }

  ghost predicate TaskOk(sys: System, g: nat)
    requires g in sys.tasks
  {
    && g <= sys.owners.generation
    && OfChat(sys.received, g, sys.tasks[g].chat)
    && PhaseOk(sys.store, sys.owners, sys.time, sys.received, g, sys.tasks[g].chat, sys.tasks[g].phase)
  }

  // A later receipt that an earlier one blocks comes from another task whose
  // lookup preceded the earlier commit. Of two tasks of one chat that overlap so,
  // one was not its owner any more.
  ghost predicate OverlapOnly(hasDb: bool, earlier: Receipt, later: Receipt) {
    && (earlier.task == later.task ==> earlier.chat == later.chat)
    && (Blocks(hasDb, earlier, later.chat.order, later.id) ==>
          earlier.task != later.task && later.lookedUpAt < earlier.committedAt)
    && (earlier.chat == later.chat && earlier.task != later.task && later.lookedUpAt < earlier.committedAt ==>
          !(earlier.current && later.current))
  }

  ghost predicate MoveOk(s: Store, m: Move) {
    m.from < m.to && m.to == Min(m.eventTs, m.clock) && (s.hasDb ==> m.id in s.disk)
  }

  ghost predicate Reliable(sys: System) {
    && Messages.Inv(sys.store)
    && (forall r :: r in sys.received ==> ReceiptOk(sys.store, sys.time, r) && r.task <= sys.owners.generation)
    && (forall i, j :: 0 <= i < j < |sys.received| ==> OverlapOnly(sys.store.hasDb, sys.received[i], sys.received[j]))
    && (forall g :: g in sys.tasks ==> TaskOk(sys, g))
    && (forall m :: m in sys.moves ==> MoveOk(sys.store, m))
  }

  // ---- Steps keep it ---------------------------------------------------------------

  // Ownership passes on to newer generations only.
  ghost predicate OwnersAdvance(o: ChatOwnership.State, o': ChatOwnership.State) {
    && o.generation <= o'.generation
    && forall key :: key in o'.active ==>
         (key in o.active && o'.active[key] == o.active[key]) || o'.active[key] > o.generation
  }

  lemma ApplyAdvances(o: ChatOwnership.State, e: ChatOwnership.Event)
    ensures OwnersAdvance(o, ChatOwnership.Apply(o, e)) && OwnersAdvance(o, o)
  {
  }

  lemma PhaseMoves(s: Store, s': Store, o: ChatOwnership.State, o': ChatOwnership.State, time: nat, time': nat,
                   received: seq<Receipt>, g: nat, chat: Chat, p: Phase)
    requires Keeps(s, s') && OwnersAdvance(o, o') && g <= o.generation && time <= time'
    requires PhaseOk(s, o, time, received, g, chat, p)
    ensures PhaseOk(s', o', time', received, g, chat, p)
  {
    if p.KnownId? {
      assert Ids(Cached(s, chat.order)) <= Ids(Cached(s', chat.order));
    }
    assert OwnedBy(o', chat, g) ==> OwnedBy(o, chat, g);
  }

  lemma ReceiptKept(s: Store, s': Store, time: nat, time': nat, r: Receipt)
    requires Keeps(s, s') && ReceiptOk(s, time, r) && time <= time'
    ensures ReceiptOk(s', time', r)
  {
    assert Ids(Cached(s, r.chat.order)) <= Ids(Cached(s', r.chat.order));
  }

  lemma KeepsItself(s: Store)
    ensures Keeps(s, s)
  {
  }

  // A step that adds no receipt and changes where at most one task stands.
  ghost predicate OneTaskMoves(sys: System, sys': System, g: nat) {
    && sys.time <= sys'.time && sys'.received == sys.received
    && OwnersAdvance(sys.owners, sys'.owners)
    && (forall h :: h in sys'.tasks && h != g ==>
          h in sys.tasks && sys'.tasks[h].chat == sys.tasks[h].chat && sys'.tasks[h].phase == sys.tasks[h].phase)
    && (forall m :: m in sys'.moves ==> m in sys.moves || MoveOk(sys'.store, m))
  }

  lemma StepStaysReliable(sys: System, sys': System, g: nat)
    requires Reliable(sys) && Messages.Inv(sys'.store) && Keeps(sys.store, sys'.store)
    requires OneTaskMoves(sys, sys', g) && (g in sys'.tasks ==> TaskOk(sys', g))
    ensures Reliable(sys')
  {
    forall h | h in sys'.tasks && h != g ensures TaskOk(sys', h) {
      assert TaskOk(sys, h);
      PhaseMoves(sys.store, sys'.store, sys.owners, sys'.owners, sys.time, sys'.time, sys.received, h,
                 sys.tasks[h].chat, sys.tasks[h].phase);
    }
    forall r | r in sys'.received ensures ReceiptOk(sys'.store, sys'.time, r) {
      ReceiptKept(sys.store, sys'.store, sys.time, sys'.time, r);
    }
  }

  // A step of which only the store is of interest.
  lemma StoreStaysReliable(sys: System, sys': System)
    requires Reliable(sys) && Messages.Inv(sys'.store) && Keeps(sys.store, sys'.store)
    requires sys' == sys.(store := sys'.store, time := sys.time + 1)
    ensures Reliable(sys')
  {
    ApplyAdvances(sys.owners, ChatOwnership.Stop(""));
    if 0 in sys.tasks {
      assert TaskOk(sys, 0);
      PhaseMoves(sys.store, sys'.store, sys.owners, sys'.owners, sys.time, sys'.time, sys.received, 0,
                 sys.tasks[0].chat, sys.tasks[0].phase);
    }
    StepStaysReliable(sys, sys', 0);
  }

  // A step that leaves the store alone; `g` ends somewhere harmless.
  lemma QuietStaysReliable(sys: System, sys': System, g: nat)
    requires Reliable(sys) && sys'.store == sys.store && OneTaskMoves(sys, sys', g)
    requires g in sys'.tasks ==>
      && g <= sys'.owners.generation && IsQuiet(sys'.tasks[g].phase)
      && OfChat(sys.received, g, sys'.tasks[g].chat)
    ensures Reliable(sys')
  {
    KeepsItself(sys.store);
    StepStaysReliable(sys, sys', g);
  }

  predicate IsQuiet(p: Phase) {
    p.Starting? || p.AtTop? || p.Waiting? || p.Saving?
  }

  lemma TimeStaysReliable(sys: System)
    requires Reliable(sys)
    ensures Reliable(sys.(time := sys.time + 1))
  {
    KeepsItself(sys.store);
    StoreStaysReliable(sys, sys.(time := sys.time + 1));
  }

  lemma ClaimStep(sys: System, chat: Chat)
    requires Reliable(sys)
    ensures Reliable(Claimed(sys, chat).(time := sys.time + 1))
  {
    ApplyAdvances(sys.owners, ChatOwnership.Claim(chat.channel, chat.order));
    TimeStaysReliable(sys);
    var sys' := Claimed(sys, chat).(time := sys.time + 1);
    if sys'.owners.generation != sys.owners.generation {
      QuietStaysReliable(sys, sys', sys'.owners.generation);
    }
  }

  lemma StopStep(sys: System, order: string)
    requires Reliable(sys)
    ensures Reliable(Next(sys, Stop(order)))
  {
    ApplyAdvances(sys.owners, ChatOwnership.Stop(order));
    KeepsItself(sys.store);
    var sys' := Next(sys, Stop(order));
    if 0 in sys.tasks {
      assert TaskOk(sys, 0);
      PhaseMoves(sys.store, sys.store, sys.owners, sys'.owners, sys.time, sys'.time, sys.received, 0,
                 sys.tasks[0].chat, sys.tasks[0].phase);
    }
    StepStaysReliable(sys, sys', 0);
  }

  lemma EndStep(sys: System, g: nat)
    requires Reliable(sys) && g in sys.tasks
    ensures Reliable(Ended(sys, g).(time := sys.time + 1))
  {
    var chat := sys.tasks[g].chat;
    ApplyAdvances(sys.owners, ChatOwnership.Release(chat.channel, chat.order, g));
    QuietStaysReliable(sys, Ended(sys, g).(time := sys.time + 1), g);
  }

  lemma QuietStep(sys: System, step: Step)
    requires Reliable(sys) && (step.Load? || step.Look? || step.Skip?)
    ensures Reliable(Next(sys, step))
  {
    ApplyAdvances(sys.owners, ChatOwnership.Stop(""));
    TimeStaysReliable(sys);
    var sys' := Next(sys, step);
    if step.task in sys.tasks && IsQuiet(sys'.tasks[step.task].phase) {
      assert TaskOk(sys, step.task);
      QuietStaysReliable(sys, sys', step.task);
    } else {
      assert sys' == sys.(time := sys.time + 1);
    }
  }

  lemma SaveStep(sys: System, g: nat, to: int, cursorOk: bool)
    requires Reliable(sys) && g in sys.tasks
    ensures Reliable(CursorSaved(sys, g, to, cursorOk).(time := sys.time + 1))
  {
    ApplyAdvances(sys.owners, ChatOwnership.Stop(""));
    assert TaskOk(sys, g);
    QuietStaysReliable(sys, CursorSaved(sys, g, to, cursorOk).(time := sys.time + 1), g);
  }

  lemma LookupStep(sys: System, g: nat, inner: Inner, eventTs: int, lookupOk: bool)
    requires Reliable(sys) && g in sys.tasks && DecodesNoLonger(inner.payload)
    ensures Reliable(LookedUp(sys, g, inner, eventTs, lookupOk).(time := sys.time + 1))
  {
    ApplyAdvances(sys.owners, ChatOwnership.Stop(""));
    KeepsItself(sys.store);
    assert TaskOk(sys, g);
    var sys' := LookedUp(sys, g, inner, eventTs, lookupOk).(time := sys.time + 1);
    if sys'.tasks[g].phase.Unknown? {
      forall r | r in sys.received
        ensures r.committedAt < sys.time && !Blocks(sys.store.hasDb, r, sys.tasks[g].chat.order, inner.id)
      {
        assert ReceiptOk(sys.store, sys.time, r);
      }
    }
    StepStaysReliable(sys, sys', g);
  }

  lemma CursorStep(sys: System, g: nat, id: string, eventTs: int, now: int)
    requires Reliable(sys) && g in sys.tasks && sys.tasks[g].phase.AtTop?
    requires sys.store.hasDb ==> id in sys.store.disk
    ensures Reliable(MoveCursor(sys, g, id, eventTs, now))
  {
    ApplyAdvances(sys.owners, ChatOwnership.Stop(""));
    assert TaskOk(sys, g);
    QuietStaysReliable(sys, MoveCursor(sys, g, id, eventTs, now), g);
  }

  // The same at the end of a step.
  lemma ThenCursor(kept: System, time: nat, g: nat, id: string, eventTs: int, now: int)
    requires Reliable(kept.(time := time)) && g in kept.tasks && kept.tasks[g].phase.AtTop?
    requires kept.store.hasDb ==> id in kept.store.disk
    ensures Reliable(MoveCursor(kept, g, id, eventTs, now).(time := time))
  {
    CursorStep(kept.(time := time), g, id, eventTs, now);
    assert MoveCursor(kept, g, id, eventTs, now).(time := time) == MoveCursor(kept.(time := time), g, id, eventTs, now);
  }

  lemma RetryStep(sys: System, g: nat, saveOk: bool, now: int)
    requires Reliable(sys) && g in sys.tasks && sys.tasks[g].phase.KnownId?
    ensures Reliable(Retried(sys, g, saveOk, now).(time := sys.time + 1))
  {
    ApplyAdvances(sys.owners, ChatOwnership.Stop(""));
    assert TaskOk(sys, g);
    var p, order := sys.tasks[g].phase, sys.tasks[g].chat.order;
    EnsureDurableKeepsInv(sys.store, order, p.id, saveOk);
    var (s', durable) := EnsureDurable(sys.store, order, p.id, saveOk);
    var kept := SetPhase(sys.(store := s', time := sys.time + 1), g, AtTop);
    StepStaysReliable(sys, kept, g);
    if durable {
      CursorStep(kept, g, p.id, p.eventTs, now);
    }
  }

  lemma QuotaStep(sys: System, g: nat, listing: Option<seq<ChatMessage>>)
    requires Reliable(sys) && g in sys.tasks && sys.tasks[g].phase.Unknown?
    requires IsListing(sys.store, sys.tasks[g].chat.order, listing)
    ensures Reliable(Checked(sys, g, listing).(time := sys.time + 1))
  {
    ApplyAdvances(sys.owners, ChatOwnership.Stop(""));
    HydrateKeepsInv(sys.store, sys.tasks[g].chat.order, listing);
    assert TaskOk(sys, g);
    StepStaysReliable(sys, Checked(sys, g, listing).(time := sys.time + 1), g);
  }

  lemma CommittedWithinCaps(sys: System, g: nat, s': Store, stored: bool)
    requires Reliable(sys) && g in sys.tasks && sys.tasks[g].phase.Admitted?
    requires var chat := sys.tasks[g].chat; var m := MessageOf(chat.channel, chat.order, sys.tasks[g].phase.inner);
      && Cached(s', chat.order) == Cached(sys.store, chat.order) + [m]
      && m.id in Ids(Cached(s', chat.order)) && (s'.hasDb && stored ==> m.id in s'.disk)
    ensures ReceiptOk(s', sys.time + 1, ReceiptOf(sys, g, s', stored))
  {
    assert TaskOk(sys, g);
    var order := sys.tasks[g].chat.order;
    var list := Cached(s', order);
    assert list[..|list| - 1] == Cached(sys.store, order);
    assert Bytes(list) == Bytes(Cached(sys.store, order)) + |Content(sys.tasks[g].phase.inner.payload)|;
  }

  // Adding the receipt of the message in hand, the task being done with it.
  lemma ReceiptStep(sys: System, receipt: Receipt)
    requires Reliable(sys) && receipt.task in sys.tasks && sys.tasks[receipt.task].phase.AtTop?
    requires sys.tasks[receipt.task].chat == receipt.chat && receipt.committedAt == sys.time - 1
    requires ReceiptOk(sys.store, sys.time, receipt)
    requires receipt.current == OwnedBy(sys.owners, receipt.chat, receipt.task)
    requires InHand(sys.store.hasDb, sys.owners, sys.received, receipt.task, receipt.chat, receipt.id,
      receipt.lookedUpAt)
    requires forall h :: h in sys.tasks && (sys.tasks[h].phase.Unknown? || sys.tasks[h].phase.Admitted?) ==>
      sys.tasks[h].phase.lookedUpAt < sys.time - 1
    ensures Reliable(sys.(received := sys.received + [receipt]))
  {
    var sys' := sys.(received := sys.received + [receipt]);
    forall i, j | 0 <= i < j < |sys'.received|
      ensures OverlapOnly(sys.store.hasDb, sys'.received[i], sys'.received[j])
    {
      if j == |sys.received| {
        assert sys'.received[i] == sys.received[i] && sys.received[i] in sys.received;
      } else {
        assert OverlapOnly(sys.store.hasDb, sys.received[i], sys.received[j]);
      }
    }
    forall h | h in sys'.tasks ensures TaskOk(sys', h) {
      assert TaskOk(sys, h);
    }
  }

  lemma CommittedStaysReliable(sys: System, g: nat, s': Store, stored: bool)
    requires Reliable(sys) && g in sys.tasks && sys.tasks[g].phase.Admitted?
    requires Messages.Inv(s') && Keeps(sys.store, s')
    requires ReceiptOk(s', sys.time + 1, ReceiptOf(sys, g, s', stored))
    ensures Reliable(Received(sys, g, s', stored).(time := sys.time + 1))
  {
    ApplyAdvances(sys.owners, ChatOwnership.Stop(""));
    assert TaskOk(sys, g);
    var bare := SetPhase(sys.(store := s', time := sys.time + 1), g, AtTop);
    StepStaysReliable(sys, bare, g);
    LookedUpBefore(sys, g);
    ReceiptStep(bare, ReceiptOf(sys, g, s', stored));
  }

  lemma AdditionIsSound(sys: System, g: nat, listing: Option<seq<ChatMessage>>, saveOk: bool)
    requires Reliable(sys) && g in sys.tasks && sys.tasks[g].phase.Admitted?
    requires IsListing(sys.store, sys.tasks[g].chat.order, listing)
    ensures var (s', stored) := Addition(sys, g, listing, saveOk);
      && Messages.Inv(s') && Keeps(sys.store, s')
      && ReceiptOk(s', sys.time + 1, ReceiptOf(sys, g, s', stored))
      && (s'.hasDb && stored ==> sys.tasks[g].phase.inner.id in s'.disk)
  {
    assert TaskOk(sys, g);
    var chat := sys.tasks[g].chat;
    AddKeepsInv(sys.store, MessageOf(chat.channel, chat.order, sys.tasks[g].phase.inner), listing, saveOk);
    var (s', stored) := Addition(sys, g, listing, saveOk);
    CommittedWithinCaps(sys, g, s', stored);
  }

  lemma FinishedStaysReliable(sys: System, g: nat, s': Store, stored: bool, now: int)
    requires Reliable(sys) && g in sys.tasks && sys.tasks[g].phase.Admitted?
    requires Messages.Inv(s') && Keeps(sys.store, s')
    requires ReceiptOk(s', sys.time + 1, ReceiptOf(sys, g, s', stored))
    requires s'.hasDb && stored ==> sys.tasks[g].phase.inner.id in s'.disk
    ensures Reliable(Finished(sys, g, s', stored, now).(time := sys.time + 1))
  {
    CommittedStaysReliable(sys, g, s', stored);
    var p := sys.tasks[g].phase;
    if stored {
      ThenCursor(Received(sys, g, s', stored), sys.time + 1, g, p.inner.id, p.eventTs, now);
    }
  }

  lemma CommitStep(sys: System, g: nat, listing: Option<seq<ChatMessage>>, saveOk: bool, now: int)
    requires Reliable(sys) && g in sys.tasks && sys.tasks[g].phase.Admitted?
    requires IsListing(sys.store, sys.tasks[g].chat.order, listing)
    ensures Reliable(Committed(sys, g, listing, saveOk, now).(time := sys.time + 1))
  {
    AdditionIsSound(sys, g, listing, saveOk);
    var (s', stored) := Addition(sys, g, listing, saveOk);
    FinishedStaysReliable(sys, g, s', stored, now);
  }

  lemma LookedUpBefore(sys: System, g: nat)
    requires Reliable(sys)
    ensures forall h :: h in sys.tasks && (sys.tasks[h].phase.Unknown? || sys.tasks[h].phase.Admitted?) ==>
      sys.tasks[h].phase.lookedUpAt < sys.time
  {
    forall h | h in sys.tasks && (sys.tasks[h].phase.Unknown? || sys.tasks[h].phase.Admitted?)
      ensures sys.tasks[h].phase.lookedUpAt < sys.time
    {
      assert TaskOk(sys, h);
    }
  }

  lemma SendStep(sys: System, m: ChatMessage, listing: Option<seq<ChatMessage>>, saveOk: bool)
    requires Reliable(sys) && Plausible(sys, Send(m, listing, saveOk))
    ensures Reliable(Next(sys, Send(m, listing, saveOk)))
  {
    AddKeepsInv(sys.store, m, listing, saveOk);
    StoreStaysReliable(sys, Next(sys, Send(m, listing, saveOk)));
  }

  lemma ReadStep(sys: System, trade: string, listing: Option<seq<ChatMessage>>, writeOk: bool)
    requires Reliable(sys) && Plausible(sys, ReadTrade(trade, listing, writeOk))
    ensures Reliable(Next(sys, ReadTrade(trade, listing, writeOk)))
  {
    MarkAsReadKeepsInv(sys.store, trade, listing, writeOk);
    StoreStaysReliable(sys, Next(sys, ReadTrade(trade, listing, writeOk)));
  }

  lemma OpenStep(sys: System, trade: string, listing: Option<seq<ChatMessage>>)
    requires Reliable(sys) && Plausible(sys, OpenTrade(trade, listing))
    ensures Reliable(Next(sys, OpenTrade(trade, listing)))
  {
    HydrateKeepsInv(sys.store, trade, listing);
    StoreStaysReliable(sys, Next(sys, OpenTrade(trade, listing)));
  }

  lemma LookingStep(sys: System, g: nat, inner: Inner, eventTs: int, lookupOk: bool)
    requires Reliable(sys) && DecodesNoLonger(inner.payload)
    ensures Reliable(Next(sys, Lookup(g, inner, eventTs, lookupOk)))
  {
    if At(sys, g, Waiting) {
      LookupStep(sys, g, inner, eventTs, lookupOk);
    } else {
      TimeStaysReliable(sys);
    }
  }

  lemma RetryingStep(sys: System, g: nat, saveOk: bool, now: int)
    requires Reliable(sys)
    ensures Reliable(Next(sys, Retry(g, saveOk, now)))
  {
    if g in sys.tasks && sys.tasks[g].phase.KnownId? {
      RetryStep(sys, g, saveOk, now);
    } else {
      TimeStaysReliable(sys);
    }
  }

  lemma CheckingStep(sys: System, g: nat, listing: Option<seq<ChatMessage>>)
    requires Reliable(sys) && Plausible(sys, CheckQuota(g, listing))
    ensures Reliable(Next(sys, CheckQuota(g, listing)))
  {
    if g in sys.tasks && sys.tasks[g].phase.Unknown? {
      QuotaStep(sys, g, listing);
    } else {
      TimeStaysReliable(sys);
    }
  }

  lemma CommittingStep(sys: System, g: nat, listing: Option<seq<ChatMessage>>, saveOk: bool, now: int)
    requires Reliable(sys) && Plausible(sys, Commit(g, listing, saveOk, now))
    ensures Reliable(Next(sys, Commit(g, listing, saveOk, now)))
  {
    CommitIs(sys, g, listing, saveOk, now);
    if g in sys.tasks && sys.tasks[g].phase.Admitted? {
      assert TradeOf(sys, Commit(g, listing, saveOk, now)) == sys.tasks[g].chat.order;
      CommitStep(sys, g, listing, saveOk, now);
    } else {
      TimeStaysReliable(sys);
    }
  }

  lemma SavingStep(sys: System, g: nat, cursorOk: bool)
    requires Reliable(sys)
    ensures Reliable(Next(sys, SaveCursor(g, cursorOk)))
  {
    if g in sys.tasks && sys.tasks[g].phase.Saving? {
      SaveStep(sys, g, sys.tasks[g].phase.to, cursorOk);
    } else {
      TimeStaysReliable(sys);
    }
  }

  lemma OwnerStep(sys: System, step: Step)
    requires Reliable(sys) && (step.Claim? || step.Stop? || step.End?)
    ensures Reliable(Next(sys, step))
  {
    TimeStaysReliable(sys);
    match step
    case Claim(chat) => ClaimStep(sys, chat);
    case Stop(order) => StopStep(sys, order);
    case End(g) =>
      if At(sys, g, Starting) || At(sys, g, AtTop) || At(sys, g, Waiting) {
        EndStep(sys, g);
      }
  }

  lemma RestartStep(sys: System)
    requires Reliable(sys)
    ensures Reliable(Next(sys, Restart))
  {
  }

  lemma StepKeepsReliable(sys: System, step: Step)
    requires Reliable(sys) && Plausible(sys, step)
    ensures Reliable(Next(sys, step))
  {
    match step
    case Send(m, listing, saveOk) => SendStep(sys, m, listing, saveOk);
    case ReadTrade(trade, listing, writeOk) => ReadStep(sys, trade, listing, writeOk);
    case OpenTrade(trade, listing) => OpenStep(sys, trade, listing);
    case Lookup(g, inner, eventTs, lookupOk) => LookingStep(sys, g, inner, eventTs, lookupOk);
    case Retry(g, saveOk, now) => RetryingStep(sys, g, saveOk, now);
    case CheckQuota(g, listing) => CheckingStep(sys, g, listing);
    case Commit(g, listing, saveOk, now) => CommittingStep(sys, g, listing, saveOk, now);
    case SaveCursor(g, cursorOk) => SavingStep(sys, g, cursorOk);
    case Restart => RestartStep(sys);
    case Claim(_) => OwnerStep(sys, step);
    case Stop(_) => OwnerStep(sys, step);
    case End(_) => OwnerStep(sys, step);
    case _ => QuietStep(sys, step);
  }

  lemma {:induction false} RunIsReliable(hasDb: bool, run: seq<Step>)
    requires PlausibleRun(hasDb, run)
    ensures Reliable(After(hasDb, run)) && After(hasDb, run).store.hasDb == hasDb
  {
    if run != [] {
      var before := run[..|run| - 1];
      assert forall i :: 0 <= i < |before| ==> before[..i] == run[..i];
      RunIsReliable(hasDb, before);
      StepKeepsReliable(After(hasDb, before), run[|run| - 1]);
      HasDbStays(After(hasDb, before), run[|run| - 1]);
    }
  }

  lemma CommitIs(sys: System, g: nat, listing: Option<seq<ChatMessage>>, saveOk: bool, now: int)
    ensures var sys' := Next(sys, Commit(g, listing, saveOk, now));
      if g in sys.tasks && sys.tasks[g].phase.Admitted? then
        var (s', stored) := Addition(sys, g, listing, saveOk);
        && sys' == Finished(sys, g, s', stored, now).(time := sys.time + 1)
        && sys'.owners == sys.owners && sys'.tasks.Keys == sys.tasks.Keys
      else sys' == sys.(time := sys.time + 1)
  {
  }

  lemma AfterAppend(hasDb: bool, run: seq<Step>, step: Step)
    ensures After(hasDb, run + [step]) == Next(After(hasDb, run), step)
  {
    assert (run + [step])[..|run|] == run;
  }

  // The store after a step is the store before it or the result of one operation.
  lemma StoreOf(sys: System, step: Step)
    ensures var s, s' := sys.store, Next(sys, step).store;
      match step
      case Retry(g, saveOk, _) =>
        s' == s || (g in sys.tasks && sys.tasks[g].phase.KnownId?
                    && s' == EnsureDurable(s, sys.tasks[g].chat.order, sys.tasks[g].phase.id, saveOk).0)
      case CheckQuota(g, listing) => s' == s || s' == Hydrate(s, TradeOf(sys, step), listing)
      case Commit(g, listing, saveOk, _) =>
        s' == s || (g in sys.tasks && sys.tasks[g].phase.Admitted?
                    && var chat := sys.tasks[g].chat;
                    var m := MessageOf(chat.channel, chat.order, sys.tasks[g].phase.inner);
                    s' == Add(s, m, listing, saveOk).0)
      case Send(m, listing, saveOk) => s' == Add(s, m, listing, saveOk).0
      case ReadTrade(trade, listing, writeOk) => s' == MarkAsRead(s, trade, listing, writeOk)
      case OpenTrade(trade, listing) => s' == Hydrate(s, trade, listing)
      case Restart => s' == Store(map[], {}, {}, s.disk, s.hasDb)
      case _ => s' == s
  {
  }

  lemma HasDbStays(sys: System, step: Step)
    ensures Next(sys, step).store.hasDb == sys.store.hasDb
  {
    StoreOf(sys, step);
  }

  // ---- What holds in every interleaving ------------------------------------------------

  ghost predicate Reachable(hasDb: bool, sys: System) {
    exists run :: PlausibleRun(hasDb, run) && sys == After(hasDb, run)
  }

  lemma ReachableIsReliable(hasDb: bool, sys: System)
    requires Reachable(hasDb, sys)
    ensures Reliable(sys) && sys.store.hasDb == hasDb
  {
    var run :| PlausibleRun(hasDb, run) && sys == After(hasDb, run);
    RunIsReliable(hasDb, run);
  }

  // With a database, every cached message is on disk or marked as not durable.
  lemma CacheIsDurableOrMarked(sys: System, trade: string, m: ChatMessage)
    requires Reachable(true, sys) && m in Cached(sys.store, trade)
    ensures m.id in sys.store.disk || m.id in sys.store.nonDurable
  {
    ReachableIsReliable(true, sys);
  }

  // Every cursor value is the time of an event whose message is on disk, cut at
  // the clock; it is above the value before it.
  lemma CursorFollowsDurableEvents(sys: System, m: Move)
    requires Reachable(true, sys) && m in sys.moves
    ensures m.from < m.to <= m.clock && m.to == Min(m.eventTs, m.clock)
    ensures m.id in sys.store.disk
  {
    ReachableIsReliable(true, sys);
  }

  // A receipt that no other message joined since its quota check leaves its trade
  // within both caps. In general it does exactly when the list it joined had room.
  lemma CapsHoldExactlyWhen(hasDb: bool, sys: System, r: Receipt)
    requires Reachable(hasDb, sys) && r in sys.received
    ensures r.alone ==> WithinCaps(r.count, r.bytes)
    ensures WithinCaps(r.count, r.bytes) <==>
      r.before < MAX_STORED_MESSAGES_PER_TRADE && r.beforeBytes + r.size <= MAX_STORED_BYTES_PER_TRADE
  {
    ReachableIsReliable(hasDb, sys);
  }
}
