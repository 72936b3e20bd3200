// One uninterrupted handler, as a row of the steps it consists of.
module ChatHandlers {
  import opened Prelude
  import opened Messages
  import opened StoreEffects
  import opened ChatOwnership
  import opened ChatReceive
  import opened ChatRuns

  // ---- What an uninterrupted handler leaves ------------------------------------------------

  // The message a receipt adds: from the peer or the solver by its channel, read
  // only when it is our own.
  ghost function Received(c: Channel, order: string, inner: Inner): ChatMessage {
    var content := if inner.payload.Text? then inner.payload.text else inner.payload.url;
    ChatMessage(inner.id, order, inner.sender, content, if c == Peer then PeerMessage else AdminMessage,
                inner.fromMe, inner.fromMe, inner.payload.FilePointer?, inner.createdAt)
  }

  // The trade's list has reached a thousand messages, or five mebibytes with the
  // incoming one.
  ghost predicate NoRoom(list: seq<ChatMessage>, payload: Payload) {
    |list| >= 1000 || Bytes(list) + (if payload.Text? then |payload.text| else |payload.json|) > 5_242_880
  }

  // Which verdict comes of what is on record, of the lookup and of the room, and
  // what each leaves in the store.
  lemma VerdictExactly(s: Store, cursor: int, c: Channel, order: string, inner: Inner, eventTs: int, now: int, io: Io)
    ensures var (s', _, v) := Deliver(s, cursor, c, order, inner, eventTs, now, io);
      var h := Hydrate(s, order, io.listing);
      && (v.LookupError? <==> !HasCopy(s, order, inner.id) && s.hasDb && !io.lookupOk)
      && (v.Duplicate? <==> HasCopy(s, order, inner.id) || (s.hasDb && io.lookupOk && inner.id in s.disk))
      && (v.LookupError? || v.Duplicate? || (v.QuotaReached? <==> NoRoom(Cached(h, order), inner.payload)))
      && (v.LookupError? || v.Duplicate? || v.QuotaReached? || v.Stored?)
      && (v.LookupError? ==> s' == s)
      && (v.Duplicate? ==> (s', v.durable) == EnsureDurable(s, order, inner.id, io.retryOk))
      && (v.QuotaReached? ==> s' == h)
      && (v.Stored? ==> (s', v.durable) == Add(h, Received(c, order, inner), io.listing, io.saveOk))
  {
    CopyIsInIds(s, order, inner.id);
  }

  // The cursor moves only past a durable message, never beyond the clock and never
  // back.
  lemma CursorMovesExactly(s: Store, cursor: int, c: Channel, order: string, inner: Inner, eventTs: int, now: int,
      io: Io)
    ensures var (_, cursor', v) := Deliver(s, cursor, c, order, inner, eventTs, now, io);
      && ((v.Duplicate? || v.Stored?) && v.durable ==>
            && cursor <= cursor'
            && (eventTs <= cursor || now <= cursor ==> cursor' == cursor)
            && (cursor < eventTs <= now ==> cursor' == eventTs)
            && (cursor < now <= eventTs ==> cursor' == now))
      && (!((v.Duplicate? || v.Stored?) && v.durable) ==> cursor' == cursor)
  {
  }

  // ---- The handler as its steps -------------------------------------------------------------

  // What a handler's steps leave behind: the store, where its own task stands and
  // how many messages were added.
  predicate Leaves(sys: System, g: nat, chat: Chat, store: Store, cursor: int, phase: Phase, received: nat) {
    && sys.store == store && g in sys.tasks && sys.tasks[g].chat == chat
    && sys.tasks[g].cursor == cursor && sys.tasks[g].phase == phase
    && |sys.received| == received
  }

  function PhaseKnown(s: Store, order: string, inner: Inner, eventTs: int, ok: bool, time: nat): Phase {
    match IsKnown(s, order, inner.id, ok)
    case Err(_) => AtTop
    case Ok(true) => KnownId(inner.id, eventTs)
    case Ok(false) => Unknown(inner, eventTs, time)
  }

  function PhaseMoved(cursor: int, eventTs: int, now: int, durable: bool): Phase {
    if durable && Advance(cursor, eventTs, now) != cursor then Saving(Advance(cursor, eventTs, now)) else AtTop
  }

  lemma LookupLeaves(sys: System, g: nat, inner: Inner, eventTs: int, ok: bool)
    requires At(sys, g, Waiting)
    ensures var t := sys.tasks[g];
      Leaves(Next(sys, Lookup(g, inner, eventTs, ok)), g, t.chat, sys.store, t.cursor,
        PhaseKnown(sys.store, t.chat.order, inner, eventTs, ok, sys.time), |sys.received|)
  {
  }

  lemma RetryLeaves(sys: System, g: nat, ok: bool, now: int)
    requires g in sys.tasks
    ensures var t := sys.tasks[g]; var sys' := Next(sys, Retry(g, ok, now));
      if !t.phase.KnownId? then Leaves(sys', g, t.chat, sys.store, t.cursor, t.phase, |sys.received|)
      else
        var (s', durable) := EnsureDurable(sys.store, t.chat.order, t.phase.id, ok);
        Leaves(sys', g, t.chat, s', if durable then Advance(t.cursor, t.phase.eventTs, now) else t.cursor,
          PhaseMoved(t.cursor, t.phase.eventTs, now, durable), |sys.received|)
  {
  }

  lemma CheckLeaves(sys: System, g: nat, listing: Option<seq<ChatMessage>>)
    requires g in sys.tasks
    ensures var t := sys.tasks[g]; var sys' := Next(sys, CheckQuota(g, listing));
      if !t.phase.Unknown? then Leaves(sys', g, t.chat, sys.store, t.cursor, t.phase, |sys.received|)
      else
        var (h, exceeded) := QuotaExceeded(sys.store, t.chat.order, RawLength(t.phase.inner.payload), listing);
        var list := Cached(h, t.chat.order);
        Leaves(sys', g, t.chat, h, t.cursor,
          if exceeded then AtTop
          else Admitted(t.phase.inner, t.phase.eventTs, t.phase.lookedUpAt, |list|, Bytes(list)),
          |sys.received|)
  {
  }

  lemma CommitLeaves(sys: System, g: nat, listing: Option<seq<ChatMessage>>, ok: bool, now: int)
    requires g in sys.tasks
    ensures var t := sys.tasks[g]; var sys' := Next(sys, Commit(g, listing, ok, now));
      if !t.phase.Admitted? then Leaves(sys', g, t.chat, sys.store, t.cursor, t.phase, |sys.received|)
      else
        var (s', stored) := Addition(sys, g, listing, ok);
        Leaves(sys', g, t.chat, s', if stored then Advance(t.cursor, t.phase.eventTs, now) else t.cursor,
          PhaseMoved(t.cursor, t.phase.eventTs, now, stored), |sys.received| + 1)
  {
  }

  lemma SaveLeaves(sys: System, g: nat, ok: bool)
    requires g in sys.tasks
    ensures var t := sys.tasks[g];
      Leaves(Next(sys, SaveCursor(g, ok)), g, t.chat, sys.store, t.cursor,
        if t.phase.Saving? then AtTop else t.phase, |sys.received|)
  {
  }

  // The steps of one handler; those its task is not ready for do nothing.
  function Handle(sys: System, g: nat, inner: Inner, eventTs: int, now: int, io: Io, cursorOk: bool): System {
    var looked := Next(sys, Lookup(g, inner, eventTs, io.lookupOk));
    var retried := Next(looked, Retry(g, io.retryOk, now));
    var checked := Next(retried, CheckQuota(g, io.listing));
    var committed := Next(checked, Commit(g, io.listing, io.saveOk, now));
    Next(committed, SaveCursor(g, cursorOk))
  }

  lemma HandlerIsItsSteps(sys: System, g: nat, inner: Inner, eventTs: int, now: int, io: Io, cursorOk: bool)
    requires At(sys, g, Waiting)
    ensures var t := sys.tasks[g];
      var (store, cursor, verdict) := Deliver(sys.store, t.cursor, t.chat.channel, t.chat.order, inner, eventTs, now,
          io);
      Leaves(Handle(sys, g, inner, eventTs, now, io, cursorOk), g, t.chat, store, cursor, AtTop,
        |sys.received| + if verdict.Stored? then 1 else 0)
  {
    LookupLeaves(sys, g, inner, eventTs, io.lookupOk);
    var looked := Next(sys, Lookup(g, inner, eventTs, io.lookupOk));
    RetryLeaves(looked, g, io.retryOk, now);
    var retried := Next(looked, Retry(g, io.retryOk, now));
    CheckLeaves(retried, g, io.listing);
    var checked := Next(retried, CheckQuota(g, io.listing));
    CommitLeaves(checked, g, io.listing, io.saveOk, now);
    SaveLeaves(Next(checked, Commit(g, io.listing, io.saveOk, now)), g, cursorOk);
  }

  // So an uninterrupted handler adds its message exactly when the id is on record
  // neither in its trade's list nor on disk, the lookup could tell, and the hydrated
  // trade has room.
  lemma HandlerAddsExactlyWhen(sys: System, g: nat, inner: Inner, eventTs: int, now: int, io: Io, cursorOk: bool)
    requires At(sys, g, Waiting)
    ensures var order := sys.tasks[g].chat.order;
      |Handle(sys, g, inner, eventTs, now, io, cursorOk).received| > |sys.received| <==>
        && !OnRecord(sys.store, order, inner.id)
        && (sys.store.hasDb ==> io.lookupOk)
        && !NoRoom(Cached(Hydrate(sys.store, order, io.listing), order), inner.payload)
  {
    HandlerIsItsSteps(sys, g, inner, eventTs, now, io, cursorOk);
  }
}
