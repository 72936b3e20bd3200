// The receive path of the two chats of every trade, over the message store.
module ChatReceive {
  import opened Prelude
  import opened Messages
  import opened ChatOwnership
  import opened RateLimit
  import opened IdSet

  const OUTER_LRU_CAP: nat := 512
  const FLOOD_TRIP_REJECTIONS: nat := 180

  // An attachment travels as a JSON pointer; its URL is part of that text, so
  // decoding never makes it longer.
  datatype Payload = Text(text: string) | FilePointer(json: string, url: string)

  datatype Inner = Inner(id: string, sender: string, fromMe: bool, payload: Payload, createdAt: int)

  // An outer event with the verdict of the envelope checks: `inner` is what a
  // valid envelope carries.
  datatype ChatEvent = ChatEvent(
    isKind14: bool,
    byConversationKey: bool,
    outerId: string,
    createdAt: int,
    inner: Option<Inner>)

  function RawLength(p: Payload): nat {
    match p
    case Text(text) => |text|
    case FilePointer(json, _) => |json|
  }

  function Content(p: Payload): string {
    match p
    case Text(text) => text
    case FilePointer(_, url) => url
  }

  ghost predicate DecodesNoLonger(p: Payload) {
    |Content(p)| <= RawLength(p)
  }

  function TypeOf(c: Channel): MessageType {
    if c.Peer? then PeerMessage else AdminMessage
  }

  function MessageOf(c: Channel, order: string, inner: Inner): ChatMessage {
    ChatMessage(inner.id, order, inner.sender, Content(inner.payload), TypeOf(c),
                inner.fromMe, inner.fromMe, inner.payload.FilePointer?, inner.createdAt)
  }

  function Advance(cursor: int, eventTs: int, now: int): int {
    if Min(eventTs, now) > cursor then Min(eventTs, now) else cursor
  }

  // How one event's storage operations turn out.
  datatype Io = Io(lookupOk: bool, retryOk: bool, listing: Option<seq<ChatMessage>>, saveOk: bool)

  datatype Verdict =
    | NotOurs
    | DuplicateDelivery
    | OverBudget
    | Invalid
    | LookupError
    | Duplicate(durable: bool)
    | QuotaReached
    | Stored(durable: bool)

  // What happens to an event once its envelope is valid: deduplicate, check the
  // quota, store, and move the cursor only past durable messages.
  function Deliver(s: Store, cursor: int, c: Channel, order: string, inner: Inner, eventTs: int, now: int, io: Io)
    : (Store, int, Verdict)
  {
    match IsKnown(s, order, inner.id, io.lookupOk)
    case Err(_) => (s, cursor, LookupError)
    case Ok(true) =>
      var (s', durable) := EnsureDurable(s, order, inner.id, io.retryOk);
      (s', if durable then Advance(cursor, eventTs, now) else cursor, Duplicate(durable))
    case Ok(false) =>
      var (h, exceeded) := QuotaExceeded(s, order, RawLength(inner.payload), io.listing);
      if exceeded then (h, cursor, QuotaReached)
      else
        var (s', stored) := Add(h, MessageOf(c, order, inner), io.listing, io.saveOk);
        (s', if stored then Advance(cursor, eventTs, now) else cursor, Stored(stored))
  }

  class ChatRxState {
    const channel: Channel
    const outerSeen: BoundedIdSet
    const bucket: TokenBucket
    var consecutiveRejected: nat
    var live: bool
    var cursor: int
    var savedCursor: Option<int>
    var flooded: bool

    ghost predicate Valid()
      reads this, outerSeen, bucket
    {
      && outerSeen.Valid() && outerSeen.cap == OUTER_LRU_CAP
      && bucket.Valid()
      && (consecutiveRejected >= FLOOD_TRIP_REJECTIONS ==> flooded)
    }

    constructor (channel: Channel, savedCursor: Option<int>, now: real)
      ensures Valid() && fresh(outerSeen) && fresh(bucket)
      ensures this.channel == channel && !live && !flooded && consecutiveRejected == 0
      ensures this.savedCursor == savedCursor && cursor == if savedCursor.Some? then savedCursor.value else 0
    {
      this.channel := channel;
      this.outerSeen := new BoundedIdSet(OUTER_LRU_CAP);
      this.bucket := new TokenBucket(now);
      this.consecutiveRejected, this.live, this.flooded := 0, false, false;
      this.cursor := if savedCursor.Some? then savedCursor.value else 0;
      this.savedCursor := savedCursor;
    }

    method Reject()
      modifies this`consecutiveRejected, this`flooded
      ensures consecutiveRejected == old(consecutiveRejected) + 1
      ensures flooded <==> old(flooded) || consecutiveRejected >= FLOOD_TRIP_REJECTIONS
    {
      consecutiveRejected := consecutiveRejected + 1;
      if consecutiveRejected >= FLOOD_TRIP_REJECTIONS {
        flooded := true;
      }
    }

    // Stored catch-up is not metered; the live stream is.
    method BudgetOk(now: real) returns (ok: bool)
      requires Valid()
      modifies this`consecutiveRejected, this`flooded, bucket
      ensures Valid()
      ensures bucket.start == old(bucket.start)
      ensures bucket.arrivals == if live then old(bucket.arrivals) + [now] else old(bucket.arrivals)
      ensures ok <==> !live || Admits(bucket.start, bucket.arrivals, |bucket.arrivals| - 1)
      ensures consecutiveRejected == old(consecutiveRejected) + (if ok then 0 else 1)
      ensures flooded <==> old(flooded) || (!ok && consecutiveRejected >= FLOOD_TRIP_REJECTIONS)
    {
      if !live {
        return true;
      }
      ok := bucket.TryTake(now);
      if !ok {
        Reject();
      }
    }

    method AdvanceCursor(eventTs: int, now: int, saveOk: bool)
      modifies this`cursor, this`savedCursor
      ensures cursor == Advance(old(cursor), eventTs, now)
      ensures savedCursor == if cursor != old(cursor) && saveOk then Some(cursor) else old(savedCursor)
    {
      var accepted := Min(eventTs, now);
      if accepted > cursor {
        cursor := accepted;
        if saveOk {
          savedCursor := Some(accepted);
        }
      }
    }

    // The checks run cheapest first; only an event that passes them all reaches
    // the store.
    method HandleChatEvent(order: string, event: ChatEvent, store: MessageStore, instant: real, now: int, io: Io,
        cursorSaveOk: bool)
      returns (verdict: Verdict)
      requires Valid()
      modifies this, outerSeen, bucket, store
      ensures Valid() && live == old(live)
      ensures verdict.NotOurs? <==> !event.isKind14 || !event.byConversationKey
      ensures verdict.DuplicateDelivery? <==>
        !verdict.NotOurs? && event.outerId in Last(old(outerSeen.accepted), OUTER_LRU_CAP)
      ensures outerSeen.accepted == if verdict.NotOurs? || verdict.DuplicateDelivery? then old(outerSeen.accepted)
                                    else old(outerSeen.accepted) + [event.outerId]
      ensures bucket.start == old(bucket.start)
      ensures bucket.arrivals == if verdict.NotOurs? || verdict.DuplicateDelivery? || !live then old(bucket.arrivals)
                                 else old(bucket.arrivals) + [instant]
      ensures verdict.OverBudget? <==>
        && !verdict.NotOurs? && !verdict.DuplicateDelivery? && live
        && |bucket.arrivals| > 0 && !Admits(bucket.start, bucket.arrivals, |bucket.arrivals| - 1)
      ensures verdict.Invalid? <==>
        !verdict.NotOurs? && !verdict.DuplicateDelivery? && !verdict.OverBudget? && event.inner.None?
      ensures verdict.NotOurs? || verdict.DuplicateDelivery? || verdict.OverBudget? || verdict.Invalid? ==>
        store.View() == old(store.View()) && cursor == old(cursor)
      ensures !(verdict.NotOurs? || verdict.DuplicateDelivery? || verdict.OverBudget? || verdict.Invalid?) ==>
        && event.inner.Some?
        && (store.View(), cursor, verdict)
             == Deliver(old(store.View()), old(cursor), channel, order, event.inner.value, event.createdAt, now, io)
      ensures savedCursor == if cursor != old(cursor) && cursorSaveOk then Some(cursor) else old(savedCursor)
      ensures consecutiveRejected ==
        if verdict.NotOurs? || verdict.DuplicateDelivery? then old(consecutiveRejected)
        else if verdict.OverBudget? || verdict.Invalid? then old(consecutiveRejected) + 1
        else 0
    {
      if !event.isKind14 {
        return NotOurs;
      }
      if !event.byConversationKey {
        return NotOurs;
      }
      var firstSeen := outerSeen.Insert(event.outerId);
      if !firstSeen {
        return DuplicateDelivery;
      }
      var affordable := BudgetOk(instant);
      if !affordable {
        return OverBudget;
      }
      if event.inner.None? {
        Reject();
        return Invalid;
      }
      consecutiveRejected := 0;
      verdict := DeliverInner(order, event.inner.value, event.createdAt, store, now, io, cursorSaveOk);
    }

    // Deduplicate, check the quota, store: the half of the handler behind the
    // envelope checks.
    method DeliverInner(order: string, inner: Inner, eventTs: int, store: MessageStore, now: int, io: Io,
        cursorSaveOk: bool)
      returns (verdict: Verdict)
      modifies this`cursor, this`savedCursor, store
      ensures (store.View(), cursor, verdict)
        == Deliver(old(store.View()), old(cursor), channel, order, inner, eventTs, now, io)
      ensures savedCursor == if cursor != old(cursor) && cursorSaveOk then Some(cursor) else old(savedCursor)
    {
      var known := store.IsKnownId(order, inner.id, io.lookupOk);
      if known.Err? {
        return LookupError;
      }
      if known.value {
        var durable := store.EnsureDurableId(order, inner.id, io.retryOk);
        if durable {
          AdvanceCursor(eventTs, now, cursorSaveOk);
        }
        return Duplicate(durable);
      }
      var exceeded := store.IsQuotaExceeded(order, RawLength(inner.payload), io.listing);
      if exceeded {
        return QuotaReached;
      }
      var stored := store.AddMessage(MessageOf(channel, order, inner), io.listing, io.saveOk);
      if stored {
        AdvanceCursor(eventTs, now, cursorSaveOk);
      }
      verdict := Stored(stored);
    }
  }
}
