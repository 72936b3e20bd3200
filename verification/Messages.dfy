// The chat message store: a write-through cache over the `messages` table.
module Messages {
  import opened Prelude

  const MAX_STORED_MESSAGES_PER_TRADE := 1000
  const MAX_STORED_BYTES_PER_TRADE := 5 * 1024 * 1024

  datatype MessageType = PeerMessage | AdminMessage | SystemMessage

  // `content` holds one character per byte.
  datatype ChatMessage = ChatMessage(
    id: string,
    tradeId: string,
    sender: string,
    content: string,
    messageType: MessageType,
    isMine: bool,
    isRead: bool,
    hasAttachment: bool,
    createdAt: int)

  // `disk` is the table, keyed by message id; it survives a restart.
  datatype Store = Store(
    messages: map<string, seq<ChatMessage>>,
    hydrated: set<string>,
    nonDurable: set<string>,
    disk: map<string, ChatMessage>,
    hasDb: bool)

  datatype LookupError = LookupFailed

  function Cached(s: Store, trade: string): seq<ChatMessage> {
    if trade in s.messages then s.messages[trade] else []
  }

  function Ids(messages: seq<ChatMessage>): set<string> {
    set m | m in messages :: m.id
  }

  function Bytes(messages: seq<ChatMessage>): nat {
    if messages == [] then 0 else Bytes(messages[..|messages| - 1]) + |messages[|messages| - 1].content|
  }

  // The first cached copy with this id.
  function Find(messages: seq<ChatMessage>, id: string): (found: Option<ChatMessage>)
    ensures found.Some? ==> found.value in messages && found.value.id == id
    ensures found.None? <==> id !in Ids(messages)
  {
    if messages == [] then None
    else if messages[0].id == id then
      assert messages[0] in messages;
      Some(messages[0])
    else
      assert messages == [messages[0]] + messages[1..];
      Find(messages[1..], id)
  }

  // The copy at `k` is the first with this id.
  ghost predicate FirstCopy(messages: seq<ChatMessage>, id: string, k: int) {
    0 <= k < |messages| && messages[k].id == id && forall j :: 0 <= j < k ==> messages[j].id != id
  }

  lemma {:induction false} FindGivesTheFirst(messages: seq<ChatMessage>, id: string) returns (k: int)
    ensures if Find(messages, id).None? then forall j :: 0 <= j < |messages| ==> messages[j].id != id
      else FirstCopy(messages, id, k) && Find(messages, id) == Some(messages[k])
  {
    k := 0;
    if messages != [] && messages[0].id != id {
      var rest := messages[1..];
      assert forall j :: 0 < j < |messages| ==> messages[j] == rest[j - 1];
      k := FindGivesTheFirst(rest, id);
      k := k + 1;
    }
  }

  // A search finds the first copy, and misses only where there is none.
  lemma FindIsTheFirst(messages: seq<ChatMessage>, id: string)
    ensures Find(messages, id).None? <==> forall j :: 0 <= j < |messages| ==> messages[j].id != id
    ensures forall k :: FirstCopy(messages, id, k) ==> Find(messages, id) == Some(messages[k])
    ensures Find(messages, id).Some? ==> exists k :: FirstCopy(messages, id, k)
  {
    var k := FindGivesTheFirst(messages, id);
  }

  // ---- What each operation does ------------------------------------------------------

  function MergeHistory(entry: seq<ChatMessage>, persisted: seq<ChatMessage>): seq<ChatMessage> {
    if persisted == [] then entry
    else
      var before, m := MergeHistory(entry, persisted[..|persisted| - 1]), persisted[|persisted| - 1];
      if m.id in Ids(before) then before else before + [m]
  }

  // `listing` is what the table returned for the trade, or None when the read
  // failed; a failed read still counts as hydration.
  function Hydrate(s: Store, trade: string, listing: Option<seq<ChatMessage>>): Store {
    if trade in s.hydrated then s
    else
      var persisted := if s.hasDb && listing.Some? then listing.value else [];
      s.(messages := s.messages[trade := MergeHistory(Cached(s, trade), persisted)],
         hydrated := s.hydrated + {trade})
  }

  // Returns whether the message is stored as durably as the platform allows.
  function Push(s: Store, m: ChatMessage, saveOk: bool): (Store, bool) {
    var stored := !s.hasDb || saveOk;
    (s.(messages := s.messages[m.tradeId := Cached(s, m.tradeId) + [m]],
        disk := if s.hasDb && saveOk then s.disk[m.id := m] else s.disk,
        nonDurable := if stored then s.nonDurable - {m.id} else s.nonDurable + {m.id}),
     stored)
  }

  function Add(s: Store, m: ChatMessage, listing: Option<seq<ChatMessage>>, saveOk: bool): (Store, bool) {
    Push(Hydrate(s, m.tradeId, listing), m, saveOk)
  }

  function IsKnown(s: Store, trade: string, id: string, lookupOk: bool): Result<bool, LookupError> {
    if id in Ids(Cached(s, trade)) then Ok(true)
    else if !s.hasDb then Ok(false)
    else if lookupOk then Ok(id in s.disk)
    else Err(LookupFailed)
  }

  function EnsureDurable(s: Store, trade: string, id: string, saveOk: bool): (Store, bool) {
    if id !in s.nonDurable then (s, true)
    else
      var copy := Find(Cached(s, trade), id);
      if !s.hasDb || copy.None? || !saveOk then (s, false)
      else (s.(disk := s.disk[id := copy.value], nonDurable := s.nonDurable - {id}), true)
  }

  predicate OverQuota(messages: seq<ChatMessage>, incomingBytes: nat) {
    |messages| >= MAX_STORED_MESSAGES_PER_TRADE || Bytes(messages) + incomingBytes > MAX_STORED_BYTES_PER_TRADE
  }

  function QuotaExceeded(s: Store, trade: string, incomingBytes: nat, listing: Option<seq<ChatMessage>>)
    : (Store, bool)
  {
    var h := Hydrate(s, trade, listing);
    (h, OverQuota(Cached(h, trade), incomingBytes))
  }

  function Read(m: ChatMessage): ChatMessage {
    m.(isRead := true)
  }

  function AllRead(messages: seq<ChatMessage>): seq<ChatMessage> {
    seq(|messages|, i requires 0 <= i < |messages| => Read(messages[i]))
  }

  function MarkAsRead(s: Store, trade: string, listing: Option<seq<ChatMessage>>, writeOk: bool): Store {
    var h := Hydrate(s, trade, listing);
    h.(messages := if trade in h.messages then h.messages[trade := AllRead(h.messages[trade])] else h.messages,
       disk := if s.hasDb && writeOk
               then map id | id in h.disk :: if h.disk[id].tradeId == trade then Read(h.disk[id]) else h.disk[id]
               else h.disk)
  }

  // ---- The durability invariant ----------------------------------------------------------

  // A listing of a trade returns its rows and nothing else.
  ghost predicate IsListing(s: Store, trade: string, listing: Option<seq<ChatMessage>>) {
    listing.Some? ==> forall m :: m in listing.value ==> m.tradeId == trade && m.id in s.disk
  }

  ghost predicate Filed(s: Store) {
    && (forall t, m :: m in Cached(s, t) ==> m.tradeId == t)
    && (forall id :: id in s.disk ==> s.disk[id].id == id)
  }

  // With a database, every cached message is on disk or marked as not durable;
  // without one nothing is ever marked.
  ghost predicate Durable(s: Store) {
    if s.hasDb then forall t, m :: m in Cached(s, t) ==> m.id in s.disk || m.id in s.nonDurable
    else s.nonDurable == {}
  }

  ghost predicate Inv(s: Store) {
    Filed(s) && Durable(s)
  }

  ghost predicate CountAndBytesKept(s: Store, s': Store, t: string) {
    |Cached(s', t)| == |Cached(s, t)| && Bytes(Cached(s', t)) == Bytes(Cached(s, t))
  }

  // What every operation leaves as it was: rows are never deleted, cached ids
  // never leave memory, hydration is never undone, and the list of a hydrated
  // trade keeps its size and its bytes unless it grows.
  ghost predicate Keeps(s: Store, s': Store) {
    && s'.hasDb == s.hasDb
    && s.disk.Keys <= s'.disk.Keys
    && s.hydrated <= s'.hydrated
    && (forall t :: Ids(Cached(s, t)) <= Ids(Cached(s', t)))
    && (forall t :: t in s.hydrated ==> CountAndBytesKept(s, s', t) || |Cached(s, t)| < |Cached(s', t)|)
  }

  lemma {:induction false} MergedHistory(entry: seq<ChatMessage>, persisted: seq<ChatMessage>)
    ensures entry <= MergeHistory(entry, persisted)
    ensures Ids(MergeHistory(entry, persisted)) == Ids(entry) + Ids(persisted)
    ensures forall m :: m in MergeHistory(entry, persisted) ==> m in entry || m in persisted
  {
    if persisted != [] {
      var n := |persisted| - 1;
      MergedHistory(entry, persisted[..n]);
      var before := MergeHistory(entry, persisted[..n]);
      assert persisted == persisted[..n] + [persisted[n]];
      IdsAppend(persisted[..n], persisted[n]);
      IdsAppend(before, persisted[n]);
    }
  }

  lemma IdsAppend(ms: seq<ChatMessage>, m: ChatMessage)
    ensures Ids(ms + [m]) == Ids(ms) + {m.id}
  {
    assert m in ms + [m];
    assert forall x :: x in ms + [m] <==> x in ms || x == m;
    assert forall x :: x in ms ==> x in ms + [m];
  }

  lemma HydrateKeepsInv(s: Store, trade: string, listing: Option<seq<ChatMessage>>)
    requires Inv(s) && IsListing(s, trade, listing)
    ensures Inv(Hydrate(s, trade, listing)) && Keeps(s, Hydrate(s, trade, listing))
    ensures Hydrate(s, trade, listing).disk == s.disk && Hydrate(s, trade, listing).nonDurable == s.nonDurable
    ensures trade in s.hydrated ==> Hydrate(s, trade, listing) == s
    ensures forall t :: t != trade ==> Cached(Hydrate(s, trade, listing), t) == Cached(s, t)
  {
    var persisted := if s.hasDb && listing.Some? then listing.value else [];
    MergedHistory(Cached(s, trade), persisted);
    var h := Hydrate(s, trade, listing);
    forall t, m | m in Cached(h, t)
      ensures m.tradeId == t && (s.hasDb ==> m.id in h.disk || m.id in h.nonDurable)
    {
      assert m in Cached(s, t) || (t == trade && m in persisted);
    }
    forall t ensures Ids(Cached(s, t)) <= Ids(Cached(h, t)) && (t in s.hydrated ==> CountAndBytesKept(s, h, t)) {
      assert t != trade ==> Cached(h, t) == Cached(s, t);
    }
  }

  lemma PushKeepsInv(s: Store, m: ChatMessage, saveOk: bool)
    requires Inv(s)
    ensures Inv(Push(s, m, saveOk).0) && Keeps(s, Push(s, m, saveOk).0)
    ensures m.id in Ids(Cached(Push(s, m, saveOk).0, m.tradeId))
  {
    var s' := Push(s, m, saveOk).0;
    assert Cached(s', m.tradeId) == Cached(s, m.tradeId) + [m];
    IdsAppend(Cached(s, m.tradeId), m);
    assert forall t :: t != m.tradeId ==> Cached(s', t) == Cached(s, t);
    forall t, c | c in Cached(s', t)
      ensures c.tradeId == t && (s.hasDb ==> c.id in s'.disk || c.id in s'.nonDurable)
    {
      assert c in Cached(s, t) || c == m;
    }
  }

  lemma KeepsTransitive(a: Store, b: Store, c: Store)
    requires Keeps(a, b) && Keeps(b, c)
    ensures Keeps(a, c)
  {
    forall t
      ensures Ids(Cached(a, t)) <= Ids(Cached(c, t))
      ensures t in a.hydrated ==> CountAndBytesKept(a, c, t) || |Cached(a, t)| < |Cached(c, t)|
    {
      assert Ids(Cached(a, t)) <= Ids(Cached(b, t)) <= Ids(Cached(c, t));
    }
  }

  lemma AddKeepsInv(s: Store, m: ChatMessage, listing: Option<seq<ChatMessage>>, saveOk: bool)
    requires Inv(s) && IsListing(s, m.tradeId, listing)
    ensures var (s', stored) := Add(s, m, listing, saveOk);
      && Inv(s') && Keeps(s, s')
      && m.id in Ids(Cached(s', m.tradeId))
      && (s.hasDb && stored ==> m.id in s'.disk)
      && (m.tradeId in s.hydrated ==> Cached(s', m.tradeId) == Cached(s, m.tradeId) + [m])
  {
    HydrateKeepsInv(s, m.tradeId, listing);
    var h := Hydrate(s, m.tradeId, listing);
    PushKeepsInv(h, m, saveOk);
    KeepsTransitive(s, h, Push(h, m, saveOk).0);
  }

  lemma EnsureDurableKeepsInv(s: Store, trade: string, id: string, saveOk: bool)
    requires Inv(s)
    ensures var (s', durable) := EnsureDurable(s, trade, id, saveOk);
      && Inv(s') && Keeps(s, s') && s'.messages == s.messages && s'.hydrated == s.hydrated
      && (durable && s.hasDb && (id in Ids(Cached(s, trade)) || id in s.disk) ==> id in s'.disk)
  {
    var s' := EnsureDurable(s, trade, id, saveOk).0;
    assert forall t :: Cached(s', t) == Cached(s, t);
    if id in Ids(Cached(s, trade)) {
      var m :| m in Cached(s, trade) && m.id == id;
    }
  }

  lemma {:induction false} AllReadKeepsContent(ms: seq<ChatMessage>)
    ensures |AllRead(ms)| == |ms| && Bytes(AllRead(ms)) == Bytes(ms)
    ensures Ids(AllRead(ms)) == Ids(ms)
  {
    if ms != [] {
      var before := ms[..|ms| - 1];
      AllReadKeepsContent(before);
      assert AllRead(ms)[..|ms| - 1] == AllRead(before);
      assert AllRead(ms) == AllRead(before) + [Read(ms[|ms| - 1])];
      IdsAppend(AllRead(before), Read(ms[|ms| - 1]));
      IdsAppend(before, ms[|ms| - 1]);
      assert ms == before + [ms[|ms| - 1]];
    }
  }

  lemma MarkAsReadKeepsInv(s: Store, trade: string, listing: Option<seq<ChatMessage>>, writeOk: bool)
    requires Inv(s) && IsListing(s, trade, listing)
    ensures var s' := MarkAsRead(s, trade, listing, writeOk); var h := Hydrate(s, trade, listing);
      && Inv(s') && Keeps(s, s')
      && s'.nonDurable == s.nonDurable && s'.disk.Keys == s.disk.Keys
      && (forall t :: Ids(Cached(s', t)) == Ids(Cached(h, t)) && CountAndBytesKept(h, s', t))
  {
    HydrateKeepsInv(s, trade, listing);
    var h := Hydrate(s, trade, listing);
    var s' := MarkAsRead(s, trade, listing, writeOk);
    AllReadKeepsContent(Cached(h, trade));
    forall t ensures Ids(Cached(s', t)) == Ids(Cached(h, t)) && CountAndBytesKept(h, s', t)
      ensures t in s.hydrated ==> CountAndBytesKept(s, s', t)
      ensures forall m :: m in Cached(s', t) ==> m.tradeId == t
    {
      if t != trade {
        assert Cached(s', t) == Cached(h, t);
      }
    }
    forall t, m | m in Cached(s', t) ensures s.hasDb ==> m.id in s'.disk || m.id in s'.nonDurable {
      assert m.id in Ids(Cached(h, t));
      var c :| c in Cached(h, t) && c.id == m.id;
    }
  }

  class MessageStore {
    var messages: map<string, seq<ChatMessage>>
    var hydrated: set<string>
    var nonDurable: set<string>
    var disk: map<string, ChatMessage>
    const hasDb: bool

    ghost function View(): Store
      reads this
    {
      Store(messages, hydrated, nonDurable, disk, hasDb)
    }

    // A process starts with an empty cache over whatever is on disk.
    constructor (hasDb: bool, disk: map<string, ChatMessage>)
      ensures View() == Store(map[], {}, {}, disk, hasDb)
    {
      this.messages, this.hydrated, this.nonDurable := map[], {}, {};
      this.disk := disk;
      this.hasDb := hasDb;
    }

    method EnsureHydrated(trade: string, listing: Option<seq<ChatMessage>>)
      modifies this
      ensures View() == Hydrate(old(View()), trade, listing)
    {
      if trade in hydrated {
        return;
      }
      var persisted := if hasDb && listing.Some? then listing.value else [];
      var entry := if trade in messages then messages[trade] else [];
      ghost var cached := entry;
      for i := 0 to |persisted|
        invariant entry == MergeHistory(cached, persisted[..i])
      {
        assert persisted[..i + 1][..i] == persisted[..i];
        if persisted[i].id !in Ids(entry) {
          entry := entry + [persisted[i]];
        }
      }
      assert persisted[..|persisted|] == persisted;
      messages := messages[trade := entry];
      hydrated := hydrated + {trade};
    }

    method AddMessage(m: ChatMessage, listing: Option<seq<ChatMessage>>, saveOk: bool) returns (stored: bool)
      modifies this
      ensures (View(), stored) == Add(old(View()), m, listing, saveOk)
    {
      EnsureHydrated(m.tradeId, listing);
      messages := messages[m.tradeId := (if m.tradeId in messages then messages[m.tradeId] else []) + [m]];
      if hasDb {
        if saveOk {
          disk := disk[m.id := m];
        }
        stored := saveOk;
      } else {
        stored := true;
      }
      if stored {
        nonDurable := nonDurable - {m.id};
      } else {
        nonDurable := nonDurable + {m.id};
      }
    }

    method IsKnownId(trade: string, id: string, lookupOk: bool) returns (known: Result<bool, LookupError>)
      ensures known == IsKnown(View(), trade, id, lookupOk)
    {
      if trade in messages {
        if id in Ids(messages[trade]) {
          return Ok(true);
        }
      }
      if !hasDb {
        return Ok(false);
      }
      if !lookupOk {
        return Err(LookupFailed);
      }
      known := Ok(id in disk);
    }

    // True only if the already known id is on disk, retrying a failed write.
    method EnsureDurableId(trade: string, id: string, saveOk: bool) returns (durable: bool)
      modifies this
      ensures (View(), durable) == EnsureDurable(old(View()), trade, id, saveOk)
    {
      if id !in nonDurable {
        return true;
      }
      var copy := Find(if trade in messages then messages[trade] else [], id);
      if !hasDb || copy.None? {
        return false;
      }
      if !saveOk {
        return false;
      }
      disk := disk[id := copy.value];
      nonDurable := nonDurable - {id};
      durable := true;
    }

    method IsQuotaExceeded(trade: string, incomingBytes: nat, listing: Option<seq<ChatMessage>>)
        returns (exceeded: bool)
      modifies this
      ensures (View(), exceeded) == QuotaExceeded(old(View()), trade, incomingBytes, listing)
    {
      EnsureHydrated(trade, listing);
      var msgs := if trade in messages then messages[trade] else [];
      if |msgs| >= MAX_STORED_MESSAGES_PER_TRADE {
        return true;
      }
      exceeded := Bytes(msgs) + incomingBytes > MAX_STORED_BYTES_PER_TRADE;
    }

    method MarkTradeAsRead(trade: string, listing: Option<seq<ChatMessage>>, writeOk: bool)
      modifies this
      ensures View() == MarkAsRead(old(View()), trade, listing, writeOk)
    {
      EnsureHydrated(trade, listing);
      if trade in messages {
        var msgs := messages[trade];
        for i := 0 to |msgs|
          invariant |msgs| == |messages[trade]|
          invariant msgs == AllRead(messages[trade][..i]) + messages[trade][i..]
        {
          msgs := msgs[i := Read(msgs[i])];
        }
        assert messages[trade][..|msgs|] == messages[trade];
        assert msgs == AllRead(messages[trade]);
        messages := messages[trade := msgs];
      }
      if hasDb && writeOk {
        disk := map id | id in disk :: if disk[id].tradeId == trade then Read(disk[id]) else disk[id];
      }
    }
  }
}
