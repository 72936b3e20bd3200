// What each operation of the message store leaves, read off its lists and rows.
module StoreEffects {
  import opened Prelude
  import opened Messages

  ghost predicate HasCopy(s: Store, trade: string, id: string) {
    exists k :: FirstCopy(Cached(s, trade), id, k)
  }

  lemma CopyIsInIds(s: Store, trade: string, id: string)
    ensures HasCopy(s, trade, id) <==> id in Ids(Cached(s, trade))
  {
    FindIsTheFirst(Cached(s, trade), id);
  }

  // Nothing else of the store moves than the list of this trade.
  ghost predicate OnlyListMoves(s: Store, s': Store, trade: string) {
    && s'.hasDb == s.hasDb && s'.disk == s.disk && s'.nonDurable == s.nonDurable
    && forall t :: t != trade ==> Cached(s', t) == Cached(s, t)
  }

  // ---- Hydration --------------------------------------------------------------------

  // A row the cache lacks, and the first of its id.
  ghost predicate IsMissing(entry: seq<ChatMessage>, rows: seq<ChatMessage>, k: nat)
    requires k < |rows|
  {
    && (forall j :: 0 <= j < |entry| ==> entry[j].id != rows[k].id)
    && (forall j :: 0 <= j < k ==> rows[j].id != rows[k].id)
  }

  // The missing ones of the first `n` rows, in their order.
  ghost function Missing(entry: seq<ChatMessage>, rows: seq<ChatMessage>, n: nat): seq<ChatMessage>
    requires n <= |rows|
  {
    if n == 0 then []
    else Missing(entry, rows, n - 1) + if IsMissing(entry, rows, n - 1) then [rows[n - 1]] else []
  }

  lemma {:induction false} MergeAppendsMissing(entry: seq<ChatMessage>, rows: seq<ChatMessage>, n: nat)
    requires n <= |rows|
    ensures MergeHistory(entry, rows[..n]) == entry + Missing(entry, rows, n)
  {
    if n > 0 {
      MergeAppendsMissing(entry, rows, n - 1);
      MergeOneMore(entry, rows, n - 1);
    }
  }

  lemma MergeOneMore(entry: seq<ChatMessage>, rows: seq<ChatMessage>, n: nat)
    requires n < |rows|
    ensures MergeHistory(entry, rows[..n + 1])
      == MergeHistory(entry, rows[..n]) + if IsMissing(entry, rows, n) then [rows[n]] else []
  {
    assert rows[..n + 1][..n] == rows[..n];
    MergedHistory(entry, rows[..n]);
    SeenOrMissing(entry, rows, n);
  }

  lemma SeenOrMissing(entry: seq<ChatMessage>, rows: seq<ChatMessage>, k: nat)
    requires k < |rows|
    ensures IsMissing(entry, rows, k) <==> rows[k].id !in Ids(entry) + Ids(rows[..k])
  {
    assert forall j :: 0 <= j < |entry| ==> entry[j].id in Ids(entry);
    assert forall j :: 0 <= j < k ==> rows[..k][j].id in Ids(rows[..k]);
  }

  // The first touch of a trade keeps what is cached and appends, in the listing's
  // order, the rows it lacks; a failed listing brings nothing.
  lemma FirstTouchBringsMissing(s: Store, trade: string, listing: Option<seq<ChatMessage>>)
    requires trade !in s.hydrated
    ensures var s' := Hydrate(s, trade, listing);
      var rows := if s.hasDb && listing.Some? then listing.value else [];
      && OnlyListMoves(s, s', trade) && s'.hydrated == s.hydrated + {trade}
      && Cached(s', trade) == Cached(s, trade) + Missing(Cached(s, trade), rows, |rows|)
  {
    var rows := if s.hasDb && listing.Some? then listing.value else [];
    MergeAppendsMissing(Cached(s, trade), rows, |rows|);
    assert rows[..|rows|] == rows;
  }

  // ---- Lookup -----------------------------------------------------------------------

  // Memory is asked first, the table next; only a table that cannot answer errs.
  lemma KnownExactly(s: Store, trade: string, id: string, lookupOk: bool)
    ensures var r := IsKnown(s, trade, id, lookupOk);
      && (r.Err? <==> !HasCopy(s, trade, id) && s.hasDb && !lookupOk)
      && (r.Ok? ==> (r.value <==> HasCopy(s, trade, id) || (s.hasDb && id in s.disk)))
  {
    CopyIsInIds(s, trade, id);
  }

  // ---- Adding -----------------------------------------------------------------------

  // The message is the newest of its trade's list whether or not its row was
  // written; what was not written though there is a table is marked.
  lemma AddedExactly(s: Store, m: ChatMessage, listing: Option<seq<ChatMessage>>, saveOk: bool)
    ensures var h := Hydrate(s, m.tradeId, listing); var (s', stored) := Add(s, m, listing, saveOk);
      && (stored <==> !s.hasDb || saveOk)
      && Cached(s', m.tradeId) == Cached(h, m.tradeId) + [m]
      && (forall t :: t != m.tradeId ==> Cached(s', t) == Cached(s, t))
      && s'.hydrated == s.hydrated + {m.tradeId} && s'.hasDb == s.hasDb
      && s'.disk == (if s.hasDb && saveOk then s.disk[m.id := m] else s.disk)
      && (m.id in s'.nonDurable <==> s.hasDb && !saveOk)
      && s'.nonDurable - {m.id} == s.nonDurable - {m.id}
  {
  }

  // ---- Retrying ---------------------------------------------------------------------

  // A marked id becomes durable exactly when there is a table, a cached copy and
  // the write works; its first copy is the row written then.
  lemma DurableExactly(s: Store, trade: string, id: string, saveOk: bool)
    ensures var (s', durable) := EnsureDurable(s, trade, id, saveOk); var copies := Cached(s, trade);
      && (durable <==> id !in s.nonDurable || (s.hasDb && HasCopy(s, trade, id) && saveOk))
      && (id !in s.nonDurable || !durable ==> s' == s)
      && (id in s.nonDurable && durable ==>
            forall k :: FirstCopy(copies, id, k) ==>
              s' == s.(disk := s.disk[id := copies[k]], nonDurable := s.nonDurable - {id}))
  {
    FindIsTheFirst(Cached(s, trade), id);
  }

  // ---- Reading ----------------------------------------------------------------------

  ghost predicate SameButRead(m: ChatMessage, r: ChatMessage) {
    r == ChatMessage(m.id, m.tradeId, m.sender, m.content, m.messageType, m.isMine, true, m.hasAttachment, m.createdAt)
  }

  // Every cached message of the trade is read afterwards, and every row of it where
  // the write works; nothing else about them changes, and no other trade does.
  lemma TradeIsRead(s: Store, trade: string, listing: Option<seq<ChatMessage>>, writeOk: bool)
    ensures var s' := MarkAsRead(s, trade, listing, writeOk); var was := Cached(Hydrate(s, trade, listing), trade);
      && |Cached(s', trade)| == |was|
      && (forall i :: 0 <= i < |was| ==> SameButRead(was[i], Cached(s', trade)[i]))
      && (forall t :: t != trade ==> Cached(s', t) == Cached(s, t))
      && s'.hydrated == s.hydrated + {trade} && s'.nonDurable == s.nonDurable && s'.hasDb == s.hasDb
      && s'.disk.Keys == s.disk.Keys
      && (forall id :: id in s.disk ==>
            if s.hasDb && writeOk && s.disk[id].tradeId == trade then SameButRead(s.disk[id], s'.disk[id])
            else s'.disk[id] == s.disk[id])
  {
  }
}
