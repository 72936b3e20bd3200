// The replaying stream of unread messages behind the notification cards.
module Notifications {
  import opened Prelude
  import opened Text
  import opened Messages

  predicate IsCandidate(m: ChatMessage) {
    !m.isMine && !m.isRead && m.messageType != SystemMessage
  }

  // Said by its fields: incoming, unread, and from the peer or the solver.
  ghost predicate Notifies(m: ChatMessage) {
    && m.isMine == false && m.isRead == false
    && (m.messageType == PeerMessage || m.messageType == AdminMessage)
  }

  lemma CandidatesNotify(m: ChatMessage)
    ensures IsCandidate(m) <==> Notifies(m)
  {
  }

  // ---- Order ---------------------------------------------------------------------

  predicate Before(a: ChatMessage, b: ChatMessage) {
    a.createdAt < b.createdAt || (a.createdAt == b.createdAt && Below(a.id, b.id))
  }

  ghost predicate Sorted(s: seq<ChatMessage>) {
    forall i, j :: 0 <= i < j < |s| ==> Before(s[i], s[j])
  }

  // By time, and within one second by id.
  ghost predicate OldestFirst(s: seq<ChatMessage>) {
    forall i, j :: 0 <= i < j < |s| ==>
      && s[i].createdAt <= s[j].createdAt
      && (s[i].createdAt == s[j].createdAt ==> exists k :: DiffersAt(s[i].id, s[j].id, k))
  }

  lemma SortedIsOldestFirst(s: seq<ChatMessage>)
    requires Sorted(s)
    ensures OldestFirst(s)
  {
    forall i, j | 0 <= i < j < |s| && s[i].createdAt == s[j].createdAt
      ensures exists k :: DiffersAt(s[i].id, s[j].id, k)
    {
      BelowExactly(s[i].id, s[j].id);
    }
  }

  lemma BeforeTransitive(a: ChatMessage, b: ChatMessage, c: ChatMessage)
    requires Before(a, b) && Before(b, c)
    ensures Before(a, c)
  {
    if a.createdAt == b.createdAt == c.createdAt {
      BelowTransitive(a.id, b.id, c.id);
    }
  }

  lemma OneComesBefore(a: ChatMessage, b: ChatMessage)
    requires a.id != b.id
    ensures Before(a, b) || Before(b, a)
  {
    BelowTotal(a.id, b.id);
  }

  function InsertSorted(m: ChatMessage, s: seq<ChatMessage>): seq<ChatMessage> {
    if s == [] || Before(m, s[0]) then [m] + s else [s[0]] + InsertSorted(m, s[1..])
  }

  lemma {:induction false} InsertKeepsSorted(m: ChatMessage, s: seq<ChatMessage>)
    requires Sorted(s) && forall x :: x in s ==> x.id != m.id
    ensures Sorted(InsertSorted(m, s))
    ensures forall x :: x in InsertSorted(m, s) <==> x in s || x == m
  {
    if s == [] {
    } else if Before(m, s[0]) {
      forall j | 0 <= j < |s| ensures Before(m, s[j]) {
        if j > 0 {
          BeforeTransitive(m, s[0], s[j]);
        }
      }
    } else {
      assert s == [s[0]] + s[1..];
      InsertKeepsSorted(m, s[1..]);
      OneComesBefore(m, s[0]);
      var rest := InsertSorted(m, s[1..]);
      forall j | 0 <= j < |rest| ensures Before(s[0], rest[j]) {
        assert rest[j] in rest;
      }
    }
  }

  // ---- The backlog -----------------------------------------------------------------

  // Cached copies of one id agree on whether and how they notify; they do when
  // ids are unique.
  ghost predicate CopiesAgree(s: Store) {
    forall t, u, m, n :: m in Cached(s, t) && n in Cached(s, u) && m.id == n.id ==>
      (IsCandidate(m) <==> IsCandidate(n)) && (IsCandidate(m) ==> m == n)
  }

  ghost predicate IsCached(s: Store, m: ChatMessage) {
    exists t :: t in s.messages && m in s.messages[t]
  }

  ghost predicate IdIsCached(s: Store, id: string) {
    exists m :: IsCached(s, m) && m.id == id
  }

  // The unread rows, in any order.
  ghost predicate IsUnreadListing(s: Store, rows: seq<ChatMessage>) {
    forall m :: m in rows <==> m.id in s.disk && s.disk[m.id] == m && !m.isRead
  }

  // An unread incoming message that is not the system's, of memory or of disk;
  // memory wins.
  ghost predicate InBacklog(s: Store, m: ChatMessage) {
    Notifies(m) && (IsCached(s, m) || (m.id in s.disk && s.disk[m.id] == m && !IdIsCached(s, m.id)))
  }

  // The whole backlog and nothing else, in order; no id occurs twice.
  ghost predicate IsBacklogOf(s: Store, backlog: seq<ChatMessage>) {
    && OldestFirst(backlog)
    && (forall m :: m in backlog <==> InBacklog(s, m))
    && (forall i, j :: 0 <= i < j < |backlog| ==> backlog[i].id != backlog[j].id)
  }

  // What the map of unread messages holds for `id` once the `seen` cached copies
  // were visited.
  ghost predicate MergedAt(s: Store, seen: set<ChatMessage>, byId: map<string, ChatMessage>, id: string) {
    && (id in byId ==> byId[id].id == id)
    && (forall m :: m in seen && m.id == id ==> (id in byId <==> IsCandidate(m)) && (IsCandidate(m) ==> byId[id] == m))
    && ((forall m :: m in seen ==> m.id != id) ==>
          (id in byId <==> id in s.disk && !s.disk[id].isRead) && (id in byId ==> byId[id] == s.disk[id]))
  }

  ghost predicate Merged(s: Store, seen: set<ChatMessage>, byId: map<string, ChatMessage>) {
    forall id :: MergedAt(s, seen, byId, id)
  }

  predicate Selects(byId: map<string, ChatMessage>, m: ChatMessage) {
    m.id in byId && byId[m.id] == m && IsCandidate(m)
  }

  // Rows come back in any order; visiting them builds a map by id.
  method MapById(ghost s: Store, rows: seq<ChatMessage>) returns (byId: map<string, ChatMessage>)
    requires IsUnreadListing(s, rows) && Messages.Filed(s)
    ensures Merged(s, {}, byId)
  {
    byId := map[];
    for i := 0 to |rows|
      invariant forall id :: id in byId ==> id in s.disk && byId[id] == s.disk[id] && !s.disk[id].isRead
      invariant forall j :: 0 <= j < i ==> rows[j].id in byId
    {
      assert rows[i] in rows;
      byId := byId[rows[i].id := rows[i]];
    }
    forall id | id in s.disk && !s.disk[id].isRead ensures id in byId {
      assert s.disk[id] in rows;
    }
  }

  method SortById(byId: map<string, ChatMessage>) returns (sorted: seq<ChatMessage>)
    requires forall id :: id in byId ==> byId[id].id == id
    ensures Sorted(sorted)
    ensures forall i, j :: 0 <= i < j < |sorted| ==> sorted[i].id != sorted[j].id
    ensures forall m: ChatMessage :: m in sorted <==> Selects(byId, m)
  {
    sorted := [];
    var todo := byId.Keys;
    while todo != {}
      invariant todo <= byId.Keys
      invariant Sorted(sorted)
      invariant forall m :: m in sorted <==> m.id in byId && m.id !in todo && byId[m.id] == m && IsCandidate(m)
    {
      var id :| id in todo;
      todo := todo - {id};
      if IsCandidate(byId[id]) {
        InsertKeepsSorted(byId[id], sorted);
        sorted := InsertSorted(byId[id], sorted);
      }
    }
    forall i, j | 0 <= i < j < |sorted| ensures sorted[i].id != sorted[j].id {
      assert sorted[i] in sorted && sorted[j] in sorted;
      BelowIrreflexive(sorted[i].id);
    }
  }

  // Visiting one more cached copy.
  lemma MergeOne(s: Store, seen: set<ChatMessage>, byId: map<string, ChatMessage>, m: ChatMessage)
    requires Merged(s, seen, byId)
    requires forall n :: n in seen && n.id == m.id ==>
      (IsCandidate(n) <==> IsCandidate(m)) && (IsCandidate(n) ==> n == m)
    ensures Merged(s, seen + {m}, if IsCandidate(m) then byId[m.id := m] else byId - {m.id})
  {
    var byId' := if IsCandidate(m) then byId[m.id := m] else byId - {m.id};
    forall id ensures MergedAt(s, seen + {m}, byId', id) {
      assert MergedAt(s, seen, byId, id);
      if id == m.id {
        assert m in seen + {m};
      } else {
        assert forall n: ChatMessage :: n.id == id ==> (n in seen + {m} <==> n in seen);
      }
    }
  }

  lemma AgreesWithSeen(s: Store, seen: set<ChatMessage>, trade: string, m: ChatMessage)
    requires CopiesAgree(s) && m in Cached(s, trade)
    requires forall n :: n in seen ==> IsCached(s, n)
    ensures forall n :: n in seen && n.id == m.id ==>
      (IsCandidate(n) <==> IsCandidate(m)) && (IsCandidate(n) ==> n == m)
  {
    forall n | n in seen && n.id == m.id
      ensures (IsCandidate(n) <==> IsCandidate(m)) && (IsCandidate(n) ==> n == m)
    {
      assert IsCached(s, n);
      var u :| u in s.messages && n in s.messages[u];
      assert n in Cached(s, u);
    }
  }

  lemma MergedIsBacklog(s: Store, seen: set<ChatMessage>, byId: map<string, ChatMessage>)
    requires Messages.Filed(s) && Merged(s, seen, byId)
    requires forall m :: m in seen <==> IsCached(s, m)
    ensures forall id :: id in byId ==> byId[id].id == id
    ensures forall m: ChatMessage :: Selects(byId, m) <==> InBacklog(s, m)
  {
    forall id | id in byId ensures byId[id].id == id {
      assert MergedAt(s, seen, byId, id);
    }
    forall m: ChatMessage ensures Selects(byId, m) <==> InBacklog(s, m) {
      if IdIsCached(s, m.id) {
        var c :| IsCached(s, c) && c.id == m.id;
        assert c in seen;
        assert MergedAt(s, seen, byId, m.id);
        if IsCached(s, m) {
          assert m in seen;
        }
      } else {
        assert MergedAt(s, seen, byId, m.id);
        forall x | x in seen ensures x.id != m.id {
          assert IsCached(s, x);
        }
      }
    }
  }

  // Exactly the backlog, oldest first and each id once, or an error when the
  // unread rows could not be read. The rows come from the table as it was when
  // the query began, `table`; the cache is read after it.
  method NotificationBacklog(store: MessageStore, rows: Option<seq<ChatMessage>>, ghost table: map<string, ChatMessage>)
    returns (r: Result<seq<ChatMessage>, LookupError>)
    requires Messages.Filed(store.View().(disk := table)) && CopiesAgree(store.View())
    requires rows.Some? ==> IsUnreadListing(store.View().(disk := table), rows.value)
    requires !store.hasDb ==> table == map[]
    ensures r.Err? <==> store.hasDb && rows.None?
    ensures r.Ok? ==> IsBacklogOf(store.View().(disk := table), r.value)
  {
    ghost var s := store.View().(disk := table);
    if store.hasDb && rows.None? {
      return Err(LookupFailed);
    }
    var persisted := if store.hasDb then rows.value else [];
    assert IsUnreadListing(s, persisted);
    assert forall t :: Cached(s, t) == Cached(store.View(), t);
    var byId := MapById(s, persisted);
    ghost var seen: set<ChatMessage> := {};
    var todo := store.messages.Keys;
    while todo != {}
      invariant todo <= store.messages.Keys
      invariant forall m :: m in seen <==> exists t :: t in store.messages && t !in todo && m in store.messages[t]
      invariant Merged(s, seen, byId)
    {
      var trade :| trade in todo;
      todo := todo - {trade};
      var msgs := store.messages[trade];
      ghost var before := seen;
      for i := 0 to |msgs|
        invariant forall m :: m in seen <==> m in before || m in msgs[..i]
        invariant Merged(s, seen, byId)
      {
        AgreesWithSeen(s, seen, trade, msgs[i]);
        MergeOne(s, seen, byId, msgs[i]);
        byId := if IsCandidate(msgs[i]) then byId[msgs[i].id := msgs[i]] else byId - {msgs[i].id};
        assert msgs[..i + 1] == msgs[..i] + [msgs[i]];
        seen := seen + {msgs[i]};
      }
      assert msgs[..|msgs|] == msgs;
    }
    MergedIsBacklog(s, seen, byId);
    var sorted := SortById(byId);
    SortedIsOldestFirst(sorted);
    r := Ok(sorted);
  }
}
