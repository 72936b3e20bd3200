// The retention caps, for what is stored of a trade.
module ChatCaps {
  import opened Prelude
  import opened Messages
  import opened ChatReceive
  import opened ChatRuns

  // The stored rows of a trade, and the bytes of some rows.
  function RowsOf(s: Store, trade: string): set<string> {
    set id | id in s.disk && s.disk[id].tradeId == trade
  }

  ghost function RowBytes(disk: map<string, ChatMessage>, rows: set<string>): nat
    requires rows <= disk.Keys
  {
    if rows == {} then 0 else var id :| id in rows; |disk[id].content| + RowBytes(disk, rows - {id})
  }

  // A listing that misses no row of the trade and returns each as it is; a failed
  // read misses nothing only where there is nothing.
  predicate ListsAll(s: Store, trade: string, listing: Option<seq<ChatMessage>>) {
    var rows := if listing.Some? then listing.value else [];
    && (forall m :: m in rows ==> m.id in s.disk && s.disk[m.id] == m)
    && (forall id :: id in s.disk && s.disk[id].tradeId == trade ==> s.disk[id] in rows)
  }

  // The history of the trade was hydrated in this process by a complete listing.
  ghost predicate FullyRead(hasDb: bool, run: seq<Step>, trade: string) {
    if run == [] then false
    else
      var before, step := run[..|run| - 1], run[|run| - 1];
      && !step.Restart?
      && (|| FullyRead(hasDb, before, trade)
          || (trade !in After(hasDb, before).store.hydrated
              && trade in After(hasDb, run).store.hydrated
              && ListsAll(After(hasDb, before).store, trade, ListingOf(step))))
  }

  // ---- The invariant ----------------------------------------------------------------

  // Nothing is cached of a trade that was never hydrated.
  ghost predicate Tracked(s: Store) {
    forall t :: t !in s.hydrated ==> Cached(s, t) == []
  }

  // Every row of the trade has a cached copy of the same content.
  ghost predicate RowsCached(s: Store, trade: string) {
    forall id :: id in RowsOf(s, trade) ==> HasCopy(Cached(s, trade), id, s.disk[id].content)
  }

  ghost predicate HasCopy(list: seq<ChatMessage>, id: string, content: string) {
    exists m :: m in list && m.id == id && m.content == content
  }

  lemma HydrateCaches(s: Store, trade: string, listing: Option<seq<ChatMessage>>, t: string)
    requires Filed(s) && Tracked(s)
    ensures Tracked(Hydrate(s, trade, listing))
    ensures RowsCached(s, t) && t in s.hydrated ==> RowsCached(Hydrate(s, trade, listing), t)
    ensures s.hasDb && trade !in s.hydrated && ListsAll(s, trade, listing) ==>
      RowsCached(Hydrate(s, trade, listing), trade)
  {
    var h := Hydrate(s, trade, listing);
    assert forall u :: u != trade ==> Cached(h, u) == Cached(s, u);
    assert RowsOf(h, t) == RowsOf(s, t);
    if s.hasDb && trade !in s.hydrated && ListsAll(s, trade, listing) {
      var rows := if listing.Some? then listing.value else [];
      MergedHistory([], rows);
      assert Cached(h, trade) == MergeHistory([], rows);
      forall id | id in RowsOf(h, trade) ensures HasCopy(Cached(h, trade), id, h.disk[id].content) {
        assert s.disk[id] in rows;
        assert id in Ids(rows);
        var m :| m in Cached(h, trade) && m.id == id;
        assert m in rows;
      }
    }
  }

  lemma PushCaches(s: Store, m: ChatMessage, saveOk: bool, t: string)
    requires Filed(s) && Tracked(s) && m.tradeId in s.hydrated
    ensures Tracked(Push(s, m, saveOk).0)
    ensures RowsCached(s, t) ==> RowsCached(Push(s, m, saveOk).0, t)
  {
    var s' := Push(s, m, saveOk).0;
    assert forall u :: u != m.tradeId ==> Cached(s', u) == Cached(s, u);
    assert Cached(s', m.tradeId) == Cached(s, m.tradeId) + [m];
    if RowsCached(s, t) {
      forall id | id in RowsOf(s', t) ensures HasCopy(Cached(s', t), id, s'.disk[id].content) {
        if s'.disk[id] == m {
          assert m in Cached(s', t);
        } else {
          assert id in RowsOf(s, t);
          var c :| c in Cached(s, t) && c.id == id && c.content == s.disk[id].content;
          assert c in Cached(s', t);
        }
      }
    }
  }

  lemma EnsureDurableCaches(s: Store, trade: string, id: string, saveOk: bool, t: string)
    requires Filed(s) && Tracked(s)
    ensures Tracked(EnsureDurable(s, trade, id, saveOk).0)
    ensures RowsCached(s, t) ==> RowsCached(EnsureDurable(s, trade, id, saveOk).0, t)
  {
    var s' := EnsureDurable(s, trade, id, saveOk).0;
    assert forall u :: Cached(s', u) == Cached(s, u);
    if RowsCached(s, t) {
      forall row | row in RowsOf(s', t) ensures HasCopy(Cached(s', t), row, s'.disk[row].content) {
        if s'.disk != s.disk && row == id {
          var copy := Find(Cached(s, trade), id);
          assert copy.value in Cached(s, trade) && copy.value.tradeId == trade;
        } else {
          assert row in RowsOf(s, t);
        }
      }
    }
  }

  lemma MarkAsReadCaches(s: Store, trade: string, listing: Option<seq<ChatMessage>>, writeOk: bool, t: string)
    requires Filed(s) && Tracked(s)
    ensures Tracked(MarkAsRead(s, trade, listing, writeOk))
    ensures RowsCached(Hydrate(s, trade, listing), t) ==> RowsCached(MarkAsRead(s, trade, listing, writeOk), t)
  {
    HydrateCaches(s, trade, listing, t);
    var h, s' := Hydrate(s, trade, listing), MarkAsRead(s, trade, listing, writeOk);
    assert forall u :: u != trade ==> Cached(s', u) == Cached(h, u);
    if RowsCached(h, t) {
      forall id | id in RowsOf(s', t) ensures HasCopy(Cached(s', t), id, s'.disk[id].content) {
        assert id in RowsOf(h, t);
        CopyIsRead(h, s', trade, t, id, h.disk[id].content);
      }
    }
  }

  lemma CopyIsRead(h: Store, s': Store, trade: string, t: string, id: string, content: string)
    requires HasCopy(Cached(h, t), id, content)
    requires Cached(s', t) == if t == trade then AllRead(Cached(h, t)) else Cached(h, t)
    ensures HasCopy(Cached(s', t), id, content)
  {
    var k :| 0 <= k < |Cached(h, t)| && Cached(h, t)[k].id == id && Cached(h, t)[k].content == content;
    assert Cached(s', t)[k] in Cached(s', t);
  }

  // What an operation that may hydrate `trade` by `listing` leaves cached.
  ghost predicate LeavesCached(s: Store, s': Store, trade: string, listing: Option<seq<ChatMessage>>) {
    && Tracked(s')
    && forall t :: IsCachedThen(s, t, trade, listing) ==> RowsCached(s', t)
  }

  ghost predicate IsCachedThen(s: Store, t: string, trade: string, listing: Option<seq<ChatMessage>>) {
    || (t in s.hydrated && RowsCached(s, t))
    || (s.hasDb && t == trade && t !in s.hydrated && ListsAll(s, trade, listing))
  }

  lemma AddLeavesCached(s: Store, m: ChatMessage, listing: Option<seq<ChatMessage>>, saveOk: bool)
    requires Messages.Inv(s) && Tracked(s) && IsListing(s, m.tradeId, listing)
    ensures LeavesCached(s, Hydrate(s, m.tradeId, listing), m.tradeId, listing)
    ensures LeavesCached(s, Add(s, m, listing, saveOk).0, m.tradeId, listing)
  {
    var h := Hydrate(s, m.tradeId, listing);
    HydrateKeepsInv(s, m.tradeId, listing);
    HydrateCaches(s, m.tradeId, listing, m.tradeId);
    forall t | IsCachedThen(s, t, m.tradeId, listing) ensures RowsCached(h, t) && RowsCached(Push(h, m, saveOk).0, t) {
      HydrateCaches(s, m.tradeId, listing, t);
      PushCaches(h, m, saveOk, t);
    }
    PushCaches(h, m, saveOk, m.tradeId);
  }

  lemma HydrateLeavesCached(s: Store, trade: string, listing: Option<seq<ChatMessage>>, writeOk: bool)
    requires Messages.Inv(s) && Tracked(s)
    ensures LeavesCached(s, Hydrate(s, trade, listing), trade, listing)
    ensures LeavesCached(s, MarkAsRead(s, trade, listing, writeOk), trade, listing)
  {
    MarkAsReadCaches(s, trade, listing, writeOk, trade);
    forall t | IsCachedThen(s, t, trade, listing)
      ensures RowsCached(Hydrate(s, trade, listing), t) && RowsCached(MarkAsRead(s, trade, listing, writeOk), t)
    {
      HydrateCaches(s, trade, listing, t);
      MarkAsReadCaches(s, trade, listing, writeOk, t);
    }
  }

  lemma EnsureDurableLeavesCached(s: Store, trade: string, id: string, saveOk: bool)
    requires Messages.Inv(s) && Tracked(s)
    ensures LeavesCached(s, EnsureDurable(s, trade, id, saveOk).0, trade, None)
  {
    EnsureDurableCaches(s, trade, id, saveOk, trade);
    forall t | IsCachedThen(s, t, trade, None) ensures RowsCached(EnsureDurable(s, trade, id, saveOk).0, t) {
      EnsureDurableCaches(s, trade, id, saveOk, t);
    }
  }

  lemma StepLeavesCached(sys: System, step: Step)
    requires Reliable(sys) && Tracked(sys.store) && Plausible(sys, step) && !step.Restart?
    ensures Next(sys, step).store == sys.store
      || LeavesCached(sys.store, Next(sys, step).store, TradeOf(sys, step), ListingOf(step))
  {
    StoreOf(sys, step);
    var s, s' := sys.store, Next(sys, step).store;
    if s' != s {
      match step
      case Retry(g, saveOk, _) =>
        EnsureDurableLeavesCached(s, sys.tasks[g].chat.order, sys.tasks[g].phase.id, saveOk);
        assert LeavesCached(s, s', "", None);
      case CheckQuota(_, listing) => HydrateLeavesCached(s, TradeOf(sys, step), listing, true);
      case Commit(g, listing, saveOk, _) =>
        var chat := sys.tasks[g].chat;
        AddLeavesCached(s, MessageOf(chat.channel, chat.order, sys.tasks[g].phase.inner), listing, saveOk);
      case Send(m, listing, saveOk) => AddLeavesCached(s, m, listing, saveOk);
      case ReadTrade(trade, listing, writeOk) => HydrateLeavesCached(s, trade, listing, writeOk);
      case OpenTrade(trade, listing) => HydrateLeavesCached(s, trade, listing, true);
      case _ =>
    }
  }

  lemma HydratedBy(sys: System, step: Step, trade: string)
    requires !step.Restart?
    ensures sys.store.hydrated <= Next(sys, step).store.hydrated <= sys.store.hydrated + {TradeOf(sys, step)}
  {
    StoreOf(sys, step);
    assert forall trade, id, ok :: EnsureDurable(sys.store, trade, id, ok).0.hydrated == sys.store.hydrated;
  }

  lemma {:induction false} FullyReadIsCached(run: seq<Step>, trade: string)
    requires PlausibleRun(true, run)
    ensures Tracked(After(true, run).store)
    ensures FullyRead(true, run, trade) ==>
      trade in After(true, run).store.hydrated && RowsCached(After(true, run).store, trade)
  {
    if run != [] {
      var before, step := run[..|run| - 1], run[|run| - 1];
      assert forall i :: 0 <= i < |before| ==> before[..i] == run[..i];
      FullyReadIsCached(before, trade);
      RunIsReliable(true, before);
      if !step.Restart? {
        StepLeavesCached(After(true, before), step);
        HydratedBy(After(true, before), step, trade);
      }
    }
  }

  // ---- Counting rows -----------------------------------------------------------------

  lemma {:induction false} RowBytesWithout(disk: map<string, ChatMessage>, rows: set<string>, id: string)
    requires rows <= disk.Keys && id in rows
    ensures RowBytes(disk, rows) == |disk[id].content| + RowBytes(disk, rows - {id})
  {
    var first :| first in rows && RowBytes(disk, rows) == |disk[first].content| + RowBytes(disk, rows - {first});
    if first != id {
      RowBytesWithout(disk, rows - {first}, id);
      RowBytesWithout(disk, rows - {id}, first);
      assert rows - {first} - {id} == rows - {id} - {first};
    }
  }

  lemma {:induction false} RowsFit(disk: map<string, ChatMessage>, rows: set<string>, list: seq<ChatMessage>)
    requires rows <= disk.Keys && forall id :: id in rows ==> HasCopy(list, id, disk[id].content)
    ensures |rows| <= |list| && RowBytes(disk, rows) <= Bytes(list)
  {
    if list == [] {
      assert rows == {} by {
        if id :| id in rows {
          assert false;
        }
      }
    } else {
      var before, m := list[..|list| - 1], list[|list| - 1];
      assert list == before + [m];
      var counted := m.id in rows && disk[m.id].content == m.content;
      var rest := if counted then rows - {m.id} else rows;
      forall id | id in rest ensures HasCopy(before, id, disk[id].content) {
        assert HasCopy(list, id, disk[id].content);
        var c :| c in list && c.id == id && c.content == disk[id].content;
        assert c in before;
      }
      RowsFit(disk, rest, before);
      if counted {
        RowBytesWithout(disk, rows, m.id);
      }
    }
  }

  // ---- The caps ------------------------------------------------------------------------

  // Of a trade whose history was read completely in this process, no more is
  // stored than is cached, in every interleaving.
  lemma StoredIsCached(run: seq<Step>, trade: string)
    requires PlausibleRun(true, run) && FullyRead(true, run, trade)
    ensures var s := After(true, run).store;
      |RowsOf(s, trade)| <= |Cached(s, trade)| && RowBytes(s.disk, RowsOf(s, trade)) <= Bytes(Cached(s, trade))
  {
    FullyReadIsCached(run, trade);
    var s := After(true, run).store;
    RowsFit(s.disk, RowsOf(s, trade), Cached(s, trade));
  }

  // So a commit that ends within both caps leaves what is stored of the trade
  // within both caps too.
  lemma StoredStaysWithinCaps(run: seq<Step>, commit: Step)
    requires PlausibleRun(true, run + [commit]) && commit.Commit?
    requires var sys := After(true, run); commit.task in sys.tasks && sys.tasks[commit.task].phase.Admitted?
    requires FullyRead(true, run + [commit], TradeOf(After(true, run), commit))
    ensures var sys' := After(true, run + [commit]); var rows := RowsOf(sys'.store, TradeOf(After(true, run), commit));
      && |sys'.received| > 0
      && var r := sys'.received[|sys'.received| - 1];
      WithinCaps(r.count, r.bytes) ==> WithinCaps(|rows|, RowBytes(sys'.store.disk, rows))
  {
    AfterAppend(true, run, commit);
    StoredIsCached(run + [commit], TradeOf(After(true, run), commit));
    ReceiptMeasures(After(true, run), commit);
  }

  // The receipt of a commit measures the list the commit leaves.
  lemma ReceiptMeasures(sys: System, commit: Step)
    requires commit.Commit? && commit.task in sys.tasks && sys.tasks[commit.task].phase.Admitted?
    ensures var sys' := Next(sys, commit); var list := Cached(sys'.store, TradeOf(sys, commit));
      && |sys'.received| == |sys.received| + 1
      && sys'.received[|sys.received|].count == |list| && sys'.received[|sys.received|].bytes == Bytes(list)
  {
  }
}
