// What rehydration brings back, when storage works and handlers run one at a
// time. It runs whenever the relays come back: after a crash, and also without.
module DisputeRestart {
  import opened Prelude
  import opened Types
  import opened Disputes

  datatype Event =
    | Accepted(trade: string, id: string, reason: Option<string>, now: int)
    | Late(trade: string, lateId: Option<string>, now: int)
    | Took(trade: string, solver: string, newId: string, now: int)
    | Settle(trade: string, resolution: Resolution, now: int)
    | SetTrade(trade: string, status: OrderStatus)
    | Crashed
    | Rehydrated(rows: seq<Row>, now: int)

  function Next(s: Store, e: Event): Store {
    match e
    case Accepted(trade, id, reason, now) =>
      FinishOpen(s.(pendingOpens := s.pendingOpens + {trade}), trade, AcceptedReply(Some(id)), reason, now, true).0
    case Late(trade, id, now) => LateAcceptance(s, trade, id, now, true)
    case Took(trade, solver, newId, now) => AdminTook(s, trade, solver, newId, now, true, true).0
    case Settle(trade, resolution, now) => Resolve(s, trade, resolution, now, true).0
    case SetTrade(trade, status) => s.(trades := s.trades[trade := status])
    case Crashed => Crash(s)
    case Rehydrated(rows, now) => Rehydrate(s, rows, now)
  }

  function After(run: seq<Event>): Store {
    if run == [] then Store(map[], {}, map[], {}, map[]) else Next(After(run[..|run| - 1]), run[|run| - 1])
  }

  // The rows are the persisted trades, each once, with every operation working.
  ghost predicate Lists(rows: seq<Row>, s: Store) {
    && (forall i :: 0 <= i < |rows| ==>
          && rows[i].orderId in s.trades && s.trades[rows[i].orderId] == rows[i].status
          && rows[i].solverReadable && rows[i].originReadable && rows[i].clearOk)
    && (forall t :: t in s.trades ==> exists i :: 0 <= i < |rows| && rows[i].orderId == t)
  }

  // A finished trade stays finished; rehydration lists the trades there are.
  ghost predicate Plausible(s: Store, e: Event) {
    && (e.SetTrade? && TradeFinished(s, e.trade) ==> IsOrderFinished(e.status))
    && (e.Rehydrated? ==> Lists(e.rows, s))
  }

  ghost predicate PlausibleRun(run: seq<Event>) {
    forall i {:trigger Plausible(After(run[..i]), run[i])} :: 0 <= i < |run| ==> Plausible(After(run[..i]), run[i])
  }

  // What is known in memory about an unfinished trade is also persisted.
  ghost predicate RecordPersisted(s: Store, t: string) {
    t in s.disputes && s.disputes[t].status != Resolved && !TradeFinished(s, t) ==>
      var d := s.disputes[t];
      && (d.initiatedByMe ==> t in s.originKeys)
      && (d.status == InReview ==> d.adminPubkey.Some? && t in s.solverKeys && s.solverKeys[t] == d.adminPubkey.value)
      && (!d.initiatedByMe ==> IsPeerPlaceholder(d))
  }

  ghost predicate Persisted(s: Store) {
    forall t :: t in s.disputes ==> s.disputes[t].tradeId == t && RecordPersisted(s, t)
  }

  // ---- One row at a time ------------------------------------------------------------

  // What rehydration makes of one trade.
  ghost predicate Restored(s: Store, r: Store, t: string, status: OrderStatus, now: int) {
    if t in s.disputes then
      t in r.disputes && r.disputes[t] == s.disputes[t]
    else if IsOrderFinished(status) then
      t !in r.disputes && t !in r.solverKeys && t !in r.originKeys
    else if t in s.solverKeys then
      t in r.disputes &&
        var id := r.disputes[t].id;
        r.disputes[t]
          == Record(id, t, InReview, t in s.originKeys, None, Some(s.solverKeys[t]), None, now, None, false)
    else
      t !in r.disputes
  }

  ghost predicate SameAt(s: Store, r: Store, t: string) {
    && (t in r.disputes <==> t in s.disputes)
    && (t in s.disputes ==> r.disputes[t] == s.disputes[t])
    && (t in r.solverKeys <==> t in s.solverKeys)
    && (t in s.solverKeys ==> r.solverKeys[t] == s.solverKeys[t])
    && (t in r.originKeys <==> t in s.originKeys)
  }

  // Keys of unfinished trades and of records in memory are not touched.
  ghost predicate KeysKept(s: Store, r: Store, t: string) {
    && (t in r.solverKeys <==> t in s.solverKeys)
    && (t in s.solverKeys ==> r.solverKeys[t] == s.solverKeys[t])
    && (t in r.originKeys <==> t in s.originKeys)
  }

  lemma {:induction false} RehydrateRestores(s: Store, rows: seq<Row>, now: int, t: string)
    requires forall i :: 0 <= i < |rows| ==> rows[i].solverReadable && rows[i].originReadable && rows[i].clearOk
    requires forall i, j :: 0 <= i < |rows| && 0 <= j < |rows| && rows[i].orderId == rows[j].orderId ==>
      rows[i].status == rows[j].status
    ensures var r := Rehydrate(s, rows, now);
      && r.trades == s.trades && r.pendingOpens == s.pendingOpens
      && ((forall i :: 0 <= i < |rows| ==> rows[i].orderId != t) ==> SameAt(s, r, t))
      && (forall i :: 0 <= i < |rows| && rows[i].orderId == t ==>
            && Restored(s, r, t, rows[i].status, now)
            && (t in s.disputes || !IsOrderFinished(rows[i].status) ==> KeysKept(s, r, t)))
  {
    if rows != [] {
      var before, row := rows[..|rows| - 1], rows[|rows| - 1];
      RehydrateRestores(s, before, now, t);
      var mid := Rehydrate(s, before, now);
      if row.orderId == t {
        if i :| 0 <= i < |before| && before[i].orderId == t {
          assert rows[i] == before[i];
          RowAgain(s, mid, row, now);
        }
      } else {
        RowElsewhere(mid, row, now, t);
        forall i | 0 <= i < |rows| && rows[i].orderId == t ensures i < |before| && before[i] == rows[i] {
        }
      }
    }
  }

  lemma RowElsewhere(s: Store, row: Row, now: int, t: string)
    requires row.orderId != t
    ensures SameAt(s, RehydrateRow(s, row, now), t)
  {
  }

  // Meeting a row a second time changes nothing about its trade.
  lemma RowAgain(s: Store, mid: Store, row: Row, now: int)
    requires row.solverReadable && row.originReadable && row.clearOk
    requires Restored(s, mid, row.orderId, row.status, now)
    requires row.orderId in s.disputes || !IsOrderFinished(row.status) ==> KeysKept(s, mid, row.orderId)
    ensures SameAt(mid, RehydrateRow(mid, row, now), row.orderId)
  {
  }

  // Records in memory always win.
  lemma {:induction false} RehydrateNeverOverwrites(s: Store, rows: seq<Row>, now: int)
    ensures var r := Rehydrate(s, rows, now);
      forall t :: t in s.disputes ==> t in r.disputes && r.disputes[t] == s.disputes[t]
  {
    if rows != [] {
      RehydrateNeverOverwrites(s, rows[..|rows| - 1], now);
    }
  }

  // A second pass over the same trades, with fresh ids and a later clock, is the
  // identity.
  lemma RehydrateTwiceIsOnce(s: Store, rows: seq<Row>, now: int, again: seq<Row>, later: int)
    requires Lists(rows, s) && Lists(again, s)
    ensures Rehydrate(Rehydrate(s, rows, now), again, later) == Rehydrate(s, rows, now)
  {
    var r := Rehydrate(s, rows, now);
    RehydrateTradesKept(s, rows, now);
    var rr := Rehydrate(r, again, later);
    forall t ensures SameAt(r, rr, t) {
      RehydrateRestores(s, rows, now, t);
      RehydrateRestores(r, again, later, t);
      if i :| 0 <= i < |again| && again[i].orderId == t {
        var j :| 0 <= j < |rows| && rows[j].orderId == t;
        assert Restored(s, r, t, rows[j].status, now);
        assert Restored(r, rr, t, again[i].status, later);
      }
    }
    RehydrateTradesKept(r, again, later);
    SameEverywhere(r, rr);
  }

  lemma SameEverywhere(s: Store, r: Store)
    requires forall t :: SameAt(s, r, t)
    requires r.trades == s.trades && r.pendingOpens == s.pendingOpens
    ensures r == s
  {
    forall t ensures t in s.disputes <==> t in r.disputes
    ensures t in s.disputes ==> s.disputes[t] == r.disputes[t]
    ensures t in s.solverKeys <==> t in r.solverKeys
    ensures t in s.solverKeys ==> s.solverKeys[t] == r.solverKeys[t]
    ensures t in s.originKeys <==> t in r.originKeys
    {
      assert SameAt(s, r, t);
    }
    assert r.disputes == s.disputes && r.solverKeys == s.solverKeys && r.originKeys == s.originKeys;
  }

  lemma {:induction false} RehydrateTradesKept(s: Store, rows: seq<Row>, now: int)
    ensures Rehydrate(s, rows, now).trades == s.trades && Rehydrate(s, rows, now).pendingOpens == s.pendingOpens
  {
    if rows != [] {
      RehydrateTradesKept(s, rows[..|rows| - 1], now);
    }
  }

  // ---- Runs ---------------------------------------------------------------------------

  // A handler touches one trade only.
  lemma OnlyOneTradeMoves(s: Store, s': Store, trade: string)
    requires Persisted(s) && s'.trades == s.trades
    requires forall t :: t != trade ==> SameAt(s, s', t)
    requires trade in s'.disputes ==> s'.disputes[trade].tradeId == trade && RecordPersisted(s', trade)
    ensures Persisted(s')
  {
    forall t | t in s'.disputes ensures s'.disputes[t].tradeId == t && RecordPersisted(s', t) {
      if t != trade {
        assert SameAt(s, s', t);
        assert RecordPersisted(s, t);
      }
    }
  }

  lemma AcceptanceKeepsPersisted(s: Store, trade: string, id: string, reason: Option<string>, now: int)
    requires Persisted(s)
    ensures Persisted(Next(s, Accepted(trade, id, reason, now)))
  {
    assert trade in s.disputes ==> RecordPersisted(s, trade);
    OnlyOneTradeMoves(s, Next(s, Accepted(trade, id, reason, now)), trade);
  }

  lemma LateKeepsPersisted(s: Store, trade: string, id: Option<string>, now: int)
    requires Persisted(s)
    ensures Persisted(Next(s, Late(trade, id, now)))
  {
    assert trade in s.disputes ==> RecordPersisted(s, trade);
    OnlyOneTradeMoves(s, Next(s, Late(trade, id, now)), trade);
  }

  lemma TookKeepsPersisted(s: Store, trade: string, solver: string, newId: string, now: int)
    requires Persisted(s)
    ensures Persisted(Next(s, Took(trade, solver, newId, now)))
  {
    assert trade in s.disputes ==> RecordPersisted(s, trade);
    OnlyOneTradeMoves(s, Next(s, Took(trade, solver, newId, now)), trade);
  }

  lemma SettleKeepsPersisted(s: Store, trade: string, resolution: Resolution, now: int)
    requires Persisted(s)
    ensures Persisted(Next(s, Settle(trade, resolution, now)))
  {
    assert trade in s.disputes ==> RecordPersisted(s, trade);
    OnlyOneTradeMoves(s, Next(s, Settle(trade, resolution, now)), trade);
  }

  lemma TradesKeepPersisted(s: Store, trade: string, status: OrderStatus)
    requires Persisted(s) && Plausible(s, SetTrade(trade, status))
    ensures Persisted(Next(s, SetTrade(trade, status)))
  {
    forall t | t in s.disputes ensures RecordPersisted(s, t) {
    }
  }

  lemma RehydrationKeepsPersisted(s: Store, rows: seq<Row>, now: int)
    requires Persisted(s) && Lists(rows, s)
    ensures Persisted(Rehydrate(s, rows, now))
  {
    var r := Rehydrate(s, rows, now);
    RehydrateTradesKept(s, rows, now);
    forall t | t in r.disputes ensures r.disputes[t].tradeId == t && RecordPersisted(r, t) {
      RehydrateRestores(s, rows, now, t);
      assert t in s.disputes ==> RecordPersisted(s, t);
      if i :| 0 <= i < |rows| && rows[i].orderId == t {
        assert Restored(s, r, t, rows[i].status, now);
      }
    }
  }

  lemma StepKeepsPersisted(s: Store, e: Event)
    requires Persisted(s) && Plausible(s, e)
    ensures Persisted(Next(s, e))
  {
    match e
    case Accepted(trade, id, reason, now) => AcceptanceKeepsPersisted(s, trade, id, reason, now);
    case Late(trade, id, now) => LateKeepsPersisted(s, trade, id, now);
    case Took(trade, solver, newId, now) => TookKeepsPersisted(s, trade, solver, newId, now);
    case Settle(trade, resolution, now) => SettleKeepsPersisted(s, trade, resolution, now);
    case SetTrade(trade, status) => TradesKeepPersisted(s, trade, status);
    case Crashed =>
    case Rehydrated(rows, now) => RehydrationKeepsPersisted(s, rows, now);
  }

  lemma {:induction false} RunKeepsPersisted(run: seq<Event>)
    requires PlausibleRun(run)
    ensures Persisted(After(run))
  {
    if run != [] {
      var before := run[..|run| - 1];
      assert forall i :: 0 <= i < |before| ==> before[..i] == run[..i];
      RunKeepsPersisted(before);
      StepKeepsPersisted(After(before), run[|run| - 1]);
    }
  }

  ghost predicate Reachable(s: Store) {
    exists run :: PlausibleRun(run) && s == After(run)
  }

  lemma ReachablePersisted(s: Store)
    requires Reachable(s)
    ensures Persisted(s)
  {
    var run :| PlausibleRun(run) && s == After(run);
    RunKeepsPersisted(run);
  }

  // Whatever happened before, a crash and a rehydration keep every dispute in
  // review of an unfinished trade: its solver, its status, and ours as ours.
  lemma ReviewSurvivesRestart(s: Store, rows: seq<Row>, now: int, t: string)
    requires Reachable(s) && Lists(rows, s)
    requires t in s.disputes && s.disputes[t].status == InReview
    requires t in s.trades && !TradeFinished(s, t)
    ensures var d, r := s.disputes[t], Rehydrate(Crash(s), rows, now);
      && t in r.disputes
      && r.disputes[t].status == InReview
      && r.disputes[t].adminPubkey == d.adminPubkey
      && (d.initiatedByMe ==> r.disputes[t].initiatedByMe)
  {
    ReachablePersisted(s);
    assert RecordPersisted(s, t);
    RehydrateRestores(Crash(s), rows, now, t);
    var i :| 0 <= i < |rows| && rows[i].orderId == t;
    assert Restored(Crash(s), Rehydrate(Crash(s), rows, now), t, rows[i].status, now);
  }

  // A finished trade gets no record back and loses both keys.
  lemma FinishedTradesAreSwept(s: Store, rows: seq<Row>, now: int, t: string)
    requires Lists(rows, s) && TradeFinished(s, t)
    ensures var r := Rehydrate(Crash(s), rows, now);
      t !in r.disputes && t !in r.solverKeys && t !in r.originKeys
  {
    RehydrateRestores(Crash(s), rows, now, t);
    var i :| 0 <= i < |rows| && rows[i].orderId == t;
    assert Restored(Crash(s), Rehydrate(Crash(s), rows, now), t, rows[i].status, now);
  }

  // A dispute in review comes back as the peer's exactly when no origin marker
  // is stored for its trade.
  lemma PeerDisputeSurvivesAsThePeers(s: Store, rows: seq<Row>, now: int, t: string)
    requires Reachable(s) && Lists(rows, s)
    requires t in s.disputes && s.disputes[t].status == InReview
    requires t in s.trades && !TradeFinished(s, t)
    ensures var r := Rehydrate(Crash(s), rows, now);
      t in r.disputes && (!r.disputes[t].initiatedByMe <==> t !in s.originKeys)
  {
    ReachablePersisted(s);
    assert RecordPersisted(s, t);
    RehydrateRestores(Crash(s), rows, now, t);
    var i :| 0 <= i < |rows| && rows[i].orderId == t;
    assert Restored(Crash(s), Rehydrate(Crash(s), rows, now), t, rows[i].status, now);
  }

  // ---- What is handled before the pass --------------------------------------------------

  function Onward(s: Store, events: seq<Event>): Store {
    if events == [] then s else Next(Onward(s, events[..|events| - 1]), events[|events| - 1])
  }

  // Assignments and late acceptances, of any trades, that arrive between the crash
  // and the pass.
  ghost predicate Replayed(events: seq<Event>) {
    forall e :: e in events ==> e.Took? || e.Late?
  }

  ghost predicate WasTaken(events: seq<Event>, t: string) {
    exists e :: e in events && e.Took? && e.trade == t
  }

  ghost predicate WasAccepted(events: seq<Event>, t: string) {
    exists e :: e in events && e.Late? && e.trade == t && e.lateId.Some?
  }

  // What the events leave of an unfinished trade in memory and in its keys.
  ghost predicate LeftBy(s: Store, q: Store, events: seq<Event>, t: string) {
    && q.trades == s.trades
    && (t in q.disputes <==> WasTaken(events, t) || WasAccepted(events, t))
    && (t in q.disputes ==>
          && q.disputes[t].status != Resolved
          && (q.disputes[t].initiatedByMe <==> WasAccepted(events, t))
          && (!q.disputes[t].initiatedByMe ==> IsPeerPlaceholder(q.disputes[t])))
    && (t !in q.disputes ==> (t in q.solverKeys <==> t in s.solverKeys))
    && (t in q.originKeys <==> t in s.originKeys || WasAccepted(events, t))
  }

  lemma HeardMore(before: seq<Event>, e: Event, t: string)
    ensures WasTaken(before + [e], t) <==> WasTaken(before, t) || (e.Took? && e.trade == t)
    ensures WasAccepted(before + [e], t) <==> WasAccepted(before, t) || (e.Late? && e.trade == t && e.lateId.Some?)
  {
    assert e in before + [e];
    assert forall x :: x in before + [e] <==> x in before || x == e;
  }

  lemma OneMoreTook(s: Store, q: Store, before: seq<Event>, e: Event, t: string)
    requires LeftBy(s, q, before, t) && !TradeFinished(s, t) && e.Took?
    ensures LeftBy(s, Next(q, e), before + [e], t)
  {
    HeardMore(before, e, t);
  }

  lemma OneMoreLate(s: Store, q: Store, before: seq<Event>, e: Event, t: string)
    requires LeftBy(s, q, before, t) && e.Late?
    ensures LeftBy(s, Next(q, e), before + [e], t)
  {
    HeardMore(before, e, t);
  }

  lemma {:induction false} ReplayedLeaves(s: Store, events: seq<Event>, t: string)
    requires !TradeFinished(s, t) && Replayed(events)
    ensures LeftBy(s, Onward(Crash(s), events), events, t)
  {
    if events != [] {
      var before, e := events[..|events| - 1], events[|events| - 1];
      assert events == before + [e];
      assert forall x :: x in before ==> x in events;
      ReplayedLeaves(s, before, t);
      assert e in events;
      if e.Took? {
        OneMoreTook(s, Onward(Crash(s), before), before, e, t);
      } else {
        OneMoreLate(s, Onward(Crash(s), before), before, e, t);
      }
    }
  }

  // After a crash, whatever assignments and late acceptances precede the pass, the
  // dispute of an unfinished trade comes back exactly when its solver was stored or
  // one of them was about it. It comes back as ours exactly when an acceptance was
  // among them, or the marker was stored and no assignment came first.
  lemma ComesBackAsOursExactlyWhen(s: Store, events: seq<Event>, rows: seq<Row>, now: int, t: string)
    requires t in s.trades && !TradeFinished(s, t) && Replayed(events)
    requires Lists(rows, Onward(Crash(s), events))
    ensures var r := Rehydrate(Onward(Crash(s), events), rows, now);
      && (t in r.disputes <==> t in s.solverKeys || WasTaken(events, t) || WasAccepted(events, t))
      && (t in r.disputes ==>
            (r.disputes[t].initiatedByMe <==>
              WasAccepted(events, t) || (t in s.originKeys && !WasTaken(events, t))))
      && (t in r.originKeys <==> t in s.originKeys || WasAccepted(events, t))
  {
    var q := Onward(Crash(s), events);
    ReplayedLeaves(s, events, t);
    RehydrateRestores(q, rows, now, t);
    var i :| 0 <= i < |rows| && rows[i].orderId == t;
    assert Restored(q, Rehydrate(q, rows, now), t, rows[i].status, now);
  }

  lemma AfterAppend(run: seq<Event>, e: Event)
    ensures After(run + [e]) == Next(After(run), e)
    ensures PlausibleRun(run) && Plausible(After(run), e) ==> PlausibleRun(run + [e])
  {
    var longer := run + [e];
    assert longer[..|run|] == run;
    assert forall i :: 0 <= i < |run| ==> longer[..i] == run[..i];
  }

  // A marker can be stale: a late acceptance of a dispute already resolved still
  // writes one, and a later dispute of the peer then comes back as ours. This takes
  // a trade whose row does not show the verdict: the row is written by another arm
  // than the one that resolves the record, and a finished row sweeps the marker.
  lemma StaleMarkerTurnsPeerDisputeIntoOurs(t: string) returns (run: seq<Event>, rows: seq<Row>)
    ensures PlausibleRun(run) && Lists(rows, After(run))
    ensures t in After(run).disputes && IsPeerPlaceholder(After(run).disputes[t])
    ensures var r := Rehydrate(Crash(After(run)), rows, 9); t in r.disputes && r.disputes[t].initiatedByMe
  {
    var row := Row(t, OrderStatus.Dispute, "fourth", true, true, true);
    rows := [row];
    run := StaleMarkerOutlivesRestart(t, row);
    TookWithMarker(After(run), t, row);
    run := Extend(run, Took(t, "another", "third", 5));
  }

  lemma StaleMarkerOutlivesRestart(t: string, row: Row) returns (run: seq<Event>)
    requires row == Row(t, OrderStatus.Dispute, "fourth", true, true, true)
    ensures PlausibleRun(run)
    ensures After(run) == Store(map[], {}, map[], {t}, map[t := OrderStatus.Dispute])
  {
    run := StaleMarker(t);
    run := Extend(run, Crashed);
    RehydrateWithMarker(After(run), t, row);
    run := Extend(run, Rehydrated([row], 4));
  }

  lemma RehydrateWithMarker(s: Store, t: string, row: Row)
    requires s == Store(map[], {}, map[], {t}, map[t := OrderStatus.Dispute])
    requires row == Row(t, OrderStatus.Dispute, "fourth", true, true, true)
    ensures Lists([row], s) && Next(s, Rehydrated([row], 4)) == s
  {
    assert Crash(s) == s;
    OneRow(s, row, 4);
  }

  lemma TookWithMarker(s: Store, t: string, row: Row)
    requires s == Store(map[], {}, map[], {t}, map[t := OrderStatus.Dispute])
    requires row == Row(t, OrderStatus.Dispute, "fourth", true, true, true)
    ensures var s' := Next(s, Took(t, "another", "third", 5)); var r := Rehydrate(Crash(s'), [row], 9);
      && Lists([row], s') && t in s'.disputes && IsPeerPlaceholder(s'.disputes[t])
      && t in r.disputes && r.disputes[t].initiatedByMe
  {
    OneRow(Next(s, Took(t, "another", "third", 5)), row, 9);
  }

  lemma StaleMarker(t: string) returns (run: seq<Event>)
    ensures PlausibleRun(run)
    ensures Crash(After(run)) == Store(map[], {}, map[], {t}, map[t := OrderStatus.Dispute])
  {
    run := DisputedTrade(t);
    TookThenSettled(After(run), t);
    run := Extend(run, Took(t, "solver", "first", 1));
    run := Extend(run, Settle(t, FundsToBuyer, 2));
    LateOnResolved(After(run), t);
    run := Extend(run, Late(t, Some("second"), 3));
  }

  lemma DisputedTrade(t: string) returns (run: seq<Event>)
    ensures PlausibleRun(run) && After(run) == Store(map[], {}, map[], {}, map[t := OrderStatus.Dispute])
  {
    run := [];
    assert After(run) == Store(map[], {}, map[], {}, map[]);
    run := Extend(run, SetTrade(t, OrderStatus.Dispute));
  }

  lemma TookThenSettled(s: Store, t: string)
    requires s == Store(map[], {}, map[], {}, map[t := OrderStatus.Dispute])
    ensures var s' := Next(Next(s, Took(t, "solver", "first", 1)), Settle(t, FundsToBuyer, 2));
      && t in s'.disputes && s'.disputes[t].status == Resolved
      && s'.solverKeys == map[] && s'.originKeys == {} && s'.trades == s.trades
  {
  }

  lemma LateOnResolved(s: Store, t: string)
    requires t in s.disputes && s.disputes[t].status == Resolved
    ensures Next(s, Late(t, Some("second"), 3)) == s.(originKeys := s.originKeys + {t})
  {
  }

  lemma OneRow(s: Store, row: Row, now: int)
    ensures Rehydrate(Crash(s), [row], now) == RehydrateRow(Crash(s), row, now)
  {
    assert [row][..0] == [];
  }

  lemma Extend(run: seq<Event>, e: Event) returns (longer: seq<Event>)
    requires PlausibleRun(run) && Plausible(After(run), e)
    ensures longer == run + [e] && After(longer) == Next(After(run), e) && PlausibleRun(longer)
  {
    AfterAppend(run, e);
    longer := run + [e];
  }
}
