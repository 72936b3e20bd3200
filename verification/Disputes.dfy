// The dispute store: one record per trade in memory, the open attempts in
// flight, and the two keys per order that survive a restart.
module Disputes {
  import opened Prelude
  import opened Types

  datatype DisputeStatus = Open | InReview | Resolved

  datatype Resolution = FundsToBuyer | FundsToSeller | CooperativeCancel

  datatype Dispute = Record(
    id: string,
    tradeId: string,
    status: DisputeStatus,
    initiatedByMe: bool,
    reason: Option<string>,
    adminPubkey: Option<string>,
    resolution: Option<Resolution>,
    openedAt: int,
    resolvedAt: Option<int>,
    isRead: bool)

  datatype DisputeError =
    | TradeNotDisputable
    | DisputeAlreadyOpen
    | DisputeNotFound
    | InvalidState
    | Rejected
    | NoDaemonResponse
    | ProtocolError

  // `solverKeys` and `originKeys` are the persisted settings, `trades` the
  // persisted trade rows.
  datatype Store = Store(
    disputes: map<string, Dispute>,
    pendingOpens: set<string>,
    solverKeys: map<string, string>,
    originKeys: set<string>,
    trades: map<string, OrderStatus>)

  // How an attempt in flight ended. `RequestFailed` stands for a message that
  // could not be built, published or understood.
  datatype Reply =
    | AcceptedReply(disputeId: Option<string>)
    | RejectedReply
    | NoReply
    | NoTradeKey
    | RequestFailed

  // `str::trim` leaves nothing: every character is Unicode white space.
  predicate IsBlank(s: string) {
    forall c :: c in s ==>
      var n := c as int;
      9 <= n <= 13 || n == 32 || n == 0x85 || n == 0xA0 || n == 0x1680 || 0x2000 <= n <= 0x200A
      || n == 0x2028 || n == 0x2029 || n == 0x202F || n == 0x205F || n == 0x3000
  }

  // The record the assignment handler writes when it is the first to hear of
  // a dispute.
  predicate IsPeerPlaceholder(d: Dispute) {
    d.status == InReview && !d.initiatedByMe && d.reason.None? && d.adminPubkey.Some?
  }

  predicate IsOrderFinished(status: OrderStatus) {
    match status
    case SettledByAdmin => true
    case CanceledByAdmin => true
    case CompletedByAdmin => true
    case Success => true
    case Canceled => true
    case CooperativelyCanceled => true
    case Expired => true
    case _ => false
  }

  predicate StatusAllowsDispute(status: OrderStatus) {
    status in {OrderStatus.Active, OrderStatus.FiatSent, OrderStatus.InProgress}
  }

  predicate TradeFinished(s: Store, trade: string) {
    trade in s.trades && IsOrderFinished(s.trades[trade])
  }

  predicate IsLive(s: Store, trade: string) {
    trade in s.disputes && s.disputes[trade].status != Resolved
  }

  function Put(s: Store, d: Dispute): Store {
    s.(disputes := s.disputes[d.tradeId := d])
  }

  // ---- Persisted keys ------------------------------------------------------------

  function SaveSolver(s: Store, trade: string, solver: string, ok: bool): Store {
    if ok then s.(solverKeys := s.solverKeys[trade := solver]) else s
  }

  function SaveOrigin(s: Store, trade: string, ok: bool): Store {
    if ok then s.(originKeys := s.originKeys + {trade}) else s
  }

  // Each key is deleted on its own; either deletion may fail.
  function ClearKeys(s: Store, trade: string, solverOk: bool, originOk: bool): Store {
    s.(solverKeys := if solverOk then s.solverKeys - {trade} else s.solverKeys,
       originKeys := if originOk then s.originKeys - {trade} else s.originKeys)
  }

  // ---- What one write-lock section does --------------------------------------------

  function NewOpen(id: string, trade: string, reason: Option<string>, now: int, isRead: bool): Dispute {
    Record(id, trade, Open, true, reason, None, None, now, None, isRead)
  }

  // After an on-time acceptance: claim the placeholder while our attempt is in
  // flight, refuse any other live record, and otherwise store the new one.
  function TryInsert(s: Store, d: Dispute): (Store, Result<Dispute, DisputeError>) {
    if d.tradeId in s.disputes then
      var existing := s.disputes[d.tradeId];
      if IsPeerPlaceholder(existing) && d.tradeId in s.pendingOpens then
        var claimed := existing.(id := d.id, initiatedByMe := true, reason := d.reason);
        (s.(disputes := s.disputes[d.tradeId := claimed]), Ok(claimed))
      else if existing.status != Resolved then
        (s, Err(DisputeAlreadyOpen))
      else
        (Put(s, d), Ok(d))
    else
      (Put(s, d), Ok(d))
  }

  // A late acceptance claims a placeholder, creates a missing record, and
  // leaves any other record alone.
  function UpsertLate(s: Store, trade: string, id: string, now: int): Store {
    if trade in s.disputes then
      var existing := s.disputes[trade];
      if IsPeerPlaceholder(existing) then
        s.(disputes := s.disputes[trade := existing.(id := id, initiatedByMe := true)])
      else s
    else
      Put(s, NewOpen(id, trade, None, now, false))
  }

  function Placeholder(id: string, trade: string, solver: string, initiatedByMe: bool, now: int): Dispute {
    Record(id, trade, InReview, initiatedByMe, None, Some(solver), None, now, None, false)
  }

  // An assignment creates the placeholder, moves an open record into review, or
  // replaces the solver of one already there.
  function UpsertTook(s: Store, trade: string, solver: string, newId: string, now: int): (Store, Option<DisputeError>) {
    if trade !in s.disputes then
      (Put(s, Placeholder(newId, trade, solver, false, now)), None)
    else
      var d := s.disputes[trade];
      if d.status == InReview then
        (if d.adminPubkey == Some(solver) then s
         else s.(disputes := s.disputes[trade := d.(adminPubkey := Some(solver), isRead := false)]), None)
      else if d.status != Open then (s, Some(InvalidState))
      else
        var reviewed := d.(status := InReview, adminPubkey := Some(solver), isRead := false);
        (s.(disputes := s.disputes[trade := reviewed]), None)
  }

  function UpdateResolved(s: Store, trade: string, resolution: Resolution, now: int): (Store, Option<DisputeError>) {
    if trade !in s.disputes then (s, Some(DisputeNotFound))
    else
      var d := s.disputes[trade];
      if d.status == Resolved then (s, Some(InvalidState))
      else
        var resolved :=
          d.(status := Resolved, resolution := Some(resolution), resolvedAt := Some(now), isRead := false);
        (s.(disputes := s.disputes[trade := resolved]), None)
  }

  // ---- What one uninterrupted handler does --------------------------------------------

  function FinishOpen(s: Store, trade: string, reply: Reply, reason: Option<string>, now: int, writeOk: bool)
    : (Store, Result<Dispute, DisputeError>)
  {
    var (s', r) :=
      match reply
      case RejectedReply => (s, Err(Rejected))
      case NoTradeKey => (s, Err(TradeNotDisputable))
      case RequestFailed => (s, Err(ProtocolError))
      case NoReply => (s, Err(NoDaemonResponse))
      case AcceptedReply(None) => (s, Err(ProtocolError))
      case AcceptedReply(Some(id)) =>
        var (inserted, result) := TryInsert(s, NewOpen(id, trade, reason, now, true));
        (if result.Ok? then SaveOrigin(inserted, trade, writeOk) else inserted, result);
    (s'.(pendingOpens := s'.pendingOpens - {trade}), r)
  }

  function LateAcceptance(s: Store, trade: string, id: Option<string>, now: int, writeOk: bool): Store {
    if id.None? then s else SaveOrigin(UpsertLate(s, trade, id.value, now), trade, writeOk)
  }

  // A replayed assignment of a finished trade is refused and sweeps its keys; a
  // trade row that cannot be read is no evidence that the trade is finished.
  function AdminTook(s: Store, trade: string, solver: string, newId: string, now: int, rowReadable: bool, writeOk: bool)
    : (Store, Option<DisputeError>)
  {
    if rowReadable && TradeFinished(s, trade) then (ClearKeys(s, trade, writeOk, writeOk), None)
    else
      var (s', error) := UpsertTook(s, trade, solver, newId, now);
      if error.Some? then (s', error) else (SaveSolver(s', trade, solver, writeOk), None)
  }

  function Resolve(s: Store, trade: string, resolution: Resolution, now: int, writeOk: bool)
    : (Store, Option<DisputeError>)
  {
    var (s', error) := UpdateResolved(s, trade, resolution, now);
    if error.Some? then (s', error) else (ClearKeys(s', trade, writeOk, writeOk), None)
  }

  // One trade row as rehydration meets it: the id minted for its record, and
  // which of its storage operations succeed.
  datatype Row = Row(
    orderId: string,
    status: OrderStatus,
    newId: string,
    solverReadable: bool,
    originReadable: bool,
    clearOk: bool)

  // Never touches a record in memory; a record it creates is in review by the
  // stored solver and ours exactly when the origin marker was read.
  function RehydrateRow(s: Store, row: Row, now: int): Store {
    if row.orderId in s.disputes then s
    else if IsOrderFinished(row.status) then ClearKeys(s, row.orderId, row.clearOk, row.clearOk)
    else if !row.solverReadable || row.orderId !in s.solverKeys then s
    else
      var mine := row.originReadable && row.orderId in s.originKeys;
      Put(s, Placeholder(row.newId, row.orderId, s.solverKeys[row.orderId], mine, now))
  }

  function Rehydrate(s: Store, rows: seq<Row>, now: int): Store {
    if rows == [] then s
    else RehydrateRow(Rehydrate(s, rows[..|rows| - 1], now), rows[|rows| - 1], now)
  }

  // The process dies: only what was persisted remains.
  function Crash(s: Store): Store {
    s.(disputes := map[], pendingOpens := {})
  }

  class DisputeStore {
    var disputes: map<string, Dispute>
    var pendingOpens: set<string>
    var solverKeys: map<string, string>
    var originKeys: set<string>
    var trades: map<string, OrderStatus>

    ghost function View(): Store
      reads this
    {
      Store(disputes, pendingOpens, solverKeys, originKeys, trades)
    }

    // A process starts with whatever was persisted.
    constructor (solverKeys: map<string, string>, originKeys: set<string>, trades: map<string, OrderStatus>)
      ensures View() == Store(map[], {}, solverKeys, originKeys, trades)
    {
      this.disputes, this.pendingOpens := map[], {};
      this.solverKeys, this.originKeys, this.trades := solverKeys, originKeys, trades;
    }

    // Only one attempt per trade may be in flight, and none over a live record.
    method BeginOpen(trade: string, localStatus: Option<OrderStatus>) returns (refused: Option<DisputeError>)
      modifies this`pendingOpens
      ensures var live := trade in disputes && disputes[trade].status in {Open, InReview};
        var funded := localStatus.Some? ==>
          localStatus.value in {OrderStatus.Active, OrderStatus.FiatSent, OrderStatus.InProgress};
        && (refused.None? <==> !IsBlank(trade) && !live && funded && trade !in old(pendingOpens))
        && (refused == Some(TradeNotDisputable) <==> IsBlank(trade) || (!live && !funded))
        && (refused.Some? ==> refused.value in {TradeNotDisputable, DisputeAlreadyOpen})
      ensures pendingOpens == if refused.None? then old(pendingOpens) + {trade} else old(pendingOpens)
    {
      if IsBlank(trade) {
        return Some(TradeNotDisputable);
      }
      if trade in disputes && disputes[trade].status != Resolved {
        return Some(DisputeAlreadyOpen);
      }
      if localStatus.Some? && !StatusAllowsDispute(localStatus.value) {
        return Some(TradeNotDisputable);
      }
      if trade in pendingOpens {
        return Some(DisputeAlreadyOpen);
      }
      pendingOpens := pendingOpens + {trade};
      refused := None;
    }

    method EndOpen(trade: string, reply: Reply, reason: Option<string>, now: int, writeOk: bool)
      returns (r: Result<Dispute, DisputeError>)
      modifies this
      ensures (View(), r) == FinishOpen(old(View()), trade, reply, reason, now, writeOk)
    {
      match reply {
        case RejectedReply => r := Err(Rejected);
        case NoTradeKey => r := Err(TradeNotDisputable);
        case RequestFailed => r := Err(ProtocolError);
        case NoReply => r := Err(NoDaemonResponse);
        case AcceptedReply(None) => r := Err(ProtocolError);
        case AcceptedReply(Some(id)) =>
          r := InsertIfAbsentOrResolved(NewOpen(id, trade, reason, now, true));
          if r.Ok? && writeOk {
            originKeys := originKeys + {trade};
          }
      }
      pendingOpens := pendingOpens - {trade};
    }

    method InsertIfAbsentOrResolved(d: Dispute) returns (r: Result<Dispute, DisputeError>)
      modifies this`disputes
      ensures (View(), r) == TryInsert(old(View()), d)
    {
      if d.tradeId in disputes {
        var existing := disputes[d.tradeId];
        if IsPeerPlaceholder(existing) && d.tradeId in pendingOpens {
          existing := existing.(id := d.id);
          existing := existing.(initiatedByMe := true);
          existing := existing.(reason := d.reason);
          disputes := disputes[d.tradeId := existing];
          return Ok(existing);
        }
        if existing.status != Resolved {
          return Err(DisputeAlreadyOpen);
        }
      }
      disputes := disputes[d.tradeId := d];
      r := Ok(d);
    }

    method RecordLateAcceptance(trade: string, disputeId: Option<string>, now: int, writeOk: bool)
      modifies this
      ensures View() == LateAcceptance(old(View()), trade, disputeId, now, writeOk)
    {
      if disputeId.None? {
        return;
      }
      if trade in disputes {
        var existing := disputes[trade];
        if IsPeerPlaceholder(existing) {
          existing := existing.(id := disputeId.value);
          existing := existing.(initiatedByMe := true);
          disputes := disputes[trade := existing];
        }
      } else {
        disputes := disputes[trade := NewOpen(disputeId.value, trade, None, now, false)];
      }
      if writeOk {
        originKeys := originKeys + {trade};
      }
    }

    method HandleAdminTookDispute(trade: string, solver: string, newId: string, now: int, rowReadable: bool,
        writeOk: bool)
      returns (error: Option<DisputeError>)
      modifies this
      ensures (View(), error) == AdminTook(old(View()), trade, solver, newId, now, rowReadable, writeOk)
    {
      if rowReadable && trade in trades && IsOrderFinished(trades[trade]) {
        ClearDisputeKeys(trade, writeOk);
        return None;
      }
      if trade in disputes {
        var dispute := disputes[trade];
        if dispute.status == InReview {
          if dispute.adminPubkey != Some(solver) {
            dispute := dispute.(adminPubkey := Some(solver));
            dispute := dispute.(isRead := false);
            disputes := disputes[trade := dispute];
          }
        } else if dispute.status != Open {
          return Some(InvalidState);
        } else {
          dispute := dispute.(status := InReview);
          dispute := dispute.(adminPubkey := Some(solver));
          dispute := dispute.(isRead := false);
          disputes := disputes[trade := dispute];
        }
      } else {
        disputes := disputes[trade := Placeholder(newId, trade, solver, false, now)];
      }
      if writeOk {
        solverKeys := solverKeys[trade := solver];
      }
      error := None;
    }

    method ClearDisputeKeys(trade: string, writeOk: bool)
      modifies this`solverKeys, this`originKeys
      ensures View() == ClearKeys(old(View()), trade, writeOk, writeOk)
    {
      if writeOk {
        solverKeys := solverKeys - {trade};
        originKeys := originKeys - {trade};
      }
    }

    method ResolveDispute(trade: string, resolution: Resolution, now: int, writeOk: bool)
        returns (error: Option<DisputeError>)
      modifies this
      ensures (View(), error) == Resolve(old(View()), trade, resolution, now, writeOk)
    {
      if trade !in disputes {
        return Some(DisputeNotFound);
      }
      var dispute := disputes[trade];
      if dispute.status == Resolved {
        return Some(InvalidState);
      }
      dispute := dispute.(status := Resolved);
      dispute := dispute.(resolution := Some(resolution));
      dispute := dispute.(resolvedAt := Some(now));
      dispute := dispute.(isRead := false);
      disputes := disputes[trade := dispute];
      ClearDisputeKeys(trade, writeOk);
      error := None;
    }

    // Clearing only when a key is there saves writes and changes nothing else.
    method RehydrateFromStorage(rows: seq<Row>, now: int)
      modifies this
      ensures View() == Rehydrate(old(View()), rows, now)
    {
      for i := 0 to |rows|
        invariant View() == Rehydrate(old(View()), rows[..i], now)
      {
        var row := rows[i];
        assert rows[..i + 1][..i] == rows[..i];
        if row.orderId in disputes {
          continue;
        }
        if IsOrderFinished(row.status) {
          var present :=
            row.orderId in solverKeys || row.orderId in originKeys || !row.solverReadable || !row.originReadable;
          if present {
            ClearDisputeKeys(row.orderId, row.clearOk);
          } else {
            assert solverKeys - {row.orderId} == solverKeys;
            assert originKeys - {row.orderId} == originKeys;
          }
          continue;
        }
        if !row.solverReadable || row.orderId !in solverKeys {
          continue;
        }
        var mine := row.originReadable && row.orderId in originKeys;
        disputes := disputes[row.orderId := Placeholder(row.newId, row.orderId, solverKeys[row.orderId], mine, now)];
      }
      assert rows[..|rows|] == rows;
    }
  }
}
