// What each dispute handler leaves, outcome by outcome: the record field by
// field, the error, the persisted keys and everything it must not touch.
module DisputeHandlers {
  import opened Prelude
  import opened Types
  import opened Disputes

  // Nothing of any other trade moves, nor any trade row.
  ghost predicate OnlyOf(trade: string, s: Store, s': Store) {
    && s'.trades == s.trades
    && s'.disputes - {trade} == s.disputes - {trade}
    && s'.pendingOpens - {trade} == s.pendingOpens - {trade}
    && s'.solverKeys - {trade} == s.solverKeys - {trade}
    && s'.originKeys - {trade} == s.originKeys - {trade}
  }

  ghost predicate Finished(s: Store, trade: string) {
    trade in s.trades && s.trades[trade] !in {
      OrderStatus.Pending, OrderStatus.WaitingBuyerInvoice, OrderStatus.WaitingPayment, OrderStatus.Active,
      OrderStatus.FiatSent, OrderStatus.SettledHoldInvoice, OrderStatus.Dispute, OrderStatus.InProgress,
      OrderStatus.WaitingTakerBond, OrderStatus.WaitingMakerBond }
  }

  // A live record in review that the peer is taken to have opened.
  ghost predicate PeersInReview(s: Store, trade: string) {
    trade in s.disputes &&
      var d := s.disputes[trade];
      d.status == InReview && !d.initiatedByMe && d.reason == None && d.adminPubkey != None
  }

  // A trade is finished in every state but those in which it can still move.
  lemma FinishedIsWhatCannotMove(s: Store, trade: string)
    ensures TradeFinished(s, trade) <==> Finished(s, trade)
  {
  }

  // White space, as Unicode has it.
  ghost predicate IsWhite(c: char) {
    c in {
      '\t', '\n', '\U{0B}', '\U{0C}', '\r', ' ', '\U{85}', '\U{A0}', '\U{1680}',
      '\U{2000}', '\U{2001}', '\U{2002}', '\U{2003}', '\U{2004}', '\U{2005}', '\U{2006}', '\U{2007}',
      '\U{2008}', '\U{2009}', '\U{200A}', '\U{2028}', '\U{2029}', '\U{202F}', '\U{205F}', '\U{3000}' }
  }

  lemma OneIsBlank(c: char)
    ensures IsBlank([c]) <==> IsWhite(c)
  {
    assert c == (c as int) as char && c in [c];
  }

  // Blank is what is nothing but white space.
  lemma BlankExactly(s: string)
    ensures IsBlank(s) <==> forall i :: 0 <= i < |s| ==> IsWhite(s[i])
  {
    forall c: char ensures IsBlank([c]) <==> IsWhite(c) {
      OneIsBlank(c);
    }
    assert forall c: char :: c in s && IsBlank(s) ==> IsBlank([c]);
    assert forall c: char :: c in s && IsBlank([c]) ==> c in [c];
  }

  // ---- Assignment -------------------------------------------------------------------

  // The record an assignment leaves: a new one in review by the solver, or the
  // live one moved into review, unread unless it was there with that solver.
  ghost predicate Reviewed(before: Option<Dispute>, after: Dispute, trade: string, solver: string, newId: string,
    now: int)
  {
    match before
    case None => after == Record(newId, trade, InReview, false, None, Some(solver), None, now, None, false)
    case Some(d) =>
      && after.status == InReview && after.adminPubkey == Some(solver)
      && (after.isRead <==> d.isRead && d.status == InReview && d.adminPubkey == Some(solver))
      && after.id == d.id && after.tradeId == d.tradeId
      && after.initiatedByMe == d.initiatedByMe && after.reason == d.reason
      && after.openedAt == d.openedAt && after.resolution == d.resolution && after.resolvedAt == d.resolvedAt
  }

  ghost function RecordAt(s: Store, trade: string): Option<Dispute> {
    if trade in s.disputes then Some(s.disputes[trade]) else None
  }

  ghost predicate TakenIntoReview(s: Store, s': Store, trade: string, solver: string, newId: string, now: int) {
    && OnlyOf(trade, s, s')
    && s'.pendingOpens == s.pendingOpens && s'.originKeys == s.originKeys
    && trade in s'.disputes
    && Reviewed(RecordAt(s, trade), s'.disputes[trade], trade, solver, newId, now)
  }

  // The section under the lock: the record is in review, or a resolved one refused.
  lemma SectionTakesIntoReview(s: Store, trade: string, solver: string, newId: string, now: int)
    ensures var (s', error) := UpsertTook(s, trade, solver, newId, now);
      if trade in s.disputes && s.disputes[trade].status == Resolved then error == Some(InvalidState) && s' == s
      else error == None && TakenIntoReview(s, s', trade, solver, newId, now) && s'.solverKeys == s.solverKeys
  {
  }

  // An assignment takes the dispute into review with its solver. Only a resolved
  // record refuses, and only a finished trade ignores it and loses its keys.
  lemma AssignmentTakesIntoReview(s: Store, trade: string, solver: string, newId: string, now: int, rowReadable: bool,
      writeOk: bool)
    ensures var (s', error) := AdminTook(s, trade, solver, newId, now, rowReadable, writeOk);
      if rowReadable && Finished(s, trade) then
        error == None && OnlyOf(trade, s, s') && KeysAreCleared(s, s', trade, writeOk)
          && s'.disputes == s.disputes && s'.pendingOpens == s.pendingOpens
      else if trade in s.disputes && s.disputes[trade].status == Resolved then
        error == Some(InvalidState) && s' == s
      else
        error == None && TakenIntoReview(s, s', trade, solver, newId, now)
          && s'.solverKeys == if writeOk then s.solverKeys[trade := solver] else s.solverKeys
  {
    FinishedIsWhatCannotMove(s, trade);
    SectionTakesIntoReview(s, trade, solver, newId, now);
    var (mid, error) := UpsertTook(s, trade, solver, newId, now);
    if error == None {
      SavedSolver(s, mid, trade, solver, newId, now, writeOk);
    }
  }

  lemma SavedSolver(s: Store, mid: Store, trade: string, solver: string, newId: string, now: int, ok: bool)
    requires TakenIntoReview(s, mid, trade, solver, newId, now)
    ensures TakenIntoReview(s, SaveSolver(mid, trade, solver, ok), trade, solver, newId, now)
  {
  }

  ghost predicate KeysAreCleared(s: Store, s': Store, trade: string, writeOk: bool) {
    if writeOk then trade !in s'.solverKeys && trade !in s'.originKeys
    else s'.solverKeys == s.solverKeys && s'.originKeys == s.originKeys
  }

  // ---- Verdict ----------------------------------------------------------------------

  // A verdict resolves the live record, unread and with its resolution, and takes
  // the keys; without a live record it is refused and changes nothing.
  lemma VerdictResolves(s: Store, trade: string, resolution: Resolution, now: int, writeOk: bool)
    ensures var (s', error) := Resolve(s, trade, resolution, now, writeOk);
      match RecordAt(s, trade)
      case None => error == Some(DisputeNotFound) && s' == s
      case Some(d) =>
        if d.status == Resolved then error == Some(InvalidState) && s' == s
        else
          && error == None && OnlyOf(trade, s, s') && s'.pendingOpens == s.pendingOpens
          && KeysAreCleared(s, s', trade, writeOk)
          && RecordAt(s', trade) == Some(Record(d.id, d.tradeId, Resolved, d.initiatedByMe, d.reason, d.adminPubkey,
                                                Some(resolution), d.openedAt, Some(now), false))
  {
  }

  // ---- The end of an attempt ----------------------------------------------------------

  // Without an acceptance that names its dispute, only the in-flight mark goes.
  lemma FailedAttemptLeavesNothing(s: Store, trade: string, reply: Reply, reason: Option<string>, now: int,
      writeOk: bool)
    requires reply.AcceptedReply? ==> reply.disputeId == None
    ensures var (s', r) := FinishOpen(s, trade, reply, reason, now, writeOk);
      && s' == s.(pendingOpens := s.pendingOpens - {trade})
      && r.Err?
      && (r.error == Rejected <==> reply == RejectedReply)
      && (r.error == TradeNotDisputable <==> reply == NoTradeKey)
      && (r.error == NoDaemonResponse <==> reply == NoReply)
      && (r.error == ProtocolError <==> reply == RequestFailed || reply == AcceptedReply(None))
  {
  }

  // An acceptance leaves our record: while our attempt is in flight the peer's one
  // in review is claimed with what it had learned, and where no record is live a
  // new one is opened. Any other live record refuses it.
  lemma AcceptedAttemptIsRecorded(s: Store, trade: string, id: string, reason: Option<string>, now: int, writeOk: bool)
    ensures var (s', r) := FinishOpen(s, trade, AcceptedReply(Some(id)), reason, now, writeOk);
      && OnlyOf(trade, s, s') && s'.solverKeys == s.solverKeys && trade !in s'.pendingOpens
      && (r.Err? ==> r.error == DisputeAlreadyOpen && s'.disputes == s.disputes && s'.originKeys == s.originKeys)
      && (r.Ok? ==> RecordAt(s', trade) == Some(r.value)
                    && (trade in s'.originKeys <==> writeOk || trade in s.originKeys))
      && match RecordAt(s, trade)
         case None => r == Ok(Record(id, trade, Open, true, reason, None, None, now, None, true))
         case Some(d) =>
           if d.status == Resolved then r == Ok(Record(id, trade, Open, true, reason, None, None, now, None, true))
           else if PeersInReview(s, trade) && trade in s.pendingOpens then
             r == Ok(Record(id, d.tradeId, InReview, true, reason, d.adminPubkey, d.resolution, d.openedAt,
                            d.resolvedAt, d.isRead))
           else r.Err?
  {
  }

  // A late acceptance claims the peer's record in review or opens an unread one,
  // and writes the marker whatever record it met.
  lemma LateAcceptanceIsRecorded(s: Store, trade: string, id: Option<string>, now: int, writeOk: bool)
    ensures var s' := LateAcceptance(s, trade, id, now, writeOk);
      match id
      case None => s' == s
      case Some(daemonId) =>
        && OnlyOf(trade, s, s') && s'.solverKeys == s.solverKeys && s'.pendingOpens == s.pendingOpens
        && (trade in s'.originKeys <==> writeOk || trade in s.originKeys)
        && match RecordAt(s, trade)
           case None =>
             RecordAt(s', trade) == Some(Record(daemonId, trade, Open, true, None, None, None, now, None, false))
           case Some(d) =>
             if PeersInReview(s, trade) then
               RecordAt(s', trade) == Some(Record(daemonId, d.tradeId, InReview, true, None, d.adminPubkey,
                                                  d.resolution, d.openedAt, d.resolvedAt, d.isRead))
             else s'.disputes == s.disputes
  {
  }

  // ---- One row of a rehydration ---------------------------------------------------------

  // A row without a record in memory gets one back exactly when its trade can still
  // move and a solver is read: in review, and ours where the marker is read.
  lemma RowIsRestored(s: Store, row: Row, now: int)
    ensures var s' := RehydrateRow(s, row, now); var t := row.orderId;
      && OnlyOf(t, s, s') && s'.pendingOpens == s.pendingOpens
      && (t in s.disputes ==> s' == s)
      && (t !in s.disputes ==>
            && (t in s'.disputes <==> !IsOrderFinished(row.status) && row.solverReadable && t in s.solverKeys)
            && KeysAreCleared(s, s', t, IsOrderFinished(row.status) && row.clearOk)
            && (t in s'.disputes ==>
                  var mine := row.originReadable && t in s.originKeys;
                  RecordAt(s', t) == Some(Record(row.newId, t, InReview, mine, None, Some(s.solverKeys[t]), None,
                                                 now, None, false))))
  {
  }
}
