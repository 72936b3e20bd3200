// Every interleaving of the dispute handlers: each write-lock section, each
// storage read that a decision rests on and each storage write is a step.
module DisputeRaces {
  import opened Prelude
  import opened Types
  import opened Disputes
  import opened DisputeHandlers

  // What a handler still has to do after its last await. It may happen at any
  // later time, fail, or never happen; it may also happen again, so that equal
  // ones need no counting.
  datatype Tail =
    | WriteSolver(trade: string, solver: string)
    | WriteOrigin(trade: string, dispute: nat)
    | DeleteSolver(trade: string)
    | DeleteOrigin(trade: string)
    | Assign(trade: string, solver: string, newId: string)
    | ReadOrigin(row: Row, solver: string)
    | Restore(row: Row, solver: string, marker: Option<nat>)

  // An open attempt either awaits the daemon or has stored its record and is
  // writing the origin marker; its in-flight mark is dropped at the end.
  datatype Phase = Awaiting | Persisting(dispute: nat)

  // The daemon accepted a dispute of ours: the trade and which of its disputes.
  datatype Acceptance = Acceptance(trade: string, dispute: nat)

  // What makes a record ours: an acceptance of this process, or a marker read.
  datatype Claim = Claim(dispute: nat, restored: bool)

  // The disputes of a trade are numbered by the daemon's verdicts before them:
  // `settled` counts those handled, whether or not the store had a record to accept
  // them, and only histories hold such numbers.
  // `markers` tells of each stored marker which dispute it was written for.
  datatype System = System(
    store: Store,
    attempts: map<string, Phase>,
    tails: set<Tail>,
    settled: map<string, nat>,
    accepted: set<Acceptance>,
    markers: map<string, nat>,
    claims: map<string, Claim>)

  datatype Step =
    | Begin(trade: string, localStatus: Option<OrderStatus>)
    | Accept(trade: string, id: string, reason: Option<string>, now: int)
    | GiveUp(trade: string)
    | Persist(trade: string, writeOk: bool)
    | Late(trade: string, id: string, now: int)
    | Took(trade: string, solver: string, newId: string, rowReadable: bool)
    | Settle(trade: string, resolution: Resolution, now: int)
    | ReadRow(row: Row)
    | Run(tail: Tail, ok: bool, now: int)
    | SetTrade(trade: string, status: OrderStatus)
    | Restart

  function Verdicts(sys: System, trade: string): nat {
    if trade in sys.settled then sys.settled[trade] else 0
  }

  // The dispute a late acceptance is about: the live one, the next one when there
  // is none, and the one just resolved when its record still shows the verdict.
  function DisputeOf(sys: System, trade: string): nat {
    var n := Verdicts(sys, trade);
    if trade in sys.store.disputes && sys.store.disputes[trade].status == Resolved && n > 0 then n - 1 else n
  }

  function DropMark(sys: System, trade: string): System {
    sys.(attempts := sys.attempts - {trade}, store := sys.store.(pendingOpens := sys.store.pendingOpens - {trade}))
  }

  function Mark(sys: System, trade: string, dispute: nat, ok: bool): System {
    sys.(store := SaveOrigin(sys.store, trade, ok),
         markers := if ok then sys.markers[trade := dispute] else sys.markers)
  }

  function MarkerRead(sys: System, row: Row): Option<nat> {
    if row.originReadable && row.orderId in sys.store.originKeys && row.orderId in sys.markers
    then Some(sys.markers[row.orderId])
    else None
  }

  function DeleteBoth(trade: string): set<Tail> {
    {DeleteSolver(trade), DeleteOrigin(trade)}
  }

  // The write-lock section of an on-time acceptance.
  function Accepted(sys: System, trade: string, id: string, reason: Option<string>, now: int): System {
    var (s', r) := TryInsert(sys.store, NewOpen(id, trade, reason, now, true));
    var n := Verdicts(sys, trade);
    var noted := sys.(store := s', accepted := sys.accepted + {Acceptance(trade, n)});
    if r.Ok? then
      noted.(attempts := sys.attempts[trade := Persisting(n)], claims := sys.claims[trade := Claim(n, false)])
    else DropMark(noted, trade)
  }

  function LateAccepted(sys: System, trade: string, id: string, now: int): System {
    var n := DisputeOf(sys, trade);
    var claimed := trade !in sys.store.disputes || IsPeerPlaceholder(sys.store.disputes[trade]);
    sys.(store := UpsertLate(sys.store, trade, id, now),
         tails := sys.tails + {WriteOrigin(trade, n)},
         accepted := sys.accepted + {Acceptance(trade, n)},
         claims := if claimed then sys.claims[trade := Claim(n, false)] else sys.claims)
  }

  function Settled(sys: System, trade: string, resolution: Resolution, now: int): System {
    var (s', error) := UpdateResolved(sys.store, trade, resolution, now);
    sys.(store := s',
         settled := sys.settled[trade := Verdicts(sys, trade) + 1],
         tails := if error.Some? then sys.tails else sys.tails + DeleteBoth(trade))
  }

  function RunTail(sys: System, tail: Tail, ok: bool, now: int): System {
    var s := sys.store;
    match tail
    case WriteSolver(trade, solver) => sys.(store := SaveSolver(s, trade, solver, ok))
    case WriteOrigin(trade, n) => Mark(sys, trade, n, ok)
    case DeleteSolver(trade) => sys.(store := ClearKeys(s, trade, ok, false))
    case DeleteOrigin(trade) =>
      sys.(store := ClearKeys(s, trade, false, ok), markers := if ok then sys.markers - {trade} else sys.markers)
    case Assign(trade, solver, newId) =>
      var (s', error) := UpsertTook(s, trade, solver, newId, now);
      if error.Some? then sys else sys.(store := s', tails := sys.tails + {WriteSolver(trade, solver)})
    case ReadOrigin(row, solver) => sys.(tails := sys.tails + {Restore(row, solver, MarkerRead(sys, row))})
    case Restore(row, solver, marker) =>
      if row.orderId in s.disputes then sys
      else
        sys.(store := Put(s, Placeholder(row.newId, row.orderId, solver, marker.Some?, now)),
             claims := if marker.Some? then sys.claims[row.orderId := Claim(marker.value, true)] else sys.claims)
  }

  function Next(sys: System, step: Step): System {
    var s := sys.store;
    match step
    case Begin(trade, localStatus) =>
      // The entry check precedes this step; only the mark excludes others.
      if trade in sys.attempts then sys
      else sys.(attempts := sys.attempts[trade := Awaiting], store := s.(pendingOpens := s.pendingOpens + {trade}))
    case Accept(trade, id, reason, now) =>
      if trade in sys.attempts && sys.attempts[trade] == Awaiting then Accepted(sys, trade, id, reason, now) else sys
    case GiveUp(trade) =>
      if trade in sys.attempts && sys.attempts[trade] == Awaiting then DropMark(sys, trade) else sys
    case Persist(trade, writeOk) =>
      if trade in sys.attempts && sys.attempts[trade].Persisting? then
        DropMark(Mark(sys, trade, sys.attempts[trade].dispute, writeOk), trade)
      else sys
    case Late(trade, id, now) => LateAccepted(sys, trade, id, now)
    case Took(trade, solver, newId, rowReadable) =>
      if rowReadable && TradeFinished(s, trade) then sys.(tails := sys.tails + DeleteBoth(trade))
      else sys.(tails := sys.tails + {Assign(trade, solver, newId)})
    case Settle(trade, resolution, now) => Settled(sys, trade, resolution, now)
    case ReadRow(row) =>
      if row.orderId in s.disputes then sys
      else if IsOrderFinished(row.status) then sys.(tails := sys.tails + DeleteBoth(row.orderId))
      else if !row.solverReadable || row.orderId !in s.solverKeys then sys
      else sys.(tails := sys.tails + {ReadOrigin(row, s.solverKeys[row.orderId])})
    case Run(tail, ok, now) =>
      if tail in sys.tails then RunTail(sys, tail, ok, now) else sys
    case SetTrade(trade, status) => sys.(store := s.(trades := s.trades[trade := status]))
    case Restart => sys.(store := Crash(s), attempts := map[], tails := {}, claims := map[])
  }

  const START := System(Store(map[], {}, map[], {}, map[]), map[], {}, map[], {}, map[], map[])

  function After(run: seq<Step>): System {
    if run == [] then START else Next(After(run[..|run| - 1]), run[|run| - 1])
  }

  // ---- The invariant --------------------------------------------------------------

  function ClaimAt(sys: System, trade: string): Option<Claim> {
    if trade in sys.claims then Some(sys.claims[trade]) else None
  }

  // A record of ours rests on an acceptance: of the very dispute it shows, unless
  // it was restored.
  ghost predicate RecordOk(accepted: set<Acceptance>, claim: Option<Claim>, verdicts: nat, trade: string, d: Dispute) {
    && d.tradeId == trade
    && (d.status != Resolved && !d.initiatedByMe ==> IsPeerPlaceholder(d))
    && (d.initiatedByMe ==>
          && claim.Some? && Acceptance(trade, claim.value.dispute) in accepted
          && (d.status != Resolved && !claim.value.restored ==> claim.value.dispute == verdicts))
  }

  ghost predicate RecordOkAt(sys: System, trade: string) {
    trade in sys.store.disputes ==>
      RecordOk(sys.accepted, ClaimAt(sys, trade), Verdicts(sys, trade), trade, sys.store.disputes[trade])
  }

  ghost predicate RecordsOk(sys: System) {
    forall t :: RecordOkAt(sys, t)
  }

  // Acceptances are about disputes there have been.
  ghost predicate NumbersOk(sys: System) {
    forall a :: a in sys.accepted ==> a.dispute <= Verdicts(sys, a.trade)
  }

  ghost predicate TailOk(accepted: set<Acceptance>, tail: Tail) {
    && (tail.WriteOrigin? ==> Acceptance(tail.trade, tail.dispute) in accepted)
    && (tail.Restore? && tail.marker.Some? ==> Acceptance(tail.row.orderId, tail.marker.value) in accepted)
  }

  ghost predicate TailsOk(accepted: set<Acceptance>, tails: set<Tail>) {
    forall tail :: tail in tails ==> TailOk(accepted, tail)
  }

  ghost predicate AttemptsOk(sys: System) {
    && sys.store.pendingOpens == sys.attempts.Keys
    && (forall t :: t in sys.attempts && sys.attempts[t].Persisting? ==>
        Acceptance(t, sys.attempts[t].dispute) in sys.accepted)
  }

  ghost predicate MarkersOk(sys: System) {
    && sys.markers.Keys == sys.store.originKeys
    && (forall t :: t in sys.markers ==> Acceptance(t, sys.markers[t]) in sys.accepted)
  }

  ghost predicate Inv(sys: System) {
    RecordsOk(sys) && NumbersOk(sys) && AttemptsOk(sys) && MarkersOk(sys) && TailsOk(sys.accepted, sys.tails)
  }

  // ---- Steps keep the records in shape ------------------------------------------------

  ghost predicate SameAt(sys: System, sys': System, t: string) {
    && (t in sys'.store.disputes ==> t in sys.store.disputes && sys'.store.disputes[t] == sys.store.disputes[t])
    && ClaimAt(sys', t) == ClaimAt(sys, t) && Verdicts(sys', t) == Verdicts(sys, t)
  }

  lemma OneRecordMoves(sys: System, sys': System, trade: string)
    requires RecordsOk(sys) && sys.accepted <= sys'.accepted
    requires forall t :: t != trade ==> SameAt(sys, sys', t)
    requires RecordOkAt(sys', trade)
    ensures RecordsOk(sys')
  {
    forall t ensures RecordOkAt(sys', t) {
      assert t != trade ==> SameAt(sys, sys', t) && RecordOkAt(sys, t);
    }
  }

  lemma RecordsStay(sys: System, sys': System)
    requires RecordsOk(sys) && sys'.accepted == sys.accepted && sys'.claims == sys.claims && sys'.settled == sys.settled
    requires sys'.store.disputes == sys.store.disputes
    ensures RecordsOk(sys')
  {
    forall t ensures RecordOkAt(sys', t) {
      assert RecordOkAt(sys, t);
    }
  }

  lemma TryInsertEffect(s: Store, d: Dispute)
    requires d.initiatedByMe && d.status == Open
    ensures var (s', r) := TryInsert(s, d); var t := d.tradeId;
      && s' == s.(disputes := s'.disputes)
      && (r.Err? ==> s' == s)
      && (r.Ok? ==>
            && s'.disputes == s.disputes[t := r.value]
            && r.value.initiatedByMe
            && r.value.tradeId
                 == if t in s.disputes && s.disputes[t].status != Resolved then s.disputes[t].tradeId else t)
  {
  }

  lemma AcceptKeepsRecords(sys: System, trade: string, id: string, reason: Option<string>, now: int)
    requires RecordsOk(sys)
    ensures RecordsOk(Accepted(sys, trade, id, reason, now))
  {
    TryInsertEffect(sys.store, NewOpen(id, trade, reason, now, true));
    assert RecordOkAt(sys, trade);
    OneRecordMoves(sys, Accepted(sys, trade, id, reason, now), trade);
  }

  lemma LateKeepsRecords(sys: System, trade: string, id: string, now: int)
    requires RecordsOk(sys)
    ensures RecordsOk(LateAccepted(sys, trade, id, now))
  {
    assert RecordOkAt(sys, trade);
    OneRecordMoves(sys, LateAccepted(sys, trade, id, now), trade);
  }

  lemma SettleKeepsRecords(sys: System, trade: string, resolution: Resolution, now: int)
    requires RecordsOk(sys)
    ensures RecordsOk(Settled(sys, trade, resolution, now))
  {
    assert RecordOkAt(sys, trade);
    OneRecordMoves(sys, Settled(sys, trade, resolution, now), trade);
  }

  lemma AssignKeepsRecords(sys: System, tail: Tail, ok: bool, now: int)
    requires RecordsOk(sys) && tail.Assign?
    ensures RecordsOk(RunTail(sys, tail, ok, now))
  {
    assert RecordOkAt(sys, tail.trade);
    OneRecordMoves(sys, RunTail(sys, tail, ok, now), tail.trade);
  }

  lemma RestoreKeepsRecords(sys: System, tail: Tail, ok: bool, now: int)
    requires RecordsOk(sys) && tail.Restore? && TailOk(sys.accepted, tail)
    ensures RecordsOk(RunTail(sys, tail, ok, now))
  {
    assert RecordOkAt(sys, tail.row.orderId);
    OneRecordMoves(sys, RunTail(sys, tail, ok, now), tail.row.orderId);
  }

  // ---- What one step does -----------------------------------------------------------------

  // The step accepts dispute `n` of the trade.
  predicate Accepts(sys: System, step: Step, trade: string, n: nat) {
    match step
    case Accept(t, _, _, _) => t == trade && t in sys.attempts && sys.attempts[t] == Awaiting && n == Verdicts(sys, t)
    case Late(t, _, _) => t == trade && n == DisputeOf(sys, t)
    case _ => false
  }

  // The step handles a verdict of the trade.
  predicate Settles(step: Step, trade: string) {
    step.Settle? && step.trade == trade
  }

  // The dispute a step writes a marker of the trade for, and whether it deletes it.
  function Writes(sys: System, step: Step, trade: string): Option<nat> {
    match step
    case Persist(t, ok) =>
      if t == trade && ok && t in sys.attempts && sys.attempts[t].Persisting?
      then Some(sys.attempts[t].dispute)
      else None
    case Run(WriteOrigin(t, n), ok, _) => if t == trade && ok && WriteOrigin(t, n) in sys.tails then Some(n) else None
    case _ => None
  }

  predicate Deletes(sys: System, step: Step, trade: string) {
    step.Run? && step.tail == DeleteOrigin(trade) && step.ok && step.tail in sys.tails
  }

  function MarkerAt(sys: System, trade: string): Option<nat> {
    if trade in sys.markers then Some(sys.markers[trade]) else None
  }

  // What a step may add to the work that is left.
  function NewTails(sys: System, step: Step): set<Tail> {
    match step
    case Late(trade, _, _) => {WriteOrigin(trade, DisputeOf(sys, trade))}
    case Took(trade, solver, newId, _) => {DeleteSolver(trade), DeleteOrigin(trade), Assign(trade, solver, newId)}
    case Settle(trade, _, _) => {DeleteSolver(trade), DeleteOrigin(trade)}
    case ReadRow(row) =>
      {DeleteSolver(row.orderId), DeleteOrigin(row.orderId)}
        + if row.orderId in sys.store.solverKeys then {ReadOrigin(row, sys.store.solverKeys[row.orderId])} else {}
    case Run(Assign(trade, solver, _), _, _) => {WriteSolver(trade, solver)}
    case Run(ReadOrigin(row, solver), _, _) => {Restore(row, solver, MarkerRead(sys, row))}
    case _ => {}
  }

  ghost predicate HistoryMoves(sys: System, step: Step, sys': System) {
    && (forall t, n :: Acceptance(t, n) in sys'.accepted <==>
        Acceptance(t, n) in sys.accepted || Accepts(sys, step, t, n))
    && (forall t :: Verdicts(sys', t) == Verdicts(sys, t) + if Settles(step, t) then 1 else 0)
  }

  ghost predicate MarkersMove(sys: System, step: Step, sys': System) {
    forall t ::
      && MarkerAt(sys', t) ==
           (if Writes(sys, step, t).Some? then Writes(sys, step, t)
            else if Deletes(sys, step, t) then None
            else MarkerAt(sys, t))
      && (t in sys'.store.originKeys <==>
            Writes(sys, step, t).Some? || (!Deletes(sys, step, t) && t in sys.store.originKeys))
  }

  ghost predicate IsOurs(s: Store, trade: string) {
    trade in s.disputes && s.disputes[trade].initiatedByMe
  }

  // The step is an acceptance on the trade, on time or late, or a restoration of
  // it that had read a marker.
  predicate ClaimsIt(sys: System, step: Step, trade: string) {
    match step
    case Accept(t, _, _, _) => t == trade && t in sys.attempts && sys.attempts[t] == Awaiting
    case Late(t, _, _) => t == trade
    case Run(Restore(row, solver, marker), _, _) =>
      Restore(row, solver, marker) in sys.tails && row.orderId == trade && marker.Some?
    case _ => false
  }

  ghost predicate OwnershipMoves(sys: System, step: Step, sys': System) {
    forall t :: !IsOurs(sys.store, t) && IsOurs(sys'.store, t) ==>
      && ClaimsIt(sys, step, t)
      && (step.Run? ==> ClaimAt(sys', t) == Some(Claim(step.tail.marker.value, true)))
  }

  // A claim resting on a marker was there before, or comes from a restoration that
  // had read one.
  ghost predicate ClaimsMove(sys: System, step: Step, sys': System) {
    forall t :: t in sys'.claims && sys'.claims[t].restored ==>
      || (t in sys.claims && sys.claims[t] == sys'.claims[t])
      || (step.Run? && step.tail in sys.tails && step.tail.Restore? && step.tail.row.orderId == t
          && step.tail.marker == Some(sys'.claims[t].dispute))
  }

  ghost predicate StepFacts(sys: System, step: Step, sys': System) {
    && HistoryMoves(sys, step, sys')
    && OwnershipMoves(sys, step, sys')
    && ClaimsMove(sys, step, sys')
    && MarkersMove(sys, step, sys')
    && (forall tail :: tail in sys'.tails ==> tail in sys.tails || tail in NewTails(sys, step))
    && (AttemptsOk(sys) ==> AttemptsOk(sys'))
    && (RecordsOk(sys) && TailsOk(sys.accepted, sys.tails) ==> RecordsOk(sys'))
  }

  lemma BeginFacts(sys: System, trade: string, localStatus: Option<OrderStatus>)
    ensures StepFacts(sys, Begin(trade, localStatus), Next(sys, Begin(trade, localStatus)))
  {
    if RecordsOk(sys) {
      RecordsStay(sys, Next(sys, Begin(trade, localStatus)));
    }
  }

  lemma GiveUpFacts(sys: System, trade: string)
    ensures StepFacts(sys, GiveUp(trade), Next(sys, GiveUp(trade)))
  {
    if RecordsOk(sys) {
      RecordsStay(sys, Next(sys, GiveUp(trade)));
    }
  }

  lemma AcceptHistory(sys: System, trade: string, id: string, reason: Option<string>, now: int)
    ensures var step := Accept(trade, id, reason, now); var sys' := Next(sys, step);
      && HistoryMoves(sys, step, sys') && sys'.markers == sys.markers && sys'.tails == sys.tails
      && sys'.store.originKeys == sys.store.originKeys
  {
  }

  lemma AcceptAttempts(sys: System, trade: string, id: string, reason: Option<string>, now: int)
    ensures AttemptsOk(sys) ==> AttemptsOk(Next(sys, Accept(trade, id, reason, now)))
  {
  }

  lemma AcceptOwnership(sys: System, trade: string, id: string, reason: Option<string>, now: int)
    ensures var step := Accept(trade, id, reason, now); var sys' := Next(sys, step);
      OwnershipMoves(sys, step, sys') && ClaimsMove(sys, step, sys')
  {
  }

  lemma AcceptFacts(sys: System, trade: string, id: string, reason: Option<string>, now: int)
    ensures StepFacts(sys, Accept(trade, id, reason, now), Next(sys, Accept(trade, id, reason, now)))
  {
    AcceptHistory(sys, trade, id, reason, now);
    AcceptAttempts(sys, trade, id, reason, now);
    AcceptOwnership(sys, trade, id, reason, now);
    if RecordsOk(sys) {
      AcceptKeepsRecords(sys, trade, id, reason, now);
    }
  }

  lemma PersistFacts(sys: System, trade: string, ok: bool)
    ensures StepFacts(sys, Persist(trade, ok), Next(sys, Persist(trade, ok)))
  {
    if RecordsOk(sys) {
      RecordsStay(sys, Next(sys, Persist(trade, ok)));
    }
  }

  lemma LateFacts(sys: System, trade: string, id: string, now: int)
    ensures StepFacts(sys, Late(trade, id, now), Next(sys, Late(trade, id, now)))
  {
    if RecordsOk(sys) {
      LateKeepsRecords(sys, trade, id, now);
    }
  }

  // Steps that only add to the work that is left.
  ghost predicate OnlyTails(sys: System, step: Step, sys': System) {
    && sys' == sys.(tails := sys'.tails)
    && (forall tail :: tail in sys'.tails ==> tail in sys.tails || tail in NewTails(sys, step))
  }

  lemma OnlyTailsFacts(sys: System, step: Step, sys': System)
    requires step.Took? || step.ReadRow? || (step.Run? && step.tail.ReadOrigin?)
    requires OnlyTails(sys, step, sys')
    ensures StepFacts(sys, step, sys')
  {
    if RecordsOk(sys) {
      RecordsStay(sys, sys');
    }
  }

  lemma TookFacts(sys: System, trade: string, solver: string, newId: string, rowReadable: bool)
    ensures var step := Took(trade, solver, newId, rowReadable); OnlyTails(sys, step, Next(sys, step))
  {
  }

  lemma ReadRowFacts(sys: System, row: Row)
    ensures OnlyTails(sys, ReadRow(row), Next(sys, ReadRow(row)))
  {
  }

  lemma ReadOriginFacts(sys: System, row: Row, solver: string, ok: bool, now: int)
    ensures var step := Run(ReadOrigin(row, solver), ok, now); OnlyTails(sys, step, Next(sys, step))
  {
  }

  lemma SettleShape(sys: System, trade: string, resolution: Resolution, now: int)
    ensures var sys' := Next(sys, Settle(trade, resolution, now));
      && (!IsLive(sys.store, trade) ==> UpdateResolved(sys.store, trade, resolution, now).0 == sys.store)
      && sys' == sys.(store := UpdateResolved(sys.store, trade, resolution, now).0,
                      settled := sys.settled[trade := Verdicts(sys, trade) + 1],
                      tails := if IsLive(sys.store, trade) then sys.tails + DeleteBoth(trade) else sys.tails)
  {
  }

  lemma UpdateResolvedEffect(s: Store, trade: string, resolution: Resolution, now: int)
    ensures var s' := UpdateResolved(s, trade, resolution, now).0;
      && s' == s.(disputes := s'.disputes)
      && (forall t :: IsOurs(s', t) <==> IsOurs(s, t))
  {
  }

  lemma SettleFacts(sys: System, trade: string, resolution: Resolution, now: int)
    ensures StepFacts(sys, Settle(trade, resolution, now), Next(sys, Settle(trade, resolution, now)))
  {
    SettleShape(sys, trade, resolution, now);
    UpdateResolvedEffect(sys.store, trade, resolution, now);
    if RecordsOk(sys) {
      SettleKeepsRecords(sys, trade, resolution, now);
    }
  }

  lemma WriteSolverFacts(sys: System, trade: string, solver: string, ok: bool, now: int)
    ensures var step := Run(WriteSolver(trade, solver), ok, now); StepFacts(sys, step, Next(sys, step))
  {
    if RecordsOk(sys) {
      RecordsStay(sys, Next(sys, Run(WriteSolver(trade, solver), ok, now)));
    }
  }

  lemma DeleteSolverFacts(sys: System, trade: string, ok: bool, now: int)
    ensures var step := Run(DeleteSolver(trade), ok, now); StepFacts(sys, step, Next(sys, step))
  {
    if RecordsOk(sys) {
      RecordsStay(sys, Next(sys, Run(DeleteSolver(trade), ok, now)));
    }
  }

  lemma WriteOriginFacts(sys: System, trade: string, dispute: nat, ok: bool, now: int)
    ensures var step := Run(WriteOrigin(trade, dispute), ok, now); StepFacts(sys, step, Next(sys, step))
  {
    if RecordsOk(sys) {
      RecordsStay(sys, Next(sys, Run(WriteOrigin(trade, dispute), ok, now)));
    }
  }

  lemma DeleteOriginFacts(sys: System, trade: string, ok: bool, now: int)
    ensures var step := Run(DeleteOrigin(trade), ok, now); StepFacts(sys, step, Next(sys, step))
  {
    if RecordsOk(sys) {
      RecordsStay(sys, Next(sys, Run(DeleteOrigin(trade), ok, now)));
    }
  }

  // Assignments and restorations touch the record of one trade.
  ghost predicate OneTrade(sys: System, sys': System, trade: string) {
    && sys'.accepted == sys.accepted && sys'.settled == sys.settled && sys'.attempts == sys.attempts
    && sys'.markers == sys.markers
    && sys'.store.pendingOpens == sys.store.pendingOpens && sys'.store.originKeys == sys.store.originKeys
    && (forall t :: t != trade ==> (IsOurs(sys'.store, t) <==> IsOurs(sys.store, t)))
  }

  lemma OneTradeFacts(sys: System, step: Step, sys': System, trade: string)
    requires step.Run? && (step.tail.Assign? || step.tail.Restore?) && OneTrade(sys, sys', trade)
    requires forall tail :: tail in sys'.tails ==> tail in sys.tails || tail in NewTails(sys, step)
    requires ClaimsMove(sys, step, sys')
    requires !IsOurs(sys.store, trade) && IsOurs(sys'.store, trade) ==>
      ClaimsIt(sys, step, trade) && ClaimAt(sys', trade) == Some(Claim(step.tail.marker.value, true))
    requires RecordsOk(sys) && TailsOk(sys.accepted, sys.tails) ==> RecordsOk(sys')
    ensures StepFacts(sys, step, sys')
  {
  }

  lemma UpsertTookEffect(s: Store, trade: string, solver: string, newId: string, now: int)
    ensures var s' := UpsertTook(s, trade, solver, newId, now).0;
      && s' == s.(disputes := s'.disputes)
      && (forall t :: IsOurs(s', t) <==> IsOurs(s, t))
  {
  }

  lemma AssignShape(sys: System, trade: string, solver: string, newId: string, ok: bool, now: int)
    ensures var sys' := Next(sys, Run(Assign(trade, solver, newId), ok, now));
      || sys' == sys
      || sys' == sys.(store := UpsertTook(sys.store, trade, solver, newId, now).0,
                      tails := sys.tails + {WriteSolver(trade, solver)})
  {
  }

  lemma AssignEffect(sys: System, sys': System, trade: string, solver: string, newId: string, now: int)
    requires
      || sys' == sys
      || sys' == sys.(store := UpsertTook(sys.store, trade, solver, newId, now).0,
                      tails := sys.tails + {WriteSolver(trade, solver)})
    ensures OneTrade(sys, sys', trade)
    ensures forall tail :: tail in sys'.tails ==> tail in sys.tails || tail == WriteSolver(trade, solver)
    ensures IsOurs(sys'.store, trade) ==> IsOurs(sys.store, trade)
  {
    UpsertTookEffect(sys.store, trade, solver, newId, now);
  }

  lemma AssignFacts(sys: System, trade: string, solver: string, newId: string, ok: bool, now: int)
    ensures var step := Run(Assign(trade, solver, newId), ok, now); StepFacts(sys, step, Next(sys, step))
  {
    var step := Run(Assign(trade, solver, newId), ok, now);
    AssignShape(sys, trade, solver, newId, ok, now);
    AssignEffect(sys, Next(sys, step), trade, solver, newId, now);
    if RecordsOk(sys) {
      AssignKeepsRecords(sys, Assign(trade, solver, newId), ok, now);
    }
    OneTradeFacts(sys, step, Next(sys, step), trade);
  }

  lemma RestoreShape(sys: System, row: Row, solver: string, marker: Option<nat>, ok: bool, now: int)
    ensures var tail := Restore(row, solver, marker); var sys' := Next(sys, Run(tail, ok, now));
      if tail in sys.tails && row.orderId !in sys.store.disputes then sys' == Restored(sys, row, solver, marker, now)
      else sys' == sys
  {
  }

  function Restored(sys: System, row: Row, solver: string, marker: Option<nat>, now: int): System {
    sys.(store := Put(sys.store, Placeholder(row.newId, row.orderId, solver, marker.Some?, now)),
         claims := if marker.Some? then sys.claims[row.orderId := Claim(marker.value, true)] else sys.claims)
  }

  lemma RestoreEffect(sys: System, step: Step, sys': System)
    requires step.Run? && step.tail.Restore? && step.tail in sys.tails
    requires sys' == Restored(sys, step.tail.row, step.tail.solver, step.tail.marker, step.now)
    ensures var t := step.tail.row.orderId;
      && OneTrade(sys, sys', t) && ClaimsMove(sys, step, sys') && sys'.tails == sys.tails
      && (!IsOurs(sys.store, t) && IsOurs(sys'.store, t) ==>
            step.tail.marker.Some? && ClaimAt(sys', t) == Some(Claim(step.tail.marker.value, true)))
  {
  }

  lemma RestoreFacts(sys: System, row: Row, solver: string, marker: Option<nat>, ok: bool, now: int)
    ensures var step := Run(Restore(row, solver, marker), ok, now); StepFacts(sys, step, Next(sys, step))
  {
    var step := Run(Restore(row, solver, marker), ok, now);
    RestoreShape(sys, row, solver, marker, ok, now);
    if step.tail in sys.tails && row.orderId !in sys.store.disputes {
      RestoreEffect(sys, step, Next(sys, step));
      if RecordsOk(sys) && TailsOk(sys.accepted, sys.tails) {
        RestoreKeepsRecords(sys, step.tail, ok, now);
      }
    }
    OneTradeFacts(sys, step, Next(sys, step), row.orderId);
  }

  lemma OtherFacts(sys: System, step: Step)
    requires step.SetTrade? || step.Restart?
    ensures StepFacts(sys, step, Next(sys, step))
  {
    if RecordsOk(sys) && step.SetTrade? {
      RecordsStay(sys, Next(sys, step));
    }
  }

  lemma RunFacts(sys: System, tail: Tail, ok: bool, now: int)
    ensures StepFacts(sys, Run(tail, ok, now), Next(sys, Run(tail, ok, now)))
  {
    match tail
    case Assign(trade, solver, newId) => AssignFacts(sys, trade, solver, newId, ok, now);
    case Restore(row, solver, marker) => RestoreFacts(sys, row, solver, marker, ok, now);
    case WriteOrigin(trade, dispute) => WriteOriginFacts(sys, trade, dispute, ok, now);
    case DeleteOrigin(trade) => DeleteOriginFacts(sys, trade, ok, now);
    case WriteSolver(trade, solver) => WriteSolverFacts(sys, trade, solver, ok, now);
    case DeleteSolver(trade) => DeleteSolverFacts(sys, trade, ok, now);
    case ReadOrigin(row, solver) =>
      ReadOriginFacts(sys, row, solver, ok, now);
      OnlyTailsFacts(sys, Run(tail, ok, now), Next(sys, Run(tail, ok, now)));
  }

  lemma StepHasFacts(sys: System, step: Step)
    ensures StepFacts(sys, step, Next(sys, step))
  {
    match step
    case Begin(trade, localStatus) => BeginFacts(sys, trade, localStatus);
    case GiveUp(trade) => GiveUpFacts(sys, trade);
    case Accept(trade, id, reason, now) => AcceptFacts(sys, trade, id, reason, now);
    case Persist(trade, ok) => PersistFacts(sys, trade, ok);
    case Late(trade, id, now) => LateFacts(sys, trade, id, now);
    case Took(trade, solver, newId, rowReadable) =>
      TookFacts(sys, trade, solver, newId, rowReadable);
      OnlyTailsFacts(sys, step, Next(sys, step));
    case Settle(trade, resolution, now) => SettleFacts(sys, trade, resolution, now);
    case ReadRow(row) =>
      ReadRowFacts(sys, row);
      OnlyTailsFacts(sys, step, Next(sys, step));
    case Run(tail, ok, now) =>
      RunFacts(sys, tail, ok, now);
    case _ => OtherFacts(sys, step);
  }

  // ---- Every step keeps the invariant -----------------------------------------------------

  lemma TailsStayOk(sys: System, step: Step, sys': System)
    requires Inv(sys) && StepFacts(sys, step, sys')
    ensures TailsOk(sys'.accepted, sys'.tails)
  {
    forall tail | tail in sys'.tails ensures TailOk(sys'.accepted, tail) {
      assert tail in sys.tails ==> TailOk(sys.accepted, tail);
    }
  }

  lemma MarkersStayOk(sys: System, step: Step, sys': System)
    requires Inv(sys) && StepFacts(sys, step, sys')
    ensures MarkersOk(sys')
  {
    forall t ensures t in sys'.markers <==> t in sys'.store.originKeys
      ensures t in sys'.markers ==> Acceptance(t, sys'.markers[t]) in sys'.accepted
    {
      assert t in sys.markers <==> t in sys.store.originKeys;
      assert MarkerAt(sys', t).Some? <==> t in sys'.markers;
      if step.Run? && step.tail in sys.tails {
        assert TailOk(sys.accepted, step.tail);
      }
    }
  }

  lemma NumbersStayOk(sys: System, step: Step, sys': System)
    requires NumbersOk(sys) && HistoryMoves(sys, step, sys')
    ensures NumbersOk(sys')
  {
    forall a | a in sys'.accepted ensures a.dispute <= Verdicts(sys', a.trade) {
      assert a == Acceptance(a.trade, a.dispute);
    }
  }

  lemma FactsKeepInv(sys: System, step: Step, sys': System)
    requires Inv(sys) && StepFacts(sys, step, sys')
    ensures Inv(sys')
  {
    TailsStayOk(sys, step, sys');
    MarkersStayOk(sys, step, sys');
    NumbersStayOk(sys, step, sys');
  }

  lemma {:induction false} RunKeepsInv(run: seq<Step>)
    ensures Inv(After(run))
  {
    if run != [] {
      RunKeepsInv(run[..|run| - 1]);
      StepHasFacts(After(run[..|run| - 1]), run[|run| - 1]);
      FactsKeepInv(After(run[..|run| - 1]), run[|run| - 1], After(run));
    }
  }

  // ---- What holds in every interleaving --------------------------------------------

  ghost predicate Reachable(sys: System) {
    exists run :: sys == After(run)
  }

  lemma ReachableInv(sys: System)
    requires Reachable(sys)
    ensures Inv(sys)
  {
    var run :| sys == After(run);
    RunKeepsInv(run);
  }

  // A live record that is not ours is a placeholder, in review by a known solver
  // and without a reason. One that is ours
  // rests on an acceptance of the dispute it shows, or it was restored from a
  // marker of an earlier dispute.
  lemma RecordsKeepTheirShape(sys: System, trade: string)
    requires Reachable(sys) && trade in sys.store.disputes
    ensures var d := sys.store.disputes[trade];
      && d.tradeId == trade
      && (d.status != Resolved && !d.initiatedByMe ==>
            d.status == InReview && d.reason == None && d.adminPubkey != None)
      && (d.initiatedByMe ==> trade in sys.claims && Acceptance(trade, sys.claims[trade].dispute) in sys.accepted)
      && (d.initiatedByMe && d.status != Resolved ==>
            var claim := sys.claims[trade];
            claim.dispute == Verdicts(sys, trade) || (claim.restored && claim.dispute < Verdicts(sys, trade)))
  {
    ReachableInv(sys);
    assert RecordOkAt(sys, trade);
  }

  // A trade's record becomes ours only by an acceptance on that trade, on time or
  // late, or by a restoration that had read a marker.
  lemma BecomesOursOnlyBy(sys: System, step: Step, trade: string)
    requires !IsOurs(sys.store, trade) && IsOurs(Next(sys, step).store, trade)
    ensures ClaimsIt(sys, step, trade)
    ensures step.Run? ==> ClaimAt(Next(sys, step), trade) == Some(Claim(step.tail.marker.value, true))
  {
    StepHasFacts(sys, step);
  }

  ghost predicate AcceptsAt(run: seq<Step>, i: nat, trade: string, n: nat)
    requires i < |run|
  {
    Accepts(After(run[..i]), run[i], trade, n)
  }

  lemma AfterAppend(run: seq<Step>, step: Step)
    ensures After(run + [step]) == Next(After(run), step)
  {
    assert (run + [step])[..|run|] == run;
  }

  lemma AcceptsAtStays(before: seq<Step>, step: Step, i: nat, trade: string, n: nat)
    requires i < |before|
    ensures AcceptsAt(before + [step], i, trade, n) <==> AcceptsAt(before, i, trade, n)
  {
    assert (before + [step])[..i] == before[..i];
  }

  // Acceptances with an id, on time or late, are exactly what is accepted.
  lemma {:induction false} AcceptedExactlyByAcceptances(run: seq<Step>, trade: string, n: nat)
    ensures Acceptance(trade, n) in After(run).accepted <==> exists i :: 0 <= i < |run| && AcceptsAt(run, i, trade, n)
  {
    if run != [] {
      var before, step := run[..|run| - 1], run[|run| - 1];
      assert run == before + [step];
      AcceptedExactlyByAcceptances(before, trade, n);
      StepHasFacts(After(before), step);
      AfterAppend(before, step);
      OneMoreAcceptance(before, step, trade, n);
    }
  }

  lemma OneMoreAcceptance(before: seq<Step>, step: Step, trade: string, n: nat)
    ensures (exists i :: 0 <= i < |before + [step]| && AcceptsAt(before + [step], i, trade, n)) <==>
      (exists i :: 0 <= i < |before| && AcceptsAt(before, i, trade, n)) || Accepts(After(before), step, trade, n)
  {
    var run := before + [step];
    assert run[..|before|] == before;
    assert AcceptsAt(run, |before|, trade, n) <==> Accepts(After(before), step, trade, n);
    forall i: nat | i < |before| ensures AcceptsAt(run, i, trade, n) <==> AcceptsAt(before, i, trade, n) {
      AcceptsAtStays(before, step, i, trade, n);
    }
  }

  // What an acceptance leaves: our record, with the solver and the review it had
  // already learned.
  ghost predicate ClaimedFrom(before: Store, after: Store, trade: string, id: string) {
    && trade in after.disputes
    && after.disputes[trade].initiatedByMe
    && after.disputes[trade].status != Resolved
    && (IsLive(before, trade) ==>
          && after.disputes[trade].status == before.disputes[trade].status
          && after.disputes[trade].adminPubkey == before.disputes[trade].adminPubkey)
    && (!IsLive(before, trade) || !before.disputes[trade].initiatedByMe ==> after.disputes[trade].id == id)
  }

  lemma OnTimeAcceptanceMakesItOurs(sys: System, trade: string, id: string, reason: Option<string>, now: int)
    requires Reachable(sys) && trade in sys.attempts && sys.attempts[trade] == Awaiting
    ensures ClaimedFrom(sys.store, Next(sys, Accept(trade, id, reason, now)).store, trade, id)
  {
    ReachableInv(sys);
    assert RecordOkAt(sys, trade);
    AcceptedClaims(sys, trade, id, reason, now);
  }

  lemma AcceptedClaims(sys: System, trade: string, id: string, reason: Option<string>, now: int)
    requires RecordOkAt(sys, trade) && trade in sys.store.pendingOpens
    ensures ClaimedFrom(sys.store, Accepted(sys, trade, id, reason, now).store, trade, id)
  {
  }

  // A late one makes the live record ours; a resolved record stays as it is.
  lemma LateAcceptanceMakesItOurs(sys: System, trade: string, id: string, now: int)
    requires Reachable(sys)
    ensures var before, after := sys.store, Next(sys, Late(trade, id, now)).store;
      if trade in before.disputes && before.disputes[trade].status == Resolved then after == before
      else ClaimedFrom(before, after, trade, id)
  {
    ReachableInv(sys);
    if trade in sys.store.disputes {
      assert RecordOkAt(sys, trade);
    }
  }

  // However late the section of an assignment runs: a live or missing record is
  // in review by the solver afterwards, whose key is still to be written; a
  // resolved record stays, and so does all else.
  lemma LateAssignmentTakesIntoReview(sys: System, trade: string, solver: string, newId: string, ok: bool, now: int)
    requires Assign(trade, solver, newId) in sys.tails
    ensures var sys' := Next(sys, Run(Assign(trade, solver, newId), ok, now));
      if trade in sys.store.disputes && sys.store.disputes[trade].status == Resolved then sys' == sys
      else
        && sys' == sys.(store := sys'.store, tails := sys.tails + {WriteSolver(trade, solver)})
        && TakenIntoReview(sys.store, sys'.store, trade, solver, newId, now)
        && sys'.store.solverKeys == sys.store.solverKeys
  {
    SectionTakesIntoReview(sys.store, trade, solver, newId, now);
  }
}
