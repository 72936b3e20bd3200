// A handler that nothing interrupts leaves the store that its steps leave when
// they are taken one after the other.
module DisputeSteps {
  import opened Prelude
  import opened Types
  import opened Disputes
  import opened DisputeRaces

  // An attempt of ours that the daemon accepts in time.
  lemma AcceptedAttemptIsItsSteps(sys: System, trade: string, id: string, reason: Option<string>, now: int, ok: bool)
    requires trade in sys.attempts && sys.attempts[trade] == Awaiting
    ensures Next(Next(sys, Accept(trade, id, reason, now)), Persist(trade, ok)).store
      == FinishOpen(sys.store, trade, AcceptedReply(Some(id)), reason, now, ok).0
    ensures trade !in Next(Next(sys, Accept(trade, id, reason, now)), Persist(trade, ok)).attempts
  {
    var inserted := TryInsert(sys.store, NewOpen(id, trade, reason, now, true)).0;
    assert inserted.pendingOpens == sys.store.pendingOpens && inserted.originKeys == sys.store.originKeys;
  }

  // Any other end of an attempt.
  lemma FailedAttemptIsItsStep(sys: System, trade: string, reply: Reply, reason: Option<string>, now: int, ok: bool)
    requires trade in sys.attempts && sys.attempts[trade] == Awaiting
    requires reply.AcceptedReply? ==> reply.disputeId == None
    ensures Next(sys, GiveUp(trade)).store == FinishOpen(sys.store, trade, reply, reason, now, ok).0
    ensures trade !in Next(sys, GiveUp(trade)).attempts
  {
  }

  // A late acceptance is of the dispute that follows the verdicts handled so far, and
  // of the last one before that where its record still shows the verdict.
  lemma LateAcceptanceIsItsSteps(sys: System, trade: string, id: string, now: int, ok: bool, later: int)
    ensures var recorded := Next(sys, Late(trade, id, now));
      var shown := trade in sys.store.disputes && sys.store.disputes[trade].status == Resolved;
      var verdicts: nat := if trade in sys.settled then sys.settled[trade] else 0;
      var n: nat := if shown && verdicts > 0 then verdicts - 1 else verdicts;
      && recorded.accepted == sys.accepted + {Acceptance(trade, n)}
      && recorded.tails == sys.tails + {WriteOrigin(trade, n)}
      && Next(recorded, Run(WriteOrigin(trade, n), ok, later)).store
           == LateAcceptance(sys.store, trade, Some(id), now, ok)
  {
    var n := DisputeOf(sys, trade);
    var recorded := Next(sys, Late(trade, id, now));
    assert WriteOrigin(trade, n) in recorded.tails;
    assert Next(recorded, Run(WriteOrigin(trade, n), ok, later)).store
      == LateAcceptance(sys.store, trade, Some(id), now, ok);
  }

  // Both deletions, one after the other.
  function Cleared(sys: System, trade: string, ok: bool, now: int): System {
    Next(Next(sys, Run(DeleteSolver(trade), ok, now)), Run(DeleteOrigin(trade), ok, now))
  }

  lemma ClearingIsItsSteps(sys: System, trade: string, ok: bool, now: int)
    requires DeleteBoth(trade) <= sys.tails
    ensures Cleared(sys, trade, ok, now).store == ClearKeys(sys.store, trade, ok, ok)
  {
    assert DeleteSolver(trade) in sys.tails && DeleteOrigin(trade) in sys.tails;
  }

  // The row is read first; the section and the write of the solver come later, and
  // where the section refuses there is no write.
  lemma AssignmentIsItsSteps(sys: System, trade: string, solver: string, newId: string, readable: bool, ok: bool,
      now: int)
    ensures var read := Next(sys, Took(trade, solver, newId, readable));
      var taken := Next(read, Run(Assign(trade, solver, newId), ok, now));
      var (s', error) := AdminTook(sys.store, trade, solver, newId, now, readable, ok);
      if readable && TradeFinished(sys.store, trade) then Cleared(read, trade, ok, now).store == s'
      else if error.Some? then taken.store == s' && taken.tails == read.tails
      else Next(taken, Run(WriteSolver(trade, solver), ok, now)).store == s'
  {
    var read := Next(sys, Took(trade, solver, newId, readable));
    if readable && TradeFinished(sys.store, trade) {
      ClearingIsItsSteps(read, trade, ok, now);
    } else {
      assert Assign(trade, solver, newId) in read.tails;
      AssignedStore(read, trade, solver, newId, ok, now);
    }
  }

  lemma AssignedStore(sys: System, trade: string, solver: string, newId: string, ok: bool, now: int)
    requires Assign(trade, solver, newId) in sys.tails
    ensures var taken := Next(sys, Run(Assign(trade, solver, newId), ok, now));
      var (s', error) := UpsertTook(sys.store, trade, solver, newId, now);
      if error.Some? then taken == sys
      else Next(taken, Run(WriteSolver(trade, solver), ok, now)).store == SaveSolver(s', trade, solver, ok)
  {
  }

  lemma VerdictIsItsSteps(sys: System, trade: string, resolution: Resolution, ok: bool, now: int)
    ensures var settled := Next(sys, Settle(trade, resolution, now));
      var (s', error) := Resolve(sys.store, trade, resolution, now, ok);
      if error.Some? then settled.store == s' && settled.tails == sys.tails
      else Cleared(settled, trade, ok, now).store == s'
  {
    var settled := Next(sys, Settle(trade, resolution, now));
    if UpdateResolved(sys.store, trade, resolution, now).1.None? {
      ClearingIsItsSteps(settled, trade, ok, now);
    }
  }

  // A rehydration reads the solver, then the marker, and restores at the end.
  lemma RowIsItsSteps(sys: System, row: Row, now: int)
    requires Reachable(sys)
    ensures var read := Next(sys, ReadRow(row)); var t := row.orderId;
      var s' := RehydrateRow(sys.store, row, now);
      if t in sys.store.disputes then read == sys && s' == sys.store
      else if IsOrderFinished(row.status) then Cleared(read, t, row.clearOk, now).store == s'
      else if !row.solverReadable || t !in sys.store.solverKeys then read == sys && s' == sys.store
      else
        var solver := sys.store.solverKeys[t];
        var marked := Next(read, Run(ReadOrigin(row, solver), true, now));
        exists marker :: marked.tails == read.tails + {Restore(row, solver, marker)}
          && Next(marked, Run(Restore(row, solver, marker), true, now)).store == s'
  {
    var read, t := Next(sys, ReadRow(row)), row.orderId;
    if t !in sys.store.disputes && IsOrderFinished(row.status) {
      ClearingIsItsSteps(read, t, row.clearOk, now);
    } else if t !in sys.store.disputes && row.solverReadable && t in sys.store.solverKeys {
      ReachableInv(sys);
      RestoredStore(read, row, sys.store.solverKeys[t], now);
    }
  }

  lemma RestoredStore(sys: System, row: Row, solver: string, now: int)
    requires ReadOrigin(row, solver) in sys.tails && row.orderId !in sys.store.disputes && MarkersOk(sys)
    ensures var marked := Next(sys, Run(ReadOrigin(row, solver), true, now));
      var mine := row.originReadable && row.orderId in sys.store.originKeys;
      exists marker :: marked.tails == sys.tails + {Restore(row, solver, marker)}
        && Next(marked, Run(Restore(row, solver, marker), true, now)).store
             == Put(sys.store, Placeholder(row.newId, row.orderId, solver, mine, now))
  {
    var marked, marker := Next(sys, Run(ReadOrigin(row, solver), true, now)), MarkerRead(sys, row);
    assert Restore(row, solver, marker) in marked.tails;
    var mine := row.originReadable && row.orderId in sys.store.originKeys;
    assert Next(marked, Run(Restore(row, solver, marker), true, now)).store
      == Put(sys.store, Placeholder(row.newId, row.orderId, solver, mine, now));
  }

  // A new attempt is marked as in flight; a second one changes nothing.
  lemma BeginIsTheMark(sys: System, trade: string, localStatus: Option<OrderStatus>)
    ensures var sys' := Next(sys, Begin(trade, localStatus));
      if trade in sys.attempts then sys' == sys
      else
        && sys' == sys.(attempts := sys.attempts[trade := Awaiting], store := sys'.store)
        && sys'.store == sys.store.(pendingOpens := sys.store.pendingOpens + {trade})
  {
  }

  // A restart keeps the stored keys and rows, and forgets the rest.
  lemma RestartKeepsWhatIsStored(sys: System)
    ensures var s, sys' := sys.store, Next(sys, Restart);
      && sys'.store == Store(map[], {}, s.solverKeys, s.originKeys, s.trades)
      && sys'.attempts == map[] && sys'.tails == {}
      && sys'.settled == sys.settled && sys'.accepted == sys.accepted && sys'.markers == sys.markers
  {
  }
}
