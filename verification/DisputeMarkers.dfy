// Which dispute a stored origin marker belongs to, in every interleaving.
module DisputeMarkers {
  import opened Prelude
  import opened Types
  import opened Disputes
  import opened DisputeRaces

  ghost predicate WritesAt(run: seq<Step>, k: nat, trade: string, n: nat)
    requires k < |run|
  {
    Writes(After(run[..k]), run[k], trade) == Some(n)
  }

  ghost predicate DeletesAt(run: seq<Step>, k: nat, trade: string)
    requires k < |run|
  {
    Deletes(After(run[..k]), run[k], trade)
  }

  // Step `j` leaves the trade's marker as it is.
  ghost predicate LeavesAt(run: seq<Step>, j: nat, trade: string)
    requires j < |run|
  {
    Writes(After(run[..j]), run[j], trade).None? && !DeletesAt(run, j, trade)
  }

  // The marker as step `k` wrote it, for dispute `n`, is the one stored now.
  ghost predicate LastWrite(run: seq<Step>, k: nat, trade: string, n: nat) {
    k < |run| && WritesAt(run, k, trade, n) && forall j :: k < j < |run| ==> LeavesAt(run, j, trade)
  }

  // Step `j` handled the verdict of dispute `n`.
  ghost predicate VerdictAt(run: seq<Step>, j: nat, trade: string, n: nat) {
    j < |run| && Settles(run[j], trade) && Verdicts(After(run[..j]), trade) == n
  }

  lemma StepsStay(before: seq<Step>, step: Step, k: nat, trade: string, n: nat)
    requires k < |before|
    ensures WritesAt(before + [step], k, trade, n) <==> WritesAt(before, k, trade, n)
    ensures LeavesAt(before + [step], k, trade) <==> LeavesAt(before, k, trade)
    ensures VerdictAt(before + [step], k, trade, n) <==> VerdictAt(before, k, trade, n)
  {
    assert (before + [step])[..k] == before[..k];
  }

  lemma LastStep(before: seq<Step>, step: Step, trade: string, n: nat)
    ensures WritesAt(before + [step], |before|, trade, n) <==> Writes(After(before), step, trade) == Some(n)
    ensures LeavesAt(before + [step], |before|, trade) <==>
      Writes(After(before), step, trade).None? && !Deletes(After(before), step, trade)
    ensures VerdictAt(before + [step], |before|, trade, n) <==>
      Settles(step, trade) && Verdicts(After(before), trade) == n
  {
    assert (before + [step])[..|before|] == before;
  }

  lemma LastWriteStep(before: seq<Step>, step: Step, k: nat, trade: string, n: nat)
    requires k < |before|
    ensures LastWrite(before + [step], k, trade, n) <==>
      LastWrite(before, k, trade, n) && LeavesAt(before + [step], |before|, trade)
  {
    var run := before + [step];
    StepsStay(before, step, k, trade, n);
    forall j: nat | j < |before| ensures LeavesAt(run, j, trade) <==> LeavesAt(before, j, trade) {
      StepsStay(before, step, j, trade, n);
    }
    if LastWrite(run, k, trade, n) {
      assert forall j :: k < j < |before| ==> LeavesAt(run, j, trade);
    }
  }

  // ---- Markers are what was last written ---------------------------------------------

  ghost predicate Written(run: seq<Step>, trade: string, n: nat) {
    exists k: nat :: LastWrite(run, k, trade, n)
  }

  lemma WrittenBefore(before: seq<Step>, step: Step, k: nat, trade: string, n: nat)
    requires LastWrite(before + [step], k, trade, n)
    ensures WritesAt(before + [step], |before|, trade, n)
      || (Written(before, trade, n) && LeavesAt(before + [step], |before|, trade))
  {
    if k < |before| {
      LastWriteStep(before, step, k, trade, n);
    }
  }

  lemma WrittenAfter(before: seq<Step>, step: Step, k: nat, trade: string, n: nat)
    requires LastWrite(before, k, trade, n) && LeavesAt(before + [step], |before|, trade)
    ensures Written(before + [step], trade, n)
  {
    LastWriteStep(before, step, k, trade, n);
  }

  lemma WrittenNow(before: seq<Step>, step: Step, trade: string, n: nat)
    requires WritesAt(before + [step], |before|, trade, n)
    ensures Written(before + [step], trade, n)
  {
    assert LastWrite(before + [step], |before|, trade, n);
  }

  lemma WrittenStep(before: seq<Step>, step: Step, trade: string, n: nat)
    ensures Written(before + [step], trade, n) <==>
      || WritesAt(before + [step], |before|, trade, n)
      || (Written(before, trade, n) && LeavesAt(before + [step], |before|, trade))
  {
    if Written(before + [step], trade, n) {
      var k: nat :| LastWrite(before + [step], k, trade, n);
      WrittenBefore(before, step, k, trade, n);
    }
    if Written(before, trade, n) && LeavesAt(before + [step], |before|, trade) {
      var k: nat :| LastWrite(before, k, trade, n);
      WrittenAfter(before, step, k, trade, n);
    }
    if WritesAt(before + [step], |before|, trade, n) {
      WrittenNow(before, step, trade, n);
    }
  }

  // A marker is stored, for dispute `n`, exactly when it was written for it and
  // neither written nor deleted since.
  lemma {:induction false} MarkerIsItsLastWrite(run: seq<Step>, trade: string, n: nat)
    ensures MarkerAt(After(run), trade) == Some(n) <==> Written(run, trade, n)
  {
    if run != [] {
      var before, step := run[..|run| - 1], run[|run| - 1];
      assert run == before + [step];
      MarkerIsItsLastWrite(before, trade, n);
      StepHasFacts(After(before), step);
      LastStep(before, step, trade, n);
      WrittenStep(before, step, trade, n);
    }
  }

  // ---- Verdicts number the disputes ------------------------------------------------------

  ghost predicate IsSettled(run: seq<Step>, trade: string, n: nat) {
    exists j: nat :: VerdictAt(run, j, trade, n)
  }

  lemma SettledBefore(before: seq<Step>, step: Step, j: nat, trade: string, n: nat)
    requires VerdictAt(before + [step], j, trade, n)
    ensures IsSettled(before, trade, n) || VerdictAt(before + [step], |before|, trade, n)
  {
    if j < |before| {
      StepsStay(before, step, j, trade, n);
    }
  }

  lemma SettledAfter(before: seq<Step>, step: Step, j: nat, trade: string, n: nat)
    requires VerdictAt(before, j, trade, n)
    ensures IsSettled(before + [step], trade, n)
  {
    StepsStay(before, step, j, trade, n);
  }

  lemma SettledStep(before: seq<Step>, step: Step, trade: string, n: nat)
    ensures IsSettled(before + [step], trade, n) <==>
      IsSettled(before, trade, n) || VerdictAt(before + [step], |before|, trade, n)
  {
    if IsSettled(before + [step], trade, n) {
      var j: nat :| VerdictAt(before + [step], j, trade, n);
      SettledBefore(before, step, j, trade, n);
    }
    if IsSettled(before, trade, n) {
      var j: nat :| VerdictAt(before, j, trade, n);
      SettledAfter(before, step, j, trade, n);
    }
  }

  lemma {:induction false} SettledExactlyByVerdicts(run: seq<Step>, trade: string, n: nat)
    ensures n < Verdicts(After(run), trade) <==> IsSettled(run, trade, n)
  {
    if run != [] {
      var before, step := run[..|run| - 1], run[|run| - 1];
      assert run == before + [step];
      SettledExactlyByVerdicts(before, trade, n);
      StepHasFacts(After(before), step);
      SettledStep(before, step, trade, n);
      LastStep(before, step, trade, n);
    }
  }

  // ---- Whose marker it is -----------------------------------------------------------------

  // A stored marker belongs to the current dispute of its trade exactly when no
  // verdict of the dispute it was written for has been handled.
  lemma MarkerIsCurrentExactlyWhen(run: seq<Step>, trade: string, n: nat)
    requires MarkerAt(After(run), trade) == Some(n)
    ensures Acceptance(trade, n) in After(run).accepted
    ensures n == Verdicts(After(run), trade) <==> !IsSettled(run, trade, n)
  {
    RunKeepsInv(run);
    SettledExactlyByVerdicts(run, trade, n);
    assert Acceptance(trade, n).dispute <= Verdicts(After(run), Acceptance(trade, n).trade);
  }

  ghost predicate IsStale(sys: System, trade: string) {
    MarkerAt(sys, trade).Some? && MarkerAt(sys, trade).value < Verdicts(sys, trade)
  }

  // The three ways past the verdict of dispute `n` at step `j`: the marker was
  // written after it; it was stored already, and the verdict was refused because no
  // live record was in memory, so that no deletion was due; or it was stored, the
  // verdict was accepted, and no deletion has succeeded since.
  ghost predicate WrittenSince(run: seq<Step>, j: nat, trade: string, n: nat) {
    exists k: nat :: j < k && LastWrite(run, k, trade, n)
  }

  ghost predicate KeptSince(run: seq<Step>, j: nat, trade: string, n: nat)
    requires j <= |run|
  {
    MarkerAt(After(run[..j]), trade) == Some(n) && forall m :: j <= m < |run| ==> LeavesAt(run, m, trade)
  }

  ghost predicate RefusedAt(run: seq<Step>, j: nat, trade: string, n: nat)
    requires j <= |run|
  {
    KeptSince(run, j, trade, n) && !IsLive(After(run[..j]).store, trade)
  }

  ghost predicate UndeletedSince(run: seq<Step>, j: nat, trade: string, n: nat)
    requires j <= |run|
  {
    KeptSince(run, j, trade, n) && IsLive(After(run[..j]).store, trade)
  }

  ghost predicate Survives(run: seq<Step>, j: nat, trade: string, n: nat) {
    && VerdictAt(run, j, trade, n)
    && (WrittenSince(run, j, trade, n) || RefusedAt(run, j, trade, n) || UndeletedSince(run, j, trade, n))
  }

  lemma StepsOfPrefix(run: seq<Step>, j: nat, k: nat, trade: string, n: nat)
    requires k < j <= |run|
    ensures WritesAt(run[..j], k, trade, n) <==> WritesAt(run, k, trade, n)
    ensures LeavesAt(run[..j], k, trade) <==> LeavesAt(run, k, trade)
  {
    assert run[..j][..k] == run[..k];
  }

  lemma LastWriteOfPrefix(run: seq<Step>, j: nat, k: nat, trade: string, n: nat)
    requires k < j <= |run|
    ensures LastWrite(run, k, trade, n) <==>
      LastWrite(run[..j], k, trade, n) && forall m :: j <= m < |run| ==> LeavesAt(run, m, trade)
  {
    StepsOfPrefix(run, j, k, trade, n);
    forall m: nat | m < j ensures LeavesAt(run[..j], m, trade) <==> LeavesAt(run, m, trade) {
      StepsOfPrefix(run, j, m, trade, n);
    }
    if LastWrite(run[..j], k, trade, n) && forall m :: j <= m < |run| ==> LeavesAt(run, m, trade) {
      forall m: nat | k < m < |run| ensures LeavesAt(run, m, trade) {
        assert m < j ==> LeavesAt(run[..j], m, trade);
      }
    }
  }

  lemma StaleSurvived(run: seq<Step>, j: nat, k: nat, trade: string, n: nat)
    requires VerdictAt(run, j, trade, n) && LastWrite(run, k, trade, n)
    ensures Survives(run, j, trade, n)
  {
    if k < j {
      LastWriteOfPrefix(run, j, k, trade, n);
      MarkerIsItsLastWrite(run[..j], trade, n);
      assert KeptSince(run, j, trade, n);
    } else {
      assert k != j;
    }
  }

  lemma SurvivorIsWritten(run: seq<Step>, j: nat, trade: string, n: nat)
    requires Survives(run, j, trade, n)
    ensures Written(run, trade, n)
  {
    if !WrittenSince(run, j, trade, n) {
      assert KeptSince(run, j, trade, n);
      MarkerIsItsLastWrite(run[..j], trade, n);
      var k: nat :| LastWrite(run[..j], k, trade, n);
      LastWriteOfPrefix(run, j, k, trade, n);
    }
  }

  // A stored marker is of an earlier dispute exactly when it survived the verdict
  // of that dispute in one of these ways.
  lemma MarkerIsStaleExactlyWhen(run: seq<Step>, trade: string)
    ensures IsStale(After(run), trade) <==> exists n: nat, j: nat :: Survives(run, j, trade, n)
  {
    if IsStale(After(run), trade) {
      var n := MarkerAt(After(run), trade).value;
      MarkerIsItsLastWrite(run, trade, n);
      SettledExactlyByVerdicts(run, trade, n);
      var k: nat :| LastWrite(run, k, trade, n);
      var j: nat :| VerdictAt(run, j, trade, n);
      StaleSurvived(run, j, k, trade, n);
    }
    if n: nat, j: nat :| Survives(run, j, trade, n) {
      SurvivorIsWritten(run, j, trade, n);
      MarkerIsItsLastWrite(run, trade, n);
      SettledExactlyByVerdicts(run, trade, n);
    }
  }

  // ---- Whose record it is -------------------------------------------------------------------

  // Step `i` read the trade's marker, written for dispute `n`, to restore a record.
  ghost predicate ReadAt(run: seq<Step>, i: nat, trade: string, n: nat) {
    && i < |run| && run[i].Run? && run[i].tail.ReadOrigin? && run[i].tail.row.orderId == trade
    && MarkerAt(After(run[..i]), trade) == Some(n)
  }

  ghost predicate WasRead(run: seq<Step>, trade: string, n: nat) {
    exists i: nat :: ReadAt(run, i, trade, n)
  }

  ghost predicate ReadsTraced(run: seq<Step>, sys: System) {
    && (forall tail :: tail in sys.tails && tail.Restore? && tail.marker.Some? ==>
          WasRead(run, tail.row.orderId, tail.marker.value))
    && (forall t :: t in sys.claims && sys.claims[t].restored ==> WasRead(run, t, sys.claims[t].dispute))
  }

  lemma WasReadStays(before: seq<Step>, step: Step, trade: string, n: nat)
    requires WasRead(before, trade, n)
    ensures WasRead(before + [step], trade, n)
  {
    var i: nat :| ReadAt(before, i, trade, n);
    assert (before + [step])[..i] == before[..i];
    assert ReadAt(before + [step], i, trade, n);
  }

  lemma ReadNow(before: seq<Step>, step: Step, trade: string, n: nat)
    requires step.Run? && step.tail.ReadOrigin? && step.tail.row.orderId == trade
    requires MarkerAt(After(before), trade) == Some(n)
    ensures WasRead(before + [step], trade, n)
  {
    assert (before + [step])[..|before|] == before;
    assert ReadAt(before + [step], |before|, trade, n);
  }

  lemma StepKeepsReads(before: seq<Step>, step: Step, sys: System, sys': System)
    requires sys == After(before) && ReadsTraced(before, sys) && StepFacts(sys, step, sys')
    ensures ReadsTraced(before + [step], sys')
  {
    forall tail | tail in sys'.tails && tail.Restore? && tail.marker.Some?
      ensures WasRead(before + [step], tail.row.orderId, tail.marker.value)
    {
      if tail in sys.tails {
        WasReadStays(before, step, tail.row.orderId, tail.marker.value);
      } else {
        assert tail in NewTails(sys, step);
        ReadNow(before, step, tail.row.orderId, tail.marker.value);
      }
    }
    forall t | t in sys'.claims && sys'.claims[t].restored
      ensures WasRead(before + [step], t, sys'.claims[t].dispute)
    {
      WasReadStays(before, step, t, sys'.claims[t].dispute);
    }
  }

  lemma {:induction false} RunReads(run: seq<Step>)
    ensures ReadsTraced(run, After(run))
  {
    if run != [] {
      var before, step := run[..|run| - 1], run[|run| - 1];
      RunReads(before);
      StepHasFacts(After(before), step);
      AfterAppend(before, step);
      StepKeepsReads(before, step, After(before), Next(After(before), step));
      assert run == before + [step];
    }
  }

  // A live record shows a dispute of the peer as ours exactly when a verdict of the
  // dispute it was claimed for has been handled. Then it was restored, from a marker
  // of that earlier dispute that was stored when it was read.
  lemma OursIsMistakenExactlyWhen(run: seq<Step>, trade: string)
    requires IsLive(After(run).store, trade) && After(run).store.disputes[trade].initiatedByMe
    ensures trade in After(run).claims
    ensures var claim := After(run).claims[trade];
      && (claim.dispute != Verdicts(After(run), trade) <==> IsSettled(run, trade, claim.dispute))
      && (IsSettled(run, trade, claim.dispute) ==> claim.restored && WasRead(run, trade, claim.dispute))
  {
    RunKeepsInv(run);
    RunReads(run);
    assert RecordOkAt(After(run), trade);
    var n := After(run).claims[trade].dispute;
    SettledExactlyByVerdicts(run, trade, n);
    assert Acceptance(trade, n).dispute <= Verdicts(After(run), Acceptance(trade, n).trade);
  }

  // ---- A run with a stale marker ------------------------------------------------------------

  lemma Extend(run: seq<Step>, step: Step) returns (longer: seq<Step>)
    ensures longer == run + [step] && After(longer) == Next(After(run), step)
  {
    AfterAppend(run, step);
    longer := run + [step];
  }

  // From a marker that outlived its dispute: the peer's next dispute on the trade,
  // whose row shows no verdict, comes back from a restart as ours, although it was
  // never accepted as ours.
  ghost predicate ComesBackAsOurs(before: System, after: System, t: string) {
    && IsPeerDispute(before, t)
    && (forall n :: Acceptance(t, n) in after.accepted <==> n == 0)
    && IsOurs(after.store, t) && Verdicts(after, t) == 1 && ClaimAt(after, t) == Some(Claim(0, true))
  }

  lemma MarkedComesBack(start: seq<Step>, t: string) returns (run: seq<Step>, more: seq<Step>)
    requires MarkedTooLate(After(start), t)
    ensures ComesBackAsOurs(After(run), After(run + more), t)
  {
    PeerOpens(After(start), t);
    run := Extend(start, Step.Restart);
    run := Extend(run, Took(t, "solver", "two", true));
    run := Extend(run, Run(Assign(t, "solver", "two"), true, 5));
    run := Extend(run, Run(WriteSolver(t, "solver"), true, 6));
    ghost var row := Row(t, OrderStatus.Dispute, "three", true, true, true);
    ComesBack(After(run), t, row);
    var all := Extend(run, Step.Restart);
    all := Extend(all, ReadRow(row));
    all := Extend(all, Run(ReadOrigin(row, "solver"), true, 7));
    all := Extend(all, Run(Restore(row, "solver", Some(0)), true, 8));
    more := all[|run|..];
    assert run + more == all;
  }

  // It happens when the origin write of a late acceptance lands after the verdict
  // and the deletion of both keys.
  lemma LateWriteTurnsPeerDisputeIntoOurs(t: string) returns (run: seq<Step>, more: seq<Step>)
    ensures ComesBackAsOurs(After(run), After(run + more), t)
  {
    var start := WrittenTooLate(t);
    run, more := MarkedComesBack(start, t);
  }

  // And it happens when the verdict comes after a restart. Our dispute was never
  // taken, so there is no solver to restore it by; the verdict finds no record, is
  // refused, and deletes nothing.
  lemma RefusedVerdictTurnsPeerDisputeIntoOurs(t: string) returns (run: seq<Step>, more: seq<Step>)
    ensures ComesBackAsOurs(After(run), After(run + more), t)
  {
    var start := RefusedAfterRestart(t);
    run, more := MarkedComesBack(start, t);
  }

  lemma RefusedAfterRestart(t: string) returns (run: seq<Step>)
    ensures MarkedTooLate(After(run), t)
  {
    run := [];
    ghost var sys := After(run);
    assert sys == START;
    run := Extend(run, SetTrade(t, OrderStatus.Dispute));
    LateThenWritten(After(run), t);
    run := Extend(run, Late(t, "one", 1));
    run := Extend(run, Run(WriteOrigin(t, 0), true, 2));
    VerdictAfterRestart(After(run), t);
    run := Extend(run, Step.Restart);
    run := Extend(run, Settle(t, FundsToBuyer, 3));
  }

  lemma LateThenWritten(sys: System, t: string)
    requires sys == START.(store := START.store.(trades := map[t := OrderStatus.Dispute]))
    ensures var sys' := Next(Next(sys, Late(t, "one", 1)), Run(WriteOrigin(t, 0), true, 2));
      && sys'.store.originKeys == {t} && sys'.markers == map[t := 0] && sys'.settled == map[]
      && sys'.accepted == {Acceptance(t, 0)} && sys'.store.trades == sys.store.trades
  {
    var late := Next(sys, Late(t, "one", 1));
    assert late.tails == {WriteOrigin(t, 0)} && late.accepted == {Acceptance(t, 0)} && late.settled == map[];
  }

  lemma VerdictAfterRestart(sys: System, t: string)
    requires sys.store.originKeys == {t} && sys.markers == map[t := 0] && sys.settled == map[]
    requires sys.accepted == {Acceptance(t, 0)} && sys.store.trades == map[t := OrderStatus.Dispute]
    ensures MarkedTooLate(Next(Next(sys, Step.Restart), Settle(t, FundsToBuyer, 3)), t)
  {
    var restarted := Next(sys, Step.Restart);
    assert restarted.store.disputes == map[];
    SettleShape(restarted, t, FundsToBuyer, 3);
  }

  ghost predicate IsPeerDispute(sys: System, t: string) {
    t in sys.store.disputes && IsPeerPlaceholder(sys.store.disputes[t])
  }

  // The first dispute is settled and both keys are deleted, but its marker is stored.
  ghost predicate MarkedTooLate(sys: System, t: string) {
    && sys.store.originKeys == {t} && sys.markers == map[t := 0] && sys.settled == map[t := 1]
    && sys.accepted == {Acceptance(t, 0)} && sys.store.trades == map[t := OrderStatus.Dispute]
  }

  lemma WrittenTooLate(t: string) returns (run: seq<Step>)
    ensures MarkedTooLate(After(run), t)
  {
    run := [];
    ghost var sys := After(run);
    assert sys == START;
    run := Extend(run, SetTrade(t, OrderStatus.Dispute));
    LateThenSettled(After(run), t);
    run := Extend(run, Late(t, "one", 1));
    run := Extend(run, Settle(t, FundsToBuyer, 2));
    KeysThenMarker(After(run), t);
    run := Extend(run, Run(DeleteSolver(t), true, 3));
    run := Extend(run, Run(DeleteOrigin(t), true, 3));
    run := Extend(run, Run(WriteOrigin(t, 0), true, 4));
  }

  lemma LateThenSettled(sys: System, t: string)
    requires sys == START.(store := START.store.(trades := map[t := OrderStatus.Dispute]))
    ensures var sys' := Next(Next(sys, Late(t, "one", 1)), Settle(t, FundsToBuyer, 2));
      && sys'.store.originKeys == {} && sys'.markers == map[] && sys'.settled == map[t := 1]
      && sys'.accepted == {Acceptance(t, 0)} && sys'.store.trades == sys.store.trades
      && sys'.tails == {WriteOrigin(t, 0), DeleteSolver(t), DeleteOrigin(t)}
  {
    var late := Next(sys, Late(t, "one", 1));
    assert late.tails == {WriteOrigin(t, 0)} && IsLive(late.store, t) && late.accepted == {Acceptance(t, 0)};
    SettleShape(late, t, FundsToBuyer, 2);
  }

  lemma KeysThenMarker(sys: System, t: string)
    requires sys.store.originKeys == {} && sys.markers == map[]
      && sys.tails == {WriteOrigin(t, 0), DeleteSolver(t), DeleteOrigin(t)}
    ensures var deleted := Next(Next(sys, Run(DeleteSolver(t), true, 3)), Run(DeleteOrigin(t), true, 3));
      var sys' := Next(deleted, Run(WriteOrigin(t, 0), true, 4));
      && sys'.store.originKeys == {t} && sys'.markers == map[t := 0] && sys'.settled == sys.settled
      && sys'.accepted == sys.accepted && sys'.store.trades == sys.store.trades
  {
  }

  lemma PeerOpens(sys: System, t: string)
    requires MarkedTooLate(sys, t)
    ensures var taken := Next(Next(sys, Step.Restart), Took(t, "solver", "two", true));
      var sys' := Next(Next(taken, Run(Assign(t, "solver", "two"), true, 5)), Run(WriteSolver(t, "solver"), true, 6));
      MarkedTooLate(sys', t) && IsPeerDispute(sys', t) && t in sys'.store.solverKeys
      && sys'.store.solverKeys[t] == "solver"
  {
    var taken := Next(Next(sys, Step.Restart), Took(t, "solver", "two", true));
    assert taken.tails == {Assign(t, "solver", "two")} && taken.store.disputes == map[];
    var inReview := Next(taken, Run(Assign(t, "solver", "two"), true, 5));
    assert WriteSolver(t, "solver") in inReview.tails && IsPeerDispute(inReview, t) && MarkedTooLate(inReview, t);
  }

  lemma ComesBack(sys: System, t: string, row: Row)
    requires MarkedTooLate(sys, t) && t in sys.store.solverKeys && sys.store.solverKeys[t] == "solver"
    requires row == Row(t, OrderStatus.Dispute, "three", true, true, true)
    ensures var marked := Next(Next(Next(sys, Step.Restart), ReadRow(row)), Run(ReadOrigin(row, "solver"), true, 7));
      var sys' := Next(marked, Run(Restore(row, "solver", Some(0)), true, 8));
      IsOurs(sys'.store, t) && Verdicts(sys', t) == 1 && ClaimAt(sys', t) == Some(Claim(0, true))
      && sys'.accepted == sys.accepted
  {
    var looked := Next(Next(sys, Step.Restart), ReadRow(row));
    assert looked.tails == {ReadOrigin(row, "solver")} && looked.store.disputes == map[];
    assert looked.store.originKeys == {t} && looked.markers == map[t := 0];
    var marked := Next(looked, Run(ReadOrigin(row, "solver"), true, 7));
    assert Restore(row, "solver", Some(0)) in marked.tails && marked.store.disputes == map[];
  }
}
