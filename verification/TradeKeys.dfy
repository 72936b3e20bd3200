// The trade-key counter: in memory, in the database row, and in the mirror the
// application writes from the published indices.
module TradeKeys {
  import opened Prelude

  datatype Row = Row(publicKey: string, index: nat)

  // `native` platforms refuse to count without a store; the web may run without.
  // `published` lists every index ever sent to the mirror.
  datatype Counters = Counters(
    publicKey: string,
    memory: Option<nat>,
    row: Option<Row>,
    hasStore: bool,
    native: bool,
    published: seq<nat>)

  datatype KeyError = NoIdentity | StorageUnavailable | DerivationFailed | StorageError

  // ---- What each operation does ------------------------------------------------

  predicate MissingStore(c: Counters) {
    c.native && !c.hasStore
  }

  function Save(c: Counters, index: nat): Counters {
    if c.hasStore then c.(row := Some(Row(c.publicKey, index))) else c
  }

  function Publish(c: Counters, index: nat): Counters {
    c.(published := c.published + [index])
  }

  // A failed save keeps the bump: a retry moves on to the next index.
  function Derive(c: Counters, keyOk: bool, saveOk: bool): (Counters, Result<nat, KeyError>) {
    if MissingStore(c) then (c, Err(StorageUnavailable))
    else if c.memory.None? then (c, Err(NoIdentity))
    else if !keyOk then (c, Err(DerivationFailed))
    else
      var candidate := c.memory.value + 1;
      var bumped := c.(memory := Some(candidate));
      if c.hasStore && !saveOk then (bumped, Err(StorageError))
      else (Publish(Save(bumped, candidate), candidate), Ok(candidate))
  }

  // A failed save rolls back; a floor already reached is a no-op.
  function Resync(c: Counters, floor: nat, saveOk: bool): (Counters, Result<bool, KeyError>) {
    if MissingStore(c) then (c, Err(StorageUnavailable))
    else if c.memory.None? then (c, Err(NoIdentity))
    else if floor <= c.memory.value then (c, Ok(true))
    else if c.hasStore && !saveOk then (c, Err(StorageError))
    else (Publish(Save(c.(memory := Some(floor)), floor), floor), Ok(true))
  }

  function Reconcile(passed: nat, stored: Option<Row>, publicKey: string): nat {
    if stored.Some? && stored.value.publicKey == publicKey then Max(passed, stored.value.index) else passed
  }

  function Load(c: Counters, passed: nat, readOk: bool): Counters {
    var stored := if c.hasStore && readOk then c.row else None;
    var reconciled := Reconcile(passed, stored, c.publicKey);
    var loaded := c.(memory := Some(reconciled));
    if reconciled > passed then Publish(loaded, reconciled) else loaded
  }

  // ---- What callers get from one call --------------------------------------------

  // A resync succeeds exactly when there is nothing to do, nowhere to save, or the
  // save succeeds. Then the counter is the larger of itself and the floor; where it
  // moved, the floor is published and, with a store, in our row. Otherwise nothing
  // changed.
  lemma ResyncReachesTheFloor(c: Counters, floor: nat, saveOk: bool)
    ensures var (c', r) := Resync(c, floor, saveOk);
      if c.native && !c.hasStore then c' == c && r == Err(StorageUnavailable)
      else if c.memory == None then c' == c && r == Err(NoIdentity)
      else
        var was := c.memory.value;
        && (r == Ok(true) <==> floor <= was || !c.hasStore || saveOk)
        && (r != Ok(true) ==> c' == c && r == Err(StorageError))
        && (r == Ok(true) ==> c'.memory == Some(if was < floor then floor else was))
        && (r == Ok(true) ==> c'.published == c.published + if was < floor then [floor] else [])
        && (r == Ok(true) ==> c'.row == if was < floor && c.hasStore then Some(Row(c.publicKey, floor)) else c.row)
        && c'.publicKey == c.publicKey && c'.hasStore == c.hasStore && c'.native == c.native
  {
  }

  // A derivation hands out the index after the counter, and then it is published
  // and, with a store, in our row. The counter moves even when the save fails, and
  // an index is never handed out without being saved.
  lemma DerivationHandsOutTheNext(c: Counters, keyOk: bool, saveOk: bool)
    ensures var (c', r) := Derive(c, keyOk, saveOk);
      if c.native && !c.hasStore then c' == c && r == Err(StorageUnavailable)
      else if c.memory == None then c' == c && r == Err(NoIdentity)
      else if !keyOk then c' == c && r == Err(DerivationFailed)
      else
        var next := c.memory.value + 1;
        && c'.memory == Some(next)
        && (r == Ok(next) <==> !c.hasStore || saveOk)
        && (r != Ok(next) ==> r == Err(StorageError) && c'.row == c.row && c'.published == c.published)
        && (r == Ok(next) ==> c'.published == c.published + [next])
        && (r == Ok(next) ==> c'.row == if c.hasStore then Some(Row(c.publicKey, next)) else c.row)
        && c'.publicKey == c.publicKey && c'.hasStore == c.hasStore && c'.native == c.native
  {
  }

  // A load never goes below the value passed nor below a readable row of the same
  // key, and takes no other value; it publishes what the value passed did not know.
  lemma LoadTakesTheLarger(c: Counters, passed: nat, readOk: bool)
    ensures var c' := Load(c, passed, readOk);
      var ours := c.hasStore && readOk && c.row.Some? && c.row.value.publicKey == c.publicKey;
      && c'.memory.Some?
      && passed <= c'.memory.value && (ours ==> c.row.value.index <= c'.memory.value)
      && (c'.memory.value == passed || (ours && c'.memory.value == c.row.value.index))
      && c'.published == c.published + (if c'.memory.value == passed then [] else [c'.memory.value])
      && c' == c.(memory := c'.memory, published := c'.published)
  {
  }

  class Identity {
    const publicKey: string
    const hasStore: bool
    const native: bool
    var memory: Option<nat>
    var row: Option<Row>
    ghost var published: seq<nat>

    ghost function View(): Counters
      reads this
    {
      Counters(publicKey, memory, row, hasStore, native, published)
    }

    // A fresh identity counts from zero; the row may be another mnemonic's.
    constructor (publicKey: string, hasStore: bool, native: bool, row: Option<Row>)
      ensures View() == Counters(publicKey, Some(0), row, hasStore, native, [])
    {
      this.publicKey := publicKey;
      this.hasStore := hasStore;
      this.native := native;
      this.memory := Some(0);
      this.row := row;
      this.published := [];
    }

    method DeriveTradeKey(keyOk: bool, saveOk: bool) returns (r: Result<nat, KeyError>)
      modifies this
      ensures (View(), r) == Derive(old(View()), keyOk, saveOk)
    {
      if native && !hasStore {
        return Err(StorageUnavailable);
      }
      if memory.None? {
        return Err(NoIdentity);
      }
      var candidate := memory.value + 1;
      if !keyOk {
        return Err(DerivationFailed);
      }
      memory := Some(candidate);
      if hasStore {
        if !saveOk {
          return Err(StorageError);
        }
        row := Some(Row(publicKey, candidate));
      }
      published := published + [candidate];
      r := Ok(candidate);
    }

    method EnsureTradeKeyIndexAtLeast(floor: nat, saveOk: bool) returns (r: Result<bool, KeyError>)
      modifies this
      ensures (View(), r) == Resync(old(View()), floor, saveOk)
    {
      if native && !hasStore {
        return Err(StorageUnavailable);
      }
      if memory.None? {
        return Err(NoIdentity);
      }
      var current := memory.value;
      var raised: nat := Max(current, floor);
      if raised == current {
        return Ok(true);
      }
      memory := Some(raised);
      if hasStore {
        if !saveOk {
          memory := Some(current);
          return Err(StorageError);
        }
        row := Some(Row(publicKey, raised));
      }
      published := published + [raised];
      r := Ok(true);
    }

    method LoadFromMnemonic(passed: nat, readOk: bool)
      modifies this
      ensures View() == Load(old(View()), passed, readOk)
    {
      var stored := if hasStore && readOk then row else None;
      var reconciled := Reconcile(passed, stored, publicKey);
      if reconciled > passed {
        published := published + [reconciled];
      }
      memory := Some(reconciled);
    }
  }

  // ---- Runs of one mnemonic ------------------------------------------------------

  // A restart loses memory, possibly the database, and reloads from whatever
  // value secure storage passes.
  datatype Step =
    | DeriveStep(keyOk: bool, saveOk: bool)
    | ResyncStep(floor: nat, saveOk: bool)
    | Restart(passed: nat, dbLost: bool)

  // The counters and every index derivation has handed out.
  datatype Life = Life(counters: Counters, returned: seq<nat>)

  function Next(l: Life, step: Step): Life {
    match step
    case DeriveStep(keyOk, saveOk) =>
      var (c, r) := Derive(l.counters, keyOk, saveOk);
      Life(c, if r.Ok? then l.returned + [r.value] else l.returned)
    case ResyncStep(floor, saveOk) => l.(counters := Resync(l.counters, floor, saveOk).0)
    case Restart(passed, dbLost) =>
      var survived := if dbLost then l.counters.(row := None) else l.counters;
      l.(counters := Load(survived.(memory := None), passed, true))
  }

  function After(start: Counters, run: seq<Step>): Life {
    if run == [] then Life(start, []) else Next(After(start, run[..|run| - 1]), run[|run| - 1])
  }

  ghost predicate Covers(index: nat, indices: seq<nat>) {
    forall i :: i in indices ==> i <= index
  }

  predicate RowIsOurs(c: Counters) {
    c.hasStore && c.row.Some? && c.row.value.publicKey == c.publicKey
  }

  // A restart is safe when our row survives it, however stale the value passed,
  // or when the mirror had received every published index.
  ghost predicate Safe(c: Counters, step: Step) {
    step.Restart? ==> (RowIsOurs(c) && !step.dbLost) || Covers(step.passed, c.published)
  }

  ghost predicate SafeRun(start: Counters, run: seq<Step>) {
    forall i {:trigger Safe(After(start, run[..i]).counters, run[i])} ::
      0 <= i < |run| ==> Safe(After(start, run[..i]).counters, run[i])
  }

  // An identity just loaded, of which nothing was published yet.
  ghost predicate Fresh(c: Counters) {
    c.memory.Some? && c.published == []
  }

  ghost predicate Inv(l: Life) {
    var c := l.counters;
    && c.memory.Some?
    && Covers(c.memory.value, l.returned)
    && Covers(c.memory.value, c.published)
    && (forall r :: r in l.returned ==> r in c.published)
    && (RowIsOurs(c) ==> Covers(c.row.value.index, c.published))
    && (forall i, j :: 0 <= i < j < |l.returned| ==> l.returned[i] < l.returned[j])
  }

  lemma StepKeepsInv(l: Life, step: Step)
    requires Inv(l) && Safe(l.counters, step)
    ensures Inv(Next(l, step))
  {
    assert forall i :: 0 <= i < |l.returned| ==> l.returned[i] in l.returned;
  }

  lemma {:induction false} RunKeepsInv(start: Counters, run: seq<Step>)
    requires Fresh(start) && SafeRun(start, run)
    ensures Inv(After(start, run))
  {
    if run != [] {
      var before := run[..|run| - 1];
      assert forall i :: 0 <= i < |before| ==> before[..i] == run[..i];
      RunKeepsInv(start, before);
      StepKeepsInv(After(start, before), run[|run| - 1]);
    }
  }

  // No index is handed out twice: those handed out strictly increase across
  // failed saves, resyncs, crashes and reloads.
  lemma NoIndexIsReturnedTwice(l: Life)
    requires Reachable(l)
    ensures forall i, j :: 0 <= i < j < |l.returned| ==> l.returned[i] < l.returned[j]
  {
    var start, run :| Fresh(start) && SafeRun(start, run) && l == After(start, run);
    RunKeepsInv(start, run);
  }

  ghost predicate Reachable(l: Life) {
    exists start, run :: Fresh(start) && SafeRun(start, run) && l == After(start, run)
  }

  ghost predicate SameProcess(run: seq<Step>) {
    forall i :: 0 <= i < |run| ==> !run[i].Restart?
  }

  // Continuing a run from a given life.
  function Onward(l: Life, run: seq<Step>): Life {
    if run == [] then l else Next(Onward(l, run[..|run| - 1]), run[|run| - 1])
  }

  lemma {:induction false} MemoryOnlyGrows(l: Life, run: seq<Step>)
    requires l.counters.memory.Some? && SameProcess(run)
    ensures var l' := Onward(l, run);
      && l'.counters.memory.Some? && l'.counters.memory.value >= l.counters.memory.value
      && l.returned <= l'.returned
      && forall i :: |l.returned| <= i < |l'.returned| ==> l'.returned[i] > l.counters.memory.value
  {
    if run != [] {
      MemoryOnlyGrows(l, run[..|run| - 1]);
    }
  }

  // After an accepted resync, every index this process hands out is above the
  // floor.
  lemma AcceptedFloorHoldsInProcess(l: Life, floor: nat, saveOk: bool, run: seq<Step>)
    requires l.counters.memory.Some? && SameProcess(run)
    requires Resync(l.counters, floor, saveOk).1.Ok?
    ensures var l' := Onward(Next(l, ResyncStep(floor, saveOk)), run);
      forall i :: |l.returned| <= i < |l'.returned| ==> l'.returned[i] > floor
  {
    MemoryOnlyGrows(Next(l, ResyncStep(floor, saveOk)), run);
  }

  // The accepted floor is also in the row exactly when the counter had to move
  // for it or the row was there already.
  lemma AcceptedFloorIsDurableWhen(c: Counters, floor: nat, saveOk: bool)
    requires c.hasStore && Resync(c, floor, saveOk).1.Ok?
    ensures var c' := Resync(c, floor, saveOk).0;
      (RowIsOurs(c') && c'.row.value.index >= floor)
      <==> c.memory.value < floor || (RowIsOurs(c) && c.row.value.index >= floor)
  {
  }

  // It need not be: a derivation whose save failed leaves the counter ahead of
  // the row, the resync then has nothing to do, and after a restart the floor
  // itself is handed out.
  lemma AcceptedFloorLostAcrossRestart(publicKey: string) returns (run: seq<Step>)
    ensures var start := Counters(publicKey, Some(0), None, true, true, []);
      && Fresh(start) && SafeRun(start, run)
      && |run| == 4 && run[1] == ResyncStep(1, true)
      && Resync(After(start, run[..1]).counters, 1, true).1 == Ok(true)
      && After(start, run).returned == [1]
  {
    var start := Counters(publicKey, Some(0), None, true, true, []);
    run := [DeriveStep(true, false), ResyncStep(1, true), Restart(0, false), DeriveStep(true, true)];
    assert run[..0] == [] && run[..1][..0] == [] && run[..2][..1] == run[..1] && run[..3][..2] == run[..2];
    var one := start.(memory := Some(1));
    assert After(start, run[..0]) == Life(start, []);
    assert After(start, run[..1]) == Life(one, []);
    assert After(start, run[..2]) == Life(one, []);
    assert After(start, run[..3]) == Life(start, []);
    assert run[..4] == run;
  }
}
