// The recorded start of an invoice step: a stored "status:timestamp" string.
module StepStart {
  import opened Prelude

  type i64 = x: int | -0x8000_0000_0000_0000 <= x < 0x8000_0000_0000_0000

  const MAX_CLOCK_SKEW_SECS := 60

  // ---- Decimal printing and parsing --------------------------------------------

  function Digit(d: nat): char
    requires d < 10
  {
    ('0' as int + d) as char
  }

  predicate IsDigit(c: char) {
    '0' <= c <= '9'
  }

  function PrintNat(n: nat): string {
    if n < 10 then [Digit(n)] else PrintNat(n / 10) + [Digit(n % 10)]
  }

  function PrintInt(n: int): string {
    if n < 0 then "-" + PrintNat(-n) else PrintNat(n)
  }

  function NatOf(s: string): Option<nat> {
    if s == [] then Some(0)
    else if !IsDigit(s[|s| - 1]) then None
    else
      var rest := NatOf(s[..|s| - 1]);
      if rest.None? then None
      else Some(rest.value * 10 + (s[|s| - 1] as int - '0' as int))
  }

  // `str::parse::<i64>`: an optional sign, then at least one digit, in range.
  function ParseI64(s: string): Option<i64> {
    var negative := |s| > 0 && s[0] == '-';
    var digits := if |s| > 0 && (s[0] == '-' || s[0] == '+') then s[1..] else s;
    if digits == [] || NatOf(digits).None? then None
    else
      var magnitude: int := NatOf(digits).value;
      var n := if negative then -magnitude else magnitude;
      if -0x8000_0000_0000_0000 <= n < 0x8000_0000_0000_0000 then Some(n) else None
  }

  lemma {:induction false} PrintNatParses(n: nat)
    ensures PrintNat(n) != [] && NatOf(PrintNat(n)) == Some(n)
    ensures forall i :: 0 <= i < |PrintNat(n)| ==> IsDigit(PrintNat(n)[i])
  {
    if n < 10 {
      assert NatOf([]) == Some(0);
      assert PrintNat(n)[..0] == [];
    } else {
      PrintNatParses(n / 10);
      assert PrintNat(n)[..|PrintNat(n)| - 1] == PrintNat(n / 10);
    }
  }

  lemma PrintIntParses(n: i64)
    ensures ParseI64(PrintInt(n)) == Some(n)
    ensures ':' !in PrintInt(n)
  {
    if n < 0 {
      var abs: int := -(n as int);
      PrintNatParses(abs);
      assert PrintInt(n)[1..] == PrintNat(abs);
    } else {
      PrintNatParses(n);
    }
  }

  // ---- Every text that parses ----------------------------------------------------

  // The number's own digits behind any zeros.
  ghost predicate SpellsFrom(s: string, n: nat, k: int) {
    0 <= k <= |s| && s[k..] == PrintNat(n) && forall i :: 0 <= i < k ==> s[i] == '0'
  }

  ghost predicate Spells(s: string, n: nat) {
    exists k :: SpellsFrom(s, n, k)
  }

  lemma {:induction false} ZerosParse(s: string)
    requires forall i :: 0 <= i < |s| ==> s[i] == '0'
    ensures NatOf(s) == Some(0)
  {
    if s != [] {
      ZerosParse(s[..|s| - 1]);
    }
  }

  lemma {:induction false} SpelledParses(s: string, n: nat, k: int)
    requires SpellsFrom(s, n, k)
    ensures NatOf(s) == Some(n) && s != []
    ensures forall i :: 0 <= i < |s| ==> IsDigit(s[i])
    decreases n
  {
    PrintNatParses(n);
    assert forall i :: k <= i < |s| ==> s[i] == s[k..][i - k];
    var last := |s| - 1;
    if n < 10 {
      ZerosParse(s[..last]);
    } else {
      assert s[..last][k..] == s[k..][..last - k] == PrintNat(n / 10);
      SpelledParses(s[..last], n / 10, k);
    }
  }

  lemma {:induction false} ParsedIsSpelled(s: string, n: nat) returns (k: int)
    requires s != [] && NatOf(s) == Some(n)
    ensures SpellsFrom(s, n, k)
  {
    var last := |s| - 1;
    var before := s[..last];
    k := 0;
    if before != [] {
      k := ParsedIsSpelled(before, n / 10);
      if n < 10 {
        k := last;
        assert before[..last] == before && PrintNat(n / 10) == "0";
        ZeroIsZeros(before);
      } else {
        assert s[k..] == before[k..] + [s[last]];
      }
    }
  }

  lemma {:induction false} ZeroIsZeros(s: string)
    requires NatOf(s) == Some(0)
    ensures forall i :: 0 <= i < |s| ==> s[i] == '0'
  {
    if s != [] {
      ZeroIsZeros(s[..|s| - 1]);
    }
  }

  // A text is read as a number in range exactly when it spells it: a minus sign for
  // what is not positive, an optional plus sign for what is not negative, and the
  // digits behind any zeros.
  lemma ParseI64Exactly(s: string, n: i64)
    ensures ParseI64(s) == Some(n) <==>
      || (n >= 0 && Spells(s, n))
      || (n >= 0 && |s| > 0 && s[0] == '+' && Spells(s[1..], n))
      || (n <= 0 && |s| > 0 && s[0] == '-' && Spells(s[1..], -(n as int)))
  {
    var signed := |s| > 0 && (s[0] == '-' || s[0] == '+');
    var digits := if signed then s[1..] else s;
    var size: int := if n < 0 then -(n as int) else n;
    if k :| SpellsFrom(digits, size, k) {
      SpelledParses(digits, size, k);
    }
    if digits != [] && NatOf(digits) == Some(size) {
      var k := ParsedIsSpelled(digits, size);
    }
    if signed && Spells(s, size) {
      var k :| SpellsFrom(s, size, k);
      SpelledParses(s, size, k);
      assert false;
    }
  }

  // ---- The record --------------------------------------------------------------

  datatype Step = Step(status: string, at: i64)

  // Where `rsplit_once(':')` splits.
  function LastColon(s: string): Option<nat>
    ensures LastColon(s).Some? ==> LastColon(s).value < |s|
  {
    if s == [] then None
    else if s[|s| - 1] == ':' then Some(|s| - 1)
    else LastColon(s[..|s| - 1])
  }

  function ParseStepStart(value: string): Option<Step> {
    match LastColon(value)
    case None => None
    case Some(at) =>
      match ParseI64(value[at + 1..])
      case None => None
      case Some(ts) => Some(Step(value[..at], ts))
  }

  function PrintStepStart(status: string, ts: i64): string {
    status + ":" + PrintInt(ts)
  }

  // The value to store, or None when the stored one already covers the message.
  function NextStepStart(existing: Option<string>, status: string, ts: i64): Option<string> {
    var stored := if existing.Some? then ParseStepStart(existing.value) else None;
    if stored.Some? && stored.value.status == status && stored.value.at <= ts then None
    else Some(PrintStepStart(status, ts))
  }

  lemma {:induction false} LastColonSplits(status: string, tail: string)
    requires ':' !in tail
    ensures LastColon(status + ":" + tail) == Some(|status|)
  {
    var s := status + ":" + tail;
    if tail != [] {
      var shorter := tail[..|tail| - 1];
      LastColonSplits(status, shorter);
      assert s[..|s| - 1] == status + ":" + shorter;
      assert s[|s| - 1] == tail[|tail| - 1];
    }
  }

  // Every status, colons included, and every timestamp come back.
  lemma StepStartRoundTrip(status: string, ts: i64)
    ensures ParseStepStart(PrintStepStart(status, ts)) == Some(Step(status, ts))
  {
    PrintIntParses(ts);
    LastColonSplits(status, PrintInt(ts));
    var s := PrintStepStart(status, ts);
    assert s[|status| + 1..] == PrintInt(ts);
    assert s[..|status|] == status;
  }

  lemma {:induction false} LastColonIsLast(s: string)
    ensures match LastColon(s)
      case None => ':' !in s
      case Some(at) => s == s[..at] + ":" + s[at + 1..] && ':' !in s[at + 1..]
  {
    if s != [] && s[|s| - 1] != ':' {
      var shorter := s[..|s| - 1];
      LastColonIsLast(shorter);
      assert s == shorter + [s[|s| - 1]];
    }
  }

  lemma ParsedHasNoColon(s: string)
    requires ParseI64(s).Some?
    ensures ':' !in s
  {
    ParseI64Exactly(s, ParseI64(s).value);
    var n: int := ParseI64(s).value;
    var size := if n < 0 then -n else n;
    var digits := if |s| > 0 && (s[0] == '-' || s[0] == '+') then s[1..] else s;
    var k: int;
    if j :| SpellsFrom(digits, size, j) {
      k := j;
    } else {
      k :| SpellsFrom(s, size, k);
      SpelledParses(s, size, k);
      assert false;
    }
    SpelledParses(digits, size, k);
  }

  // A stored text is read exactly when a number follows its last colon: whatever
  // stands before it is the status.
  lemma ParseStepStartExactly(value: string, status: string, ts: i64)
    ensures ParseStepStart(value) == Some(Step(status, ts)) <==>
      exists text :: value == status + ":" + text && ParseI64(text) == Some(ts)
  {
    LastColonIsLast(value);
    if ParseStepStart(value) == Some(Step(status, ts)) {
      var at := LastColon(value).value;
      assert value == status + ":" + value[at + 1..];
    }
    if text :| value == status + ":" + text && ParseI64(text) == Some(ts) {
      ParsedHasNoColon(text);
      LastColonSplits(status, text);
      assert value[|status| + 1..] == text && value[..|status|] == status;
    }
  }

  // ---- A run of messages -------------------------------------------------------

  function Overwrite(stored: Option<string>, next: Option<string>): Option<string> {
    if next.Some? then next else stored
  }

  function Fold(stored: Option<string>, messages: seq<Step>): Option<string> {
    if messages == [] then stored
    else
      var before := Fold(stored, messages[..|messages| - 1]);
      var m := messages[|messages| - 1];
      Overwrite(before, NextStepStart(before, m.status, m.at))
  }

  // Where the trailing run of equal statuses starts.
  function RunStart(steps: seq<Step>): nat
    requires steps != []
    ensures RunStart(steps) < |steps|
  {
    var n := |steps|;
    if n > 1 && steps[n - 2].status == steps[n - 1].status then RunStart(steps[..n - 1]) else n - 1
  }

  function EarliestOfRun(steps: seq<Step>): i64
    requires steps != []
  {
    var n := |steps|;
    if n > 1 && steps[n - 2].status == steps[n - 1].status then Min(EarliestOfRun(steps[..n - 1]), steps[n - 1].at)
    else steps[n - 1].at
  }

  // The run is the longest suffix of one status, and its earliest time is the
  // least one in it.
  lemma {:induction false} EarliestOfRunIsLeast(steps: seq<Step>)
    requires steps != []
    ensures var last := |steps| - 1; var from := RunStart(steps);
      && (forall i :: from <= i <= last ==> steps[i].status == steps[last].status)
      && (from > 0 ==> steps[from - 1].status != steps[last].status)
      && (forall i :: from <= i <= last ==> EarliestOfRun(steps) <= steps[i].at)
      && (exists i :: from <= i <= last && EarliestOfRun(steps) == steps[i].at)
  {
    var n := |steps|;
    if n > 1 && steps[n - 2].status == steps[n - 1].status {
      var before := steps[..n - 1];
      EarliestOfRunIsLeast(before);
      var i :| RunStart(before) <= i < n - 1 && EarliestOfRun(before) == before[i].at;
      var least := if before[i].at < steps[n - 1].at then i else n - 1;
      assert RunStart(steps) <= least && EarliestOfRun(steps) == steps[least].at;
    } else {
      assert RunStart(steps) == n - 1 && EarliestOfRun(steps) == steps[n - 1].at;
    }
  }

  function Read(stored: Option<string>): Option<Step> {
    if stored.Some? then ParseStepStart(stored.value) else None
  }

  // What one message makes of the step read so far.
  function Advance(read: Option<Step>, m: Step): Step {
    if read.Some? && read.value.status == m.status then Step(m.status, Min(read.value.at, m.at)) else m
  }

  lemma OneMessage(stored: Option<string>, m: Step)
    ensures Read(Overwrite(stored, NextStepStart(stored, m.status, m.at))) == Some(Advance(Read(stored), m))
  {
    StepStartRoundTrip(m.status, m.at);
  }

  function Advances(read: Option<Step>, messages: seq<Step>): Option<Step> {
    if messages == [] then read
    else Some(Advance(Advances(read, messages[..|messages| - 1]), messages[|messages| - 1]))
  }

  lemma {:induction false} FoldAdvances(stored: Option<string>, messages: seq<Step>)
    ensures Read(Fold(stored, messages)) == Advances(Read(stored), messages)
  {
    if messages != [] {
      var earlier := messages[..|messages| - 1];
      FoldAdvances(stored, earlier);
      OneMessage(Fold(stored, earlier), messages[|messages| - 1]);
    }
  }

  // A step already read counts as one more message before the run.
  function WithRead(read: Option<Step>, messages: seq<Step>): seq<Step> {
    if read.Some? then [read.value] + messages else messages
  }

  lemma {:induction false} AdvancesKeepEarliest(read: Option<Step>, messages: seq<Step>)
    requires WithRead(read, messages) != []
    ensures var steps := WithRead(read, messages);
      Advances(read, messages) == Some(Step(steps[|steps| - 1].status, EarliestOfRun(steps)))
  {
    if messages != [] {
      var earlier := messages[..|messages| - 1];
      var steps, before := WithRead(read, messages), WithRead(read, earlier);
      assert steps == before + [messages[|messages| - 1]] && steps[..|steps| - 1] == before;
      if before != [] {
        AdvancesKeepEarliest(read, earlier);
      }
    }
  }

  // The record ends on the last status with the earliest time of its run.
  lemma FoldKeepsEarliestOfRun(stored: Option<string>, messages: seq<Step>)
    requires WithRead(Read(stored), messages) != []
    ensures var steps := WithRead(Read(stored), messages);
      Read(Fold(stored, messages)) == Some(Step(steps[|steps| - 1].status, EarliestOfRun(steps)))
  {
    FoldAdvances(stored, messages);
    AdvancesKeepEarliest(Read(stored), messages);
  }

  // ---- The writer --------------------------------------------------------------

  function Horizon(now: i64): i64 {
    Min(now + MAX_CLOCK_SKEW_SECS, 0x7fff_ffff_ffff_ffff)
  }

  // Storage as seen by one call.
  datatype Storage = NoStore | Store(readable: bool, writable: bool)

  class StepRecord {
    var stored: Option<string>

    constructor (stored: Option<string>)
      ensures this.stored == stored
    {
      this.stored := stored;
    }

    // A message from the future, a missing store or a failed write leave the
    // record alone; an unreadable record counts as absent.
    method RecordInvoiceStepStart(status: string, eventTs: i64, now: i64, db: Storage)
      modifies this
      ensures eventTs as int > now as int + 60 || db.NoStore? || !db.writable ==> stored == old(stored)
      ensures eventTs as int <= now as int + 60 && db.Store? && db.writable && db.readable ==>
        Read(stored) == Some(Advance(Read(old(stored)), Step(status, eventTs)))
        && stored == Fold(old(stored), [Step(status, eventTs)])
      ensures eventTs as int <= now as int + 60 && db.Store? && db.writable && !db.readable ==>
        stored == Some(PrintStepStart(status, eventTs))
    {
      if eventTs > Horizon(now) {
        return;
      }
      if db.NoStore? {
        return;
      }
      var existing := if db.readable then stored else None;
      var value := NextStepStart(existing, status, eventTs);
      OneMessage(stored, Step(status, eventTs));
      assert Fold(stored, []) == stored;
      assert [Step(status, eventTs)][..0] == [];
      if value.None? {
        return;
      }
      if db.writable {
        stored := value;
      }
    }
  }
}
