// The retained log history: relay traffic in a ring of its own.
module LogRings {
  import opened Prelude

  const BUFFER_CAPACITY := 1000
  const RELAY_TRAFFIC_CAPACITY := 200

  // Ordered by verbosity, as in the `log` crate.
  datatype Level = Error | Warn | Info | Debug | Trace

  datatype LogLevel = LogError | LogWarning | LogInfo | LogDebug

  datatype LogEntry = LogEntry(id: nat, level: LogLevel, tag: string, message: string)

  function Verbosity(l: Level): nat {
    match l
    case Error => 1
    case Warn => 2
    case Info => 3
    case Debug => 4
    case Trace => 5
  }

  function Shown(l: Level): LogLevel {
    match l
    case Error => LogError
    case Warn => LogWarning
    case Info => LogInfo
    case _ => LogDebug
  }

  predicate IsRelayTraffic(level: Level, tag: string) {
    Verbosity(level) >= Verbosity(Debug) && tag == "relay"
  }

  // Relay chatter is what the relay code logs at the two most verbose levels.
  lemma RelayTrafficExactly(level: Level, tag: string)
    ensures IsRelayTraffic(level, tag) <==> level in {Debug, Trace} && tag == "relay"
  {
  }

  // What was logged: the record's level is not kept in the entry.
  datatype Logged = Logged(level: Level, entry: LogEntry)

  // The entries of one kind, in the order they were logged.
  function OfKind(history: seq<Logged>, traffic: bool): seq<LogEntry> {
    if history == [] then []
    else
      var before, l := OfKind(history[..|history| - 1], traffic), history[|history| - 1];
      if IsRelayTraffic(l.level, l.entry.tag) == traffic then before + [l.entry] else before
  }

  ghost predicate IdsIncrease(history: seq<Logged>) {
    forall i, j :: 0 <= i < j < |history| ==> history[i].entry.id < history[j].entry.id
  }

  ghost predicate Increasing(s: seq<LogEntry>) {
    forall i, j :: 0 <= i < j < |s| ==> s[i].id < s[j].id
  }

  ghost predicate DistinctIds(s: seq<LogEntry>) {
    forall i, j :: 0 <= i < j < |s| ==> s[i].id != s[j].id
  }

  ghost predicate Decreasing(s: seq<LogEntry>) {
    forall i, j :: 0 <= i < j < |s| ==> s[i].id > s[j].id
  }

  // A kind's entries are entries of the history, in its order.
  lemma {:induction false} OfKindIsSubsequence(history: seq<Logged>, traffic: bool)
    requires IdsIncrease(history)
    ensures Increasing(OfKind(history, traffic))
    ensures forall e :: e in OfKind(history, traffic) <==>
      exists i :: 0 <= i < |history| && history[i].entry == e && IsRelayTraffic(history[i].level, e.tag) == traffic
  {
    if history != [] {
      var before, l := history[..|history| - 1], history[|history| - 1];
      OfKindIsSubsequence(before, traffic);
      forall e
        ensures e in OfKind(history, traffic) <==>
          exists i :: 0 <= i < |history| && history[i].entry == e && IsRelayTraffic(history[i].level, e.tag) == traffic
      {
        if i :| 0 <= i < |before| && before[i].entry == e && IsRelayTraffic(before[i].level, e.tag) == traffic {
          assert history[i].entry == e;
        }
      }
    }
  }

  // No amount of relay traffic changes what the main ring should hold.
  lemma {:induction false} TrafficEvictsNothingElse(history: seq<Logged>, burst: seq<Logged>)
    requires forall i :: 0 <= i < |burst| ==> IsRelayTraffic(burst[i].level, burst[i].entry.tag)
    ensures OfKind(history + burst, false) == OfKind(history, false)
  {
    if burst == [] {
      assert history + burst == history;
    } else {
      var less := burst[..|burst| - 1];
      assert (history + burst)[..|history + burst| - 1] == history + less;
      TrafficEvictsNothingElse(history, less);
    }
  }

  // ---- Sorting newest first --------------------------------------------------------

  function InsertByIdDesc(e: LogEntry, s: seq<LogEntry>): seq<LogEntry> {
    if s == [] || e.id > s[0].id then [e] + s else [s[0]] + InsertByIdDesc(e, s[1..])
  }

  lemma {:induction false} InsertKeepsOrder(e: LogEntry, s: seq<LogEntry>)
    requires Decreasing(s) && forall x :: x in s ==> x.id != e.id
    ensures Decreasing(InsertByIdDesc(e, s))
    ensures forall x :: x in InsertByIdDesc(e, s) <==> x in s || x == e
  {
    if s != [] && e.id <= s[0].id {
      InsertKeepsOrder(e, s[1..]);
      var rest := InsertByIdDesc(e, s[1..]);
      assert s == [s[0]] + s[1..];
      forall j | 0 <= j < |rest| ensures s[0].id > rest[j].id {
        assert rest[j] in rest;
      }
    }
  }

  // A longer history keeps its ids increasing and extends one kind.
  lemma OneMoreLogged(history: seq<Logged>, l: Logged)
    requires IdsIncrease(history) && forall x :: x in history ==> x.entry.id < l.entry.id
    ensures IdsIncrease(history + [l])
  {
  }

  lemma OfKindAppend(history: seq<Logged>, l: Logged, traffic: bool)
    ensures OfKind(history + [l], traffic)
      == if IsRelayTraffic(l.level, l.entry.tag) == traffic then OfKind(history, traffic) + [l.entry]
         else OfKind(history, traffic)
  {
    assert (history + [l])[..|history|] == history;
  }

  class Rings {
    var main: seq<LogEntry>
    var relayTraffic: seq<LogEntry>
    // Everything pushed since the rings were last cleared.
    ghost var history: seq<Logged>

    ghost predicate Valid()
      reads this
    {
      && IdsIncrease(history)
      && main == Last(OfKind(history, false), BUFFER_CAPACITY)
      && relayTraffic == Last(OfKind(history, true), RELAY_TRAFFIC_CAPACITY)
    }

    constructor ()
      ensures Valid() && history == []
    {
      main := [];
      relayTraffic := [];
      history := [];
    }

    method Push(level: Level, entry: LogEntry)
      requires Valid()
      requires forall l :: l in history ==> l.entry.id < entry.id
      modifies this
      ensures Valid() && history == old(history) + [Logged(level, entry)]
      ensures IsRelayTraffic(level, entry.tag) ==> main == old(main)
      ensures !IsRelayTraffic(level, entry.tag) ==> relayTraffic == old(relayTraffic)
    {
      var traffic := IsRelayTraffic(level, entry.tag);
      ghost var before := history;
      history := history + [Logged(level, entry)];
      OneMoreLogged(before, Logged(level, entry));
      OfKindAppend(before, Logged(level, entry), true);
      OfKindAppend(before, Logged(level, entry), false);
      if traffic {
        relayTraffic := PushBounded(relayTraffic, RELAY_TRAFFIC_CAPACITY, entry, OfKind(before, true));
      } else {
        main := PushBounded(main, BUFFER_CAPACITY, entry, OfKind(before, false));
      }
    }

    // Both rings merged: every retained entry once, newest first.
    method NewestFirst() returns (entries: seq<LogEntry>)
      requires Valid()
      ensures Decreasing(entries)
      ensures forall e :: e in entries <==>
        || e in Last(OfKind(history, false), BUFFER_CAPACITY)
        || e in Last(OfKind(history, true), RELAY_TRAFFIC_CAPACITY)
    {
      var chained := main + relayTraffic;
      RetainedIdsDiffer(history);
      assert DistinctIds(chained);
      entries := [];
      for i := 0 to |chained|
        invariant Decreasing(entries)
        invariant forall e :: e in entries <==> e in chained[..i]
      {
        forall x | x in chained[..i] ensures x.id != chained[i].id {
          var k :| 0 <= k < i && chained[k] == x;
        }
        InsertKeepsOrder(chained[i], entries);
        entries := InsertByIdDesc(chained[i], entries);
        assert chained[..i + 1] == chained[..i] + [chained[i]];
      }
      assert chained[..|chained|] == chained;
    }

    method Clear()
      modifies this
      ensures Valid() && history == []
    {
      main := [];
      relayTraffic := [];
      history := [];
    }
  }

  // Drops the oldest entries until there is room for one more.
  method PushBounded(ring: seq<LogEntry>, capacity: nat, entry: LogEntry, ghost all: seq<LogEntry>)
      returns (pushed: seq<LogEntry>)
    requires capacity > 0 && ring == Last(all, capacity)
    ensures pushed == Last(all + [entry], capacity)
  {
    pushed := ring;
    while |pushed| >= capacity
      invariant |ring| < capacity ==> pushed == ring
      invariant |ring| == capacity ==> pushed == ring || pushed == ring[1..]
    {
      pushed := pushed[1..];
    }
    pushed := pushed + [entry];
  }

  lemma RetainedIdsDiffer(history: seq<Logged>)
    requires IdsIncrease(history)
    ensures DistinctIds(Last(OfKind(history, false), BUFFER_CAPACITY)
      + Last(OfKind(history, true), RELAY_TRAFFIC_CAPACITY))
  {
    OfKindIsSubsequence(history, false);
    OfKindIsSubsequence(history, true);
    var a, b := OfKind(history, false), OfKind(history, true);
    forall i, j | 0 <= i < |a| && 0 <= j < |b|
      ensures a[i].id != b[j].id
    {
      assert a[i] in a && b[j] in b;
      var m :| 0 <= m < |history| && history[m].entry == a[i] && !IsRelayTraffic(history[m].level, a[i].tag);
      var n :| 0 <= n < |history| && history[n].entry == b[j] && IsRelayTraffic(history[n].level, b[j].tag);
      assert m != n;
    }
  }

  predicate SeparatorAt(s: string, i: nat) {
    i + 2 <= |s| && s[i] == ':' && s[i + 1] == ':'
  }

  // What follows the last `::` of a target.
  function ShortTag(target: string): (tag: string)
    ensures |tag| <= |target| && target[|target| - |tag|..] == tag
    ensures forall i: nat :: !SeparatorAt(tag, i)
    ensures |tag| < |target| ==> |tag| + 2 <= |target| && SeparatorAt(target, |target| - |tag| - 2)
  {
    LastSegment(target, |target|)
  }

  function LastSegment(target: string, from: nat): (tag: string)
    requires from <= |target| && forall i: nat :: from <= i ==> !SeparatorAt(target, i)
    ensures |tag| <= |target| && target[|target| - |tag|..] == tag
    ensures forall i: nat :: !SeparatorAt(tag, i)
    ensures |tag| < |target| ==> |tag| + 2 <= |target| && SeparatorAt(target, |target| - |tag| - 2)
  {
    if from == 0 then target
    else if SeparatorAt(target, from - 1) then
      var tag := target[from + 1..];
      assert forall i: nat :: SeparatorAt(tag, i) ==> SeparatorAt(target, from + 1 + i);
      tag
    else LastSegment(target, from - 1)
  }

  // The entry log behind the lock: ids are claimed while it is held, and
  // clearing the rings does not reset them.
  class LogBuffer {
    const rings: Rings
    var counter: nat

    ghost predicate Valid()
      reads this, rings
    {
      && rings.Valid()
      && forall l :: l in rings.history ==> l.entry.id < counter
    }

    constructor ()
      ensures Valid() && fresh(rings) && rings.history == []
    {
      rings := new Rings();
      counter := 0;
    }

    method BufferEntry(level: Level, target: string, message: string) returns (entry: LogEntry)
      requires Valid()
      modifies this, rings
      ensures Valid() && counter == old(counter) + 1
      ensures entry == LogEntry(old(counter), Shown(level), ShortTag(target), message)
      ensures (entry.level == LogError <==> level == Error) && (entry.level == LogWarning <==> level == Warn)
      ensures (entry.level == LogInfo <==> level == Info) && (entry.level == LogDebug <==> level in {Debug, Trace})
      ensures rings.history == old(rings.history) + [Logged(level, entry)]
    {
      entry := LogEntry(counter, Shown(level), ShortTag(target), message);
      counter := counter + 1;
      rings.Push(level, entry);
    }

    method ClearLogs()
      requires Valid()
      modifies rings
      ensures Valid() && rings.history == [] && counter == old(counter)
    {
      rings.Clear();
    }
  }
}
