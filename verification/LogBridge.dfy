// The logger every record passes: it scrubs before any sink sees the text.
module LogBridge {
  import opened Prelude
  import opened LogRings
  import opened Scrub

  // The SDK's relay module logs raw wire traffic at every level.
  const EXCLUDED_TARGET := "nostr_sdk::relay"

  predicate Enabled(level: Level, target: string, maxVerbosity: nat) {
    !(EXCLUDED_TARGET <= target) && Verbosity(level) <= maxVerbosity
  }

  // A maximum of 1 lets errors through, of 5 everything; a target that starts with
  // the name of the SDK's relay module never passes.
  lemma EnabledExactly(level: Level, target: string, maxVerbosity: nat)
    ensures Enabled(level, target, maxVerbosity) <==>
      && !(|target| >= 16 && target[..16] == "nostr_sdk::relay")
      && match level
         case Error => maxVerbosity >= 1
         case Warn => maxVerbosity >= 2
         case Info => maxVerbosity >= 3
         case Debug => maxVerbosity >= 4
         case Trace => maxVerbosity >= 5
  {
    assert |target| >= 16 && target[..16] == EXCLUDED_TARGET ==> EXCLUDED_TARGET <= target;
  }

  ghost predicate HistoryMasked(history: seq<Logged>) {
    forall l :: l in history ==> AllMasked(l.entry.message)
  }

  lemma RetainedMasked(history: seq<Logged>, traffic: bool, capacity: nat)
    requires IdsIncrease(history) && HistoryMasked(history)
    ensures forall e :: e in Last(OfKind(history, traffic), capacity) ==> AllMasked(e.message)
  {
    OfKindIsSubsequence(history, traffic);
    var all := OfKind(history, traffic);
    forall e | e in Last(all, capacity) ensures AllMasked(e.message) {
      assert e in all;
      var k :| 0 <= k < |history| && history[k].entry == e && IsRelayTraffic(history[k].level, e.tag) == traffic;
      assert history[k] in history;
    }
  }

  class BridgeLogger {
    const buffer: LogBuffer

    ghost predicate Valid()
      reads this, buffer, buffer.rings
    {
      buffer.Valid() && HistoryMasked(buffer.rings.history)
    }

    constructor ()
      ensures Valid() && fresh(buffer) && fresh(buffer.rings) && buffer.rings.history == []
    {
      buffer := new LogBuffer();
    }

    // A record that is filtered out, or logged from inside a log call, reaches no
    // sink. Any other reaches the console and the history with the same scrubbed
    // text.
    method Log(level: Level, target: string, text: string, maxVerbosity: nat, reentered: bool)
      returns (shown: Option<string>)
      requires Valid()
      modifies buffer, buffer.rings
      ensures Valid()
      ensures shown == if !Enabled(level, target, maxVerbosity) || reentered then None else Some(Scrubbed(text))
      ensures shown.Some? ==> AllMasked(shown.value)
      ensures buffer.rings.history == if shown.None? then old(buffer.rings.history) else
        old(buffer.rings.history)
          + [Logged(level, LogEntry(old(buffer.counter), Shown(level), ShortTag(target), Scrubbed(text)))]
    {
      if !Enabled(level, target, maxVerbosity) {
        return None;
      }
      if reentered {
        return None;
      }
      var message := ScrubSecrets(text);
      EveryMarkerIsMasked(text);
      var entry := buffer.BufferEntry(level, target, message);
      shown := Some(message);
    }

    // However much was logged, no retained entry shows key material after a marker.
    method RecentLogs() returns (entries: seq<LogEntry>)
      requires Valid()
      ensures Decreasing(entries)
      ensures forall e :: e in entries ==> AllMasked(e.message)
      ensures forall e :: e in entries <==>
        || e in Last(OfKind(buffer.rings.history, false), BUFFER_CAPACITY)
        || e in Last(OfKind(buffer.rings.history, true), RELAY_TRAFFIC_CAPACITY)
    {
      entries := buffer.rings.NewestFirst();
      RetainedMasked(buffer.rings.history, false, BUFFER_CAPACITY);
      RetainedMasked(buffer.rings.history, true, RELAY_TRAFFIC_CAPACITY);
    }
  }
}
