// The stream that feeds the notification cards: it replays the unread backlog
// now and then, and at once after it lagged behind.
module NotificationStream {
  import opened Prelude
  import opened Messages
  import opened Notifications

  const REPLAY_INTERVAL_SECS := 60

  datatype Received = Message(message: ChatMessage) | Lagged | Closed | TimedOut

  // What one turn of the stream's loop finds around it: the cache at the time,
  // the clock, the backlog should it ask for one, and what arrives should it
  // wait. Each clock reading has its own name.
  datatype Tick = Tick(
    cache: map<string, seq<ChatMessage>>,
    now: int,
    backlog: Option<seq<ChatMessage>>,
    replayedAt: int,
    received: Received,
    receivedAt: int)

  datatype Stream = Stream(pending: seq<ChatMessage>, replayAt: int)

  datatype Outcome = Quiet | Delivered(message: ChatMessage) | Ended

  // A queued copy may have been read since; the cached copy decides.
  function CandidateNow(cache: map<string, seq<ChatMessage>>, m: ChatMessage): (r: Option<ChatMessage>)
    ensures r.Some? ==> Notifies(r.value) && r.value.id == m.id
    ensures r.Some? && r.value != m ==> m.tradeId in cache && r.value in cache[m.tradeId]
  {
    var cached := if m.tradeId in cache then Find(cache[m.tradeId], m.id) else None;
    var current := if cached.Some? then cached.value else m;
    if IsCandidate(current) then Some(current) else None
  }

  // Without a cached copy the message itself is decided on, with one the first copy;
  // it comes back exactly when it is incoming, unread and not the system's.
  lemma CandidateNowExactly(cache: map<string, seq<ChatMessage>>, m: ChatMessage)
    ensures var copies := if m.tradeId in cache then cache[m.tradeId] else [];
      && ((forall j :: 0 <= j < |copies| ==> copies[j].id != m.id) ==>
            CandidateNow(cache, m) == if Notifies(m) then Some(m) else None)
      && (forall k :: FirstCopy(copies, m.id, k) ==>
            CandidateNow(cache, m) == if Notifies(copies[k]) then Some(copies[k]) else None)
  {
    var copies := if m.tradeId in cache then cache[m.tradeId] else [];
    FindIsTheFirst(copies, m.id);
    CandidatesNotify(m);
    forall k | FirstCopy(copies, m.id, k)
      ensures CandidateNow(cache, m) == if Notifies(copies[k]) then Some(copies[k]) else None
    {
      CandidatesNotify(copies[k]);
    }
  }

  // It would notify, and nothing else is cached under its id.
  ghost predicate UnreadIn(cache: map<string, seq<ChatMessage>>, m: ChatMessage) {
    && Notifies(m)
    && (m.tradeId in cache ==> forall k :: FirstCopy(cache[m.tradeId], m.id, k) ==> cache[m.tradeId][k] == m)
  }

  lemma UnreadIsOffered(cache: map<string, seq<ChatMessage>>, m: ChatMessage)
    requires UnreadIn(cache, m)
    ensures CandidateNow(cache, m) == Some(m)
  {
    CandidateNowExactly(cache, m);
    FindIsTheFirst(if m.tradeId in cache then cache[m.tradeId] else [], m.id);
  }

  function Offer(cache: map<string, seq<ChatMessage>>, m: ChatMessage): Outcome {
    var current := CandidateNow(cache, m);
    if current.Some? then Delivered(current.value) else Quiet
  }

  predicate Replays(q: Stream, t: Tick) {
    q.pending == [] && t.now >= q.replayAt
  }

  // The stream once a due replay was made. A failed read is not repeated before
  // the next one is due.
  function Replayed(q: Stream, t: Tick): Stream {
    if Replays(q, t)
    then Stream(if t.backlog.Some? then t.backlog.value else [], t.replayedAt + REPLAY_INTERVAL_SECS)
    else q
  }

  function Turn(q: Stream, t: Tick): (Stream, Outcome) {
    if q.pending != [] then (q.(pending := q.pending[1..]), Offer(t.cache, q.pending[0]))
    else
      var r := Replayed(q, t);
      if r.pending != [] then (r, Quiet)
      else
        match t.received
        case Message(m) => (r, Offer(t.cache, m))
        case Lagged => (r.(replayAt := t.receivedAt), Quiet)
        case Closed => (r, Ended)
        case TimedOut => (r, Quiet)
  }

  // The stream after the first `n` turns.
  function After(q: Stream, world: seq<Tick>, n: nat): Stream
    requires n <= |world|
  {
    if n == 0 then q else Turn(After(q, world, n - 1), world[n - 1]).0
  }

  function OutcomeAt(q: Stream, world: seq<Tick>, i: nat): Outcome
    requires i < |world|
  {
    Turn(After(q, world, i), world[i]).1
  }

  function Items(o: Outcome): seq<ChatMessage> {
    if o.Delivered? then [o.message] else []
  }

  // What turns `from` up to `to` delivered, in order.
  function Sent(q: Stream, world: seq<Tick>, from: nat, to: nat): seq<ChatMessage>
    requires from <= to <= |world|
  {
    if from == to then [] else Sent(q, world, from, to - 1) + Items(OutcomeAt(q, world, to - 1))
  }

  // ---- A replay pass ---------------------------------------------------------------

  // Of each of the first `n` messages the copy that is current at its turn, where
  // it is still unread; the first turn is `from`.
  function StillUnread(ms: seq<ChatMessage>, n: nat, world: seq<Tick>, from: nat): seq<ChatMessage>
    requires n <= |ms| && from + n <= |world|
  {
    if n == 0 then []
    else StillUnread(ms, n - 1, world, from) + Items(Offer(world[from + n - 1].cache, ms[n - 1]))
  }

  lemma OnePopped(q: Stream, t: Tick)
    requires q.pending != []
    ensures Turn(q, t) == (q.(pending := q.pending[1..]), Offer(t.cache, q.pending[0]))
  {
  }

  lemma {:induction false} PendingDrains(q: Stream, world: seq<Tick>, from: nat, n: nat)
    requires from + n <= |world| && n <= |After(q, world, from).pending|
    ensures var start := After(q, world, from);
      After(q, world, from + n) == start.(pending := start.pending[n..])
  {
    if n > 0 {
      PendingDrains(q, world, from, n - 1);
      var start := After(q, world, from);
      OnePopped(start.(pending := start.pending[n - 1..]), world[from + n - 1]);
      assert start.pending[n - 1..][1..] == start.pending[n..];
    }
  }

  lemma {:induction false} PendingIsOffered(q: Stream, world: seq<Tick>, from: nat, n: nat)
    requires from + n <= |world| && n <= |After(q, world, from).pending|
    ensures Sent(q, world, from, from + n) == StillUnread(After(q, world, from).pending, n, world, from)
  {
    if n > 0 {
      PendingIsOffered(q, world, from, n - 1);
      PendingDrains(q, world, from, n - 1);
      OnePopped(After(q, world, from + n - 1), world[from + n - 1]);
    }
  }

  lemma QueueRunsDry(q: Stream, world: seq<Tick>, from: nat)
    requires from <= |world| && from + |After(q, world, from).pending| <= |world|
    ensures var start := After(q, world, from); var n := |start.pending|;
      && Sent(q, world, from, from + n) == StillUnread(start.pending, n, world, from)
      && After(q, world, from + n) == start.(pending := [])
  {
    PendingDrains(q, world, from, |After(q, world, from).pending|);
    PendingIsOffered(q, world, from, |After(q, world, from).pending|);
  }

  lemma ReplayFills(q: Stream, t: Tick)
    requires Replays(q, t) && t.backlog.Some? && t.backlog.value != []
    ensures Turn(q, t).0 == Stream(t.backlog.value, t.replayedAt + REPLAY_INTERVAL_SECS)
  {
  }

  // A replay delivers, in the order of the backlog, each message still unread at
  // its turn and nothing else.
  lemma ReplayDeliversTheBacklog(q: Stream, world: seq<Tick>, k: nat)
    requires k < |world| && Replays(After(q, world, k), world[k]) && world[k].backlog.Some?
    requires k + 1 + |world[k].backlog.value| <= |world|
    ensures var b := world[k].backlog.value;
      && Sent(q, world, k + 1, k + 1 + |b|) == StillUnread(b, |b|, world, k + 1)
      && (b != [] ==> After(q, world, k + 1 + |b|) == Stream([], world[k].replayedAt + REPLAY_INTERVAL_SECS))
  {
    var b := world[k].backlog.value;
    if b != [] {
      ReplayFills(After(q, world, k), world[k]);
      assert After(q, world, k + 1) == Stream(b, world[k].replayedAt + REPLAY_INTERVAL_SECS);
      QueueRunsDry(q, world, k + 1);
    }
  }

  // A message that is unread as it stands at each of these turns.
  ghost predicate StaysUnread(m: ChatMessage, world: seq<Tick>, from: nat, to: nat)
    requires from <= to <= |world|
  {
    forall i :: from <= i < to ==> UnreadIn(world[i].cache, m)
  }

  lemma {:induction false} UnreadOnesAreAmongThem(ms: seq<ChatMessage>, n: nat, world: seq<Tick>, from: nat,
      m: ChatMessage)
    requires n <= |ms| && from + n <= |world|
    requires m in ms[..n] && StaysUnread(m, world, from, from + n)
    ensures m in StillUnread(ms, n, world, from)
  {
    if m == ms[n - 1] {
      UnreadIsOffered(world[from + n - 1].cache, m);
      assert Offer(world[from + n - 1].cache, m) == Delivered(m);
    } else {
      UnreadOnesAreAmongThem(ms, n - 1, world, from, m);
    }
  }

  // A message unread in memory or on disk when a replay is due, and not read
  // until its turn, is delivered by that replay.
  lemma ReplayMissesNothing(q: Stream, world: seq<Tick>, k: nat, s: Store, m: ChatMessage)
    requires k < |world| && Replays(After(q, world, k), world[k])
    requires world[k].backlog.Some? && IsBacklogOf(s, world[k].backlog.value)
    requires k + 1 + |world[k].backlog.value| <= |world|
    requires InBacklog(s, m) && StaysUnread(m, world, k + 1, k + 1 + |world[k].backlog.value|)
    ensures m in Sent(q, world, k + 1, k + 1 + |world[k].backlog.value|)
  {
    var b := world[k].backlog.value;
    assert m in b;
    ReplayDeliversTheBacklog(q, world, k);
    assert b[..|b|] == b;
    UnreadOnesAreAmongThem(b, |b|, world, k + 1, m);
  }

  // ---- Every delivery -----------------------------------------------------------------

  ghost predicate FiledCache(cache: map<string, seq<ChatMessage>>) {
    forall trade, m :: trade in cache && m in cache[trade] ==> m.tradeId == trade
  }

  // What is delivered is unread, and where its trade is cached under this id, the
  // first cached copy is the one delivered.
  lemma {:induction false} NothingReadIsDelivered(q: Stream, world: seq<Tick>, from: nat, to: nat, m: ChatMessage)
    requires from <= to <= |world| && m in Sent(q, world, from, to)
    requires forall i :: from <= i < to ==> FiledCache(world[i].cache)
    ensures exists i :: from <= i < to && OutcomeAt(q, world, i) == Delivered(m) && UnreadIn(world[i].cache, m)
  {
    if m in Items(OutcomeAt(q, world, to - 1)) {
      assert OutcomeAt(q, world, to - 1) == Delivered(m);
      DeliveredIsFresh(q, world, to - 1);
    } else {
      NothingReadIsDelivered(q, world, from, to - 1, m);
    }
  }

  lemma DeliveredIsFresh(q: Stream, world: seq<Tick>, i: nat)
    requires i < |world| && OutcomeAt(q, world, i).Delivered? && FiledCache(world[i].cache)
    ensures UnreadIn(world[i].cache, OutcomeAt(q, world, i).message)
  {
    var now := After(q, world, i);
    OfferedIsFresh(world[i].cache, if now.pending != [] then now.pending[0] else world[i].received.message);
  }

  lemma OfferedIsFresh(cache: map<string, seq<ChatMessage>>, m: ChatMessage)
    requires FiledCache(cache)
    ensures Offer(cache, m).Delivered? ==> UnreadIn(cache, Offer(cache, m).message)
  {
    CandidateNowExactly(cache, m);
    FindIsTheFirst(if m.tradeId in cache then cache[m.tradeId] else [], m.id);
  }

  // ---- A turn that waits ----------------------------------------------------------------

  // Nothing is queued, and no due replay queues anything.
  ghost predicate Idle(q: Stream, t: Tick) {
    q.pending == [] && (t.now >= q.replayAt && t.backlog.Some? ==> t.backlog.value == [])
  }

  // An idle stream hands on a live message that is unread, ends when the channel
  // closes, and replays at once after a lag; a due replay moves the next one on.
  lemma IdleTurnExactly(q: Stream, t: Tick)
    requires Idle(q, t)
    ensures var (r, out) := Turn(q, t);
      && r.pending == []
      && r.replayAt == (if t.received == Lagged then t.receivedAt
                        else if t.now >= q.replayAt then t.replayedAt + REPLAY_INTERVAL_SECS
                        else q.replayAt)
      && (out == Ended <==> t.received == Closed)
      && (t.received == Lagged || t.received == TimedOut ==> out == Quiet)
      && (t.received.Message? && UnreadIn(t.cache, t.received.message) ==> out == Delivered(t.received.message))
      && (t.received.Message? && FiledCache(t.cache) && out.Delivered? ==> UnreadIn(t.cache, out.message))
  {
    if t.received.Message? {
      if UnreadIn(t.cache, t.received.message) {
        UnreadIsOffered(t.cache, t.received.message);
      }
      if FiledCache(t.cache) {
        OfferedIsFresh(t.cache, t.received.message);
      }
    }
  }

  // ---- When replays happen ----------------------------------------------------------------

  predicate ClockRuns(t: Tick) {
    t.now <= t.replayedAt <= t.receivedAt
  }

  // A lag makes the very next turn replay, so what the lag swallowed is delivered
  // from the store.
  lemma LagIsRecovered(q: Stream, world: seq<Tick>, k: nat, s: Store, m: ChatMessage)
    requires k + 1 < |world| && world[k].received == Lagged && world[k + 1].now >= world[k].receivedAt
    requires Idle(After(q, world, k), world[k])
    requires world[k + 1].backlog.Some? && IsBacklogOf(s, world[k + 1].backlog.value)
    requires k + 2 + |world[k + 1].backlog.value| <= |world|
    requires InBacklog(s, m) && StaysUnread(m, world, k + 2, k + 2 + |world[k + 1].backlog.value|)
    ensures m in Sent(q, world, k + 2, k + 2 + |world[k + 1].backlog.value|)
  {
    ReplayMissesNothing(q, world, k + 1, s, m);
  }

  // However the turns go, the next replay is due within the interval after the
  // latest clock reading.
  lemma {:induction false} ReplayIsNeverFarOff(q: Stream, world: seq<Tick>, n: nat, latest: int)
    requires n <= |world| && q.replayAt <= latest + REPLAY_INTERVAL_SECS
    requires forall i :: 0 <= i < n ==> ClockRuns(world[i]) && world[i].receivedAt <= latest
    ensures After(q, world, n).replayAt <= latest + REPLAY_INTERVAL_SECS
  {
    if n > 0 {
      ReplayIsNeverFarOff(q, world, n - 1, latest);
    }
  }

  // Whatever happened before, a message unread when the stream is idle and the
  // interval has passed is delivered by the replay that is then due.
  lemma UnreadIsDeliveredInTheEnd(q: Stream, world: seq<Tick>, k: nat, latest: int, s: Store, m: ChatMessage)
    requires k < |world| && q.replayAt <= latest + REPLAY_INTERVAL_SECS
    requires forall i :: 0 <= i < k ==> ClockRuns(world[i]) && world[i].receivedAt <= latest
    requires After(q, world, k).pending == [] && world[k].now >= latest + REPLAY_INTERVAL_SECS
    requires world[k].backlog.Some? && IsBacklogOf(s, world[k].backlog.value)
    requires k + 1 + |world[k].backlog.value| <= |world|
    requires InBacklog(s, m) && StaysUnread(m, world, k + 1, k + 1 + |world[k].backlog.value|)
    ensures m in Sent(q, world, k + 1, k + 1 + |world[k].backlog.value|)
  {
    ReplayIsNeverFarOff(q, world, k, latest);
    ReplayMissesNothing(q, world, k, s, m);
  }

  lemma OneMoreTurn(start: Stream, world: seq<Tick>, n: nat, q: Stream)
    requires n < |world| && After(start, world, n) == q && Sent(start, world, 0, n) == []
    ensures After(start, world, n + 1) == Turn(q, world[n]).0
    ensures OutcomeAt(start, world, n) == Turn(q, world[n]).1
    ensures Sent(start, world, 0, n + 1) == Items(Turn(q, world[n]).1)
  {
  }

  // ---- The stream itself --------------------------------------------------------------------

  class AnyMessageStream {
    var pending: seq<ChatMessage>
    var replayAt: int

    ghost function View(): Stream
      reads this
    {
      Stream(pending, replayAt)
    }

    constructor (now: int)
      ensures View() == Stream([], now)
    {
      pending, replayAt := [], now;
    }

    // Turns until the first delivery or the end; `Quiet` says the world given
    // here ran out while the stream waits.
    method NextFrom(world: seq<Tick>) returns (got: Outcome, used: nat)
      modifies this
      ensures used <= |world|
      ensures View() == After(old(View()), world, used)
      ensures Sent(old(View()), world, 0, used) == Items(got)
      ensures got.Quiet? ==> used == |world|
      ensures !got.Quiet? ==> used > 0 && OutcomeAt(old(View()), world, used - 1) == got
    {
      used := 0;
      ghost var start := View();
      while used < |world|
        invariant used <= |world|
        invariant View() == After(start, world, used) && Sent(start, world, 0, used) == []
      {
        var t := world[used];
        OneMoreTurn(start, world, used, View());
        used := used + 1;
        if pending != [] {
          var m := pending[0];
          pending := pending[1..];
          var current := CandidateNow(t.cache, m);
          if current.Some? {
            return Delivered(current.value), used;
          }
          continue;
        }
        if t.now >= replayAt {
          if t.backlog.Some? {
            pending := t.backlog.value;
          }
          replayAt := t.replayedAt + REPLAY_INTERVAL_SECS;
          if pending != [] {
            continue;
          }
        }
        match t.received {
          case Message(m) =>
            var current := CandidateNow(t.cache, m);
            if current.Some? {
              return Delivered(current.value), used;
            }
          case Lagged =>
            replayAt := t.receivedAt;
          case Closed =>
            return Ended, used;
          case TimedOut =>
        }
      }
      got := Quiet;
    }
  }
}
