// The token bucket that meters the live chat stream.
module RateLimit {

  const RATE_CAPACITY: real := 60.0
  const RATE_PER_SEC: real := 0.5

  function MinReal(a: real, b: real): real {
    if a < b then a else b
  }

  // `Instant::duration_since` saturates: a clock that went back reads as no time.
  function Elapsed(earlier: real, later: real): real {
    if later < earlier then 0.0 else later - earlier
  }

  function Refill(tokens: real, last: real, now: real): real {
    MinReal(tokens + Elapsed(last, now) * RATE_PER_SEC, RATE_CAPACITY)
  }

  function Drain(level: real): real {
    if level >= 1.0 then level - 1.0 else level
  }

  // What the bucket holds when arrival `n` asks for its token; the bucket was
  // created at `start` and arrival `i` came at `times[i]`.
  function Level(start: real, times: seq<real>, n: nat): real
    requires n < |times|
  {
    if n == 0 then Refill(RATE_CAPACITY, start, times[0])
    else Refill(Drain(Level(start, times, n - 1)), times[n - 1], times[n])
  }

  predicate Admits(start: real, times: seq<real>, n: nat)
    requires n < |times|
  {
    Level(start, times, n) >= 1.0
  }

  // How many of the arrivals `from..to` got a token.
  function Taken(start: real, times: seq<real>, from: nat, to: nat): nat
    requires to <= |times|
  {
    if to <= from then 0
    else Taken(start, times, from, to - 1) + (if Admits(start, times, to - 1) then 1 else 0)
  }

  // What a full bucket at arrival `j` would still hold at arrival `n`.
  function Headroom(start: real, times: seq<real>, j: nat, n: nat): real
    requires j <= n < |times|
  {
    RATE_CAPACITY + RATE_PER_SEC * (times[n] - times[j]) - Taken(start, times, j, n) as real
  }

  ghost predicate InOrder(start: real, times: seq<real>) {
    && (forall i :: 0 <= i < |times| ==> start <= times[i])
    && (forall i, j :: 0 <= i <= j < |times| ==> times[i] <= times[j])
  }

  // Admitting arrival `n` as well keeps every window that ends there within
  // 60 tokens plus half a token per second.
  ghost predicate FitsEveryWindow(start: real, times: seq<real>, n: nat)
    requires n < |times|
  {
    forall j :: 0 <= j <= n ==>
      Taken(start, times, j, n) as real + 1.0 <= RATE_CAPACITY + RATE_PER_SEC * (times[n] - times[j])
  }

  // The level is the least headroom over all earlier starting points.
  lemma {:induction false} LevelIsLeastHeadroom(start: real, times: seq<real>, n: nat) returns (w: nat)
    requires n < |times| && InOrder(start, times)
    ensures forall j :: 0 <= j <= n ==> Level(start, times, n) <= Headroom(start, times, j, n)
    ensures w <= n && Level(start, times, n) == Headroom(start, times, w, n)
  {
    if n == 0 {
      w := 0;
    } else {
      var v := LevelIsLeastHeadroom(start, times, n - 1);
      var grown := RATE_PER_SEC * (times[n] - times[n - 1]);
      var spent := if Admits(start, times, n - 1) then 1.0 else 0.0;
      forall j | 0 <= j <= n - 1
        ensures Headroom(start, times, j, n) == Headroom(start, times, j, n - 1) + grown - spent
      {
      }
      w := if Level(start, times, n) == RATE_CAPACITY then n else v;
    }
  }

  lemma {:induction false} AdmitsExactlyWhatFits(start: real, times: seq<real>, n: nat)
    requires n < |times| && InOrder(start, times)
    ensures Admits(start, times, n) <==> FitsEveryWindow(start, times, n)
  {
    var w := LevelIsLeastHeadroom(start, times, n);
    if Admits(start, times, n) {
      forall j | 0 <= j <= n
        ensures Taken(start, times, j, n) as real + 1.0 <= RATE_CAPACITY + RATE_PER_SEC * (times[n] - times[j])
      {
        assert Level(start, times, n) <= Headroom(start, times, j, n);
      }
    } else {
      assert Headroom(start, times, w, n) < 1.0;
    }
  }

  // Every window of `seconds` seconds admits at most 60 + seconds / 2 events.
  lemma {:induction false} WindowBound(start: real, times: seq<real>, i: nat, k: nat, seconds: real)
    requires i <= k < |times| && InOrder(start, times)
    requires times[k] - times[i] <= seconds
    ensures Taken(start, times, i, k + 1) as real <= RATE_CAPACITY + RATE_PER_SEC * seconds
    decreases k
  {
    if Admits(start, times, k) {
      AdmitsExactlyWhatFits(start, times, k);
      assert Taken(start, times, i, k) as real + 1.0 <= RATE_CAPACITY + RATE_PER_SEC * (times[k] - times[i]);
    } else if i < k {
      WindowBound(start, times, i, k - 1, seconds);
    } else {
      assert Taken(start, times, i, k) == 0;
    }
  }

  // A sender who stays within the bound is never refused.
  lemma {:induction false} CompliantSenderIsNeverRefused(start: real, times: seq<real>, n: nat)
    requires n <= |times| && InOrder(start, times)
    requires forall i, k :: 0 <= i <= k < |times| ==>
      (k - i + 1) as real <= RATE_CAPACITY + RATE_PER_SEC * (times[k] - times[i])
    ensures forall k :: 0 <= k < n ==> Admits(start, times, k)
    ensures forall i :: 0 <= i <= n ==> Taken(start, times, i, n) == n - i
  {
    if n > 0 {
      CompliantSenderIsNeverRefused(start, times, n - 1);
      assert FitsEveryWindow(start, times, n - 1);
      AdmitsExactlyWhatFits(start, times, n - 1);
    }
  }

  // However the clock jumps, the level stays between nothing and a full bucket, and
  // a clock that goes back adds nothing to it.
  lemma {:induction false} LevelStaysInBounds(start: real, times: seq<real>, n: nat)
    requires n < |times|
    ensures 0.0 <= Level(start, times, n) <= RATE_CAPACITY
    ensures n > 0 && times[n] <= times[n - 1] ==>
      Level(start, times, n)
        == Level(start, times, n - 1) - if Admits(start, times, n - 1) then 1.0 else 0.0
  {
    if n > 0 {
      LevelStaysInBounds(start, times, n - 1);
    }
  }

  // Later arrivals do not change what an earlier one saw.
  lemma {:induction false} LevelOfPrefix(start: real, times: seq<real>, later: seq<real>, n: nat)
    requires n < |times| && times <= later
    ensures Level(start, later, n) == Level(start, times, n)
  {
    if n > 0 {
      LevelOfPrefix(start, times, later, n - 1);
    }
  }

  class TokenBucket {
    var tokens: real
    var last: real
    ghost var start: real
    ghost var arrivals: seq<real>

    ghost predicate Valid()
      reads this
    {
      if arrivals == [] then
        tokens == RATE_CAPACITY && last == start
      else
        && tokens == Drain(Level(start, arrivals, |arrivals| - 1))
        && last == arrivals[|arrivals| - 1]
    }

    constructor (now: real)
      ensures Valid() && start == now && arrivals == []
    {
      tokens := RATE_CAPACITY;
      last := now;
      start := now;
      arrivals := [];
    }

    // Grants a token exactly when that keeps every window within the bound.
    method TryTake(now: real) returns (ok: bool)
      requires Valid()
      modifies this
      ensures Valid() && start == old(start) && arrivals == old(arrivals) + [now]
      ensures ok == Admits(start, arrivals, |arrivals| - 1)
      ensures InOrder(start, arrivals) ==> (ok <==> FitsEveryWindow(start, arrivals, |arrivals| - 1))
    {
      var elapsed := Elapsed(last, now);
      last := now;
      tokens := MinReal(tokens + elapsed * RATE_PER_SEC, RATE_CAPACITY);
      ghost var before := arrivals;
      arrivals := arrivals + [now];
      if before != [] {
        LevelOfPrefix(start, before, arrivals, |before| - 1);
      }
      assert tokens == Level(start, arrivals, |arrivals| - 1);
      if InOrder(start, arrivals) {
        AdmitsExactlyWhatFits(start, arrivals, |arrivals| - 1);
      }
      if tokens >= 1.0 {
        tokens := tokens - 1.0;
        ok := true;
      } else {
        ok := false;
      }
    }
  }
}
