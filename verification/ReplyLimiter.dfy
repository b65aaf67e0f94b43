/**
The discovery reply rate limiter (engine/internal/discovery/responder.go). Times are
nanoseconds; the zero time.Time is None. Nothing is assumed about the clock: the
bounds speak of the times it happened to show.
*/
module ReplyLimiter {
  import opened Common

  const BURST := 16
  const INTERVAL := 20_000_000

  datatype Bucket = Bucket(tokens: int, last: Option<int>)

  function New(now: int): (b: Bucket)
  {
    Bucket(BURST, Some(now))
  }

  /** The bucket when a call at `now` comes to spend from it. */
  function Refilled(b: Bucket, now: int): (b': Bucket)
    ensures b'.last.Some?
  {
    if b.last.None? then New(now)
    else
      var elapsed := now - b.last.value;
      if elapsed >= INTERVAL then Bucket(Min(b.tokens + elapsed / INTERVAL, BURST), Some(now)) else b
  }

  function Allow(b: Bucket, now: int): (r: (Bucket, bool))
  {
    var full := Refilled(b, now);
    if full.tokens <= 0 then (full, false) else (full.(tokens := full.tokens - 1), true)
  }

  class ReplyRateLimiter {
    var tokens: int
    var last: Option<int>

    function View(): (b: Bucket)
      reads this
    {
      Bucket(tokens, last)
    }

    constructor (now: int)
      ensures View() == New(now)
    {
      tokens, last := BURST, Some(now);
    }

    method AllowReply(now: int) returns (ok: bool)
      modifies this
      ensures (View(), ok) == Allow(old(View()), now)
    {
      if last.None? {
        tokens := BURST;
        last := Some(now);
      }
      var elapsed := now - last.value;
      if elapsed >= INTERVAL {
        tokens := tokens + elapsed / INTERVAL;
        if tokens > BURST { tokens := BURST; }
        last := Some(now);
      }
      if tokens <= 0 { return false; }
      tokens := tokens - 1;
      ok := true;
    }
  }

  // ---- runs of calls

  function After(b: Bucket, times: seq<int>): (b': Bucket)
    decreases |times|
  {
    if times == [] then b else After(Allow(b, times[0]).0, times[1..])
  }

  /** How many of the calls are granted. */
  function Grants(b: Bucket, times: seq<int>): (n: nat)
    decreases |times|
  {
    if times == [] then 0
    else (if Allow(b, times[0]).1 then 1 else 0) + Grants(Allow(b, times[0]).0, times[1..])
  }

  predicate Sound(b: Bucket)
  {
    0 <= b.tokens <= BURST
  }

  /** Whole intervals add up to no more than the whole intervals of the sum. */
  lemma FloorsAdd(a: nat, b: nat)
    ensures a / INTERVAL + b / INTERVAL <= (a + b) / INTERVAL
  {
  }

  /** What is granted from now on is paid for by the tokens at hand and by whole
      intervals since `last`. */
  lemma {:induction false} Paid(b: Bucket, times: seq<int>, until: int)
    requires Sound(b) && b.last.Some? && b.last.value <= until
    requires forall i :: 0 <= i < |times| ==> times[i] <= until
    ensures Sound(After(b, times))
    ensures Grants(b, times) <= b.tokens + (until - b.last.value) / INTERVAL
    decreases |times|
  {
    if times != [] {
      var b' := Allow(b, times[0]).0;
      Paid(b', times[1..], until);
      if b'.last != b.last {
        FloorsAdd(times[0] - b.last.value, until - times[0]);
      }
    }
  }

  /** THEOREM (since creation). A limiter made at t0 grants at most 16 replies and one
      more for every whole interval up to the latest time it is called at. */
  lemma SinceCreation(t0: int, times: seq<int>, t: int)
    requires t0 <= t && forall i :: 0 <= i < |times| ==> times[i] <= t
    ensures Grants(New(t0), times) <= BURST + (t - t0) / INTERVAL
  {
    Paid(New(t0), times, t);
  }

  /** THEOREM (any window). Whatever happened before, consecutive calls whose times lie in
      [s, t] are granted at most 17 replies and one more for every whole interval. */
  lemma AnyWindow(t0: int, before: seq<int>, times: seq<int>, s: int, t: int)
    requires s <= t && forall i :: 0 <= i < |times| ==> s <= times[i] <= t
    ensures Grants(After(New(t0), before), times) <= BURST + 1 + (t - s) / INTERVAL
  {
    ReachableSound(New(t0), before);
    var b := After(New(t0), before);
    if times != [] {
      var first := times[0];
      if first - b.last.value >= INTERVAL {
        Paid(Refilled(b, first), times, t);
        assert Refilled(Refilled(b, first), first) == Refilled(b, first);
      } else if b.last.value <= t {
        Paid(b, times, t);
      } else {
        Stuck(b, times);
      }
    }
  }

  lemma {:induction false} ReachableSound(b: Bucket, times: seq<int>)
    requires Sound(b) && b.last.Some?
    ensures Sound(After(b, times)) && After(b, times).last.Some?
    decreases |times|
  {
    if times != [] {
      ReachableSound(Allow(b, times[0]).0, times[1..]);
    }
  }

  /** With the clock behind `last` nothing is refilled. */
  lemma {:induction false} Stuck(b: Bucket, times: seq<int>)
    requires Sound(b) && b.last.Some? && forall i :: 0 <= i < |times| ==> times[i] <= b.last.value
    ensures Grants(b, times) <= b.tokens
    decreases |times|
  {
    if times != [] {
      Stuck(Allow(b, times[0]).0, times[1..]);
    }
  }

  lemma {:induction false} LastBefore(b: Bucket, times: seq<int>, t: int)
    requires b.last.Some? && b.last.value <= t && forall i :: 0 <= i < |times| ==> times[i] <= t
    ensures After(b, times).last.Some? && After(b, times).last.value <= t
    decreases |times|
  {
    if times != [] {
      LastBefore(Allow(b, times[0]).0, times[1..], t);
    }
  }

  /** THEOREM (a pause pays). After any calls at times up to t, n <= 16 calls made n whole
      intervals after t or later are all granted. */
  lemma PauseRefills(t0: int, before: seq<int>, t: int, n: nat, now: int)
    requires t0 <= t && (forall i :: 0 <= i < |before| ==> before[i] <= t)
    requires 0 < n <= 16 && now >= t + n * 20_000_000
    ensures Grants(After(New(t0), before), Repeat(now, n)) == n
  {
    var b := After(New(t0), before);
    ReachableSound(New(t0), before);
    LastBefore(New(t0), before, t);
    assert (now - b.last.value) / INTERVAL >= n;
    GrantsRepeat(b, now, n, []);
    assert Repeat(now, n) + [] == Repeat(now, n);
  }

  /** THEOREM (the bounds are met). Sixteen calls just short of an interval and one at the
      end of it are all granted: 17 in a window of one nanosecond. */
  lemma WindowBoundMet()
    ensures var early := Repeat(INTERVAL - 1, 16);
            Grants(New(0), early + [INTERVAL]) == 17 == BURST + 1 + (INTERVAL - (INTERVAL - 1)) / INTERVAL
  {
    GrantsRepeat(Bucket(BURST, Some(0)), INTERVAL - 1, 16, [INTERVAL]);
    assert [INTERVAL][1..] == [];
  }

  /** THEOREM (no reply is refused while there are tokens). n calls at one time, from a
      bucket that then holds at least n tokens, are all granted. */
  lemma {:induction false} GrantsRepeat(b: Bucket, now: int, n: nat, rest: seq<int>)
    requires b.last.Some? && Refilled(b, now).tokens >= n > 0
    ensures var full := Refilled(b, now);
            Grants(b, Repeat(now, n) + rest) == n + Grants(full.(tokens := full.tokens - n), rest)
    decreases n
  {
    var all := Repeat(now, n) + rest;
    var b' := Allow(b, now).0;
    assert all[0] == now;
    if n == 1 {
      assert all[1..] == rest;
    } else {
      assert all[1..] == Repeat(now, n - 1) + rest;
      assert Refilled(b', now) == b';
      GrantsRepeat(b', now, n - 1, rest);
    }
  }
}
