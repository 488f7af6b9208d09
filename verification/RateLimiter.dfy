/** The limiter of one WebSocket connection: ten messages per second, twenty at once. */
module RateLimiter {
  import opened TokenBucket

  const MessagesPerSecond := 10.0
  const MessageBurst := 20.0

  class Limiter {
    var tokens: real
    var lastUpdate: real
    const limit: real
    const burst: real

    ghost function View(): Bucket
      reads this
    {
      Bucket(tokens, lastUpdate)
    }

    constructor (limit: real, burst: real, now: real)
      ensures this.limit == limit && this.burst == burst
      ensures View() == Bucket(burst, now)
    {
      this.tokens := burst;
      this.lastUpdate := now;
      this.limit := limit;
      this.burst := burst;
    }

    method Allow(now: real) returns (ok: bool)
      modifies this
      ensures ok == Grants(old(View()), now, limit, burst)
      ensures View() == Attempt(old(View()), now, limit, burst)
      ensures lastUpdate == now
      ensures var refilled := old(tokens) + (now - old(lastUpdate)) * limit;
              var level := if refilled > burst then burst else refilled;
              ok == (level >= 1.0) && tokens == if ok then level - 1.0 else level
    {
      var elapsed := now - lastUpdate;
      lastUpdate := now;
      tokens := tokens + elapsed * limit;
      assert tokens == old(tokens) + Refill(old(lastUpdate), now, limit);
      if tokens > burst {
        tokens := burst;
      }
      if tokens >= 1.0 {
        tokens := tokens - 1.0;
        return true;
      }
      ok := false;
    }
  }

  /** Over any trace of messages on one connection, any window of `length` seconds
      lets at most 20 + 10 * length of them through. */
  lemma MessageBound(start: real, times: seq<real>, from: nat, until: nat, length: real)
    requires Ascending(times) && (times != [] ==> start <= times[0])
    requires from <= until <= |times| && length >= 0.0
    requires from < until ==> times[until - 1] - times[from] <= length
    ensures CountGranted(Bucket(MessageBurst, start), times, from, until, MessagesPerSecond, MessageBurst) as real
            <= 20.0 + 10.0 * length
  {
    WindowBound(Bucket(MessageBurst, start), times, from, until, length, MessagesPerSecond, MessageBurst);
  }

  /** And it lets a message through exactly when that keeps every window that ends
      with it within the same budget. */
  lemma MessageAllowedExactly(start: real, times: seq<real>, k: nat)
    requires Ascending(times) && k < |times| && start <= times[0]
    ensures var b := Bucket(MessageBurst, start);
            Granted(b, times, k, MessagesPerSecond, MessageBurst) <==>
            forall i :: 0 <= i <= k ==>
              (CountGranted(b, times, i, k, MessagesPerSecond, MessageBurst) + 1) as real
              <= 20.0 + 10.0 * (times[k] - times[i])
  {
    GrantsExactlyWithinBudget(Bucket(MessageBurst, start), times, k, MessagesPerSecond, MessageBurst);
  }
}
