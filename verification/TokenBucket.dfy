/** The token bucket both limiters of the server are built on: `rate` tokens come
    back per second, up to `burst`. Times are in seconds. */
module TokenBucket {

  datatype Bucket = Bucket(tokens: real, last: real)

  function Min(a: real, b: real): real {
    if a < b then a else b
  }

  /** What comes back between two moments. */
  function Refill(start: real, end: real, rate: real): real {
    (end - start) * rate
  }

  /** The tokens there are at `now`. */
  function Level(b: Bucket, now: real, rate: real, burst: real): real {
    Min(burst, b.tokens + Refill(b.last, now, rate))
  }

  predicate Grants(b: Bucket, now: real, rate: real, burst: real) {
    Level(b, now, rate, burst) >= 1.0
  }

  /** An attempt at `now`: it costs one token when there is one. */
  function Attempt(b: Bucket, now: real, rate: real, burst: real): Bucket {
    var level := Level(b, now, rate, burst);
    Bucket(if level >= 1.0 then level - 1.0 else level, now)
  }

  function Refund(b: Bucket, burst: real): Bucket {
    b.(tokens := Min(burst, b.tokens + 1.0))
  }

  // ---------------------------------------------------------------------------
  // Basic facts
  // ---------------------------------------------------------------------------

  lemma RefillAdds(rate: real, a: real, b: real, c: real)
    ensures Refill(a, b, rate) + Refill(b, c, rate) == Refill(a, c, rate)
  {
  }

  lemma RefillIsPositive(rate: real, a: real, b: real)
    requires rate >= 0.0 && a <= b
    ensures Refill(a, b, rate) >= 0.0
  {
  }

  lemma NothingRefillsAtOnce(rate: real, a: real)
    ensures Refill(a, a, rate) == 0.0
  {
  }

  // ---------------------------------------------------------------------------
  // A history of attempts on one bucket
  // ---------------------------------------------------------------------------

  ghost predicate Ascending(times: seq<real>) {
    forall i, j :: 0 <= i <= j < |times| ==> times[i] <= times[j]
  }

  /** The bucket after the attempts at `times`. */
  function AfterAttempts(b: Bucket, times: seq<real>, rate: real, burst: real): Bucket
    decreases |times|
  {
    if times == [] then b
    else
      var prior := times[..|times| - 1];
      Attempt(AfterAttempts(b, prior, rate, burst), times[|times| - 1], rate, burst)
  }

  /** Whether attempt `k` was granted. */
  predicate Granted(b: Bucket, times: seq<real>, k: nat, rate: real, burst: real)
    requires k < |times|
  {
    Grants(AfterAttempts(b, times[..k], rate, burst), times[k], rate, burst)
  }

  /** How many of the attempts `from`, ..., `until - 1` were granted. */
  function CountGranted(b: Bucket, times: seq<real>, from: nat, until: nat, rate: real, burst: real): nat
    requires from <= until <= |times|
    decreases until
  {
    if from == until then 0
    else
      CountGranted(b, times, from, until - 1, rate, burst)
      + if Granted(b, times, until - 1, rate, burst) then 1 else 0
  }

  /** What the attempts from `from` on leave of the budget of their window at `now`. */
  function Slack(b: Bucket, times: seq<real>, from: nat, until: nat, now: real, rate: real, burst: real): real
    requires from <= until <= |times| && from < |times|
  {
    burst + Refill(times[from], now, rate) - CountGranted(b, times, from, until, rate, burst) as real
  }

  /** The level found by attempt `k`. */
  function LevelAt(b: Bucket, times: seq<real>, k: nat, rate: real, burst: real): real
    requires k < |times|
  {
    Level(AfterAttempts(b, times[..k], rate, burst), times[k], rate, burst)
  }

  lemma NextLevel(b: Bucket, times: seq<real>, k: nat, rate: real, burst: real)
    requires k + 1 < |times|
    ensures LevelAt(b, times, k + 1, rate, burst)
         == Min(burst, LevelAt(b, times, k, rate, burst) - (if Granted(b, times, k, rate, burst) then 1.0 else 0.0)
                       + Refill(times[k], times[k + 1], rate))
  {
    hide Refill;
    assert times[..k + 1][..k] == times[..k];
  }

  lemma NextSlack(b: Bucket, times: seq<real>, from: nat, k: nat, rate: real, burst: real)
    requires from <= k && k + 1 < |times|
    ensures Slack(b, times, from, k + 1, times[k + 1], rate, burst)
         == Slack(b, times, from, k, times[k], rate, burst) - (if Granted(b, times, k, rate, burst) then 1.0 else 0.0)
            + Refill(times[k], times[k + 1], rate)
  {
  }

  /** The level an attempt finds is the least slack over all windows that end there:
      it is never above the slack of any window, and it is the slack of one. */
  lemma {:induction false} LevelIsLeastSlack(b: Bucket, times: seq<real>, k: nat, rate: real, burst: real)
    returns (tight: nat)
    requires rate >= 0.0 && b.tokens == burst && k < |times|
    requires Ascending(times) && b.last <= times[0]
    ensures tight <= k && LevelAt(b, times, k, rate, burst) == Slack(b, times, tight, k, times[k], rate, burst)
    ensures forall i :: 0 <= i <= k ==>
              LevelAt(b, times, k, rate, burst) <= Slack(b, times, i, k, times[k], rate, burst)
    decreases k
  {
    hide Refill;
    NothingRefillsAtOnce(rate, times[k]);
    if k == 0 {
      tight := 0;
      RefillIsPositive(rate, b.last, times[0]);
    } else {
      var before := LevelIsLeastSlack(b, times, k - 1, rate, burst);
      NextLevel(b, times, k - 1, rate, burst);
      NextSlack(b, times, before, k - 1, rate, burst);
      assert Slack(b, times, k, k, times[k], rate, burst) == burst;
      tight := if LevelAt(b, times, k, rate, burst) == burst then k else before;
      forall i | 0 <= i <= k
        ensures LevelAt(b, times, k, rate, burst) <= Slack(b, times, i, k, times[k], rate, burst)
      {
        if i < k {
          NextSlack(b, times, i, k - 1, rate, burst);
        }
      }
    }
  }

  /** A full bucket is an exact sliding-window limiter: it grants an attempt if and
      only if, for every earlier attempt, the grants since then together with this
      one stay within `burst` plus `rate` per second since then. */
  lemma GrantsExactlyWithinBudget(b: Bucket, times: seq<real>, k: nat, rate: real, burst: real)
    requires rate >= 0.0 && b.tokens == burst && k < |times|
    requires Ascending(times) && b.last <= times[0]
    ensures Granted(b, times, k, rate, burst) <==>
            forall i :: 0 <= i <= k ==>
              (CountGranted(b, times, i, k, rate, burst) + 1) as real <= burst + Refill(times[i], times[k], rate)
  {
    hide Refill;
    var tight := LevelIsLeastSlack(b, times, k, rate, burst);
    forall i | 0 <= i <= k
      ensures Slack(b, times, i, k, times[k], rate, burst) >= 1.0 <==>
              (CountGranted(b, times, i, k, rate, burst) + 1) as real <= burst + Refill(times[i], times[k], rate)
    {
    }
    assert Slack(b, times, tight, k, times[k], rate, burst) == LevelAt(b, times, k, rate, burst);
  }

  /** In any window of `length` seconds at most `burst + length * rate` are granted. */
  lemma {:induction false} WindowBound(b: Bucket, times: seq<real>, from: nat, until: nat, length: real,
                                       rate: real, burst: real)
    requires rate >= 0.0 && burst >= 0.0 && b.tokens == burst && from <= until <= |times| && length >= 0.0
    requires Ascending(times) && (times != [] ==> b.last <= times[0])
    requires from < until ==> times[until - 1] - times[from] <= length
    ensures CountGranted(b, times, from, until, rate, burst) as real <= burst + Refill(0.0, length, rate)
    decreases until
  {
    hide Refill;
    RefillIsPositive(rate, 0.0, length);
    if from < until {
      if Granted(b, times, until - 1, rate, burst) {
        GrantsExactlyWithinBudget(b, times, until - 1, rate, burst);
        LongerRefillsMore(times[from], times[until - 1], length, rate);
      } else {
        if from < until - 1 {
          assert times[until - 2] <= times[until - 1];
        }
        WindowBound(b, times, from, until - 1, length, rate, burst);
      }
    }
  }

  lemma LongerRefillsMore(a: real, b: real, length: real, rate: real)
    requires b - a <= length && rate >= 0.0
    ensures Refill(a, b, rate) <= Refill(0.0, length, rate)
  {
  }
}
