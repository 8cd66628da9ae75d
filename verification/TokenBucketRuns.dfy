/** What the token bucket guarantees over whole runs: its bounds, what it refines, and that clients are independent. */
module TokenBucketRuns {
  import opened Common
  import opened TokenBucket

  ghost predicate Ready(p: Policy, b: Bucket) {
    0.0 <= b.tokens <= Capacity(p)
  }

  // ---- What one call does, told from the policy

  /** The policy refills: a positive rate over a positive number of seconds, few enough to count in nanoseconds. */
  predicate Refills(p: Policy) {
    p.refillRate > 0.0 && 0 < p.refillIntervalInSec && p.refillIntervalInSec * 1_000_000_000 < 0x8000_0000_0000_0000
  }

  /** The share of `refillRate` tokens that comes back in `elapsed` nanoseconds of the interval. */
  predicate IsShare(p: Policy, elapsed: int, tokens: real) {
    tokens * (p.refillIntervalInSec * 1_000_000_000) as real == p.refillRate * elapsed as real
  }

  /**
   A call first refills: the tokens grow by the share of the time since the mark, up to the capacity, and the mark moves
   up. It is then admitted exactly when there is a whole token, which it takes.
   */
  lemma {:induction false} CallIs(p: Policy, b: Bucket, now: int, share: real)
    requires Refills(p) && now > b.lastRefill && IsShare(p, now - b.lastRefill, share)
    ensures var level := if b.tokens + share <= p.capacity as real then b.tokens + share else p.capacity as real;
            && (Consumed(p, b, now).allowed <==> level >= 1.0)
            && Consumed(p, b, now).bucket == Bucket(if level >= 1.0 then level - 1.0 else level, now)
  {
    var n := (p.refillIntervalInSec * 1_000_000_000) as real;
    assert RefillInterval(p) == p.refillIntervalInSec * 1_000_000_000;
    ShareIsGain(n, p.refillRate, (now - b.lastRefill) as real, share);
  }

  lemma {:induction false} ShareIsGain(n: real, rate: real, elapsed: real, share: real)
    requires n > 0.0 && rate > 0.0 && share * n == rate * elapsed
    ensures rate / n > 0.0 && rate / n * elapsed == share
  {
    var q := rate / n;
    assert q * n == rate;
    assert (q * elapsed) * n == share * n;
  }

  /** A whole interval gives `refillRate` tokens back. */
  lemma {:induction false} IntervalRefills(p: Policy, b: Bucket)
    requires Refills(p)
    ensures IsShare(p, p.refillIntervalInSec * 1_000_000_000, p.refillRate)
    ensures var now := b.lastRefill + p.refillIntervalInSec * 1_000_000_000;
            var level := if b.tokens + p.refillRate <= p.capacity as real then b.tokens + p.refillRate else p.capacity as real;
            && (Consumed(p, b, now).allowed <==> level >= 1.0)
            && Consumed(p, b, now).bucket.tokens == (if level >= 1.0 then level - 1.0 else level)
  {
    CallIs(p, b, b.lastRefill + p.refillIntervalInSec * 1_000_000_000, p.refillRate);
  }

  /** Without a later reading, a positive rate or a positive interval nothing comes back. */
  lemma {:induction false} NothingRefills(p: Policy, b: Bucket, now: int)
    requires now <= b.lastRefill || p.refillRate <= 0.0 || p.refillIntervalInSec == 0
             || (p.refillIntervalInSec < 0 && p.refillIntervalInSec * 1_000_000_000 >= -0x8000_0000_0000_0000)
    ensures Consumed(p, b, now).allowed <==> b.tokens >= 1.0
    ensures Consumed(p, b, now).bucket == b.(tokens := if b.tokens >= 1.0 then b.tokens - 1.0 else b.tokens)
  {
  }

  /** A client not seen before starts with a full bucket, marked now. */
  lemma {:induction false} NewClientIsFull(p: Policy, buckets: map<string, Bucket>, key: string, now: int)
    requires key !in buckets
    ensures var decision := Consumed(p, BucketFor(p, buckets, key, now), now);
            && (decision.allowed <==> p.capacity >= 1)
            && decision.bucket == Bucket(if p.capacity >= 1 then p.capacity as real - 1.0 else p.capacity as real, now)
  {
  }

  // ---- One client, any clock

  /** The client's bucket before call `j`, starting from `b`. */
  function BucketBefore(p: Policy, b: Bucket, nows: seq<int>, j: nat): Bucket
    requires j <= |nows|
  {
    if j == 0 then b else Consumed(p, BucketBefore(p, b, nows, j - 1), nows[j - 1]).bucket
  }

  predicate Admitted(p: Policy, b: Bucket, nows: seq<int>, j: nat)
    requires j < |nows|
  {
    Consumed(p, BucketBefore(p, b, nows, j), nows[j]).allowed
  }

  /** Admissions among the calls from `i` up to `j`. */
  function Admissions(p: Policy, b: Bucket, nows: seq<int>, i: nat, j: nat): nat
    requires i <= j <= |nows|
    decreases j
  {
    if i == j then 0 else Admissions(p, b, nows, i, j - 1) + (if Admitted(p, b, nows, j - 1) then 1 else 0)
  }

  lemma {:induction false} RefilledIsReady(p: Policy, b: Bucket, now: int)
    requires Ready(p, b)
    ensures Ready(p, Refilled(p, b, now)) && Refilled(p, b, now).tokens >= b.tokens
    ensures b.lastRefill <= Refilled(p, b, now).lastRefill <= Max(b.lastRefill, now)
    ensures Refilled(p, b, now).tokens - b.tokens <= Gain(p, Refilled(p, b, now).lastRefill - b.lastRefill)
  {
    if now > b.lastRefill {
      GainAdds(p, now - b.lastRefill, 0);
    } else {
      GainAdds(p, 0, 0);
    }
  }

  /** Whatever the clock does, tokens stay within the capacity and the refill mark never moves back. */
  lemma {:induction false} StaysInRange(p: Policy, b: Bucket, nows: seq<int>, i: nat, j: nat)
    requires Ready(p, b) && i <= j <= |nows|
    ensures Ready(p, BucketBefore(p, b, nows, j))
    ensures BucketBefore(p, b, nows, i).lastRefill <= BucketBefore(p, b, nows, j).lastRefill
    decreases j
  {
    if j > 0 {
      StaysInRange(p, b, nows, Min(i, j - 1), j - 1);
      RefilledIsReady(p, BucketBefore(p, b, nows, j - 1), nows[j - 1]);
    }
  }

  /** Tokens spent and tokens left never exceed the tokens there were and those gained since. */
  lemma {:induction false} TokensAreConserved(p: Policy, b: Bucket, nows: seq<int>, i: nat, j: nat)
    requires Ready(p, b) && i <= j <= |nows|
    ensures var from, to := BucketBefore(p, b, nows, i), BucketBefore(p, b, nows, j);
            Admissions(p, b, nows, i, j) as real + to.tokens <=
            from.tokens + Gain(p, to.lastRefill - from.lastRefill)
    decreases j
  {
    hide Gain, Refilled;
    if i == j {
      GainAdds(p, 0, 0);
    } else {
      TokensAreConserved(p, b, nows, i, j - 1);
      StaysInRange(p, b, nows, i, j - 1);
      var from, last := BucketBefore(p, b, nows, i), BucketBefore(p, b, nows, j - 1);
      var refilled := Refilled(p, last, nows[j - 1]);
      RefilledIsReady(p, last, nows[j - 1]);
      GainAdds(p, last.lastRefill - from.lastRefill, refilled.lastRefill - last.lastRefill);
    }
  }

  /** The latest clock reading of the calls from `i` up to `j`. */
  function Latest(nows: seq<int>, i: nat, j: nat): (r: int)
    requires i < j <= |nows|
    ensures nows[i] <= r && nows[j - 1] <= r
    decreases j
  {
    if j == i + 1 then nows[i] else Max(Latest(nows, i, j - 1), nows[j - 1])
  }

  lemma {:induction false} MarkFollowsClock(p: Policy, b: Bucket, nows: seq<int>, i: nat, j: nat)
    requires i < j <= |nows|
    ensures BucketBefore(p, b, nows, j).lastRefill <=
            Max(BucketBefore(p, b, nows, i).lastRefill, Latest(nows, i, j))
    decreases j
  {
    if j > i + 1 {
      MarkFollowsClock(p, b, nows, i, j - 1);
    }
  }

  /**
   In every window of every run, whatever the clock does, admissions are at most the capacity plus what
   refills while the clock advances from the window's first reading to its latest.
   */
  lemma {:induction false} WindowBound(p: Policy, b: Bucket, nows: seq<int>, i: nat, j: nat)
    requires Ready(p, b) && i < j <= |nows|
    ensures Admissions(p, b, nows, i, j) as real <= Capacity(p) + Gain(p, Latest(nows, i, j) - nows[i])
  {
    hide Gain, Latest, Refilled;
    StaysInRange(p, b, nows, 0, i);
    StaysInRange(p, b, nows, i + 1, j);
    var before, after, end := BucketBefore(p, b, nows, i), BucketBefore(p, b, nows, i + 1), BucketBefore(p, b, nows, j);
    FirstCallSettles(p, b, nows, i);
    WindowSplits(p, b, nows, i, j);
    TokensAreConserved(p, b, nows, i + 1, j);
    MarkFollowsClock(p, b, nows, i, j);
    var advance := end.lastRefill - after.lastRefill;
    if PerNano(p) > 0.0 {
      assert advance <= Latest(nows, i, j) - nows[i];
    }
    GainGrows(p, advance, Latest(nows, i, j) - nows[i]);
  }

  /** The first call of a window leaves at most the capacity less its own admission, marked no earlier than its reading. */
  lemma {:induction false} FirstCallSettles(p: Policy, b: Bucket, nows: seq<int>, i: nat)
    requires i < |nows| && Ready(p, BucketBefore(p, b, nows, i))
    ensures var before, after := BucketBefore(p, b, nows, i), BucketBefore(p, b, nows, i + 1);
            && after.tokens + (if Admitted(p, b, nows, i) then 1.0 else 0.0) <= Capacity(p)
            && (PerNano(p) > 0.0 ==> after.lastRefill == Max(before.lastRefill, nows[i]))
  {
    RefilledIsReady(p, BucketBefore(p, b, nows, i), nows[i]);
  }

  lemma {:induction false} WindowSplits(p: Policy, b: Bucket, nows: seq<int>, i: nat, j: nat)
    requires i < j <= |nows|
    ensures Admissions(p, b, nows, i, j) ==
            (if Admitted(p, b, nows, i) then 1 else 0) + Admissions(p, b, nows, i + 1, j)
    decreases j
  {
    hide Admitted;
    if j > i + 1 {
      WindowSplits(p, b, nows, i, j - 1);
    }
  }

  lemma {:induction false} GainGrows(p: Policy, a: int, b: int)
    requires PerNano(p) > 0.0 ==> a <= b
    ensures Gain(p, a) <= Gain(p, b)
  {
    if PerNano(p) > 0.0 {
      GainAdds(p, a, b - a);
    }
  }

  // ---- The running maximum of the clock

  ghost predicate Nondecreasing(nows: seq<int>) {
    forall i, j :: 0 <= i <= j < |nows| ==> nows[i] <= nows[j]
  }

  /** At each call, the latest reading so far. */
  function RunningMax(nows: seq<int>): (r: seq<int>)
    ensures |r| == |nows|
  {
    seq(|nows|, j requires 0 <= j < |nows| => Latest(nows, 0, j + 1))
  }

  lemma {:induction false} LatestGrows(nows: seq<int>, i: nat, j: nat)
    requires i <= j < |nows|
    ensures Latest(nows, 0, i + 1) <= Latest(nows, 0, j + 1)
    decreases j
  {
    if i < j {
      LatestGrows(nows, i, j - 1);
    }
  }

  lemma {:induction false} RunningMaxAdvances(nows: seq<int>)
    ensures Nondecreasing(RunningMax(nows))
    ensures nows != [] ==> RunningMax(nows)[0] == nows[0]
  {
    forall i, j | 0 <= i <= j < |nows|
      ensures RunningMax(nows)[i] <= RunningMax(nows)[j]
    {
      LatestGrows(nows, i, j);
    }
  }

  /** The refill mark has seen every reading before call `j`. */
  lemma {:induction false} MarkHasSeen(p: Policy, b: Bucket, nows: seq<int>, j: nat)
    requires 0 < j <= |nows| && PerNano(p) > 0.0
    ensures BucketBefore(p, b, nows, j).lastRefill >= Latest(nows, 0, j)
  {
    if j > 1 {
      MarkHasSeen(p, b, nows, j - 1);
    }
  }

  /** A bucket that hears readings from before its mark ignores them: it only ever follows their running maximum. */
  lemma {:induction false} FollowsRunningMax(p: Policy, b: Bucket, nows: seq<int>, j: nat)
    requires j <= |nows|
    ensures BucketBefore(p, b, nows, j) == BucketBefore(p, b, RunningMax(nows), j)
    ensures j < |nows| ==> Refilled(p, BucketBefore(p, b, nows, j), nows[j]) ==
                           Refilled(p, BucketBefore(p, b, nows, j), RunningMax(nows)[j])
  {
    if j > 0 {
      FollowsRunningMax(p, b, nows, j - 1);
    }
    if 0 < j < |nows| && PerNano(p) > 0.0 {
      MarkHasSeen(p, b, nows, j);
    }
    hide Gain;
  }

  lemma {:induction false} AdmissionsFollowRunningMax(p: Policy, b: Bucket, nows: seq<int>, i: nat, j: nat)
    requires i <= j <= |nows|
    ensures Admissions(p, b, nows, i, j) == Admissions(p, b, RunningMax(nows), i, j)
    ensures j < |nows| ==> (Admitted(p, b, nows, j) <==> Admitted(p, b, RunningMax(nows), j))
    decreases j
  {
    FollowsRunningMax(p, b, nows, j);
    hide RunningMax, BucketBefore, Refilled;
    if i < j {
      AdmissionsFollowRunningMax(p, b, nows, i, j - 1);
    }
  }

  // ---- The exact condition of admission

  /** What a window from call `i` to call `j` still allows, with the calls in between counted. */
  function Slack(p: Policy, b: Bucket, nows: seq<int>, i: nat, j: nat): real
    requires i <= j < |nows|
  {
    Capacity(p) + Gain(p, nows[j] - nows[i]) - Admissions(p, b, nows, i, j) as real
  }

  /** The tokens a client has when call `j` is decided. */
  function Level(p: Policy, nows: seq<int>, j: nat): real
    requires j < |nows|
  {
    Refilled(p, BucketBefore(p, Full(p, nows[0]), nows, j), nows[j]).tokens
  }

  lemma {:induction false} MarkIsPast(p: Policy, b: Bucket, nows: seq<int>, j: nat)
    requires Nondecreasing(nows) && j < |nows| && b.lastRefill <= nows[0]
    ensures BucketBefore(p, b, nows, j).lastRefill <= nows[j]
  {
    if j > 0 {
      MarkIsPast(p, b, nows, j - 1);
    }
  }

  /** Looking at a bucket in between makes no difference to what it holds later. */
  lemma {:induction false} RefillComposes(p: Policy, b: Bucket, mid: int, now: int)
    requires Ready(p, b) && b.lastRefill <= mid <= now
    ensures Refilled(p, Refilled(p, b, mid), now).tokens == Refilled(p, b, now).tokens
    ensures Refilled(p, b, now).tokens == MinReal(Capacity(p), Refilled(p, b, mid).tokens + Gain(p, now - mid))
    ensures PerNano(p) > 0.0 ==> Refilled(p, b, now).lastRefill == now
  {
    GainAdds(p, mid - b.lastRefill, now - mid);
    GainAdds(p, now - mid, 0);
    GainAdds(p, 0, 0);
    hide PerNano;
  }

  lemma {:induction false} LevelStep(p: Policy, nows: seq<int>, j: nat)
    requires p.capacity >= 0 && Nondecreasing(nows) && j + 1 < |nows|
    ensures var b := Full(p, nows[0]);
            Level(p, nows, j + 1) ==
            MinReal(Capacity(p),
                    Level(p, nows, j) - (if Admitted(p, b, nows, j) then 1.0 else 0.0) + Gain(p, nows[j + 1] - nows[j]))
  {
    var b := Full(p, nows[0]);
    MarkIsPast(p, b, nows, j);
    StaysInRange(p, b, nows, 0, j);
    StaysInRange(p, b, nows, 0, j + 1);
    RefilledIsReady(p, BucketBefore(p, b, nows, j), nows[j]);
    MarkIsPast(p, b, nows, j + 1);
    var next := BucketBefore(p, b, nows, j + 1);
    hide Gain, PerNano;
    AlreadyLooked(p, BucketBefore(p, b, nows, j), nows[j]);
    RefillComposes(p, next, nows[j], nows[j + 1]);
  }

  /** A bucket just looked at gains nothing from being looked at again. */
  lemma {:induction false} AlreadyLooked(p: Policy, b: Bucket, now: int)
    ensures Refilled(p, Consumed(p, b, now).bucket, now) == Consumed(p, b, now).bucket
    ensures b.lastRefill <= now ==> Consumed(p, b, now).bucket.lastRefill <= now
  {
  }

  lemma {:induction false} LeastSlackOfAdvancing(p: Policy, nows: seq<int>, j: nat)
    requires p.capacity >= 0 && Nondecreasing(nows) && j < |nows|
    ensures var b := Full(p, nows[0]);
            && (forall i :: 0 <= i <= j ==> Level(p, nows, j) <= Slack(p, b, nows, i, j))
            && (exists i :: 0 <= i <= j && Level(p, nows, j) == Slack(p, b, nows, i, j))
  {
    hide Gain, Level, Admitted;
    var b := Full(p, nows[0]);
    SlackOfItself(p, b, nows, j);
    if j == 0 {
      LevelAtFirst(p, nows);
    } else {
      LeastSlackOfAdvancing(p, nows, j - 1);
      LevelStep(p, nows, j - 1);
      forall i | 0 <= i < j
        ensures Slack(p, b, nows, i, j) == Slack(p, b, nows, i, j - 1)
                - (if Admitted(p, b, nows, j - 1) then 1.0 else 0.0) + Gain(p, nows[j] - nows[j - 1])
      {
        GainAdds(p, nows[j - 1] - nows[i], nows[j] - nows[j - 1]);
      }
      hide Slack;
      var i :| 0 <= i <= j - 1 && Level(p, nows, j - 1) == Slack(p, b, nows, i, j - 1);
      assert Level(p, nows, j) == Slack(p, b, nows, j, j) || Level(p, nows, j) == Slack(p, b, nows, i, j);
    }
  }

  lemma {:induction false} SlackOfItself(p: Policy, b: Bucket, nows: seq<int>, j: nat)
    requires j < |nows|
    ensures Slack(p, b, nows, j, j) == Capacity(p)
  {
    GainAdds(p, 0, 0);
  }

  lemma {:induction false} LevelAtFirst(p: Policy, nows: seq<int>)
    requires |nows| > 0
    ensures Level(p, nows, 0) == Capacity(p)
  {
  }

  /** What a window from call `i` to call `j` still allows, on the running maximum of the readings. */
  function Allowance(p: Policy, nows: seq<int>, i: nat, j: nat): real
    requires i <= j < |nows|
  {
    Capacity(p) + Gain(p, Latest(nows, 0, j + 1) - Latest(nows, 0, i + 1))
    - Admissions(p, Full(p, nows[0]), nows, i, j) as real
  }

  /** One more admission keeps the window from call `i` to call `j` within the capacity and its refill. */
  predicate AdmitsOne(p: Policy, nows: seq<int>, i: nat, j: nat)
    requires i <= j < |nows|
  {
    Admissions(p, Full(p, nows[0]), nows, i, j) as real + 1.0 <=
    Capacity(p) + Gain(p, Latest(nows, 0, j + 1) - Latest(nows, 0, i + 1))
  }

  lemma {:induction false} AllowanceIsSlack(p: Policy, nows: seq<int>, i: nat, j: nat)
    requires i <= j < |nows|
    ensures Allowance(p, nows, i, j) == Slack(p, Full(p, nows[0]), RunningMax(nows), i, j)
  {
    AdmissionsFollowRunningMax(p, Full(p, nows[0]), nows, i, j);
    hide Gain, Latest, Admissions;
  }

  lemma {:induction false} LevelFollowsRunningMax(p: Policy, nows: seq<int>, j: nat)
    requires j < |nows|
    ensures Level(p, nows, j) == Level(p, RunningMax(nows), j)
  {
    RunningMaxAdvances(nows);
    FollowsRunningMax(p, Full(p, nows[0]), nows, j);
    hide RunningMax, Refilled, BucketBefore;
  }

  /** On any clock, the bucket holds exactly the least allowance of the windows that end with the call. */
  lemma {:induction false} LevelIsLeastSlack(p: Policy, nows: seq<int>, j: nat)
    requires p.capacity >= 0 && j < |nows|
    ensures forall i :: 0 <= i <= j ==> Level(p, nows, j) <= Allowance(p, nows, i, j)
    ensures exists i :: 0 <= i <= j && Level(p, nows, j) == Allowance(p, nows, i, j)
  {
    RunningMaxAdvances(nows);
    LevelFollowsRunningMax(p, nows, j);
    LeastSlackOfAdvancing(p, RunningMax(nows), j);
    hide RunningMax, Level, Slack, Allowance;
    forall i | 0 <= i <= j
      ensures Allowance(p, nows, i, j) == Slack(p, Full(p, nows[0]), RunningMax(nows), i, j)
    {
      AllowanceIsSlack(p, nows, i, j);
    }
  }

  /**
   On any clock, a new client's call is admitted exactly when admitting it breaks the bound of no window that
   ends with it, the clock being taken at the latest reading so far.
   */
  lemma {:induction false} AdmittedIff(p: Policy, nows: seq<int>, j: nat)
    requires p.capacity >= 0 && j < |nows|
    ensures Admitted(p, Full(p, nows[0]), nows, j) <==>
            forall i :: 0 <= i <= j ==> AdmitsOne(p, nows, i, j)
  {
    LevelDecides(p, nows, j);
    LevelIsLeastSlack(p, nows, j);
    hide Gain, Refilled, BucketBefore, Admissions, Level, Admitted, Latest, Allowance, Capacity;
    forall i | 0 <= i <= j
      ensures AdmitsOne(p, nows, i, j) <==> Allowance(p, nows, i, j) >= 1.0
    {
      AllowanceAdmits(p, nows, i, j);
    }
    var i :| 0 <= i <= j && Level(p, nows, j) == Allowance(p, nows, i, j);
    assert Level(p, nows, j) >= 1.0 <==> AdmitsOne(p, nows, i, j);
  }

  lemma {:induction false} AllowanceAdmits(p: Policy, nows: seq<int>, i: nat, j: nat)
    requires i <= j < |nows|
    ensures AdmitsOne(p, nows, i, j) <==> Allowance(p, nows, i, j) >= 1.0
  {
    hide Gain, Latest, Admissions;
  }

  lemma {:induction false} LevelDecides(p: Policy, nows: seq<int>, j: nat)
    requires j < |nows|
    ensures Admitted(p, Full(p, nows[0]), nows, j) <==> Level(p, nows, j) >= 1.0
  {
  }

  // ---- Refilling at any instants

  /** A call, or an instant at which a continuously refilled bucket is looked at. */
  datatype Event = Call(at: int) | Tick(at: int)

  function StateBefore(p: Policy, b: Bucket, events: seq<Event>, j: nat): Bucket
    requires j <= |events|
  {
    if j == 0 then b
    else
      var last := StateBefore(p, b, events, j - 1);
      match events[j - 1]
      case Call(at) => Consumed(p, last, at).bucket
      case Tick(at) => Refilled(p, last, at)
  }

  /** The times of the calls among the first `j` events. */
  function CallTimes(events: seq<Event>, j: nat): seq<int>
    requires j <= |events|
  {
    if j == 0 then []
    else CallTimes(events, j - 1) + (if events[j - 1].Call? then [events[j - 1].at] else [])
  }

  function EventTimes(events: seq<Event>): seq<int> {
    seq(|events|, i requires 0 <= i < |events| => events[i].at)
  }

  /** Two buckets no one can tell apart from `now` on. */
  ghost predicate Alike(p: Policy, x: Bucket, y: Bucket, now: int) {
    && Ready(p, x) && Ready(p, y) && x.lastRefill <= now && y.lastRefill <= now
    && Refilled(p, x, now).tokens == Refilled(p, y, now).tokens
  }

  lemma {:induction false} AlikeLater(p: Policy, x: Bucket, y: Bucket, mid: int, now: int)
    requires Alike(p, x, y, mid) && mid <= now
    ensures Alike(p, x, y, now)
  {
    hide Refilled;
    RefillComposes(p, x, mid, now);
    RefillComposes(p, y, mid, now);
  }

  /** Buckets that are alike decide alike and stay alike. */
  lemma {:induction false} StepAlike(p: Policy, x: Bucket, y: Bucket, now: int)
    requires Alike(p, x, y, now)
    ensures Consumed(p, x, now).allowed == Consumed(p, y, now).allowed
    ensures Alike(p, Consumed(p, x, now).bucket, Consumed(p, y, now).bucket, now)
    ensures Alike(p, Refilled(p, x, now), y, now)
    ensures !Consumed(p, x, now).allowed ==> Alike(p, Consumed(p, x, now).bucket, y, now)
  {
    RefilledIsReady(p, x, now);
    RefilledIsReady(p, y, now);
    AlreadyLooked(p, x, now);
    AlreadyLooked(p, y, now);
    hide Gain, PerNano;
  }

  /** The run of the calls alone, and the whole run, hold buckets no one can tell apart. */
  lemma {:induction false} TicksAreInvisible(p: Policy, b: Bucket, events: seq<Event>, j: nat, now: int)
    requires Ready(p, b) && j <= |events| && Nondecreasing(EventTimes(events))
    requires |events| > 0 ==> b.lastRefill <= events[0].at
    requires b.lastRefill <= now && (forall i :: 0 <= i < j ==> events[i].at <= now)
    ensures Alike(p, StateBefore(p, b, events, j),
                  BucketBefore(p, b, CallTimes(events, j), |CallTimes(events, j)|), now)
  {
    hide Alike, Ready, Refilled, Consumed;
    if j == 0 {
      AlikeItself(p, b, now);
    } else {
      var at := events[j - 1].at;
      assert forall i :: 0 <= i < j ==> EventTimes(events)[i] == events[i].at;
      TicksAreInvisible(p, b, events, j - 1, at);
      var times := CallTimes(events, j - 1);
      var x, y := StateBefore(p, b, events, j - 1), BucketBefore(p, b, times, |times|);
      StepAlike(p, x, y, at);
      if events[j - 1].Call? {
        SamePrefix(p, b, times, CallTimes(events, j), |times|);
        AlikeLater(p, Consumed(p, x, at).bucket, Consumed(p, y, at).bucket, at, now);
      } else {
        assert CallTimes(events, j) == times;
        AlikeLater(p, Refilled(p, x, at), y, at, now);
      }
    }
  }

  lemma {:induction false} AlikeItself(p: Policy, b: Bucket, now: int)
    requires Ready(p, b) && b.lastRefill <= now
    ensures Alike(p, b, b, now)
  {
  }

  lemma {:induction false} SamePrefix(p: Policy, b: Bucket, s: seq<int>, t: seq<int>, j: nat)
    requires j <= |s| && j <= |t| && s[..j] == t[..j]
    ensures BucketBefore(p, b, s, j) == BucketBefore(p, b, t, j)
  {
    if j > 0 {
      assert s[..j - 1] == s[..j][..j - 1] == t[..j - 1];
      assert s[j - 1] == s[..j][j - 1] == t[j - 1];
      SamePrefix(p, b, s, t, j - 1);
    }
  }

  /** Refilling lazily at each call decides as a bucket refilled at any other instants as well. */
  lemma {:induction false} LazyRefillIsFluid(p: Policy, b: Bucket, events: seq<Event>, j: nat)
    requires Ready(p, b) && j < |events| && Nondecreasing(EventTimes(events)) && b.lastRefill <= events[0].at
    requires events[j].Call?
    ensures var times := CallTimes(events, j + 1);
            && |times| > 0 && times[|times| - 1] == events[j].at
            && Consumed(p, StateBefore(p, b, events, j), events[j].at).allowed ==
               Admitted(p, b, times, |times| - 1)
  {
    hide Consumed, Alike;
    var at, times := events[j].at, CallTimes(events, j);
    assert forall i :: 0 <= i < |events| ==> EventTimes(events)[i] == events[i].at;
    TicksAreInvisible(p, b, events, j, at);
    StepAlike(p, StateBefore(p, b, events, j), BucketBefore(p, b, times, |times|), at);
    SamePrefix(p, b, times, CallTimes(events, j + 1), |times|);
  }

  // ---- Rejected calls

  /** The times of the admitted calls among the first `j`. */
  function AdmittedTimes(p: Policy, b: Bucket, nows: seq<int>, j: nat): seq<int>
    requires j <= |nows|
  {
    if j == 0 then []
    else AdmittedTimes(p, b, nows, j - 1) + (if Admitted(p, b, nows, j - 1) then [nows[j - 1]] else [])
  }

  /**
   Bucket `x` of all calls and bucket `y` of the admitted ones only: `y` is as `x` once it has caught up, and unless
   they are equal `x` is empty.
   */
  ghost predicate Trails(p: Policy, x: Bucket, y: Bucket) {
    && Ready(p, x) && Ready(p, y) && y.lastRefill <= x.lastRefill
    && Refilled(p, y, x.lastRefill).tokens == x.tokens
    && (x == y || x.tokens < 1.0)
  }

  lemma {:induction false} RefilledAlike(p: Policy, x: Bucket, y: Bucket, at: int)
    requires Trails(p, x, y)
    ensures Refilled(p, x, at) == Refilled(p, y, at)
            || (Refilled(p, x, at) == x && x.tokens < 1.0 && Refilled(p, y, at).tokens < 1.0)
    ensures Refilled(p, y, Refilled(p, x, at).lastRefill).tokens == Refilled(p, x, at).tokens
  {
    if PerNano(p) > 0.0 {
      if at > x.lastRefill {
        RefillComposes(p, y, x.lastRefill, at);
        hide Gain;
      } else if at > y.lastRefill {
        RefillComposes(p, y, at, x.lastRefill);
        GainAdds(p, x.lastRefill - at, 0);
      }
    }
  }

  /** Both decide a call alike. Its rejection leaves the one behind, its admission brings them together. */
  lemma {:induction false} TrailsOn(p: Policy, x: Bucket, y: Bucket, at: int)
    requires Trails(p, x, y)
    ensures Consumed(p, x, at).allowed == Consumed(p, y, at).allowed
    ensures Trails(p, Consumed(p, x, at).bucket, if Consumed(p, x, at).allowed then Consumed(p, y, at).bucket else y)
  {
    RefilledAlike(p, x, y, at);
    RefilledIsReady(p, x, at);
    RefilledIsReady(p, y, at);
    hide Gain, PerNano;
  }

  lemma {:induction false} AdmittedTrail(p: Policy, b: Bucket, nows: seq<int>, j: nat)
    requires Ready(p, b) && j <= |nows|
    ensures var times := AdmittedTimes(p, b, nows, j);
            Trails(p, BucketBefore(p, b, nows, j), BucketBefore(p, b, times, |times|))
  {
    hide Ready, Consumed, Refilled;
    if j == 0 {
      BucketTrailsItself(p, b);
    } else {
      AdmittedTrail(p, b, nows, j - 1);
      var times := AdmittedTimes(p, b, nows, j - 1);
      var x, y := BucketBefore(p, b, nows, j - 1), BucketBefore(p, b, times, |times|);
      hide Trails;
      TrailsOn(p, x, y, nows[j - 1]);
      if Admitted(p, b, nows, j - 1) {
        SamePrefix(p, b, times, AdmittedTimes(p, b, nows, j), |times|);
      } else {
        assert AdmittedTimes(p, b, nows, j) == times;
      }
    }
  }

  lemma {:induction false} BucketTrailsItself(p: Policy, b: Bucket)
    requires Ready(p, b)
    ensures Trails(p, b, b)
  {
  }

  /** On any clock, a call is decided as if the calls rejected before it had never been made. */
  lemma {:induction false} RejectionsChangeNothing(p: Policy, b: Bucket, nows: seq<int>, j: nat)
    requires Ready(p, b) && j < |nows|
    ensures var times := AdmittedTimes(p, b, nows, j) + [nows[j]];
            Admitted(p, b, nows, j) == Admitted(p, b, times, |times| - 1)
  {
    hide Consumed, Trails;
    var times := AdmittedTimes(p, b, nows, j);
    AdmittedTrail(p, b, nows, j);
    TrailsOn(p, BucketBefore(p, b, nows, j), BucketBefore(p, b, times, |times|), nows[j]);
    SamePrefix(p, b, times, times + [nows[j]], |times|);
  }

  // ---- Many clients

  datatype Request = Request(key: string, now: int)

  /** The limiter's buckets before request `j`. */
  function BucketsBefore(p: Policy, requests: seq<Request>, j: nat): map<string, Bucket>
    requires j <= |requests|
  {
    if j == 0 then map[]
    else
      var last, r := BucketsBefore(p, requests, j - 1), requests[j - 1];
      last[r.key := Consumed(p, BucketFor(p, last, r.key, r.now), r.now).bucket]
  }

  /** A client's clock readings among the first `j` requests. */
  function TimesOf(requests: seq<Request>, key: string, j: nat): (r: seq<int>)
    requires j <= |requests|
    ensures |r| <= j
  {
    if j == 0 then []
    else TimesOf(requests, key, j - 1) + (if requests[j - 1].key == key then [requests[j - 1].now] else [])
  }

  lemma {:induction false} BucketIsOwn(p: Policy, requests: seq<Request>, key: string, j: nat)
    requires j <= |requests|
    ensures var times, buckets := TimesOf(requests, key, j), BucketsBefore(p, requests, j);
            && (key in buckets <==> times != [])
            && (times != [] ==> buckets[key] == BucketBefore(p, Full(p, times[0]), times, |times|))
  {
    hide Consumed;
    if j > 0 {
      BucketIsOwn(p, requests, key, j - 1);
      var r, times := requests[j - 1], TimesOf(requests, key, j - 1);
      if r.key == key {
        var longer := times + [r.now];
        SamePrefix(p, Full(p, longer[0]), times, longer, |times|);
        assert TimesOf(requests, key, j) == longer;
        assert BucketBefore(p, Full(p, longer[0]), longer, |longer|) ==
               Consumed(p, BucketBefore(p, Full(p, longer[0]), longer, |times|), r.now).bucket;
      } else {
        assert TimesOf(requests, key, j) == times;
      }
    }
  }

  /** Every request is decided as it would be if its client were the only one. */
  lemma {:induction false} ClientsAreIndependent(p: Policy, requests: seq<Request>, j: nat)
    requires j < |requests|
    ensures var r := requests[j];
            var times := TimesOf(requests, r.key, j + 1);
            && |times| > 0 && times[|times| - 1] == r.now
            && Consumed(p, BucketFor(p, BucketsBefore(p, requests, j), r.key, r.now), r.now).allowed ==
               Admitted(p, Full(p, times[0]), times, |times| - 1)
  {
    hide Consumed;
    var r := requests[j];
    var before, times := TimesOf(requests, r.key, j), TimesOf(requests, r.key, j + 1);
    BucketIsOwn(p, requests, r.key, j);
    SamePrefix(p, Full(p, times[0]), before, times, |before|);
  }
}
