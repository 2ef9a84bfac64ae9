/**
 * The in-memory sliding-window limiter (ratelimit.go). Times and durations are nanoseconds; the
 * clock is a parameter of each call and does not run backwards.
 */
module RateLimiter {

  datatype Call = Call(key: string, now: nat)

  const SECOND := 1_000_000_000

  // ---------------------------------------------------------------- the full history

  /** The times later than `cutoff`. */
  function Within(times: seq<int>, cutoff: int): seq<int>
    decreases |times|
  {
    if times == [] then []
    else Within(times[..|times| - 1], cutoff) + if times[|times| - 1] > cutoff then [times[|times| - 1]] else []
  }

  predicate Admits(times: seq<int>, now: int, limit: int, window: int) {
    limit > 0 && |Within(times, now - window)| < limit
  }

  /** The history after one more call. */
  function Next(times: seq<int>, now: int, limit: int, window: int): seq<int> {
    if Admits(times, now, limit, window) then times + [now] else times
  }

  /** Every admission of `key` over the whole history, nothing ever forgotten. */
  function Admitted(calls: seq<Call>, key: string, limit: int, window: int): seq<int>
    decreases |calls|
  {
    if calls == [] then []
    else
      var before, c := Admitted(calls[..|calls| - 1], key, limit, window), calls[|calls| - 1];
      if c.key == key then Next(before, c.now, limit, window) else before
  }

  /** The clock never ran backwards. */
  predicate Monotone(calls: seq<Call>)
    decreases |calls|
  {
    calls == [] || (Monotone(calls[..|calls| - 1]) && Latest(calls[..|calls| - 1]) <= calls[|calls| - 1].now)
  }

  // ---------------------------------------------------------------- the program

  function Lookup(m: map<string, seq<int>>, key: string): seq<int> { if key in m then m[key] else [] }

  /** `log` is what is left of `times` after forgetting some that are out of every later window. */
  predicate Agrees(log: seq<int>, times: seq<int>, horizon: int) {
    && |log| <= |times|
    && (forall i | 0 <= i < |log| :: log[i] == times[|times| - |log| + i])
    && forall i | 0 <= i < |times| - |log| :: times[i] <= horizon
  }

  predicate KeyOk(m: map<string, seq<int>>, calls: seq<Call>, key: string, limit: int, window: int) {
    Agrees(Lookup(m, key), Admitted(calls, key, limit, window), Latest(calls) - window)
  }

  ghost predicate AllOk(m: map<string, seq<int>>, calls: seq<Call>, limit: int, window: int) {
    forall key :: KeyOk(m, calls, key, limit, window)
  }

  function Latest(calls: seq<Call>): nat { if calls == [] then 0 else calls[|calls| - 1].now }

  class Limiter {
    var attempts: map<string, seq<int>>
    const limit: int
    const window: int
    ghost var calls: seq<Call>

    ghost predicate Valid()
      reads this
    {
      && Monotone(calls) && AllOk(attempts, calls, limit, window)
    }

    constructor (limit: int, window: int)
      ensures Valid() && calls == [] && this.limit == limit && this.window == window
    {
      this.limit, this.window := limit, window;
      attempts, calls := map[], [];
    }

    /** `Allow` decides as if it had kept every admission ever made. */
    method Allow(key: string, now: nat) returns (ok: bool, retryAfter: int)
      requires Valid() && Latest(calls) <= now
      modifies this
      ensures Valid() && calls == old(calls) + [Call(key, now)]
      ensures ok == Admits(Admitted(old(calls), key, limit, window), now, limit, window)
      ensures retryAfter == RetryAfter(Admitted(old(calls), key, limit, window), now, limit, window)
    {
      ghost var times, m, earlier := Admitted(calls, key, limit, window), attempts, calls;
      PrunedAgrees(attempts, calls, key, now, limit, window);
      calls := calls + [Call(key, now)];
      if limit <= 0 {
        CallKeeps(m, m, earlier, Call(key, now), times, limit, window);
        return false, window;
      }
      var kept;
      ok, retryAfter, kept := Decide(Lookup(attempts, key), now, limit, window);
      attempts := attempts[key := kept];
      CallKeeps(m, attempts, earlier, Call(key, now), Next(times, now, limit, window), limit, window);
    }
  }

  /** The body of `Allow` on one key's attempts: the answer, and the attempts it keeps. */
  method Decide(log: seq<int>, now: nat, limit: int, window: int) returns (ok: bool, retryAfter: int, kept: seq<int>)
    requires limit > 0
    ensures ok == Admits(log, now, limit, window) && retryAfter == RetryAfter(log, now, limit, window)
    ensures kept == Stored(log, now, limit, window)
  {
    kept := Prune(log, now - window);
    if |kept| >= limit {
      retryAfter := kept[0] + window - now;
      if retryAfter < SECOND {
        retryAfter := SECOND;
      }
      return false, retryAfter, kept;
    }
    return true, 0, kept + [now];
  }

  /** What the limiter stores for a key after a call. */
  function Stored(log: seq<int>, now: int, limit: int, window: int): seq<int> {
    Within(log, now - window) + if Admits(log, now, limit, window) then [now] else []
  }

  /** The loop in `Allow` that keeps the attempts still in the window. */
  method Prune(log: seq<int>, cutoff: int) returns (kept: seq<int>)
    ensures kept == Within(log, cutoff)
  {
    kept := [];
    for i := 0 to |log|
      invariant kept == Within(log[..i], cutoff)
    {
      WithinStep(log, i, cutoff);
      if log[i] > cutoff {
        kept := kept + [log[i]];
      }
    }
    assert log[..|log|] == log;
  }

  /** What a refused caller is told to wait: until the oldest admission in the window leaves it. */
  function RetryAfter(times: seq<int>, now: int, limit: int, window: int): int {
    if limit <= 0 then window
    else if Admits(times, now, limit, window) then 0
    else var d := Within(times, now - window)[0] + window - now; if d < SECOND then SECOND else d
  }

  // ---------------------------------------------------------------- pruning

  lemma WithinStep(times: seq<int>, i: nat, cutoff: int)
    requires i < |times|
    ensures Within(times[..i + 1], cutoff) == Within(times[..i], cutoff) + if times[i] > cutoff then [times[i]] else []
  {
    assert times[..i + 1][..i] == times[..i];
  }

  /** Forgetting times at or before the cutoff does not change what is within the window. */
  lemma {:induction false} WithinSuffix(times: seq<int>, n: nat, cutoff: int)
    requires n <= |times| && forall i | 0 <= i < n :: times[i] <= cutoff
    ensures Within(times[n..], cutoff) == Within(times, cutoff)
    decreases |times|
  {
    if n == |times| {
      NoneWithin(times, cutoff);
    } else {
      var front := times[..|times| - 1];
      WithinSuffix(front, n, cutoff);
      assert times[n..][..|times| - n - 1] == front[n..];
    }
  }

  lemma {:induction false} NoneWithin(times: seq<int>, cutoff: int)
    requires forall i | 0 <= i < |times| :: times[i] <= cutoff
    ensures Within(times, cutoff) == []
    decreases |times|
  {
    if times != [] { NoneWithin(times[..|times| - 1], cutoff); }
  }

  predicate Sorted(times: seq<int>) { forall i, j | 0 <= i < j < |times| :: times[i] <= times[j] }

  /** In a sorted history the window's part is its tail. */
  lemma {:induction false} WithinIsTail(times: seq<int>, cutoff: int)
    requires Sorted(times)
    ensures Agrees(Within(times, cutoff), times, cutoff)
    decreases |times|
  {
    if times != [] {
      var front, last := times[..|times| - 1], times[|times| - 1];
      if last > cutoff {
        WithinIsTail(front, cutoff);
        AgreesPush(Within(front, cutoff), front, last, cutoff);
        assert times == front + [last];
      } else {
        NoneWithin(times, cutoff);
      }
    }
  }

  lemma AgreesPush(log: seq<int>, times: seq<int>, t: int, horizon: int)
    requires Agrees(log, times, horizon)
    ensures Agrees(log + [t], times + [t], horizon)
  {
  }

  lemma SortedPush(times: seq<int>, now: int)
    requires Sorted(times) && (times != [] ==> times[|times| - 1] <= now)
    ensures Sorted(times + [now])
  {
  }

  lemma {:induction false} AdmittedSorted(calls: seq<Call>, key: string, limit: int, window: int)
    requires Monotone(calls)
    ensures Sorted(Admitted(calls, key, limit, window))
    ensures var times := Admitted(calls, key, limit, window); times != [] ==> times[|times| - 1] <= Latest(calls)
    decreases |calls|
  {
    if calls != [] {
      var front := calls[..|calls| - 1];
      AdmittedSorted(front, key, limit, window);
      SortedPush(Admitted(front, key, limit, window), calls[|calls| - 1].now);
    }
  }

  /** On the pruned log `Allow` decides as on the full history, and stores a tail of what comes next. */
  lemma PrunedAgrees(m: map<string, seq<int>>, calls: seq<Call>, key: string, now: nat, limit: int, window: int)
    requires AllOk(m, calls, limit, window) && Monotone(calls) && Latest(calls) <= now
    ensures var times, log := Admitted(calls, key, limit, window), Lookup(m, key);
            && Admits(log, now, limit, window) == Admits(times, now, limit, window)
            && RetryAfter(log, now, limit, window) == RetryAfter(times, now, limit, window)
            && Agrees(Stored(log, now, limit, window), Next(times, now, limit, window), now - window)
            && Agrees(log, times, now - window)
  {
    var times, log := Admitted(calls, key, limit, window), Lookup(m, key);
    assert KeyOk(m, calls, key, limit, window);
    AdmittedSorted(calls, key, limit, window);
    StoredAgrees(log, times, now, limit, window);
  }

  lemma StoredAgrees(log: seq<int>, times: seq<int>, now: int, limit: int, window: int)
    requires Agrees(log, times, now - window) && Sorted(times)
    ensures Admits(log, now, limit, window) == Admits(times, now, limit, window)
    ensures RetryAfter(log, now, limit, window) == RetryAfter(times, now, limit, window)
    ensures Agrees(Stored(log, now, limit, window), Next(times, now, limit, window), now - window)
  {
    SameWithin(log, times, now - window);
    KeptAgrees(times, now, now - window);
  }

  lemma SameWithin(log: seq<int>, times: seq<int>, cutoff: int)
    requires Agrees(log, times, cutoff)
    ensures Within(log, cutoff) == Within(times, cutoff)
  {
    assert log == times[|times| - |log|..];
    WithinSuffix(times, |times| - |log|, cutoff);
  }

  /** And it is again a tail of the full history. */
  lemma KeptAgrees(times: seq<int>, now: int, cutoff: int)
    requires Sorted(times)
    ensures Agrees(Within(times, cutoff), times, cutoff)
    ensures Agrees(Within(times, cutoff) + [now], times + [now], cutoff)
  {
    WithinIsTail(times, cutoff);
    AgreesPush(Within(times, cutoff), times, now, cutoff);
  }

  lemma MonotonePush(calls: seq<Call>, c: Call)
    requires Monotone(calls) && Latest(calls) <= c.now
    ensures Monotone(calls + [c])
  {
    assert (calls + [c])[..|calls|] == calls;
  }

  lemma AdmittedPush(calls: seq<Call>, c: Call, key: string, limit: int, window: int)
    ensures var times := Admitted(calls, key, limit, window);
            Admitted(calls + [c], key, limit, window) == if c.key == key then Next(times, c.now, limit, window)
              else times
  {
    assert (calls + [c])[..|calls|] == calls;
  }

  lemma OtherKeyKeeps(m: map<string, seq<int>>, m': map<string, seq<int>>, calls: seq<Call>, c: Call, key: string,
                      limit: int, window: int)
    requires key != c.key && KeyOk(m, calls, key, limit, window) && Latest(calls) <= c.now
             && Lookup(m', key) == Lookup(m, key)
    ensures KeyOk(m', calls + [c], key, limit, window)
  {
    AdmittedPush(calls, c, key, limit, window);
  }

  lemma OwnKeyKeeps(m: map<string, seq<int>>, calls: seq<Call>, c: Call, times: seq<int>, limit: int, window: int)
    requires times == Next(Admitted(calls, c.key, limit, window), c.now, limit, window)
    requires Agrees(Lookup(m, c.key), times, c.now - window)
    ensures KeyOk(m, calls + [c], c.key, limit, window)
  {
    AdmittedPush(calls, c, c.key, limit, window);
    assert Admitted(calls + [c], c.key, limit, window) == times && Latest(calls + [c]) == c.now;
  }

  /** One call changes one key's log; every log still agrees with its full history. */
  lemma CallKeeps(m: map<string, seq<int>>, m': map<string, seq<int>>, calls: seq<Call>, c: Call, times: seq<int>,
                  limit: int, window: int)
    requires Monotone(calls) && Latest(calls) <= c.now && AllOk(m, calls, limit, window)
    requires m' == m || m' == m[c.key := Lookup(m', c.key)]
    requires times == Next(Admitted(calls, c.key, limit, window), c.now, limit, window)
    requires Agrees(Lookup(m', c.key), times, c.now - window)
    ensures Monotone(calls + [c]) && AllOk(m', calls + [c], limit, window)
  {
    MonotonePush(calls, c);
    OwnKeyKeeps(m', calls, c, times, limit, window);
    forall k ensures KeyOk(m', calls + [c], k, limit, window) {
      if k != c.key {
        assert KeyOk(m, calls, k, limit, window);
        OtherKeyKeeps(m, m', calls, c, k, limit, window);
      }
    }
  }

  // ---------------------------------------------------------------- what it gives

  /** Any `limit` + 1 consecutive admissions span at least a window. */
  predicate Spaced(times: seq<int>, limit: int, window: int)
    requires limit > 0
    decreases |times|
  {
    |times| <= limit || (Spaced(times[..|times| - 1], limit, window)
                         && times[|times| - 1 - limit] + window <= times[|times| - 1])
  }

  /** With `limit` or more admissions, another is allowed exactly once the limit-th last has left the window. */
  lemma AdmitsIff(times: seq<int>, now: int, limit: int, window: int)
    requires Sorted(times) && limit > 0
    ensures Admits(times, now, limit, window) <==> |times| < limit || times[|times| - limit] + window <= now
  {
    WithinCount(times, now - window, limit);
  }

  /** Fewer than `limit` times are later than `cutoff` exactly when the limit-th last is not. */
  lemma WithinCount(times: seq<int>, cutoff: int, limit: int)
    requires limit > 0 && Sorted(times)
    ensures |Within(times, cutoff)| < limit <==> |times| < limit || times[|times| - limit] <= cutoff
  {
    var kept := Within(times, cutoff);
    assert Agrees(kept, times, cutoff) by { WithinIsTail(times, cutoff); }
    if |kept| >= limit {
      WithinAbove(times, cutoff);
      assert kept[|kept| - limit] == times[|times| - limit];
    }
  }

  lemma {:induction false} WithinAbove(times: seq<int>, cutoff: int)
    ensures forall i | 0 <= i < |Within(times, cutoff)| :: Within(times, cutoff)[i] > cutoff
    decreases |times|
  {
    if times != [] { WithinAbove(times[..|times| - 1], cutoff); }
  }

  lemma {:induction false} AdmittedSpaced(calls: seq<Call>, key: string, limit: int, window: int)
    requires Monotone(calls) && limit > 0
    ensures Spaced(Admitted(calls, key, limit, window), limit, window)
    decreases |calls|
  {
    if calls != [] {
      var front, c := calls[..|calls| - 1], calls[|calls| - 1];
      AdmittedSpaced(front, key, limit, window);
      AdmittedSorted(front, key, limit, window);
      SpacedPush(Admitted(front, key, limit, window), c.now, limit, window);
    }
  }

  lemma SpacedPush(times: seq<int>, now: int, limit: int, window: int)
    requires limit > 0 && Sorted(times) && Spaced(times, limit, window)
    ensures Admits(times, now, limit, window) ==> Spaced(times + [now], limit, window)
  {
    AdmitsIff(times, now, limit, window);
    assert (times + [now])[..|times|] == times;
  }

  /** How many of the times fall in [from, to). */
  function CountIn(times: seq<int>, from: int, to: int): nat
    decreases |times|
  {
    if times == [] then 0
    else CountIn(times[..|times| - 1], from, to) + if from <= times[|times| - 1] < to then 1 else 0
  }

  /** The first time in the interval; no more can follow it than there are times. */
  lemma {:induction false} FirstIn(times: seq<int>, from: int, to: int) returns (lo: nat)
    requires CountIn(times, from, to) > 0
    ensures lo < |times| && from <= times[lo] < to && CountIn(times, from, to) <= |times| - lo
    decreases |times|
  {
    var front := times[..|times| - 1];
    if CountIn(front, from, to) > 0 { lo := FirstIn(front, from, to); } else { lo := |times| - 1; }
  }

  lemma {:induction false} SpacedCount(times: seq<int>, from: int, to: int, limit: int, window: int)
    requires limit > 0 && Sorted(times) && Spaced(times, limit, window) && to - from <= window
    ensures CountIn(times, from, to) <= limit
    decreases |times|
  {
    if times != [] {
      var front, last := times[..|times| - 1], times[|times| - 1];
      if from <= last < to {
        var lo := FirstIn(times, from, to);
      } else {
        SpacedCount(front, from, to, limit, window);
      }
    }
  }

  /** Over the full history no half-open interval of length `window` holds more than `limit` admissions. */
  lemma AtMostLimitPerWindow(calls: seq<Call>, key: string, limit: int, window: int, from: int, to: int)
    requires Monotone(calls) && to - from <= window
    ensures CountIn(Admitted(calls, key, limit, window), from, to) <= if limit > 0 then limit else 0
  {
    if limit > 0 {
      AdmittedSorted(calls, key, limit, window);
      AdmittedSpaced(calls, key, limit, window);
      SpacedCount(Admitted(calls, key, limit, window), from, to, limit, window);
    } else {
      NoneAdmitted(calls, key, limit, window);
    }
  }

  lemma {:induction false} NoneAdmitted(calls: seq<Call>, key: string, limit: int, window: int)
    requires limit <= 0
    ensures Admitted(calls, key, limit, window) == []
    decreases |calls|
  {
    if calls != [] { NoneAdmitted(calls[..|calls| - 1], key, limit, window); }
  }

  /**
   * A refused caller who sees no admission in between is admitted at any time from
   * now + retryAfter on, and refused at any time before the oldest admission leaves the window.
   */
  lemma RetryAfterIsEnough(calls: seq<Call>, key: string, limit: int, window: int, now: nat, later: nat)
    requires Monotone(calls) && limit > 0 && Latest(calls) <= now <= later
    requires !Admits(Admitted(calls, key, limit, window), now, limit, window)
    ensures var times := Admitted(calls, key, limit, window);
            && |times| >= limit
            && RetryAfter(times, now, limit, window) == Max(times[|times| - limit] + window - now, SECOND)
            && (later >= now + RetryAfter(times, now, limit, window) ==> Admits(times, later, limit, window))
            && (later < times[|times| - limit] + window ==> !Admits(times, later, limit, window))
  {
    AdmittedSorted(calls, key, limit, window);
    AdmittedSpaced(calls, key, limit, window);
    RefusedThenAdmitted(Admitted(calls, key, limit, window), limit, window, now, later);
  }

  lemma RefusedThenAdmitted(times: seq<int>, limit: int, window: int, now: int, later: int)
    requires limit > 0 && Sorted(times) && Spaced(times, limit, window)
             && (times != [] ==> times[|times| - 1] <= now <= later)
    requires !Admits(times, now, limit, window)
    ensures |times| >= limit && RetryAfter(times, now, limit, window) ==
            Max(times[|times| - limit] + window - now, SECOND)
    ensures later >= now + RetryAfter(times, now, limit, window) ==> Admits(times, later, limit, window)
    ensures later < times[|times| - limit] + window ==> !Admits(times, later, limit, window)
  {
    AdmitsIff(times, now, limit, window);
    AdmitsIff(times, later, limit, window);
    ExactlyLimitWithin(times, now, limit, window);
  }

  function Max(a: int, b: int): int { if a >= b then a else b }

  /** A refusal finds exactly `limit` admissions in the window. */
  lemma ExactlyLimitWithin(times: seq<int>, now: int, limit: int, window: int)
    requires limit > 0 && Sorted(times) && Spaced(times, limit, window) && !Admits(times, now, limit, window)
    requires times != [] ==> times[|times| - 1] <= now
    ensures |Within(times, now - window)| == limit <= |times|
            && Within(times, now - window)[0] == times[|times| - limit]
  {
    var kept := Within(times, now - window);
    WithinIsTail(times, now - window);
    WithinAbove(times, now - window);
    assert kept[0] == times[|times| - |kept|];
  }

  lemma {:induction false} CountSplit(times: seq<int>, a: int, b: int, c: int)
    requires a <= b <= c
    ensures CountIn(times, a, c) == CountIn(times, a, b) + CountIn(times, b, c)
    decreases |times|
  {
    if times != [] { CountSplit(times[..|times| - 1], a, b, c); }
  }

  /** A closed interval of that length holds at most twice the limit. */
  lemma AtMostTwiceInClosedWindow(calls: seq<Call>, key: string, limit: int, window: int, from: int)
    requires Monotone(calls) && window > 0
    ensures CountIn(Admitted(calls, key, limit, window), from, from + window + 1) <= if limit > 0 then 2 * limit else 0
  {
    CountSplit(Admitted(calls, key, limit, window), from, from + window, from + window + 1);
    AtMostLimitPerWindow(calls, key, limit, window, from, from + window);
    AtMostLimitPerWindow(calls, key, limit, window, from + window, from + window + 1);
  }

  /** `m` times zero, then `n` times `window`. */
  function TwoBursts(m: nat, n: nat, window: nat): seq<int> { seq(m + n, i => if i < m then 0 else window) }

  /** `m` calls at time zero, then `n` at time `window`. */
  function BurstCalls(m: nat, n: nat, key: string, window: nat): seq<Call> {
    seq(m + n, i => Call(key, if i < m then 0 else window))
  }

  lemma FirstBurstAdmits(m: nat, limit: nat, window: nat)
    requires m < limit
    ensures Admits(TwoBursts(m, 0, window), 0, limit, window)
  {
    WithinAtMost(TwoBursts(m, 0, window), 0 - window);
  }

  lemma SecondBurstAdmits(n: nat, limit: nat, window: nat)
    requires n < limit
    ensures Admits(TwoBursts(limit, n, window), window, limit, window)
  {
    AdmitsIff(TwoBursts(limit, n, window), window, limit, window);
  }

  lemma {:induction false} BurstsAdmitted(key: string, m: nat, n: nat, limit: nat, window: nat)
    requires m <= limit && n <= limit && (n > 0 ==> m == limit)
    ensures Monotone(BurstCalls(m, n, key, window)) && Latest(BurstCalls(m, n, key, window)) == if n > 0 then window
            else 0
    ensures Admitted(BurstCalls(m, n, key, window), key, limit, window) == TwoBursts(m, n, window)
    decreases m + n
  {
    if n > 0 {
      BurstsAdmitted(key, m, n - 1, limit, window);
      SecondBurstAdmits(n - 1, limit, window);
      BurstGrows(key, m, n - 1, m, n, limit, window);
    } else if m > 0 {
      BurstsAdmitted(key, m - 1, 0, limit, window);
      FirstBurstAdmits(m - 1, limit, window);
      BurstGrows(key, m - 1, 0, m, 0, limit, window);
    }
  }

  lemma BurstGrows(key: string, m: nat, n: nat, m': nat, n': nat, limit: nat, window: nat)
    requires (m' == m && n' == n + 1) || (m' == m + 1 && n' == n == 0)
    requires Monotone(BurstCalls(m, n, key, window)) && Latest(BurstCalls(m, n, key, window)) <= if n' > 0
             then window else 0
    requires Admitted(BurstCalls(m, n, key, window), key, limit, window) == TwoBursts(m, n, window)
    requires Admits(TwoBursts(m, n, window), if n' > 0 then window else 0, limit, window)
    ensures Monotone(BurstCalls(m', n', key, window)) && Latest(BurstCalls(m', n', key, window)) == if n' > 0
            then window else 0
    ensures Admitted(BurstCalls(m', n', key, window), key, limit, window) == TwoBursts(m', n', window)
  {
    var c := Call(key, if n' > 0 then window else 0);
    var calls := BurstCalls(m, n, key, window);
    MonotonePush(calls, c);
    AdmittedPush(calls, c, key, limit, window);
    assert BurstCalls(m', n', key, window) == calls + [c];
    assert TwoBursts(m', n', window) == TwoBursts(m, n, window) + [c.now];
  }

  lemma {:induction false} WithinAtMost(times: seq<int>, cutoff: int)
    ensures |Within(times, cutoff)| <= |times|
    decreases |times|
  {
    if times != [] { WithinAtMost(times[..|times| - 1], cutoff); }
  }

  lemma {:induction false} CountAll(times: seq<int>, from: int, to: int)
    requires forall i | 0 <= i < |times| :: from <= times[i] < to
    ensures CountIn(times, from, to) == |times|
    decreases |times|
  {
    if times != [] { CountAll(times[..|times| - 1], from, to); }
  }

  /** And twice it can: a burst of `limit` calls, and another just when the first leaves the window. */
  lemma ClosedWindowHoldsTwice(key: string, limit: nat, window: nat)
    ensures var calls := BurstCalls(limit, limit, key, window);
            Monotone(calls) && CountIn(Admitted(calls, key, limit, window), 0, window + 1) == 2 * limit
  {
    BurstsAdmitted(key, limit, limit, limit, window);
    CountAll(TwoBursts(limit, limit, window), 0, window + 1);
  }

  // ---------------------------------------------------------------- the Retry-After header

  /** Go's division: toward zero. */
  function Quotient(d: int, unit: int): int
    requires unit > 0
  {
    if d >= 0 then d / unit else -(-d / unit)
  }

  /** The whole-second value `setRetryAfter` writes: at least one, never too short, and no longer than needed. */
  method RetryAfterSeconds(d: int) returns (secs: int)
    ensures secs >= 1 && secs * SECOND >= d
    ensures secs > 1 ==> (secs - 1) * SECOND < d
  {
    secs := Quotient(d, SECOND);
    if d - secs * SECOND != 0 {
      secs := secs + 1;
    }
    if secs < 1 {
      secs := 1;
    }
  }
}
